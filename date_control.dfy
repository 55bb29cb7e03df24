/** The form date control (AphrontFormDateControl): the list of times the
    time field suggests, the year range of the year selector, the names of
    its inputs, the time of day a blank control starts at, and reading the
    control's value from a request.

    Formatting an epoch in the viewer's time zone and parsing a date string
    are date-library calls and are parameters: `readable` splits an epoch
    into year, month, day and time as the control shows them, `parse` reads
    the four inputs, and `dateAt` reads today's date at a given time. PHP's
    null for an unset day, month or year is 0, which PHP's min/max and `-`
    treat alike. */
module DateControl {
  import opened Wrappers
  import opened Strings

  /* -------------------------------------------------------------------- */
  /* Time typeahead.                                                       */

  /** The text of the half hour `half` of hour `hour` in the morning
      (`ap` 0) or afternoon (`ap` 1); hour 0 reads as 12. */
  function LabelOf(ap: nat, hour: nat, half: nat): string
    requires ap < 2 && hour < 12 && half < 2
  {
    NatToString(if hour == 0 then 12 else hour) + (if half == 0 then ":00 " else ":30 ") + ["AM", "PM"][ap]
  }

  /** The text at position k of the typeahead list. */
  function Label(k: nat): string
    requires k < 48
  {
    var ap := if k < 24 then 0 else 1;
    var r := k - 24 * ap;
    LabelOf(ap, r / 2, r % 2)
  }

  lemma LabelAt(ap: nat, hour: nat, half: nat)
    requires ap < 2 && hour < 12 && half < 2
    ensures 24 * ap + 2 * hour + half < 48
    ensures Label(24 * ap + 2 * hour + half) == LabelOf(ap, hour, half)
  {
    var r := 2 * hour + half;
    assert r / 2 == hour && r % 2 == half;
  }

  /** The half of the day, hour and half hour of a position. */
  lemma LabelParts(k: nat) returns (ap: nat, hour: nat, half: nat)
    requires k < 48
    ensures ap < 2 && hour < 12 && half < 2 && k == 24 * ap + 2 * hour + half
    ensures Label(k) == LabelOf(ap, hour, half)
  {
    ap := if k < 24 then 0 else 1;
    var r := k - 24 * ap;
    hour := r / 2;
    half := r % 2;
  }

  /** getTimeTypeaheadValues: the half hours of the morning, then of the
      afternoon, each paired with its position. */
  method TimeTypeaheadValues() returns (times: seq<(nat, string)>)
    ensures |times| == 48
    ensures forall k :: 0 <= k < 48 ==> times[k] == (k, Label(k))
  {
    var labels := HalfHours();
    times := [];
    for k := 0 to |labels|
      invariant |times| == k
      invariant forall j :: 0 <= j < k ==> times[j] == (j, labels[j])
    {
      times := times + [(k, labels[k])];
    }
  }

  /** The nested loops of getTimeTypeaheadValues. */
  method HalfHours() returns (labels: seq<string>)
    ensures |labels| == 48
    ensures forall k :: 0 <= k < 48 ==> labels[k] == Label(k)
  {
    labels := [];
    var amPmList := ["AM", "PM"];
    for ap := 0 to 2
      invariant |labels| == 24 * ap
      invariant forall k :: 0 <= k < |labels| ==> labels[k] == Label(k)
    {
      for hour := 0 to 12
        invariant |labels| == 24 * ap + 2 * hour
        invariant forall k :: 0 <= k < |labels| ==> labels[k] == Label(k)
      {
        var actualHour := if hour == 0 then 12 else hour;
        var onHour := NatToString(actualHour) + ":00 " + amPmList[ap];
        var onHalf := NatToString(actualHour) + ":30 " + amPmList[ap];
        assert onHour == LabelOf(ap, hour, 0) && onHalf == LabelOf(ap, hour, 1);
        HourLabelsStep(labels, ap, hour);
        labels := labels + [onHour, onHalf];
      }
    }
  }

  /** One pass of the inner loop extends the list by the hour's two labels. */
  lemma HourLabelsStep(labels: seq<string>, ap: nat, hour: nat)
    requires ap < 2 && hour < 12 && |labels| == 24 * ap + 2 * hour
    requires forall k :: 0 <= k < |labels| ==> labels[k] == Label(k)
    ensures var next := labels + [LabelOf(ap, hour, 0), LabelOf(ap, hour, 1)];
      |next| == 24 * ap + 2 * (hour + 1) &&
      forall k :: 0 <= k < |next| ==> next[k] == Label(k)
  {
    var next := labels + [LabelOf(ap, hour, 0), LabelOf(ap, hour, 1)];
    var n := |labels|;
    LabelAt(ap, hour, 0);
    LabelAt(ap, hour, 1);
    forall k | 0 <= k < |next|
      ensures next[k] == Label(k)
    {
      if k < n {
        assert next[k] == labels[k];
      } else if k == n {
        assert next[k] == LabelOf(ap, hour, 0);
      } else {
        assert k == n + 1 && next[k] == LabelOf(ap, hour, 1);
      }
    }
  }

  lemma LabelOfInjective(ap: nat, hour: nat, half: nat, ap': nat, hour': nat, half': nat)
    requires ap < 2 && hour < 12 && half < 2 && ap' < 2 && hour' < 12 && half' < 2
    requires LabelOf(ap, hour, half) == LabelOf(ap', hour', half')
    ensures ap == ap' && hour == hour' && half == half'
  {
    var h := if hour == 0 then 12 else hour;
    var h' := if hour' == 0 then 12 else hour';
    var digits := NatToString(h);
    var digits' := NatToString(h');
    var text := LabelOf(ap, hour, half);
    assert |text| == |digits| + 6 && |text| == |digits'| + 6;
    assert text[..|digits|] == digits;
    assert text[..|digits'|] == digits';
    NatToStringInjective(h, h');
    assert text[|digits| + 1] == (if half == 0 then '0' else '3');
    assert text[|digits'| + 1] == (if half' == 0 then '0' else '3');
    assert text[|digits| + 4] == (if ap == 0 then 'A' else 'P');
    assert text[|digits'| + 4] == (if ap' == 0 then 'A' else 'P');
  }

  /** The 48 labels are distinct, so a text names one half hour. */
  lemma {:induction false} LabelsDistinct(i: nat, j: nat)
    requires i < 48 && j < 48 && i != j
    ensures Label(i) != Label(j)
  {
    var a, h, f := LabelParts(i);
    var a', h', f' := LabelParts(j);
    if Label(i) == Label(j) {
      LabelOfInjective(a, h, f, a', h', f');
    }
  }

  /** The list starts at "12:00 AM", steps by half hours, and the morning
      ends where the afternoon begins at "12:00 PM". */
  lemma TypeaheadOrder()
    ensures Label(0) == "12:00 AM" && Label(1) == "12:30 AM" && Label(2) == "1:00 AM"
    ensures Label(23) == "11:30 AM" && Label(24) == "12:00 PM" && Label(47) == "11:30 PM"
  {
    MorningLabels();
    AfternoonLabels();
  }

  lemma MorningLabels()
    ensures Label(0) == "12:00 AM" && Label(1) == "12:30 AM" && Label(2) == "1:00 AM" && Label(23) == "11:30 AM"
  {
    TwoDigitHours();
    LabelText(0, 0, 0, "12", ":00 ", "AM");
    LabelText(0, 0, 1, "12", ":30 ", "AM");
    LabelText(0, 1, 0, "1", ":00 ", "AM");
    LabelText(0, 11, 1, "11", ":30 ", "AM");
  }

  lemma AfternoonLabels()
    ensures Label(24) == "12:00 PM" && Label(47) == "11:30 PM"
  {
    TwoDigitHours();
    LabelText(1, 0, 0, "12", ":00 ", "PM");
    LabelText(1, 11, 1, "11", ":30 ", "PM");
  }

  /** The label at a position, from the texts of its hour, half and
      part of the day. */
  lemma LabelText(ap: nat, hour: nat, half: nat, h: string, m: string, d: string)
    requires ap < 2 && hour < 12 && half < 2
    requires NatToString(if hour == 0 then 12 else hour) == h
    requires m == (if half == 0 then ":00 " else ":30 ") && d == ["AM", "PM"][ap]
    ensures Label(24 * ap + 2 * hour + half) == h + m + d
  {
    LabelAt(ap, hour, half);
  }

  lemma TwoDigitHours()
    ensures NatToString(1) == "1" && NatToString(5) == "5" && NatToString(9) == "9"
    ensures NatToString(11) == "11" && NatToString(12) == "12"
  {
    assert NatToString(1) == "1";
    assert NatToString(11) == NatToString(1) + "1";
    assert NatToString(12) == NatToString(1) + "2";
  }

  /* -------------------------------------------------------------------- */
  /* Initial time.                                                         */

  const TimeStartOfDay := "start-of-day"
  const TimeEndOfDay := "end-of-day"
  const TimeStartOfBusiness := "start-of-business"
  const TimeEndOfBusiness := "end-of-business"

  /** The time of day of getInitialValue; anything unknown is the start of
      the day. */
  function InitialTime(initialTime: string): (t: string)
    ensures t == "11:59 PM" <==> initialTime == TimeEndOfDay
  {
    if initialTime == TimeStartOfBusiness then "9:00 AM"
    else if initialTime == TimeEndOfBusiness then "5:00 PM"
    else if initialTime == TimeEndOfDay then "11:59 PM"
    else "12:00 AM"
  }

  /** Start of day, start of business and end of business are times the
      typeahead suggests; end of day, 11:59 PM, is not one of them. */
  lemma InitialTimesOnTypeahead(initialTime: string)
    ensures InitialTime(TimeStartOfDay) == Label(0)
    ensures InitialTime(TimeStartOfBusiness) == Label(18)
    ensures InitialTime(TimeEndOfBusiness) == Label(34)
    ensures forall k :: 0 <= k < 48 ==> InitialTime(TimeEndOfDay) != Label(k)
    ensures initialTime !in {TimeStartOfBusiness, TimeEndOfBusiness, TimeEndOfDay} ==> InitialTime(initialTime) == Label(0)
  {
    TwoDigitHours();
    LabelText(0, 0, 0, "12", ":00 ", "AM");
    LabelText(0, 9, 0, "9", ":00 ", "AM");
    LabelText(1, 5, 0, "5", ":00 ", "PM");
    forall k | 0 <= k < 48
      ensures InitialTime(TimeEndOfDay) != Label(k)
    {
      var ap, hour, half := LabelParts(k);
      NotEndOfDay(ap, hour, half);
    }
  }

  /** No half hour reads "11:59 PM". */
  lemma NotEndOfDay(ap: nat, hour: nat, half: nat)
    requires ap < 2 && hour < 12 && half < 2
    ensures LabelOf(ap, hour, half) != "11:59 PM"
  {
    var h := if hour == 0 then 12 else hour;
    var digits := NatToString(h);
    var text := LabelOf(ap, hour, half);
    if h < 10 {
      assert |digits| == 1;
      assert |text| == 7;
    } else {
      assert digits == NatToString(h / 10) + [Digit(h % 10)];
      assert |digits| == 2;
      assert text[3] == (if half == 0 then '0' else '3');
    }
  }


  /* -------------------------------------------------------------------- */
  /* Year range and input names.                                           */

  function Min(a: int, b: int): int { if a < b then a else b }
  function Max(a: int, b: int): int { if a < b then b else a }

  /** getMinYear and getMaxYear, from the current year and the year shown. */
  function MinYear(currentYear: int, valueYear: int): (y: int)
    ensures y + 3 <= currentYear && y + 3 <= valueYear
    ensures y + 3 == currentYear || y + 3 == valueYear
  {
    Min(currentYear, valueYear) - 3
  }

  function MaxYear(currentYear: int, valueYear: int): (y: int)
    ensures currentYear <= y - 3 && valueYear <= y - 3
    ensures y - 3 == currentYear || y - 3 == valueYear
  {
    Max(currentYear, valueYear) + 3
  }

  lemma YearRange(currentYear: int, valueYear: int)
    ensures MinYear(currentYear, valueYear) <= currentYear <= MaxYear(currentYear, valueYear)
    ensures MinYear(currentYear, valueYear) <= valueYear <= MaxYear(currentYear, valueYear)
    ensures MaxYear(currentYear, valueYear) - MinYear(currentYear, valueYear) + 1 >= 7
    ensures currentYear == valueYear ==> MaxYear(currentYear, valueYear) - MinYear(currentYear, valueYear) + 1 == 7
  {
  }

  function DayInputName(name: string): string { name + "_d" }
  function MonthInputName(name: string): string { name + "_m" }
  function YearInputName(name: string): string { name + "_y" }
  function TimeInputName(name: string): string { name + "_t" }
  function CheckboxInputName(name: string): string { name + "_e" }

  function InputNames(name: string): seq<string> {
    [DayInputName(name), MonthInputName(name), YearInputName(name), TimeInputName(name), CheckboxInputName(name)]
  }

  /** The five inputs of a control have five different names, each the
      control's name plus a suffix, so two controls with different names
      share none. */
  lemma InputNamesDistinct(name: string, other: string)
    ensures forall i, j :: 0 <= i < j < 5 ==> InputNames(name)[i] != InputNames(name)[j]
    ensures forall i :: 0 <= i < 5 ==> |InputNames(name)[i]| == |name| + 2 && InputNames(name)[i][..|name|] == name
    ensures name != other ==> forall i, j :: 0 <= i < 5 && 0 <= j < 5 ==> InputNames(name)[i] != InputNames(other)[j]
  {
    var names := InputNames(name);
    forall i, j | 0 <= i < j < 5
      ensures names[i] != names[j]
    {
      assert names[i][|name| + 1] != names[j][|name| + 1];
    }
    if name != other {
      forall i, j | 0 <= i < 5 && 0 <= j < 5
        ensures names[i] != InputNames(other)[j]
      {
        var theirs := InputNames(other)[j];
        if |names[i]| == |theirs| {
          assert names[i][..|name|] == name;
          assert theirs[..|other|] == other;
        }
      }
    }
  }

  /* -------------------------------------------------------------------- */
  /* The control.                                                          */

  /** An epoch as the control shows it: year, month, day and time. */
  datatype Readable = Readable(year: int, month: int, day: int, time: string)

  /** The values a request carries, by input name. */
  datatype Request = Request(ints: map<string, int>, strs: map<string, string>, checked: set<string>)

  function GetInt(req: Request, key: string): int { if key in req.ints then req.ints[key] else 0 }
  function GetStr(req: Request, key: string): string { if key in req.strs then req.strs[key] else "" }

  /** PHP truthiness of a string and of a parsed epoch. */
  predicate TruthyString(s: string) { s != "" && s != "0" }
  predicate TruthyEpoch(e: Option<int>) { e.Some? && e.value != 0 }

  class Control {
    const name: string
    var allowNull: bool
    var initialTime: string
    var valueDay: int
    var valueMonth: int
    var valueYear: int
    var valueTime: string
    var value: Option<int>
    var error: Option<string>

    constructor(name: string)
      ensures this.name == name && !allowNull && initialTime == ""
      ensures valueDay == 0 && valueMonth == 0 && valueYear == 0 && valueTime == ""
      ensures value == None && error == None
    {
      this.name := name;
      allowNull := false;
      initialTime := "";
      valueDay := 0;
      valueMonth := 0;
      valueYear := 0;
      valueTime := "";
      value := None;
      error := None;
    }

    method SetAllowNull(allow: bool)
      modifies this
      ensures allowNull == allow && initialTime == old(initialTime)
      ensures value == old(value) && error == old(error)
      ensures valueDay == old(valueDay) && valueMonth == old(valueMonth)
      ensures valueYear == old(valueYear) && valueTime == old(valueTime)
    {
      allowNull := allow;
    }

    method SetInitialTime(time: string)
      modifies this
      ensures initialTime == time && allowNull == old(allowNull)
      ensures value == old(value) && error == old(error)
      ensures valueDay == old(valueDay) && valueMonth == old(valueMonth)
      ensures valueYear == old(valueYear) && valueTime == old(valueTime)
    {
      initialTime := time;
    }

    /** setValue with an epoch or null: null leaves the shown day, month,
        year and time as they were. */
    method SetValue(epoch: Option<int>, readable: int -> Readable)
      modifies this
      ensures value == epoch && error == old(error)
      ensures allowNull == old(allowNull) && initialTime == old(initialTime)
      ensures epoch.None? ==>
        valueDay == old(valueDay) && valueMonth == old(valueMonth) &&
        valueYear == old(valueYear) && valueTime == old(valueTime)
      ensures epoch.Some? ==>
        Readable(valueYear, valueMonth, valueDay, valueTime) == readable(epoch.value)
    {
      value := epoch;
      if epoch.None? {
        return;
      }
      var shown := readable(epoch.value);
      valueYear := shown.year;
      valueMonth := shown.month;
      valueDay := shown.day;
      valueTime := shown.time;
    }

    /** readValueFromRequest. */
    method ReadValueFromRequest(req: Request, parse: (int, int, int, string) -> Option<int>,
                                dateAt: string -> Option<int>, readable: int -> Readable)
      returns (r: Option<int>)
      modifies this
      ensures allowNull == old(allowNull) && initialTime == old(initialTime)
      ensures old(allowNull) && CheckboxInputName(name) !in req.checked ==>
        r == None && value == None && error == None &&
        valueDay == old(valueDay) && valueMonth == old(valueMonth) &&
        valueYear == old(valueYear) && valueTime == old(valueTime)
      ensures !(old(allowNull) && CheckboxInputName(name) !in req.checked) ==> r == value
      ensures !(old(allowNull) && CheckboxInputName(name) !in req.checked) && Given(req) ==>
        var parsed := parse(GetInt(req, YearInputName(name)), GetInt(req, MonthInputName(name)),
                            GetInt(req, DayInputName(name)), GetStr(req, TimeInputName(name)));
        if TruthyEpoch(parsed) then
          value == parsed && error == None &&
          Readable(valueYear, valueMonth, valueDay, valueTime) == readable(parsed.value)
        else
          value == None && error == Some("Invalid") &&
          Readable(valueYear, valueMonth, valueDay, valueTime) ==
            Readable(GetInt(req, YearInputName(name)), GetInt(req, MonthInputName(name)),
                     GetInt(req, DayInputName(name)), GetStr(req, TimeInputName(name)))
      ensures !(old(allowNull) && CheckboxInputName(name) !in req.checked) && !Given(req) ==>
        var initial := dateAt(InitialTime(old(initialTime)));
        error == old(error) &&
        (TruthyEpoch(initial) ==>
          value == initial && Readable(valueYear, valueMonth, valueDay, valueTime) == readable(initial.value)) &&
        (!TruthyEpoch(initial) ==>
          value == None && valueDay == old(valueDay) && valueMonth == old(valueMonth) &&
          valueYear == old(valueYear) && valueTime == old(valueTime))
    {
      var day := GetInt(req, DayInputName(name));
      var month := GetInt(req, MonthInputName(name));
      var year := GetInt(req, YearInputName(name));
      var time := GetStr(req, TimeInputName(name));
      var enabled := CheckboxInputName(name) in req.checked;

      if allowNull && !enabled {
        error := None;
        SetValue(None, readable);
        return None;
      }

      var err := error;
      if day != 0 || month != 0 || year != 0 || TruthyString(time) {
        valueDay := day;
        valueMonth := month;
        valueYear := year;
        valueTime := time;
        err := Some("Invalid");
        var parsed := parse(year, month, day, time);
        if TruthyEpoch(parsed) {
          SetValue(parsed, readable);
          err := None;
        } else {
          SetValue(None, readable);
        }
      } else {
        var initial := dateAt(InitialTime(initialTime));
        if TruthyEpoch(initial) {
          SetValue(initial, readable);
        } else {
          SetValue(None, readable);
        }
      }
      error := err;
      r := value;
    }

    /** Whether the request fills in any of the day, month, year or time. */
    predicate Given(req: Request) {
      GetInt(req, DayInputName(name)) != 0 || GetInt(req, MonthInputName(name)) != 0 ||
      GetInt(req, YearInputName(name)) != 0 || TruthyString(GetStr(req, TimeInputName(name)))
    }
  }
}
