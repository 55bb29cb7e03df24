/** The in-memory parts of the calendar event query
    (PhabricatorCalendarEventQuery): the date-range filter and the sort by
    start date applied to a loaded page, the ghost instances generated for
    recurring events, and the default order and orderable columns.

    Dates are epoch seconds. A range bound of 0 is unset, as PHP treats
    both null and 0 as false. Advancing a date by one recurrence unit is
    date-library arithmetic and is a parameter `step`, strictly increasing;
    making the n-th ghost of an event is the parameter `nth`. */
module CalendarEventQuery {
  import opened Seqs

  datatype Event = Event(id: nat, phid: string, dateFrom: int, dateTo: int, isRecurring: bool)

  /** One recurrence unit after `date` for the event's frequency. */
  type Step = (Event, int) -> int

  ghost predicate Advances(step: Step) {
    forall e, d :: step(e, d) > d
  }

  /* -------------------------------------------------------------------- */
  /* Ordering.                                                             */

  function DefaultOrderVector(): (r: seq<string>)
    ensures r == ["start", "id"]
  {
    ["start", "id"]
  }

  datatype Column = Column(table: string, column: string, reverse: bool, columnType: string, unique: bool)

  /** getOrderableColumns: "start" orders by the event's dateFrom; the
      parent's columns are kept, but PHP's array `+` lets "start" win. */
  function OrderableColumns(parentColumns: map<string, Column>): (r: map<string, Column>)
    ensures r.Keys == parentColumns.Keys + {"start"}
    ensures r["start"] == Column("event", "dateFrom", true, "int", false)
    ensures forall k :: k in parentColumns && k != "start" ==> r[k] == parentColumns[k]
  {
    parentColumns["start" := Column("event", "dateFrom", true, "int", false)]
  }

  /** getPagingValueMap: the values of the cursor event for each column of
      the default order. */
  function PagingValues(e: Event): (r: map<string, int>)
    ensures forall c :: c in r <==> c in DefaultOrderVector()
    ensures r["start"] == e.dateFrom && r["id"] == e.id
  {
    map["start" := e.dateFrom, "id" := e.id]
  }

  /* -------------------------------------------------------------------- */
  /* The range filter and the sort of willFilterPage.                      */

  /** An event stays unless it ends before the range begins or starts
      after the range ends. */
  predicate InRange(rangeBegin: int, rangeEnd: int, e: Event) {
    !(rangeBegin != 0 && e.dateTo < rangeBegin) && !(rangeEnd != 0 && e.dateFrom > rangeEnd)
  }

  predicate SortedByStart(s: seq<Event>) {
    forall i, j :: 0 <= i < j < |s| ==> s[i].dateFrom <= s[j].dateFrom
  }

  /** `x` placed before the first event that starts later. */
  function InsertByStart(x: Event, s: seq<Event>): (r: seq<Event>)
    ensures multiset(r) == multiset(s) + multiset{x}
  {
    if s == [] then [x]
    else if x.dateFrom <= s[0].dateFrom then [x] + s
    else
      assert s == [s[0]] + s[1..];
      [s[0]] + InsertByStart(x, s[1..])
  }

  lemma {:induction false} InsertKeepsSorted(x: Event, s: seq<Event>)
    requires SortedByStart(s)
    ensures SortedByStart(InsertByStart(x, s))
  {
    if s != [] && x.dateFrom > s[0].dateFrom {
      var tail := s[1..];
      var rest := InsertByStart(x, tail);
      InsertKeepsSorted(x, tail);
      BoundCarriesOver(s[0].dateFrom, tail, x, rest);
      ConsKeepsSorted(s[0], rest);
      assert InsertByStart(x, s) == [s[0]] + rest;
    }
  }

  /** Every start in a rearrangement of `tail` plus `x` is at least `b`
      when every start in `tail` and `x`'s start are. */
  lemma BoundCarriesOver(b: int, tail: seq<Event>, x: Event, rest: seq<Event>)
    requires multiset(rest) == multiset(tail) + multiset{x}
    requires forall k :: 0 <= k < |tail| ==> b <= tail[k].dateFrom
    requires b <= x.dateFrom
    ensures forall i :: 0 <= i < |rest| ==> b <= rest[i].dateFrom
  {
    forall i | 0 <= i < |rest|
      ensures b <= rest[i].dateFrom
    {
      assert rest[i] in multiset(tail) + multiset{x};
      if rest[i] != x {
        var k :| 0 <= k < |tail| && tail[k] == rest[i];
      }
    }
  }

  /** An event that starts no later than a sorted list stays sorted in front. */
  lemma ConsKeepsSorted(h: Event, rest: seq<Event>)
    requires SortedByStart(rest)
    requires forall i :: 0 <= i < |rest| ==> h.dateFrom <= rest[i].dateFrom
    ensures SortedByStart([h] + rest)
  {
    var r := [h] + rest;
    forall i, j | 0 <= i < j < |r|
      ensures r[i].dateFrom <= r[j].dateFrom
    {
      assert r[j] == rest[j - 1];
      if i > 0 {
        assert r[i] == rest[i - 1];
      }
    }
  }

  /** msort by getDateFrom. */
  function SortByStart(s: seq<Event>): (r: seq<Event>)
    ensures SortedByStart(r)
    ensures multiset(r) == multiset(s)
  {
    if s == [] then []
    else
      assert s == s[..|s| - 1] + [s[|s| - 1]];
      var init := SortByStart(s[..|s| - 1]);
      InsertKeepsSorted(s[|s| - 1], init);
      InsertByStart(s[|s| - 1], init)
  }

  /** The page willFilterPage returns. */
  function FilteredPage(rangeBegin: int, rangeEnd: int, events: seq<Event>): seq<Event> {
    SortByStart(Filter(events, e => InRange(rangeBegin, rangeEnd, e)))
  }

  /** The page holds exactly the input events in range, each as often as in
      the input, sorted by start date. */
  lemma FilteredPageIsSortedSubset(rangeBegin: int, rangeEnd: int, events: seq<Event>)
    ensures SortedByStart(FilteredPage(rangeBegin, rangeEnd, events))
    ensures multiset(FilteredPage(rangeBegin, rangeEnd, events)) <= multiset(events)
    ensures multiset(FilteredPage(rangeBegin, rangeEnd, events)) ==
      multiset(Filter(events, e => InRange(rangeBegin, rangeEnd, e)))
    ensures forall e :: e in FilteredPage(rangeBegin, rangeEnd, events) <==>
      e in events && InRange(rangeBegin, rangeEnd, e)
  {
    var keep := e => InRange(rangeBegin, rangeEnd, e);
    var drop := e => !InRange(rangeBegin, rangeEnd, e);
    FilterPartition(events, keep, drop);
    var page := FilteredPage(rangeBegin, rangeEnd, events);
    forall e ensures e in page <==> e in Filter(events, keep) {
      assert e in page <==> e in multiset(page);
    }
  }

  /** With neither bound set every event stays. */
  lemma UnboundedKeepsAll(events: seq<Event>)
    ensures multiset(FilteredPage(0, 0, events)) == multiset(events)
  {
    FilterAll(events, e => InRange(0, 0, e));
  }

  /* -------------------------------------------------------------------- */
  /* Ghost instances of recurring events.                                  */

  /** The date after n recurrence steps from `date`. */
  function DateAfter(step: Step, e: Event, date: int, n: nat): int {
    if n == 0 then date else step(e, DateAfter(step, e, date, n - 1))
  }

  /** How many steps the counting loops of loadPage take from `date` while
      the date is below `limit`. */
  function StepsBelow(step: Step, e: Event, date: int, limit: int): nat
    requires Advances(step)
    decreases limit - date
  {
    if date < limit then 1 + StepsBelow(step, e, step(e, date), limit) else 0
  }

  /** DateAfter, counted from the far end. */
  lemma {:induction false} DateAfterShift(step: Step, e: Event, date: int, n: nat)
    ensures DateAfter(step, e, step(e, date), n) == DateAfter(step, e, date, n + 1)
  {
    if n > 0 {
      DateAfterShift(step, e, date, n - 1);
    }
  }

  /** The step count is the index of the first instance date at or after
      the limit. */
  lemma {:induction false} StepsBelowIsFirstIndex(step: Step, e: Event, date: int, limit: int)
    requires Advances(step)
    ensures DateAfter(step, e, date, StepsBelow(step, e, date, limit)) >= limit
    ensures forall m :: 0 <= m < StepsBelow(step, e, date, limit) ==> DateAfter(step, e, date, m) < limit
    decreases limit - date
  {
    if date < limit {
      var next := step(e, date);
      StepsBelowIsFirstIndex(step, e, next, limit);
      var n := StepsBelow(step, e, next, limit);
      DateAfterShift(step, e, date, n);
      forall m | 0 <= m < n + 1
        ensures DateAfter(step, e, date, m) < limit
      {
        if m > 0 {
          DateAfterShift(step, e, date, m - 1);
        }
      }
    }
  }

  /** The number of instances before the range begins ($sequence_start
      before it is raised to 1). */
  function SequenceStart(step: Step, rangeBegin: int, e: Event): nat
    requires Advances(step)
  {
    if rangeBegin != 0 && rangeBegin > e.dateFrom then StepsBelow(step, e, e.dateFrom, rangeBegin) else 0
  }

  /** $instance_count: with a range end, the instances before the range
      begins plus those from the counting start to the range end; without
      one, the query's raw result limit. */
  function InstanceCount(step: Step, rangeBegin: int, rangeEnd: int, limit: nat, e: Event): nat
    requires Advances(step)
  {
    if rangeEnd != 0 then
      var start := if rangeBegin != 0 && rangeBegin > e.dateFrom then rangeBegin else e.dateFrom;
      SequenceStart(step, rangeBegin, e) + StepsBelow(step, e, start, rangeEnd)
    else limit
  }

  function Max(a: int, b: int): int { if a < b then b else a }

  /** The ghosts of one event, by index from max(1, sequence start). */
  function GhostsOf(step: Step, nth: (Event, nat) -> Event, rangeBegin: int, rangeEnd: int, limit: nat, e: Event): (r: seq<Event>)
    requires Advances(step)
    ensures !e.isRecurring ==> r == []
    ensures e.isRecurring ==> |r| == InstanceCount(step, rangeBegin, rangeEnd, limit, e)
  {
    if !e.isRecurring then []
    else
      var first := Max(1, SequenceStart(step, rangeBegin, e));
      var count := InstanceCount(step, rangeBegin, rangeEnd, limit, e);
      seq(count, i requires 0 <= i < count => nth(e, first + i))
  }

  function AllGhosts(step: Step, nth: (Event, nat) -> Event, rangeBegin: int, rangeEnd: int, limit: nat, events: seq<Event>): seq<Event>
    requires Advances(step)
  {
    if events == [] then []
    else
      AllGhosts(step, nth, rangeBegin, rangeEnd, limit, events[..|events| - 1])
        + GhostsOf(step, nth, rangeBegin, rangeEnd, limit, events[|events| - 1])
  }

  /** Only recurring events have ghosts; their indices start at
      max(1, sequence start), are consecutive, and there are
      InstanceCount of them. */
  lemma GhostIndices(step: Step, nth: (Event, nat) -> Event, rangeBegin: int, rangeEnd: int, limit: nat, e: Event)
    requires Advances(step)
    ensures !e.isRecurring ==> GhostsOf(step, nth, rangeBegin, rangeEnd, limit, e) == []
    ensures e.isRecurring ==>
      var gs := GhostsOf(step, nth, rangeBegin, rangeEnd, limit, e);
      var first := Max(1, SequenceStart(step, rangeBegin, e));
      first >= 1 && |gs| == InstanceCount(step, rangeBegin, rangeEnd, limit, e) &&
      forall i :: 0 <= i < |gs| ==> gs[i] == nth(e, first + i)
    ensures rangeEnd == 0 ==> InstanceCount(step, rangeBegin, rangeEnd, limit, e) == limit
    ensures rangeEnd != 0 ==> InstanceCount(step, rangeBegin, rangeEnd, limit, e) >= SequenceStart(step, rangeBegin, e)
  {
  }

  /** The query object: the range and whether ghosts are generated. */
  class Query {
    var rangeBegin: int
    var rangeEnd: int
    var generateGhosts: bool
    var rawResultLimit: nat

    constructor(rawResultLimit: nat)
      ensures this.rangeBegin == 0 && this.rangeEnd == 0 && !this.generateGhosts
      ensures this.rawResultLimit == rawResultLimit
    {
      this.rangeBegin := 0;
      this.rangeEnd := 0;
      this.generateGhosts := false;
      this.rawResultLimit := rawResultLimit;
    }

    method SetGenerateGhosts(generate: bool)
      modifies this
      ensures generateGhosts == generate
      ensures rangeBegin == old(rangeBegin) && rangeEnd == old(rangeEnd) && rawResultLimit == old(rawResultLimit)
    {
      generateGhosts := generate;
    }

    method WithDateRange(begin: int, end: int)
      modifies this
      ensures rangeBegin == begin && rangeEnd == end
      ensures generateGhosts == old(generateGhosts) && rawResultLimit == old(rawResultLimit)
    {
      rangeBegin := begin;
      rangeEnd := end;
    }

    /** willFilterPage without the invitee loading. */
    method WillFilterPage(events: seq<Event>) returns (page: seq<Event>)
      ensures page == FilteredPage(rangeBegin, rangeEnd, events)
    {
      var rangeStart, rangeStop := rangeBegin, rangeEnd;
      var kept: seq<Event> := [];
      for k := 0 to |events|
        invariant kept == Filter(events[..k], e => InRange(rangeStart, rangeStop, e))
      {
        assert events[..k + 1][..k] == events[..k];
        var e := events[k];
        var drop := false;
        if rangeStart != 0 && e.dateTo < rangeStart {
          drop := true;
        }
        if rangeStop != 0 && e.dateFrom > rangeStop {
          drop := true;
        }
        if !drop {
          kept := kept + [e];
        }
      }
      assert events[..|events|] == events;
      page := SortByStart(kept);
    }

    /** loadPage after the rows are loaded: the events, then the ghosts of
        each recurring event in order. */
    method LoadPage(events: seq<Event>, step: Step, nth: (Event, nat) -> Event) returns (r: seq<Event>)
      requires Advances(step)
      ensures !generateGhosts ==> r == events
      ensures generateGhosts ==> r == events + AllGhosts(step, nth, rangeBegin, rangeEnd, rawResultLimit, events)
    {
      r := events;
      if !generateGhosts {
        return;
      }
      for k := 0 to |events|
        invariant r == events + AllGhosts(step, nth, rangeBegin, rangeEnd, rawResultLimit, events[..k])
      {
        assert events[..k + 1][..k] == events[..k];
        var e := events[k];
        if e.isRecurring {
          var ghosts := Ghosts(e, step, nth);
          r := r + ghosts;
        } else {
          assert GhostsOf(step, nth, rangeBegin, rangeEnd, rawResultLimit, e) == [];
        }
      }
      assert events[..|events|] == events;
    }

    /** The counting loops and the ghost loop of loadPage for one
        recurring event. */
    method Ghosts(e: Event, step: Step, nth: (Event, nat) -> Event) returns (ghosts: seq<Event>)
      requires Advances(step) && e.isRecurring
      ensures ghosts == GhostsOf(step, nth, rangeBegin, rangeEnd, rawResultLimit, e)
    {
      var sequenceStart: nat := 0;
      var start: int;
      if rangeBegin != 0 && rangeBegin > e.dateFrom {
        var date := e.dateFrom;
        while date < rangeBegin
          invariant sequenceStart + StepsBelow(step, e, date, rangeBegin) == StepsBelow(step, e, e.dateFrom, rangeBegin)
          decreases rangeBegin - date
        {
          sequenceStart := sequenceStart + 1;
          date := step(e, date);
        }
        start := rangeBegin;
      } else {
        start := e.dateFrom;
      }
      assert sequenceStart == SequenceStart(step, rangeBegin, e);

      var instanceCount: nat;
      if rangeEnd != 0 {
        instanceCount := sequenceStart;
        var date := start;
        while date < rangeEnd
          invariant instanceCount + StepsBelow(step, e, date, rangeEnd) == sequenceStart + StepsBelow(step, e, start, rangeEnd)
          decreases rangeEnd - date
        {
          instanceCount := instanceCount + 1;
          date := step(e, date);
        }
      } else {
        instanceCount := rawResultLimit;
      }
      assert instanceCount == InstanceCount(step, rangeBegin, rangeEnd, rawResultLimit, e);

      sequenceStart := Max(1, sequenceStart);
      ghosts := [];
      for index := sequenceStart to sequenceStart + instanceCount
        invariant |ghosts| == index - sequenceStart
        invariant forall i :: 0 <= i < |ghosts| ==> ghosts[i] == nth(e, sequenceStart + i)
      {
        ghosts := ghosts + [nth(e, index)];
      }
    }
  }
}
