/** Task statuses of Maniphest (ManiphestTaskStatus): the six status
    constants, their names, which of them are open or closed, their colors,
    icons and action names, the defaults, and the words of a commit message
    that close a task ("fixes T123", "T123 as wontfix").

    A status is an integer. The `phabricator.serious-business` setting is a
    parameter. The status map is modelled as written, so a serious install
    still offers "Spite"; the prefix map is modelled with its misspelled
    entry corrected. The other form of each is kept beside it (see the
    README's findings). */
module ManiphestTaskStatus {
  import opened Wrappers
  import opened Seqs

  const StatusOpen := 0
  const StatusClosedResolved := 1
  const StatusClosedWontfix := 2
  const StatusClosedInvalid := 3
  const StatusClosedDuplicate := 4
  const StatusClosedSpite := 5

  /* -------------------------------------------------------------------- */
  /* The status map.                                                       */

  /** The map literal of getTaskStatusMap, which already holds "Spite". */
  function StatusMapLiteral(): map<int, string> {
    map[StatusOpen := "Open", StatusClosedResolved := "Resolved", StatusClosedWontfix := "Wontfix",
        StatusClosedInvalid := "Invalid", StatusClosedDuplicate := "Duplicate", StatusClosedSpite := "Spite"]
  }

  /** getTaskStatusMap as written: the literal, with "Spite" set again
      when the install is not serious. */
  function TaskStatusMap(serious: bool): map<int, string> {
    var statuses := StatusMapLiteral();
    if !serious then statuses[StatusClosedSpite := "Spite"] else statuses
  }

  /** The setting does nothing to the map as written: a serious install
      still offers "Spite", and every install gets the literal. */
  lemma SeriousBusinessIgnored(serious: bool)
    ensures TaskStatusMap(serious) == StatusMapLiteral()
    ensures StatusClosedSpite in TaskStatusMap(serious)
    ensures forall s :: s in TaskStatusMap(serious) <==> 0 <= s <= 5
    ensures TaskStatusName(serious, StatusClosedSpite) == "Spite"
  {
  }

  /** getTaskStatusMap as evidently intended: "Spite" only when the
      install is not serious. */
  function TaskStatusMapIntended(serious: bool): map<int, string>
  {
    var statuses := StatusMapLiteral() - {StatusClosedSpite};
    if !serious then statuses[StatusClosedSpite := "Spite"] else statuses
  }

  lemma SpiteOnlyWhenNotSerious(serious: bool)
    ensures StatusClosedSpite in TaskStatusMapIntended(serious) <==> !serious
    ensures forall s :: s != StatusClosedSpite ==>
      (s in TaskStatusMapIntended(serious) <==> 0 <= s <= 4) &&
      (s in TaskStatusMapIntended(serious) ==> TaskStatusMapIntended(serious)[s] == StatusMapLiteral()[s])
    ensures !serious ==> TaskStatusMapIntended(serious) == TaskStatusMap(serious)
  {
  }

  /** array_keys of the status map, in the literal's order: the six
      constants, whatever the setting. */
  function StatusKeys(serious: bool): (ks: seq<int>)
    ensures NoDuplicates(ks)
    ensures forall s :: s in ks <==> s in TaskStatusMap(serious)
    ensures forall s :: s in ks <==> 0 <= s <= 5
  {
    [StatusOpen, StatusClosedResolved, StatusClosedWontfix, StatusClosedInvalid, StatusClosedDuplicate,
     StatusClosedSpite]
  }

  /** getTaskStatusName. */
  function TaskStatusName(serious: bool, status: int): string {
    var statuses := TaskStatusMap(serious);
    if status in statuses then statuses[status] else "Unknown Status"
  }

  function FullNames(): map<int, string> {
    map[StatusOpen := "Open", StatusClosedResolved := "Closed, Resolved",
        StatusClosedWontfix := "Closed, Wontfix", StatusClosedInvalid := "Closed, Invalid",
        StatusClosedDuplicate := "Closed, Duplicate", StatusClosedSpite := "Closed, Spite"]
  }

  /** getTaskStatusFullName. */
  function TaskStatusFullName(status: int): string {
    if status in FullNames() then FullNames()[status] else "???"
  }

  /** Names of statuses outside the constants. */
  lemma UnknownStatusNames(serious: bool, status: int)
    requires status < 0 || status > 5
    ensures TaskStatusName(serious, status) == "Unknown Status"
    ensures TaskStatusFullName(status) == "???"
  {
  }

  /** A status the map knows is named in full by its short name: as is
      when open, after "Closed, " otherwise. */
  lemma FullNameExtendsName(serious: bool, status: int)
    requires status in TaskStatusMap(serious)
    ensures status == StatusOpen ==> TaskStatusFullName(status) == TaskStatusName(serious, status)
    ensures status != StatusOpen ==> TaskStatusFullName(status) == "Closed, " + TaskStatusName(serious, status)
  {
    SeriousBusinessIgnored(serious);
    assert TaskStatusName(serious, status) == StatusMapLiteral()[status];
    LiteralFullNames(status);
  }

  /** The full-name map against the status map literal, entry by entry. */
  lemma LiteralFullNames(status: int)
    requires 0 <= status <= 5
    ensures status == StatusOpen ==> FullNames()[status] == StatusMapLiteral()[status]
    ensures status != StatusOpen ==> FullNames()[status] == "Closed, " + StatusMapLiteral()[status]
  {
    if status == StatusOpen {
      assert FullNames()[status] == "Open" == StatusMapLiteral()[status];
    } else if status == StatusClosedResolved {
      assert FullNames()[status] == "Closed, Resolved" && StatusMapLiteral()[status] == "Resolved";
    } else if status == StatusClosedWontfix {
      assert FullNames()[status] == "Closed, Wontfix" && StatusMapLiteral()[status] == "Wontfix";
    } else if status == StatusClosedInvalid {
      assert FullNames()[status] == "Closed, Invalid" && StatusMapLiteral()[status] == "Invalid";
    } else if status == StatusClosedDuplicate {
      assert FullNames()[status] == "Closed, Duplicate" && StatusMapLiteral()[status] == "Duplicate";
    } else {
      assert FullNames()[status] == "Closed, Spite" && StatusMapLiteral()[status] == "Spite";
    }
  }

  /* -------------------------------------------------------------------- */
  /* Open and closed.                                                      */

  function DefaultStatus(): int { StatusOpen }
  function DefaultClosedStatus(): int { StatusClosedResolved }
  function DuplicateStatus(): int { StatusClosedDuplicate }

  function OpenStatusConstants(): seq<int> { [StatusOpen] }

  predicate IsOpenStatus(status: int) {
    exists i :: 0 <= i < |OpenStatusConstants()| && OpenStatusConstants()[i] == status
  }

  predicate IsClosedStatus(status: int) {
    !IsOpenStatus(status)
  }

  /** getClosedStatusConstants: the map's keys that are not open. */
  function ClosedStatusConstants(serious: bool): seq<int> {
    Filter(StatusKeys(serious), NotOpenConstant)
  }

  /** array_diff against the open constants keeps a key that is not one. */
  predicate NotOpenConstant(s: int) {
    s !in OpenStatusConstants()
  }

  lemma OpenIffStatusOpen(status: int)
    ensures IsOpenStatus(status) <==> status == StatusOpen
    ensures IsClosedStatus(status) <==> status != StatusOpen
  {
    if status == StatusOpen {
      assert OpenStatusConstants()[0] == status;
    }
  }

  /** The closed constants are every known status but open, in order;
      "Spite" is among them on every install. */
  lemma {:induction false} ClosedConstants(serious: bool)
    ensures ClosedStatusConstants(serious) ==
      [StatusClosedResolved, StatusClosedWontfix, StatusClosedInvalid, StatusClosedDuplicate, StatusClosedSpite]
  {
    var closed :=
      [StatusClosedResolved, StatusClosedWontfix, StatusClosedInvalid, StatusClosedDuplicate, StatusClosedSpite];
    assert StatusKeys(serious) == [StatusOpen] + closed;
    DropOpenHead(closed);
  }

  /** Removing the open constants from a list headed by open drops only
      the head when the rest is closed. */
  lemma DropOpenHead(closed: seq<int>)
    requires forall i :: 0 <= i < |closed| ==> closed[i] != StatusOpen
    ensures Filter([StatusOpen] + closed, NotOpenConstant) == closed
  {
    FilterAppend([StatusOpen], closed, NotOpenConstant);
    FilterNone([StatusOpen], NotOpenConstant);
    FilterAll(closed, NotOpenConstant);
  }

  /** A status is a closed constant exactly when the map knows it and it
      is closed. */
  lemma ClosedConstantsAreClosedKeys(serious: bool)
    ensures forall s :: s in ClosedStatusConstants(serious) <==> s in TaskStatusMap(serious) && IsClosedStatus(s)
  {
    ClosedConstants(serious);
    forall s ensures IsOpenStatus(s) <==> s == StatusOpen {
      OpenIffStatusOpen(s);
    }
  }

  function StatusActionName(status: int): Option<string> {
    if status == StatusClosedSpite then Some("Spited") else None
  }

  function StatusColor(status: int): string {
    if IsOpenStatus(status) then "green" else "black"
  }

  /** getStatusIcon: none for the statuses its switch does not name. */
  function StatusIcon(status: int): Option<string> {
    if status == StatusClosedSpite then Some("dislike")
    else if status == StatusClosedDuplicate then Some("delete")
    else None
  }

  lemma Presentation(status: int)
    ensures StatusColor(status) == "green" <==> status == StatusOpen
    ensures StatusColor(status) == "black" <==> status != StatusOpen
    ensures StatusActionName(status).Some? <==> status == StatusClosedSpite
    ensures StatusIcon(status).Some? ==> IsClosedStatus(status)
  {
    OpenIffStatusOpen(status);
  }

  lemma Defaults()
    ensures IsOpenStatus(DefaultStatus())
    ensures IsClosedStatus(DefaultClosedStatus()) && DefaultClosedStatus() == StatusClosedResolved
    ensures IsClosedStatus(DuplicateStatus()) && DuplicateStatus() == StatusClosedDuplicate
  {
    OpenIffStatusOpen(DefaultStatus());
    OpenIffStatusOpen(DefaultClosedStatus());
    OpenIffStatusOpen(DuplicateStatus());
  }

  /* -------------------------------------------------------------------- */
  /* Commit-message words.                                                 */

  /** The prefix map without its misspelled "invalidates" entry. */
  function PrefixMapCommon(): map<string, Option<int>> {
    map[
      "resolve" := Some(StatusClosedResolved), "resolves" := Some(StatusClosedResolved),
      "resolved" := Some(StatusClosedResolved),
      "fix" := Some(StatusClosedResolved), "fixes" := Some(StatusClosedResolved),
      "fixed" := Some(StatusClosedResolved),
      "wontfix" := Some(StatusClosedWontfix), "wontfixes" := Some(StatusClosedWontfix),
      "wontfixed" := Some(StatusClosedWontfix),
      "spite" := Some(StatusClosedSpite), "spites" := Some(StatusClosedSpite),
      "spited" := Some(StatusClosedSpite),
      "invalidate" := Some(StatusClosedInvalid), "invalidated" := Some(StatusClosedInvalid),
      "close" := Some(StatusClosedResolved), "closes" := Some(StatusClosedResolved),
      "closed" := Some(StatusClosedResolved),
      "ref" := None, "refs" := None, "references" := None, "cf." := None]
  }

  /** getStatusPrefixMap as written, with the entry spelled "invaldiates":
      every word that closes names a closed status, and the reference
      words close nothing. */
  function StatusPrefixMapAsWritten(): (m: map<string, Option<int>>)
    ensures forall w :: w in m && m[w].Some? ==> IsClosedStatus(m[w].value)
    ensures forall w :: w in ["ref", "refs", "references", "cf."] ==> w in m && m[w] == None
  {
    ClosedIffNotOpen();
    PrefixMapCommon()["invaldiates" := Some(StatusClosedInvalid)]
  }

  /** Every status but open is closed. */
  lemma ClosedIffNotOpen()
    ensures forall s :: IsClosedStatus(s) <==> s != StatusOpen
  {
    forall s ensures IsClosedStatus(s) <==> s != StatusOpen {
      OpenIffStatusOpen(s);
    }
  }

  /** "Invalidates T123" closes nothing as written. */
  lemma InvalidatesNotRecognized()
    ensures "invalidates" !in StatusPrefixMapAsWritten()
    ensures StatusPrefixMapAsWritten()["invalidate"] == Some(StatusClosedInvalid)
  {
  }

  /** getStatusPrefixMap with the entry spelled "invalidates". */
  function StatusPrefixMap(): map<string, Option<int>> {
    PrefixMapCommon()["invalidates" := Some(StatusClosedInvalid)]
  }

  /** Every word that closes, closes; the reference words close nothing;
      "invalidate" is recognised in all three of its forms. */
  lemma PrefixMapCloses()
    ensures forall w :: w in StatusPrefixMap() && StatusPrefixMap()[w].Some? ==>
      IsClosedStatus(StatusPrefixMap()[w].value)
    ensures forall w :: w in ["ref", "refs", "references", "cf."] ==>
      w in StatusPrefixMap() && StatusPrefixMap()[w] == None
    ensures forall w :: w in ["invalidate", "invalidates", "invalidated"] ==>
      w in StatusPrefixMap() && StatusPrefixMap()[w] == Some(StatusClosedInvalid)
  {
    forall w | w in StatusPrefixMap() && StatusPrefixMap()[w].Some?
      ensures IsClosedStatus(StatusPrefixMap()[w].value)
    {
      OpenIffStatusOpen(StatusPrefixMap()[w].value);
    }
  }

  function StatusSuffixMap(): map<string, int> {
    map[
      "as resolved" := StatusClosedResolved, "as fixed" := StatusClosedResolved,
      "as wontfix" := StatusClosedWontfix, "as spite" := StatusClosedSpite,
      "out of spite" := StatusClosedSpite, "as invalid" := StatusClosedInvalid]
  }

  lemma SuffixMapCloses()
    ensures forall w :: w in StatusSuffixMap() ==> IsClosedStatus(StatusSuffixMap()[w])
  {
    forall w | w in StatusSuffixMap()
      ensures IsClosedStatus(StatusSuffixMap()[w])
    {
      OpenIffStatusOpen(StatusSuffixMap()[w]);
    }
  }
}
