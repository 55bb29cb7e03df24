/** The revision-specific rules of DifferentialTransactionEditor: which
    transaction types it supports, their old and new values, when an inline
    transaction has an effect, what applying one does to the revision, the
    order transactions are applied in, and the mail recipients and subject.

    Every rule that hands a type it does not handle to the parent editor
    returns `Parent`; the parent editor is not part of this model. */
module DifferentialTransactionEditor {
  import opened Wrappers
  import opened Seqs
  import opened Strings

  datatype TransactionType =
    | Subscribers | Comment | Edge | ViewPolicy | EditPolicy
    | Action | Inline
    | OtherType(name: string)

  /** A transaction: its type, its requested new value and whether it
      carries a comment. */
  datatype Transaction = Transaction(kind: TransactionType, newValue: string, hasComment: bool)

  /** What a revision-specific rule decides, or that it defers to the parent. */
  datatype Custom<T> = Handled(value: T) | Parent

  /** getTransactionTypes: the parent's types, then the six of revisions. */
  function TransactionTypes(parentTypes: seq<TransactionType>): (r: seq<TransactionType>)
    ensures |r| == |parentTypes| + 6 && r[..|parentTypes|] == parentTypes
    ensures forall t :: t in r <==> t in parentTypes || t in {Comment, Edge, ViewPolicy, EditPolicy, Action, Inline}
  {
    parentTypes + [Comment, Edge, ViewPolicy, EditPolicy, Action, Inline]
  }

  class Revision {
    var id: nat
    var title: string
    var originalTitle: string
    var authorPhid: string
    var reviewerPhids: seq<string>
    var viewPolicy: string
    var editPolicy: string

    /** Not a member of the editor: a way to obtain a revision whose title
        has not changed since it was loaded, for the mail rules below. */
    constructor(id: nat, title: string, authorPhid: string, viewPolicy: string, editPolicy: string)
      ensures this.id == id && this.title == title && this.originalTitle == title
      ensures this.authorPhid == authorPhid && this.reviewerPhids == []
      ensures this.viewPolicy == viewPolicy && this.editPolicy == editPolicy
    {
      this.id := id;
      this.title := title;
      this.originalTitle := title;
      this.authorPhid := authorPhid;
      this.reviewerPhids := [];
      this.viewPolicy := viewPolicy;
      this.editPolicy := editPolicy;
    }

    /** applyCustomInternalTransaction: the policy types set their policy;
        subscribers, comment, inline, edge and action change nothing. */
    method ApplyCustomInternal(x: Transaction) returns (r: Custom<()>)
      modifies this
      ensures r.Parent? <==> x.kind.OtherType?
      ensures viewPolicy == (if x.kind == ViewPolicy then x.newValue else old(viewPolicy))
      ensures editPolicy == (if x.kind == EditPolicy then x.newValue else old(editPolicy))
      ensures id == old(id) && title == old(title) && originalTitle == old(originalTitle)
      ensures authorPhid == old(authorPhid) && reviewerPhids == old(reviewerPhids)
    {
      match x.kind {
        case ViewPolicy =>
          viewPolicy := x.newValue;
          return Handled(());
        case EditPolicy =>
          editPolicy := x.newValue;
          return Handled(());
        case Subscribers => return Handled(());
        case Comment => return Handled(());
        case Inline => return Handled(());
        case Edge => return Handled(());
        case Action => return Handled(());
        case OtherType(_) => return Parent;
      }
    }

    /** getMailTo: the author, then each reviewer in order. */
    method MailTo() returns (phids: seq<string>)
      ensures |phids| == |reviewerPhids| + 1 && phids[0] == authorPhid
      ensures forall k :: 0 <= k < |reviewerPhids| ==> phids[k + 1] == reviewerPhids[k]
    {
      phids := [authorPhid];
      for k := 0 to |reviewerPhids|
        invariant |phids| == k + 1 && phids[0] == authorPhid
        invariant forall m :: 0 <= m < k ==> phids[m + 1] == reviewerPhids[m]
      {
        phids := phids + [reviewerPhids[k]];
      }
    }
  }

  /** getCustomTransactionOldValue: the current policy for the policy
      types, null for action and inline. */
  function OldValue(rev: Revision, x: Transaction): (r: Custom<Option<string>>)
    reads rev
    ensures r.Parent? <==> x.kind !in {ViewPolicy, EditPolicy, Action, Inline}
    ensures x.kind == ViewPolicy ==> r == Handled(Some(rev.viewPolicy))
    ensures x.kind == EditPolicy ==> r == Handled(Some(rev.editPolicy))
    ensures x.kind == Action || x.kind == Inline ==> r == Handled(None)
  {
    match x.kind
    case ViewPolicy => Handled(Some(rev.viewPolicy))
    case EditPolicy => Handled(Some(rev.editPolicy))
    case Action => Handled(None)
    case Inline => Handled(None)
    case _ => Parent
  }

  /** getCustomTransactionNewValue: the requested value for the policy
      types and action, null for inline. */
  function NewValue(x: Transaction): (r: Custom<Option<string>>)
    ensures r.Parent? <==> x.kind !in {ViewPolicy, EditPolicy, Action, Inline}
    ensures x.kind in {ViewPolicy, EditPolicy, Action} ==> r == Handled(Some(x.newValue))
    ensures x.kind == Inline ==> r == Handled(None)
  {
    match x.kind
    case ViewPolicy => Handled(Some(x.newValue))
    case EditPolicy => Handled(Some(x.newValue))
    case Action => Handled(Some(x.newValue))
    case Inline => Handled(None)
    case _ => Parent
  }

  /** transactionHasEffect: an inline transaction has an effect iff it has
      a comment; every other type is the parent's decision. */
  function HasEffect(x: Transaction): (r: Custom<bool>)
    ensures r.Handled? <==> x.kind == Inline
    ensures r.Handled? ==> (r.value <==> x.hasComment)
  {
    if x.kind == Inline then Handled(x.hasComment) else Parent
  }

  /** applyCustomExternalTransaction: nothing to do for the revision types. */
  function ExternalHandled(x: Transaction): (r: bool)
    ensures r <==> !x.kind.OtherType?
  {
    !x.kind.OtherType?
  }

  /* -------------------------------------------------------------------- */
  /* Ordering: inline transactions move to the end.                        */

  predicate IsInline(x: Transaction) { x.kind == Inline }

  /** sortTransactions: the non-inline transactions, then the inline ones,
      each group in its original order. */
  method SortTransactions(xactions: seq<Transaction>) returns (r: seq<Transaction>)
    ensures r == Sorted(xactions)
  {
    var head: seq<Transaction> := [];
    var tail: seq<Transaction> := [];
    for k := 0 to |xactions|
      invariant head == Filter(xactions[..k], (x: Transaction) => !IsInline(x))
      invariant tail == Filter(xactions[..k], IsInline)
    {
      assert xactions[..k + 1][..k] == xactions[..k];
      if xactions[k].kind == Inline {
        tail := tail + [xactions[k]];
      } else {
        head := head + [xactions[k]];
      }
    }
    assert xactions[..|xactions|] == xactions;
    r := head + tail;
  }

  function Sorted(xactions: seq<Transaction>): seq<Transaction> {
    Filter(xactions, (x: Transaction) => !IsInline(x)) + Filter(xactions, IsInline)
  }

  /** The sorted list is a permutation of the input with every non-inline
      transaction before every inline one. */
  lemma SortedIsPartition(xactions: seq<Transaction>)
    ensures |Sorted(xactions)| == |xactions|
    ensures multiset(Sorted(xactions)) == multiset(xactions)
    ensures forall i, j :: 0 <= i < j < |xactions| && IsInline(Sorted(xactions)[i]) ==> IsInline(Sorted(xactions)[j])
  {
    var notInline := (x: Transaction) => !IsInline(x);
    FilterPartition(xactions, notInline, IsInline);
    assert |multiset(Sorted(xactions))| == |multiset(xactions)|;
    var head := Filter(xactions, notInline);
    forall i, j | 0 <= i < j < |xactions| && IsInline(Sorted(xactions)[i])
      ensures IsInline(Sorted(xactions)[j])
    {
      var tail := Filter(xactions, IsInline);
      assert Sorted(xactions) == head + tail;
      assert i >= |head|;
      assert Sorted(xactions)[j] == tail[j - |head|];
    }
  }

  /** Sorting keeps each group as it was: picking either group out of the
      sorted list gives the same list as picking it out of the input. */
  lemma {:induction false} SortIsStable(xactions: seq<Transaction>)
    ensures Filter(Sorted(xactions), IsInline) == Filter(xactions, IsInline)
    ensures Filter(Sorted(xactions), (x: Transaction) => !IsInline(x)) == Filter(xactions, (x: Transaction) => !IsInline(x))
  {
    var notInline := (x: Transaction) => !IsInline(x);
    var head := Filter(xactions, notInline);
    var tail := Filter(xactions, IsInline);
    FilterAppend(head, tail, IsInline);
    FilterAppend(head, tail, notInline);
    FilterNone(head, IsInline);
    FilterAll(tail, IsInline);
    FilterAll(head, notInline);
    FilterNone(tail, notInline);
  }

  /** Sorting an already sorted list changes nothing. */
  lemma SortIsIdempotent(xactions: seq<Transaction>)
    ensures Sorted(Sorted(xactions)) == Sorted(xactions)
  {
    SortIsStable(xactions);
  }

  /* -------------------------------------------------------------------- */
  /* Mail.                                                                 */

  /** "D{id}: {text}". */
  function RevisionLine(id: nat, text: string): string {
    "D" + NatToString(id) + ": " + text
  }

  /** buildMailTemplate: the subject and the Thread-Topic header. */
  function MailSubject(rev: Revision): string
    reads rev
  {
    RevisionLine(rev.id, rev.title)
  }

  function ThreadTopic(rev: Revision): string
    reads rev
  {
    RevisionLine(rev.id, rev.originalTitle)
  }

  /** The revision number and the text can be read back from the line:
      the number is the digits between "D" and the first ':'. */
  lemma RevisionLineInjective(id: nat, text: string, id': nat, text': string)
    requires RevisionLine(id, text) == RevisionLine(id', text')
    ensures id == id' && text == text'
  {
    var digits := NatToString(id);
    var digits' := NatToString(id');
    var line := RevisionLine(id, text);
    assert line == ("D" + digits) + [':'] + (" " + text);
    assert line == ("D" + digits') + [':'] + (" " + text');
    assert ':' !in "D" + digits;
    assert ':' !in "D" + digits';
    IndexOfConcat("D" + digits, ':', " " + text);
    IndexOfConcat("D" + digits', ':', " " + text');
    assert line[1..|digits| + 1] == digits;
    assert line[1..|digits'| + 1] == digits';
    NatToStringInjective(id, id');
    assert line[|digits| + 3..] == text;
    assert line[|digits'| + 3..] == text';
  }

  /** Subject and thread topic agree exactly when the title is the original
      one; a retitled revision keeps its thread topic. */
  lemma SubjectMatchesTopicIffUntitled(rev: Revision)
    ensures MailSubject(rev) == ThreadTopic(rev) <==> rev.title == rev.originalTitle
  {
    if MailSubject(rev) == ThreadTopic(rev) {
      RevisionLineInjective(rev.id, rev.title, rev.id, rev.originalTitle);
    }
  }
}
