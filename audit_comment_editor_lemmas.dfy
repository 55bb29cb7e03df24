/** What addComments promises, stated over the whole reconciliation
    (AuditCommentEditor.Reconcile): the action that wins, the failure cases,
    what each path does to the existing requests, enrollment of added
    auditors and the auditors published with the feed story. */
module AuditCommentEditorLemmas {
  import opened Wrappers
  import opened Seqs
  import opened AuditCommentEditor

  /** The only exception the classified batch can reach is the disabled
      close: the "unknown action" throws of the general path are dead code. */
  lemma {:induction false} OnlyDisabledCloseFails(
    actor: Actor, authorPhid: Option<Phid>, authority: seq<Phid>, canAuthorClose: bool,
    comments: seq<AuditComment>, existing: seq<AuditRequest>)
    ensures var r := Reconcile(actor, authorPhid, authority, canAuthorClose, comments, existing);
      (r.Err? <==> ChosenAction(comments) == Close && !canAuthorClose) &&
      (r.Err? ==> r.error == CloseDisabled)
  {
  }

  /** Close turns exactly the concerned requests into closed ones, leaves
      the others as they were and adds only enrolled auditors. */
  lemma {:induction false} CloseOutcome(
    actor: Actor, authorPhid: Option<Phid>, authority: seq<Phid>,
    comments: seq<AuditComment>, existing: seq<AuditRequest>)
    requires ChosenAction(comments) == Close
    ensures var r := Reconcile(actor, authorPhid, authority, true, comments, existing);
      r.Ok? && |existing| <= |r.value.requests| &&
      (forall i :: 0 <= i < |existing| ==>
        r.value.requests[i] ==
          if existing[i].status == Concerned then existing[i].(status := Closed) else existing[i]) &&
      (forall i :: |existing| <= i < |r.value.requests| ==>
        r.value.requests[i].status == AuditRequested &&
        r.value.requests[i].reasons == [AddedByReason(actor.username)])
  {
    var mid := CloseConcerns(existing);
    var known := AuditorsOf(mid);
    var tail := EnrollmentRequests(NewAuditors(AddedAuditors(comments), known), actor.username);
    assert Reconcile(actor, authorPhid, authority, true, comments, existing).value.requests == mid + tail;
  }

  /** Resign touches only the actor's own request: the first one listed is
      set to resigned and appended again, or a new resigned request with
      reason "Resigned" is appended. The authority set plays no part. */
  lemma {:induction false} ResignOutcome(
    actor: Actor, authorPhid: Option<Phid>, authority: seq<Phid>, canAuthorClose: bool,
    comments: seq<AuditComment>, existing: seq<AuditRequest>)
    requires ChosenAction(comments) == Resign
    ensures var r := Reconcile(actor, authorPhid, authority, canAuthorClose, comments, existing);
      var n := |existing|;
      r.Ok? && n < |r.value.requests| &&
      r.value.requests[n].auditor == actor.phid && r.value.requests[n].status == Resigned &&
      (forall i :: 0 <= i < n && existing[i].auditor != actor.phid ==> r.value.requests[i] == existing[i]) &&
      ((forall i :: 0 <= i < n ==> existing[i].auditor != actor.phid) ==>
        r.value.requests[n].reasons == [ResignedReason] &&
        forall i :: 0 <= i < n ==> r.value.requests[i] == existing[i]) &&
      (forall k :: (0 <= k < n && existing[k].auditor == actor.phid &&
          forall j :: 0 <= j < k ==> existing[j].auditor != actor.phid) ==>
        r.value.requests[k] == existing[k].(status := Resigned) &&
        r.value.requests[n] == r.value.requests[k] &&
        forall i :: 0 <= i < n && i != k ==> r.value.requests[i] == existing[i])
  {
    var mid := ResignActor(existing, actor);
    var known := AuditorsOf(mid);
    var tail := EnrollmentRequests(NewAuditors(AddedAuditors(comments), known), actor.username);
    var rs := Reconcile(actor, authorPhid, authority, canAuthorClose, comments, existing).value.requests;
    assert rs == mid + tail;
    match FindRequest(existing, actor.phid)
    case None =>
    case Some(k) =>
      forall k' | 0 <= k' < |existing| && existing[k'].auditor == actor.phid &&
          (forall j :: 0 <= j < k' ==> existing[j].auditor != actor.phid)
        ensures k' == k
      {
        assert !(k' < k) && !(k < k');
      }
  }

  lemma {:induction false} ResignIgnoresAuthority(
    actor: Actor, authorPhid: Option<Phid>, authority: seq<Phid>, authority': seq<Phid>,
    canAuthorClose: bool, comments: seq<AuditComment>, existing: seq<AuditRequest>)
    requires ChosenAction(comments) == Resign
    ensures Reconcile(actor, authorPhid, authority, canAuthorClose, comments, existing) ==
            Reconcile(actor, authorPhid, authority', canAuthorClose, comments, existing)
  {
  }

  /** On the general path a request's status changes only for accept or
      concern, only when its auditor is in the authority set, and only when
      the actor is not the commit's author or the request is the actor's
      own; when all of that holds it becomes accepted or concerned. */
  lemma {:induction false} GeneralOutcome(
    actor: Actor, authorPhid: Option<Phid>, authority: seq<Phid>, canAuthorClose: bool,
    comments: seq<AuditComment>, existing: seq<AuditRequest>)
    requires ChosenAction(comments) != Close && ChosenAction(comments) != Resign
    ensures var r := Reconcile(actor, authorPhid, authority, canAuthorClose, comments, existing);
      var action := ChosenAction(comments);
      r.Ok? && |existing| <= |r.value.requests| &&
      forall i :: 0 <= i < |existing| ==>
        var before := existing[i];
        var after := r.value.requests[i];
        var acts := (action == Accept || action == Concern) && before.auditor in authority &&
          (authorPhid != Some(actor.phid) || before.auditor == actor.phid);
        after.auditor == before.auditor && after.reasons == before.reasons &&
        (acts ==> after.status == (if action == Accept then Accepted else Concerned)) &&
        (!acts ==> after == before)
  {
    var action := ChosenAction(comments);
    var mid := ApplyGeneral(existing, authority, action, ActorIsAuthor(actor, authorPhid), actor.phid).value;
    var known := AuditorsOf(mid);
    var tail := EnrollmentRequests(NewAuditors(AddedAuditors(comments), known), actor.username);
    assert Reconcile(actor, authorPhid, authority, canAuthorClose, comments, existing).value.requests == mid + tail;
  }

  /** The bootstrap request: when no existing request's auditor is in the
      authority set, accept and concern create exactly one request for the
      actor ("Voluntary Participant"); otherwise, and for every other action
      of the general path, the requests after the existing ones are only
      enrolled auditors. */
  lemma {:induction false} BootstrapOutcome(
    actor: Actor, authorPhid: Option<Phid>, authority: seq<Phid>, canAuthorClose: bool,
    comments: seq<AuditComment>, existing: seq<AuditRequest>)
    requires ChosenAction(comments) != Close && ChosenAction(comments) != Resign
    ensures var r := Reconcile(actor, authorPhid, authority, canAuthorClose, comments, existing);
      var action := ChosenAction(comments);
      var n := |existing|;
      var bootstraps := (action == Accept || action == Concern) &&
        forall i :: 0 <= i < n ==> existing[i].auditor !in authority;
      r.Ok? &&
      (bootstraps ==>
        n < |r.value.requests| &&
        r.value.requests[n] == AuditRequest(actor.phid, if action == Accept then Accepted else Concerned, [VoluntaryReason]) &&
        forall i :: n < i < |r.value.requests| ==>
          r.value.requests[i].status == AuditRequested && r.value.requests[i].reasons == [AddedByReason(actor.username)]) &&
      (!bootstraps ==>
        forall i :: n <= i < |r.value.requests| ==>
          r.value.requests[i].status == AuditRequested && r.value.requests[i].reasons == [AddedByReason(actor.username)])
  {
    var action := ChosenAction(comments);
    var n := |existing|;
    var isAuthor := ActorIsAuthor(actor, authorPhid);
    var bootstraps := (action == Accept || action == Concern) &&
      forall i :: 0 <= i < n ==> existing[i].auditor !in authority;
    var start := GeneralShape(existing, authority, action, isAuthor, actor.phid, bootstraps);
    var mid := ApplyGeneral(existing, authority, action, isAuthor, actor.phid).value;
    var tail := EnrollmentRequests(NewAuditors(AddedAuditors(comments), AuditorsOf(mid)), actor.username);
    assert Reconcile(actor, authorPhid, authority, canAuthorClose, comments, existing).value.requests == mid + tail;
    EnrolledAfter(mid, NewAuditors(AddedAuditors(comments), AuditorsOf(mid)), actor.username);
  }

  /** The general path keeps one request per existing one and, only when it
      bootstraps, appends the actor's voluntary request; `start` is where the
      requests after the general path begin. */
  lemma GeneralShape(
    existing: seq<AuditRequest>, authority: seq<Phid>, action: AuditAction,
    isAuthor: bool, actorPhid: Phid, bootstraps: bool) returns (start: nat)
    requires action == Comment || action == Accept || action == Concern
    requires bootstraps <==>
      (action == Accept || action == Concern) &&
      forall i :: 0 <= i < |existing| ==> existing[i].auditor !in authority
    ensures ApplyGeneral(existing, authority, action, isAuthor, actorPhid).Ok?
    ensures start == |ApplyGeneral(existing, authority, action, isAuthor, actorPhid).value|
    ensures start == if bootstraps then |existing| + 1 else |existing|
    ensures bootstraps ==>
      ApplyGeneral(existing, authority, action, isAuthor, actorPhid).value[|existing|] ==
      AuditRequest(actorPhid, if action == Accept then Accepted else Concerned, [VoluntaryReason])
  {
    assert bootstraps <==> (action == Accept || action == Concern) && !HasAuthorityRequest(existing, authority);
    start := if bootstraps then |existing| + 1 else |existing|;
  }

  /** Every request appended by enrollment is audit-requested with reason
      "Added by <username>". */
  lemma EnrolledAfter(mid: seq<AuditRequest>, newcomers: seq<Phid>, username: string)
    ensures var final := mid + EnrollmentRequests(newcomers, username);
      forall i :: |mid| <= i < |final| ==>
        final[i].status == AuditRequested && final[i].reasons == [AddedByReason(username)]
  {
    var tail := EnrollmentRequests(newcomers, username);
    forall i | |mid| <= i < |mid + tail|
      ensures (mid + tail)[i].status == AuditRequested && (mid + tail)[i].reasons == [AddedByReason(username)]
    {
      assert (mid + tail)[i] == tail[i - |mid|];
    }
  }

  /* -------------------------------------------------------------------- */
  /* Enrollment and the feed.                                              */

  lemma {:induction false} KeptOutOfFeedIgnoresOthers(rs: seq<AuditRequest>, tail: seq<AuditRequest>, p: Phid)
    requires forall i :: 0 <= i < |tail| ==> tail[i].auditor != p
    ensures KeptOutOfFeed(rs + tail, p) <==> KeptOutOfFeed(rs, p)
    decreases |tail|
  {
    if tail != [] {
      var init := tail[..|tail| - 1];
      assert rs + tail == (rs + init) + [tail[|tail| - 1]];
      KeptOutOfFeedStep(rs + init, tail[|tail| - 1], p);
      KeptOutOfFeedIgnoresOthers(rs, init, p);
    } else {
      assert rs + tail == rs;
    }
  }

  /** The requests before enrollment are kept as a prefix; every request
      after them is a new audit-requested one for an auditor that had no
      request, with reason "Added by <username>"; and the feed holds exactly
      the auditors of the requests before enrollment whose last-listed request
      is not resigned, none or not-required. Enrolled auditors are never in
      the feed. */
  lemma {:induction false} EnrollmentAndFeed(
    actor: Actor, authorPhid: Option<Phid>, authority: seq<Phid>, canAuthorClose: bool,
    comments: seq<AuditComment>, existing: seq<AuditRequest>)
    requires Reconcile(actor, authorPhid, authority, canAuthorClose, comments, existing).Ok?
    ensures var r := Reconcile(actor, authorPhid, authority, canAuthorClose, comments, existing).value;
      var mid := ApplyAction(actor, authorPhid, authority, canAuthorClose, ChosenAction(comments), existing).value;
      |mid| <= |r.requests| && r.requests[..|mid|] == mid &&
      (forall i :: |mid| <= i < |r.requests| ==>
        r.requests[i].auditor in AddedAuditors(comments) &&
        r.requests[i].auditor !in AuditorList(mid) &&
        r.requests[i].auditor !in r.feedPhids &&
        r.requests[i].status == AuditRequested &&
        r.requests[i].reasons == [AddedByReason(actor.username)]) &&
      NoDuplicates(r.feedPhids) &&
      (forall p :: p in r.feedPhids <==> p in AuditorList(mid) && !KeptOutOfFeed(mid, p))
  {
    var mid := ApplyAction(actor, authorPhid, authority, canAuthorClose, ChosenAction(comments), existing).value;
    var known := AuditorsOf(mid);
    var newcomers := NewAuditors(AddedAuditors(comments), known);
    var tail := EnrollmentRequests(newcomers, actor.username);
    var r := Reconcile(actor, authorPhid, authority, canAuthorClose, comments, existing).value;
    assert r.requests == mid + tail;
    assert r.feedPhids == FeedAuditors(known, mid + tail);
    assert (mid + tail)[..|mid|] == mid;
    forall p | p in known
      ensures KeptOutOfFeed(mid + tail, p) <==> KeptOutOfFeed(mid, p)
    {
      KeptOutOfFeedIgnoresOthers(mid, tail, p);
    }
    forall i | |mid| <= i < |r.requests|
      ensures r.requests[i].auditor in newcomers
    {
      assert r.requests[i] == tail[i - |mid|];
    }
    FeedIsDistinct(known, mid + tail);
  }

  lemma {:induction false} FeedIsDistinctFilter(s: seq<Phid>, rs: seq<AuditRequest>)
    requires NoDuplicates(s)
    ensures NoDuplicates(FeedAuditors(s, rs))
  {
    if s != [] {
      var init := s[..|s| - 1];
      assert forall i, j :: 0 <= i < j < |init| ==> init[i] == s[i] && init[j] == s[j];
      FeedIsDistinctFilter(init, rs);
      assert s[|s| - 1] !in init;
    }
  }

  lemma FeedIsDistinct(known: seq<Phid>, rs: seq<AuditRequest>)
    requires NoDuplicates(known)
    ensures NoDuplicates(FeedAuditors(known, rs))
  {
    FeedIsDistinctFilter(known, rs);
  }

  /* -------------------------------------------------------------------- */
  /* Worked cases.                                                         */

  /** A non-author owning package "P" concerns: P's request becomes
      concerned, and P is published with the feed story. */
  lemma PackageOwnerConcerns()
    ensures Reconcile(Actor("A", "alice"), Some("B"), ["A", "P"], false,
                      [AuditComment(Concern, [])], [AuditRequest("P", AuditRequested, ["owner"])])
      == Ok(Reconciled([AuditRequest("P", Concerned, ["owner"])], ["P"]))
  {
    var existing := [AuditRequest("P", AuditRequested, ["owner"])];
    var mid := [AuditRequest("P", Concerned, ["owner"])];
    OneCommentBatch(Concern);
    assert existing[0].auditor in ["A", "P"];
    var changed := StatusChanges(existing, ["A", "P"], Concern, false, "A");
    assert changed[0] == mid[0];
    assert changed == mid;
    assert ApplyAction(Actor("A", "alice"), Some("B"), ["A", "P"], false, Concern, existing) == Ok(mid);
    SingleRequestFeed(mid[0], "alice");
  }

  /** The same concern from the commit's author changes nothing: the author
      acts only through their own request, and the package request in the
      authority set means no voluntary request is created either. */
  lemma AuthorCannotConcernByProxy()
    ensures Reconcile(Actor("A", "alice"), Some("A"), ["A", "P"], false,
                      [AuditComment(Concern, [])], [AuditRequest("P", AuditRequested, ["owner"])])
      == Ok(Reconciled([AuditRequest("P", AuditRequested, ["owner"])], ["P"]))
  {
    var existing := [AuditRequest("P", AuditRequested, ["owner"])];
    OneCommentBatch(Concern);
    assert existing[0].auditor in ["A", "P"];
    var changed := StatusChanges(existing, ["A", "P"], Concern, true, "A");
    assert changed[0] == existing[0];
    assert changed == existing;
    assert ApplyAction(Actor("A", "alice"), Some("A"), ["A", "P"], false, Concern, existing) == Ok(existing);
    SingleRequestFeed(existing[0], "alice");
  }

  /** A non-author accepting a commit with no requests becomes a voluntary
      participant. */
  lemma VoluntaryAccept()
    ensures Reconcile(Actor("A", "alice"), Some("B"), ["A"], false, [AuditComment(Accept, [])], [])
      == Ok(Reconciled([AuditRequest("A", Accepted, [VoluntaryReason])], ["A"]))
  {
    var mid := [AuditRequest("A", Accepted, [VoluntaryReason])];
    OneCommentBatch(Accept);
    assert StatusChanges([], ["A"], Accept, false, "A") == [];
    assert !HasAuthorityRequest([], ["A"]);
    assert !ActorIsAuthor(Actor("A", "alice"), Some("B"));
    assert [] + [mid[0]] == mid;
    assert ApplyGeneral([], ["A"], Accept, false, "A") == Ok(mid);
    assert ApplyAction(Actor("A", "alice"), Some("B"), ["A"], false, Accept, []) == Ok(mid);
    SingleRequestFeed(mid[0], "alice");
  }

  /** An auditor added twice in one batch gets two requests, and neither is
      published with the feed story. */
  lemma DuplicateAddedAuditorEnrolledTwice()
    ensures Reconcile(Actor("A", "alice"), None, ["A"], false,
                      [AuditComment(AddAuditors, ["C"]), AuditComment(Comment, ["C"])], [])
      == Ok(Reconciled([AuditRequest("C", AuditRequested, [AddedByReason("alice")]),
                        AuditRequest("C", AuditRequested, [AddedByReason("alice")])], []))
  {
    var first := AuditComment(AddAuditors, ["C"]);
    var second := AuditComment(Comment, ["C"]);
    var comments := [first, second];
    assert comments[..1] == [first] && [first][..0] == [];
    assert ChosenAction(comments) == Comment;
    AddedAuditorsSnoc([], first);
    assert [] + [first] == [first];
    AddedAuditorsSnoc([first], second);
    assert [first] + [second] == comments;
    assert AddedAuditors(comments) == ["C", "C"];
    assert StatusChanges([], ["A"], Comment, false, "A") == [];
    assert ApplyAction(Actor("A", "alice"), None, ["A"], false, Comment, []) == Ok([]);
    assert AuditorList([]) == [];
    assert AuditorsOf([]) == [];
    var added: seq<Phid> := ["C", "C"];
    assert added[..1] == ["C"] && ["C"][..0] == [];
    assert NewAuditors(added[..1], []) == ["C"];
    assert NewAuditors(added, []) == added;
    var req := AuditRequest("C", AuditRequested, [AddedByReason("alice")]);
    assert EnrollmentRequests(added, "alice") == [req, req];
    assert [] + [req, req] == [req, req];
    ReconcileSteps(Actor("A", "alice"), None, ["A"], false, comments, [], []);
  }

  /** Resigning with a request already present lists that request twice,
      and the resigned auditor is kept out of the feed. */
  lemma ResignListsOwnRequestTwice()
    ensures Reconcile(Actor("A", "alice"), None, [], false, [AuditComment(Resign, [])],
                      [AuditRequest("A", AuditRequested, ["owner"])])
      == Ok(Reconciled([AuditRequest("A", Resigned, ["owner"]), AuditRequest("A", Resigned, ["owner"])], []))
  {
    var existing := [AuditRequest("A", AuditRequested, ["owner"])];
    var resigned := AuditRequest("A", Resigned, ["owner"]);
    var mid := [resigned, resigned];
    OneCommentBatch(Resign);
    assert FindRequest(existing, "A") == Some(0);
    assert existing[0 := resigned] == [resigned];
    assert ResignActor(existing, Actor("A", "alice")) == mid;
    assert ApplyAction(Actor("A", "alice"), None, [], false, Resign, existing) == Ok(mid);
    RepeatedQuietRequestFeed(resigned, "alice");
    ReconcileSteps(Actor("A", "alice"), None, [], false, [AuditComment(Resign, [])], existing, mid);
  }

  /** The rest of a batch without added auditors whose action left the
      same quiet request listed twice. */
  lemma RepeatedQuietRequestFeed(x: AuditRequest, username: string)
    requires IsQuiet(x.status)
    ensures AuditorsOf([x, x]) == [x.auditor]
    ensures [x, x] + EnrollmentRequests(NewAuditors([], [x.auditor]), username) == [x, x]
    ensures FeedAuditors([x.auditor], [x, x]) == []
  {
    assert AuditorList([x, x]) == [x.auditor, x.auditor];
    assert [x.auditor, x.auditor][..1] == [x.auditor] && [x.auditor][..0] == [];
    assert Dedup([x.auditor]) == [x.auditor];
    assert NewAuditors([], [x.auditor]) == [];
    assert EnrollmentRequests([], username) == [];
    assert KeptOutOfFeed([x, x], x.auditor) by {
      assert [x, x][1].auditor == x.auditor;
    }
  }

  /** Reconcile once the action's own step is known. */
  lemma ReconcileSteps(
    actor: Actor, authorPhid: Option<Phid>, authority: seq<Phid>, canAuthorClose: bool,
    comments: seq<AuditComment>, existing: seq<AuditRequest>, mid: seq<AuditRequest>)
    requires ApplyAction(actor, authorPhid, authority, canAuthorClose, ChosenAction(comments), existing) == Ok(mid)
    ensures var known := AuditorsOf(mid);
      var final := mid + EnrollmentRequests(NewAuditors(AddedAuditors(comments), known), actor.username);
      Reconcile(actor, authorPhid, authority, canAuthorClose, comments, existing) ==
        Ok(Reconciled(final, FeedAuditors(known, final)))
  {
  }

  lemma AddedAuditorsSnoc(comments: seq<AuditComment>, c: AuditComment)
    ensures AddedAuditors(comments + [c]) == AddedAuditors(comments) + c.addedAuditors
  {
    assert (comments + [c])[..|comments|] == comments;
  }

  lemma OneCommentBatch(action: AuditAction)
    ensures ChosenAction([AuditComment(action, [])]) == (if ChangesStatus(action) then action else Comment)
    ensures AddedAuditors([AuditComment(action, [])]) == []
  {
    assert [AuditComment(action, [])][..0] == [];
    AddedAuditorsSnoc([], AuditComment(action, []));
    assert [] + [AuditComment(action, [])] == [AuditComment(action, [])];
  }

  /** The rest of a batch without added auditors whose action left one
      request that is not quiet. */
  lemma SingleRequestFeed(x: AuditRequest, username: string)
    requires !IsQuiet(x.status)
    ensures AuditorsOf([x]) == [x.auditor]
    ensures [x] + EnrollmentRequests(NewAuditors([], [x.auditor]), username) == [x]
    ensures FeedAuditors([x.auditor], [x]) == [x.auditor]
  {
    assert AuditorList([x]) == [x.auditor];
    assert [x.auditor][..0] == [];
    assert NewAuditors([], [x.auditor]) == [];
    assert EnrollmentRequests([], username) == [];
    assert !KeptOutOfFeed([x], x.auditor);
  }
}
