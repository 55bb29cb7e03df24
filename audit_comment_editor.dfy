/** Audit-request reconciliation of a commit: what happens to the audit
    requests of a commit when an actor submits a batch of audit comments
    (PhabricatorAuditCommentEditor::addComments), and the set of identities
    the actor may act for (loadAuditPHIDsForUser).

    The requests loaded from storage, the actor's owned packages and member
    projects, and the `audit.can-author-close-audit` flag are inputs; saving,
    the commit's aggregate status, transaction application and feed
    publishing are not part of this model. */
module AuditCommentEditor {
  import opened Wrappers
  import opened Seqs

  type Phid = string

  /** PhabricatorAuditStatusConstants; `NoStatus` is the empty-string status. */
  datatype AuditStatus =
    | NoStatus
    | AuditNotRequired
    | AuditRequired
    | Concerned
    | Accepted
    | AuditRequested
    | Resigned
    | Closed
    | CC

  /** PhabricatorAuditActionConstants. */
  datatype AuditAction = Comment | Concern | Accept | Resign | Close | AddCCs | AddAuditors | Inline

  datatype AuditRequest = AuditRequest(auditor: Phid, status: AuditStatus, reasons: seq<string>)

  /** A submitted comment: its action and the auditors listed in its
      "added auditors" metadata (empty when the metadata has none). */
  datatype AuditComment = AuditComment(action: AuditAction, addedAuditors: seq<Phid>)

  datatype Actor = Actor(phid: Phid, username: string)

  /** The two exceptions addComments can throw. */
  datatype EditorError = CloseDisabled | UnknownAction(action: AuditAction)

  /** The final request list (handed to the commit and the transaction
      editor) and the auditors published with the feed story. */
  datatype Reconciled = Reconciled(requests: seq<AuditRequest>, feedPhids: seq<Phid>)

  const ResignedReason := "Resigned"
  const VoluntaryReason := "Voluntary Participant"

  function AddedByReason(username: string): string {
    "Added by " + username
  }

  /* -------------------------------------------------------------------- */
  /* Picking the action of the batch.                                      */

  predicate ChangesStatus(a: AuditAction) {
    a == Close || a == Resign || a == Accept || a == Concern
  }

  /** The last status-changing action of the batch, or Comment if it has none. */
  function ChosenAction(comments: seq<AuditComment>): (a: AuditAction)
    ensures a == Comment || ChangesStatus(a)
    ensures a == Comment <==> forall i :: 0 <= i < |comments| ==> !ChangesStatus(comments[i].action)
    ensures a != Comment ==>
      exists i :: 0 <= i < |comments| && comments[i].action == a &&
        forall j :: i < j < |comments| ==> !ChangesStatus(comments[j].action)
  {
    if comments == [] then Comment
    else
      var last := comments[|comments| - 1].action;
      if ChangesStatus(last) then last
      else
        var init := comments[..|comments| - 1];
        var a := ChosenAction(init);
        ChoiceSkipsLast(comments, init, a);
        a
  }

  /** A last comment that changes no status leaves the choice among the
      earlier ones standing. */
  lemma ChoiceSkipsLast(comments: seq<AuditComment>, init: seq<AuditComment>, a: AuditAction)
    requires |comments| > 0 && init == comments[..|comments| - 1]
    requires !ChangesStatus(comments[|comments| - 1].action)
    requires a == Comment <==> forall i :: 0 <= i < |init| ==> !ChangesStatus(init[i].action)
    requires a != Comment ==>
      exists i :: 0 <= i < |init| && init[i].action == a &&
        forall j :: i < j < |init| ==> !ChangesStatus(init[j].action)
    ensures a == Comment <==> forall i :: 0 <= i < |comments| ==> !ChangesStatus(comments[i].action)
    ensures a != Comment ==>
      exists i :: 0 <= i < |comments| && comments[i].action == a &&
        forall j :: i < j < |comments| ==> !ChangesStatus(comments[j].action)
  {
    assert forall i :: 0 <= i < |init| ==> init[i] == comments[i];
  }

  method PickAction(comments: seq<AuditComment>) returns (action: AuditAction)
    ensures action == ChosenAction(comments)
  {
    action := Comment;
    for i := 0 to |comments|
      invariant action == ChosenAction(comments[..i])
    {
      assert comments[..i + 1][..i] == comments[..i];
      match comments[i].action {
        case Close => action := Close;
        case Resign => action := Resign;
        case Accept => action := Accept;
        case Concern => action := Concern;
        case _ =>
      }
    }
    assert comments[..|comments|] == comments;
  }

  /* -------------------------------------------------------------------- */
  /* "Close": every concerned request becomes closed.                      */

  function CloseConcerns(rs: seq<AuditRequest>): seq<AuditRequest> {
    seq(|rs|, i requires 0 <= i < |rs| =>
      if rs[i].status == Concerned then rs[i].(status := Closed) else rs[i])
  }

  method CloseConcernedRequests(requests: seq<AuditRequest>) returns (r: seq<AuditRequest>)
    ensures r == CloseConcerns(requests)
  {
    r := requests;
    for i := 0 to |r|
      invariant |r| == |requests|
      invariant forall j :: 0 <= j < i ==> r[j] == CloseConcerns(requests)[j]
      invariant forall j :: i <= j < |r| ==> r[j] == requests[j]
    {
      if r[i].status == Concerned {
        r := r[i := r[i].(status := Closed)];
      }
    }
  }

  /* -------------------------------------------------------------------- */
  /* "Resign": only the actor's own request, found or created.             */

  /** The position of the first request of auditor `p`, if any. */
  function FindRequest(rs: seq<AuditRequest>, p: Phid): (k: Option<nat>)
    ensures k.Some? ==>
      k.value < |rs| && rs[k.value].auditor == p &&
      forall j :: 0 <= j < k.value ==> rs[j].auditor != p
    ensures k.None? ==> forall j :: 0 <= j < |rs| ==> rs[j].auditor != p
  {
    if rs == [] then None
    else if rs[0].auditor == p then Some(0)
    else
      match FindRequest(rs[1..], p)
      case None => None
      case Some(k) => Some(k + 1)
  }

  /** The actor's request set to resigned, and that request appended to the
      list again (the source appends it whether it was found or created). */
  function ResignActor(rs: seq<AuditRequest>, actor: Actor): seq<AuditRequest> {
    match FindRequest(rs, actor.phid)
    case Some(k) =>
      var resigned := rs[k].(status := Resigned);
      rs[k := resigned] + [resigned]
    case None =>
      rs + [AuditRequest(actor.phid, Resigned, [ResignedReason])]
  }

  method ResignActorRequest(requests: seq<AuditRequest>, actor: Actor) returns (r: seq<AuditRequest>)
    ensures r == ResignActor(requests, actor)
  {
    var found := -1;
    var i := 0;
    while i < |requests|
      invariant 0 <= i <= |requests|
      invariant forall j :: 0 <= j < i ==> requests[j].auditor != actor.phid
    {
      if requests[i].auditor == actor.phid {
        found := i;
        break;
      }
      i := i + 1;
    }
    if found < 0 {
      r := requests + [AuditRequest(actor.phid, Resigned, [ResignedReason])];
    } else {
      var resigned := requests[found].(status := Resigned);
      r := requests[found := resigned] + [resigned];
    }
  }

  /* -------------------------------------------------------------------- */
  /* Accept, concern, comment, add auditors, add CCs.                      */

  function StatusFor(action: AuditAction): AuditStatus {
    if action == Accept then Accepted else Concerned
  }

  /** The status a request has after the general path: accept and concern
      act on the requests in the authority set, except that an author acts
      only through their own request, never through a package or project. */
  function GeneralStatus(
    req: AuditRequest, authority: seq<Phid>, action: AuditAction,
    actorIsAuthor: bool, actorPhid: Phid): (s: AuditStatus)
    ensures s != req.status ==> req.auditor in authority && (action == Accept || action == Concern)
    ensures actorIsAuthor && req.auditor != actorPhid ==> s == req.status
  {
    if req.auditor in authority && (action == Accept || action == Concern)
       && (!actorIsAuthor || req.auditor == actorPhid)
    then StatusFor(action)
    else req.status
  }

  predicate HasAuthorityRequest(rs: seq<AuditRequest>, authority: seq<Phid>) {
    exists i :: 0 <= i < |rs| && rs[i].auditor in authority
  }

  function StatusChanges(
    rs: seq<AuditRequest>, authority: seq<Phid>, action: AuditAction,
    actorIsAuthor: bool, actorPhid: Phid): seq<AuditRequest>
  {
    seq(|rs|, i requires 0 <= i < |rs| =>
      rs[i].(status := GeneralStatus(rs[i], authority, action, actorIsAuthor, actorPhid)))
  }

  /** The general path. Any action other than comment, accept, concern, add
      auditors or add CCs throws: in the loop at the first request in the
      authority set, or in the bootstrap switch when there is none. */
  function ApplyGeneral(
    rs: seq<AuditRequest>, authority: seq<Phid>, action: AuditAction,
    actorIsAuthor: bool, actorPhid: Phid): (r: Result<seq<AuditRequest>, EditorError>)
    ensures r.Err? <==> action == Resign || action == Close || action == Inline
    ensures r.Ok? ==> |rs| <= |r.value| <= |rs| + 1
    ensures r.Ok? ==> forall i :: 0 <= i < |rs| ==>
      r.value[i].auditor == rs[i].auditor && r.value[i].reasons == rs[i].reasons
  {
    if action == Resign || action == Close || action == Inline then Err(UnknownAction(action))
    else
      var updated := StatusChanges(rs, authority, action, actorIsAuthor, actorPhid);
      if !HasAuthorityRequest(rs, authority) && (action == Accept || action == Concern)
      then Ok(updated + [AuditRequest(actorPhid, StatusFor(action), [VoluntaryReason])])
      else Ok(updated)
  }

  method ApplyGeneralPath(
    requests: seq<AuditRequest>, authority: seq<Phid>, action: AuditAction,
    actorIsAuthor: bool, actorPhid: Phid) returns (r: Result<seq<AuditRequest>, EditorError>)
    ensures r == ApplyGeneral(requests, authority, action, actorIsAuthor, actorPhid)
  {
    var rs := requests;
    var haveAnyRequests := false;
    for i := 0 to |rs|
      invariant |rs| == |requests|
      invariant haveAnyRequests <==> exists j :: 0 <= j < i && requests[j].auditor in authority
      invariant haveAnyRequests ==> action != Resign && action != Close && action != Inline
      invariant forall j :: 0 <= j < i ==>
        rs[j] == requests[j].(status := GeneralStatus(requests[j], authority, action, actorIsAuthor, actorPhid))
      invariant forall j :: i <= j < |rs| ==> rs[j] == requests[j]
    {
      if rs[i].auditor !in authority {
        continue;
      }
      var requestIsForActor := rs[i].auditor == actorPhid;
      haveAnyRequests := true;
      var newStatus: Option<AuditStatus> := None;
      match action {
        case Comment =>
        case AddCCs =>
        case AddAuditors =>
        case Accept =>
          if !actorIsAuthor || requestIsForActor {
            newStatus := Some(Accepted);
          }
        case Concern =>
          if !actorIsAuthor || requestIsForActor {
            newStatus := Some(Concerned);
          }
        case _ =>
          return Err(UnknownAction(action));
      }
      if newStatus.Some? {
        rs := rs[i := rs[i].(status := newStatus.value)];
      }
    }
    assert rs == StatusChanges(requests, authority, action, actorIsAuthor, actorPhid);
    assert haveAnyRequests == HasAuthorityRequest(requests, authority);

    if !haveAnyRequests {
      var newStatus: Option<AuditStatus> := None;
      match action {
        case Comment =>
        case AddAuditors =>
        case AddCCs =>
        case Accept => newStatus := Some(Accepted);
        case Concern => newStatus := Some(Concerned);
        case _ =>
          return Err(UnknownAction(action));
      }
      if newStatus.Some? {
        rs := rs + [AuditRequest(actorPhid, newStatus.value, [VoluntaryReason])];
      }
    }
    r := Ok(rs);
  }

  /* -------------------------------------------------------------------- */
  /* Enrolling added auditors and choosing the feed auditors.              */

  function AuditorList(rs: seq<AuditRequest>): (ps: seq<Phid>)
    ensures |ps| == |rs| && forall i :: 0 <= i < |rs| ==> ps[i] == rs[i].auditor
  {
    seq(|rs|, i requires 0 <= i < |rs| => rs[i].auditor)
  }

  /** The distinct auditors of the list, by first appearance: the keys of
      the source's `$requests_by_auditor`. */
  function AuditorsOf(rs: seq<AuditRequest>): seq<Phid> {
    Dedup(AuditorList(rs))
  }

  /** Every auditor listed in the batch's metadata, repetitions included. */
  function AddedAuditors(comments: seq<AuditComment>): seq<Phid> {
    FlatMap(comments, (c: AuditComment) => c.addedAuditors)
  }

  /** The added auditors that have no request yet (`array_diff`, which keeps
      repetitions). */
  function NewAuditors(added: seq<Phid>, known: seq<Phid>): seq<Phid> {
    Filter(added, (p: Phid) => p !in known)
  }

  function EnrollmentRequests(newcomers: seq<Phid>, username: string): seq<AuditRequest> {
    seq(|newcomers|, i requires 0 <= i < |newcomers| =>
      AuditRequest(newcomers[i], AuditRequested, [AddedByReason(username)]))
  }

  predicate IsQuiet(s: AuditStatus) {
    s == Resigned || s == NoStatus || s == AuditNotRequired
  }

  /** `p`'s last-listed request has a status that keeps it out of the feed. */
  predicate KeptOutOfFeed(rs: seq<AuditRequest>, p: Phid) {
    exists i :: 0 <= i < |rs| && rs[i].auditor == p && IsQuiet(rs[i].status) &&
      forall j :: i < j < |rs| ==> rs[j].auditor != p
  }

  function FeedAuditors(known: seq<Phid>, rs: seq<AuditRequest>): seq<Phid> {
    Filter(known, (p: Phid) => !KeptOutOfFeed(rs, p))
  }

  method CollectAddedAuditors(comments: seq<AuditComment>) returns (auditors: seq<Phid>)
    ensures auditors == AddedAuditors(comments)
  {
    auditors := [];
    for i := 0 to |comments|
      invariant auditors == AddedAuditors(comments[..i])
    {
      assert comments[..i + 1][..i] == comments[..i];
      var phids := comments[i].addedAuditors;
      for k := 0 to |phids|
        invariant auditors == AddedAuditors(comments[..i]) + phids[..k]
      {
        assert phids[..k + 1] == phids[..k] + [phids[k]];
        auditors := auditors + [phids[k]];
      }
      assert phids[..|phids|] == phids;
    }
    assert comments[..|comments|] == comments;
  }

  method DistinctAuditors(requests: seq<AuditRequest>) returns (phids: seq<Phid>)
    ensures phids == AuditorsOf(requests)
  {
    phids := [];
    for i := 0 to |requests|
      invariant phids == AuditorsOf(requests[..i])
    {
      assert AuditorList(requests[..i + 1])[..i] == AuditorList(requests[..i]);
      if requests[i].auditor !in phids {
        phids := phids + [requests[i].auditor];
      }
    }
    assert requests[..|requests|] == requests;
  }

  method EnrollAuditors(requests: seq<AuditRequest>, added: seq<Phid>, known: seq<Phid>, username: string)
    returns (r: seq<AuditRequest>)
    ensures r == requests + EnrollmentRequests(NewAuditors(added, known), username)
  {
    var newcomers: seq<Phid> := [];
    for i := 0 to |added|
      invariant newcomers == NewAuditors(added[..i], known)
    {
      assert added[..i + 1][..i] == added[..i];
      if added[i] !in known {
        newcomers := newcomers + [added[i]];
      }
    }
    assert added[..|added|] == added;
    r := requests;
    for i := 0 to |newcomers|
      invariant r == requests + EnrollmentRequests(newcomers[..i], username)
    {
      r := r + [AuditRequest(newcomers[i], AuditRequested, [AddedByReason(username)])];
    }
    assert newcomers[..|newcomers|] == newcomers;
  }

  lemma KeptOutOfFeedStep(rs: seq<AuditRequest>, x: AuditRequest, p: Phid)
    ensures KeptOutOfFeed(rs + [x], p) <==>
      if x.auditor == p then IsQuiet(x.status) else KeptOutOfFeed(rs, p)
  {
    var s := rs + [x];
    if x.auditor == p {
      if IsQuiet(x.status) {
        assert s[|rs|].auditor == p;
      } else {
        forall i | 0 <= i < |s| && s[i].auditor == p && IsQuiet(s[i].status)
          ensures exists j :: i < j < |s| && s[j].auditor == p
        {
          assert s[|rs|] == x;
        }
      }
    } else {
      if KeptOutOfFeed(rs, p) {
        var i :| 0 <= i < |rs| && rs[i].auditor == p && IsQuiet(rs[i].status) &&
          forall j :: i < j < |rs| ==> rs[j].auditor != p;
        assert s[i] == rs[i];
      }
      if KeptOutOfFeed(s, p) {
        var i :| 0 <= i < |s| && s[i].auditor == p && IsQuiet(s[i].status) &&
          forall j :: i < j < |s| ==> s[j].auditor != p;
        assert i < |rs| && rs[i] == s[i];
        assert forall j :: i < j < |rs| ==> rs[j] == s[j];
      }
    }
  }

  /** The source's `$feed_dont_publish_phids` map, set or unset per request,
      then `array_diff` of the known auditors against its keys. */
  method ComputeFeedPhids(known: seq<Phid>, requests: seq<AuditRequest>) returns (feed: seq<Phid>)
    ensures feed == FeedAuditors(known, requests)
  {
    var dontPublish: set<Phid> := {};
    for i := 0 to |requests|
      invariant forall p :: p in dontPublish <==> KeptOutOfFeed(requests[..i], p)
    {
      var req := requests[i];
      forall p ensures KeptOutOfFeed(requests[..i + 1], p) <==>
        if req.auditor == p then IsQuiet(req.status) else KeptOutOfFeed(requests[..i], p)
      {
        assert requests[..i + 1] == requests[..i] + [req];
        KeptOutOfFeedStep(requests[..i], req, p);
      }
      if IsQuiet(req.status) {
        dontPublish := dontPublish + {req.auditor};
      } else {
        dontPublish := dontPublish - {req.auditor};
      }
    }
    assert requests[..|requests|] == requests;
    feed := [];
    for i := 0 to |known|
      invariant feed == FeedAuditors(known[..i], requests)
    {
      assert known[..i + 1][..i] == known[..i];
      if known[i] !in dontPublish {
        feed := feed + [known[i]];
      }
    }
    assert known[..|known|] == known;
  }

  /* -------------------------------------------------------------------- */
  /* The whole of addComments.                                             */

  function ActorIsAuthor(actor: Actor, authorPhid: Option<Phid>): bool {
    authorPhid == Some(actor.phid)
  }

  /** The requests after the chosen action, before auditors are enrolled. */
  function ApplyAction(
    actor: Actor, authorPhid: Option<Phid>, authority: seq<Phid>, canAuthorClose: bool,
    action: AuditAction, existing: seq<AuditRequest>): (r: Result<seq<AuditRequest>, EditorError>)
    ensures r.Ok? ==> |existing| <= |r.value|
    ensures r.Ok? ==> forall i :: 0 <= i < |existing| ==> r.value[i].auditor == existing[i].auditor
  {
    if action == Close then
      if canAuthorClose then Ok(CloseConcerns(existing)) else Err(CloseDisabled)
    else if action == Resign then Ok(ResignActor(existing, actor))
    else ApplyGeneral(existing, authority, action, ActorIsAuthor(actor, authorPhid), actor.phid)
  }

  function Reconcile(
    actor: Actor, authorPhid: Option<Phid>, authority: seq<Phid>, canAuthorClose: bool,
    comments: seq<AuditComment>, existing: seq<AuditRequest>): (r: Result<Reconciled, EditorError>)
    ensures r.Err? ==> r.error == CloseDisabled
    ensures r.Ok? ==> |existing| <= |r.value.requests|
    ensures r.Ok? ==> forall i :: 0 <= i < |existing| ==> r.value.requests[i].auditor == existing[i].auditor
  {
    var mid :- ApplyAction(actor, authorPhid, authority, canAuthorClose, ChosenAction(comments), existing);
    var known := AuditorsOf(mid);
    var final := mid + EnrollmentRequests(NewAuditors(AddedAuditors(comments), known), actor.username);
    Ok(Reconciled(final, FeedAuditors(known, final)))
  }

  /** addComments: `authority` is the result of loadAuditPHIDsForUser and
      `existing` the commit's stored requests. */
  method AddComments(
    actor: Actor, authorPhid: Option<Phid>, authority: seq<Phid>, canAuthorClose: bool,
    comments: seq<AuditComment>, existing: seq<AuditRequest>) returns (r: Result<Reconciled, EditorError>)
    ensures r == Reconcile(actor, authorPhid, authority, canAuthorClose, comments, existing)
  {
    var actorIsAuthor := authorPhid == Some(actor.phid);
    var action := PickAction(comments);
    var requests: seq<AuditRequest>;
    if action == Close {
      if !canAuthorClose {
        return Err(CloseDisabled);
      }
      requests := CloseConcernedRequests(existing);
    } else if action == Resign {
      requests := ResignActorRequest(existing, actor);
    } else {
      var general := ApplyGeneralPath(existing, authority, action, actorIsAuthor, actor.phid);
      if general.Err? {
        return Err(general.error);
      }
      requests := general.value;
    }
    var auditors := CollectAddedAuditors(comments);
    var requestPhids := DistinctAuditors(requests);
    requests := EnrollAuditors(requests, auditors, requestPhids, actor.username);
    var feedPhids := ComputeFeedPhids(requestPhids, requests);
    r := Ok(Reconciled(requests, feedPhids));
  }

  /* -------------------------------------------------------------------- */
  /* The identities an actor may audit for.                                */

  /** loadAuditPHIDsForUser: the user, then the packages they own, then the
      projects they are a member of, each once. */
  method LoadAuditPhidsForUser(user: Phid, ownedPackages: seq<Phid>, memberProjects: seq<Phid>)
    returns (phids: seq<Phid>)
    ensures NoDuplicates(phids)
    ensures |phids| > 0 && phids[0] == user
    ensures forall p :: p in phids <==> p == user || p in ownedPackages || p in memberProjects
  {
    phids := [user];
    for i := 0 to |ownedPackages|
      invariant NoDuplicates(phids) && |phids| > 0 && phids[0] == user
      invariant forall p :: p in phids <==> p == user || p in ownedPackages[..i]
    {
      if ownedPackages[i] !in phids {
        phids := phids + [ownedPackages[i]];
      }
    }
    assert ownedPackages[..|ownedPackages|] == ownedPackages;
    for i := 0 to |memberProjects|
      invariant NoDuplicates(phids) && |phids| > 0 && phids[0] == user
      invariant forall p :: p in phids <==> p == user || p in ownedPackages || p in memberProjects[..i]
    {
      if memberProjects[i] !in phids {
        phids := phids + [memberProjects[i]];
      }
    }
    assert memberProjects[..|memberProjects|] == memberProjects;
  }
}
