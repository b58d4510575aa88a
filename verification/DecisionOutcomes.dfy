/** What a decision leaves in the store, field by field and with its texts written out. */
module DecisionOutcomes {
  import opened Foundations
  import opened Models
  import opened Ordering
  import opened Repository
  import opened Identifiers
  import opened Access
  import opened Activity
  import opened Approvals
  import opened ApprovalEffects
  import opened ApprovalRuns
  import opened ApprovalProgress
  import opened ApprovalRetry
  import opened MutationOutcomes
  import opened Texts

  /** The approval that the attempt is about, as the store holds it. */
  function Subject(db: Db, t: Attempt): Option<Approval> {
    var k := Key(Kind.Approvals, t.command.projectId, t.command.approvalId);
    if k in db && db[k].entity.ApprovalEntity? then Some(db[k].entity.approval) else None
  }

  /** The decided approval: its outcome, who decided it and when, at exactly the next version. */
  ghost predicate ApprovalDecided(db: Db, after: Db, t: Attempt) {
    var k := Key(Kind.Approvals, t.command.projectId, t.command.approvalId);
    && Subject(db, t).Some? && Subject(db, t).value.status == ApprovalStatus.Pending
    && t.command.expectedVersion == Some(db[k].version)
    && k in after
    && after[k] ==
       Record(ApprovalEntity(Subject(db, t).value.(
                status := if t.approved then ApprovalStatus.Approved else ApprovalStatus.Rejected,
                resolvedAt := Some(t.command.occurredAt), resolvedBy := Some(t.access.userId),
                notes := t.command.notes, version := db[k].version + 1)),
              db[k].version + 1)
  }

  /** The request at `k` is the only one of the project that names the approval. */
  ghost predicate OnlyRequest(db: Db, t: Attempt, k: Key) {
    && k in db && k.kind == Requests && k.project == t.command.projectId && db[k].entity.RequestEntity?
    && db[k].entity.request.approvalId == Some(t.command.approvalId)
    && forall other | other in db && other.kind == Requests && other.project == k.project
                      && db[other].entity.RequestEntity?
                      && db[other].entity.request.approvalId == Some(t.command.approvalId) :: other == k
  }

  /** Whether the request is the one that this decision moves. */
  ghost predicate Follows(db: Db, t: Attempt, k: Key)
    requires k in db && db[k].entity.RequestEntity? && Subject(db, t).Some?
  {
    Subject(db, t).value.actionType == Purchase && OnlyRequest(db, t, k)
    && db[k].entity.request.status in {RequestStatus.Proposed, RequestStatus.AwaitingApproval}
  }

  /** A purchase decision moves the only request that names it, if that still waits; nothing else moves one. */
  ghost predicate RequestFollows(db: Db, after: Db, t: Attempt, k: Key)
    requires Subject(db, t).Some?
  {
    k in db && k.kind == Requests && db[k].entity.RequestEntity? ==>
      && k in after
      && after[k] ==
         if Follows(db, t, k)
         then Record(RequestEntity(db[k].entity.request.(
                       status := if t.approved then RequestStatus.Approved else RequestStatus.Cancelled,
                       updatedAt := t.command.occurredAt)),
                     db[k].version + 1)
         else db[k]
  }

  /** The decision's outbox message, as it is created when there was none. */
  ghost predicate MessageWritten(db: Db, after: Db, t: Attempt) {
    var deduplication := "approval_" + t.command.approvalId + if t.approved then "_approved" else "_rejected";
    var k := Key(Outbox, t.command.projectId, "obx_" + Sha256(deduplication));
    && k in after
    && after[k] ==
       if k in db then db[k]
       else Record(OutboxEntity(OutboxMessage(
                     k.id, t.command.projectId, if t.approved then "APPROVAL_GRANTED" else "APPROVAL_REJECTED",
                     deduplication, t.command.approvalId, true, 0)), 0)
  }

  lemma ApprovalIsDecided(db: Db, after: Db, t: Attempt)
    requires WellFormed(db) && Decides(db, after, t)
    ensures ApprovalDecided(db, after, t)
  {
    hide LinkOf, DecisionMessage, MovedRequest;
    var k := Key(Kind.Approvals, t.command.projectId, t.command.approvalId);
    assert KeyOf(db[k].entity) == k && db[k].version == db[k].entity.approval.version;
  }

  lemma OnlyIsSole(db: Db, t: Attempt, k: Key)
    requires k in db && k.kind == Requests && db[k].entity.RequestEntity? && k.project == t.command.projectId
    ensures OnlyRequest(db, t, k) <==> SoleLink(db, t.command.projectId, t.command.approvalId, k.id)
  {
    assert k == RequestKey(k.project, k.id);
  }

  lemma DecidesSubject(db: Db, after: Db, t: Attempt)
    requires Decides(db, after, t)
    ensures Subject(db, t).Some? && Subject(db, t) == ReadApproval(db, t.command.projectId, t.command.approvalId)
    ensures Subject(db, t).value.projectId == t.command.projectId && Subject(db, t).value.id == t.command.approvalId
    ensures LinkOf(db, Subject(db, t).value).Success?
  {
  }

  lemma MovesExactlyFollowers(db: Db, after: Db, t: Attempt, k: Key)
    requires WellFormed(db) && Decides(db, after, t) && k in db && k.kind == Requests && db[k].entity.RequestEntity?
    ensures Subject(db, t).Some? && (after[k] != db[k] <==> Follows(db, t, k))
  {
    hide Decides, WellFormed, SoleLink, OnlyRequest;
    DecidesSubject(db, after, t);
    DecisionRequests(db, after, t, k);
    RequestMovesIff(db, after, t, k);
    if k.project == t.command.projectId {
      OnlyIsSole(db, t, k);
    }
    OnlyInProject(db, t, k);
  }

  lemma OnlyInProject(db: Db, t: Attempt, k: Key)
    ensures OnlyRequest(db, t, k) ==> k.project == t.command.projectId
  {
  }

  lemma RequestIsMoved(db: Db, after: Db, t: Attempt, k: Key)
    requires WellFormed(db) && Decides(db, after, t)
    ensures Subject(db, t).Some? && RequestFollows(db, after, t, k)
  {
    hide Decides, WellFormed, OnlyRequest, LinkOf;
    DecidesSubject(db, after, t);
    if k in db && k.kind == Requests && db[k].entity.RequestEntity? {
      DecisionRequests(db, after, t, k);
      MovesExactlyFollowers(db, after, t, k);
      PlaceIsKey(db, k);
      var link := LinkOf(db, Subject(db, t).value).value;
      if link.Some? {
        LinkOfIsStored(db, Subject(db, t).value, link.value);
      }
    }
  }

  lemma PlaceIsKey(db: Db, k: Key)
    requires WellFormed(db) && k in db && db[k].entity.RequestEntity?
    ensures k == Key(Requests, db[k].entity.request.projectId, db[k].entity.request.id)
  {
  }

  lemma MessageIsWritten(db: Db, after: Db, t: Attempt)
    requires Decides(db, after, t)
    ensures MessageWritten(db, after, t)
  {
    hide LinkOf, Decided, MovedRequest;
    assert "approval_" + t.command.approvalId + "_approved" == "approval_" + t.command.approvalId + "_" + "approved";
    assert "approval_" + t.command.approvalId + "_rejected" == "approval_" + t.command.approvalId + "_" + "rejected";
  }

  /** A decision, in any step of any run: the approval, the request that follows it and the message, and no other
      record of any collection but the log. */
  lemma DecisionLeaves(db: Db, after: Db, t: Attempt)
    requires WellFormed(db) && Decides(db, after, t)
    ensures ApprovalDecided(db, after, t) && MessageWritten(db, after, t)
    ensures forall k :: RequestFollows(db, after, t, k)
    ensures forall k: Key | k.kind == Requests :: k in after <==> k in db
    ensures var subject := Key(Kind.Approvals, t.command.projectId, t.command.approvalId);
            forall k: Key | k.kind !in {Requests, Outbox, Activities} && k != subject ::
              (k in after <==> k in db) && (k in db ==> after[k] == db[k])
    ensures var deduplication := "approval_" + t.command.approvalId + if t.approved then "_approved" else "_rejected";
            forall k: Key | k.kind == Outbox && k != Key(Outbox, t.command.projectId, "obx_" + Sha256(deduplication)) ::
              (k in after <==> k in db) && (k in db ==> after[k] == db[k])
  {
    hide Decides, WellFormed, RequestFollows, MessageWritten, ApprovalDecided;
    ApprovalIsDecided(db, after, t);
    MessageIsWritten(db, after, t);
    MessageSays(t.command.projectId, t.command.approvalId, t.approved);
    forall k ensures Subject(db, t).Some? && RequestFollows(db, after, t, k) {
      RequestIsMoved(db, after, t, k);
    }
    forall k: Key | k.kind == Requests ensures k in after <==> k in db {
      DecisionRequests(db, after, t, k);
    }
    forall k: Key | k.kind !in {Requests, Outbox, Activities}
                    && k != Key(Kind.Approvals, t.command.projectId, t.command.approvalId)
      ensures (k in after <==> k in db) && (k in db ==> after[k] == db[k])
    {
      if k.kind == Kind.Approvals {
        OtherApprovalsKept(db, after, t, k);
      } else {
        DecisionElsewhere(db, after, t, k);
      }
    }
    forall k: Key | k.kind == Outbox && k != MessageKey(t.command.projectId, t.command.approvalId, t.approved)
      ensures (k in after <==> k in db) && (k in db ==> after[k] == db[k])
    {
      DecisionMessages(db, after, t, k);
    }
  }

  /** Only a manager or an admin of the approval's own project decides, under their own name, a command that names
      the project everywhere; whoever else asks changes nothing at all. */
  lemma OnlyApproversDecide(db: Db, t: Attempt)
    ensures var (after, outcome) := Commit(db, t);
            !Entitled(t) ==> after == db && outcome.Failure?
  {
    hide Mutate, SafeSpec;
  }

  /** A viewer or a foreman decides nothing, whatever the store holds. */
  lemma ForemanDecidesNothing(db: Db, t: Attempt)
    requires t.access.role in {Viewer, Foreman}
    ensures Commit(db, t).0 == db && Commit(db, t).1.Failure? && !DecidesNow(db, t)
  {
    hide Mutate, SafeSpec;
  }

  lemma DecidingIsFresh(db: Db, t: Attempt)
    requires Objection(t).None? && DecidesNow(db, t)
    ensures IsFresh(db, CallOf(t)) && Commit(db, t).0 == Mutate(db, CallOf(t)).0
  {
    hide Mutate, SpecOf;
  }

  /** What the log says of a decision: who decided what, with which notes, for which request. */
  lemma DecisionIsLogged(db: Db, t: Attempt)
    requires WellFormed(db) && ValidContext(t.context) && Objection(t).None? && DecidesNow(db, t)
    ensures var c := t.context;
            var k := Key(Activities, c.projectId, ActivityIdOf(c.projectId, c.actorId, c.idempotencyKey));
            var after := Commit(db, t).0;
            var word := if t.approved then "approved" else "rejected";
            && k !in db && k in after && after[k].entity.ActivityEntity?
            && var e := after[k].entity.activity;
               && e.actorType == c.actorType && e.actorId == c.actorId && e.createdAt == c.occurredAt
               && e.action == "approval." + word && e.entityType == "approval" && e.entityId == t.command.approvalId
               && e.summary == "Approval " + word
               && e.metadata.Keys >= {"notes", "status", "approval_id", "material_request_id", "reason"}
               && e.metadata["notes"] == t.command.notes && e.metadata["status"] == Some(word)
               && e.metadata["approval_id"] == Some(t.command.approvalId)
               && e.metadata["material_request_id"] == t.requestId
               && e.metadata["reason"] == Some("human_approval_decision")
  {
    hide Mutate, WellFormed, ValidContext, BuildEvent, ApplyResolution, Sound, SafeSpec, IsFresh,
         ResolutionEffect, ReplayEffect;
    AttemptIsSound(t);
    DecidingIsFresh(db, t);
    FreshEventSays(db, CallOf(t));
  }

  /** An event that says that the decision on this approval moved the request. */
  ghost predicate MoveNoted(db: Db, context: MutationContext, requestId: string, approvalId: string, approved: bool) {
    var word := if approved then "approved" else "cancelled";
    var key := "request-resolution:" + Sha256(context.idempotencyKey);
    var k := Key(Activities, context.projectId, ActivityIdOf(context.projectId, context.actorId, key));
    && k in db && db[k].entity.ActivityEntity?
    && var e := db[k].entity.activity;
       && e.action == "material_request." + word && e.entityType == "material_request" && e.entityId == requestId
       && e.actorType == context.actorType && e.actorId == context.actorId
       && e.summary == "Material request " + word + "."
       && "approval_id" in e.metadata && e.metadata["approval_id"] == Some(approvalId)
  }

  lemma MoveNotes(db: Db, r: MaterialRequest, context: MutationContext, a: Approval, approved: bool, at: int)
    requires MoveRequest(db, r, context, a, approved, at).Success?
    ensures MoveNoted(MoveRequest(db, r, context, a, approved, at).value, context, r.id, a.id, approved)
  {
    hide Valid;
    EventPlace(RequestEvent(context, r.id, a.id, approved));
  }

  lemma NotedStays(before: Db, after: Db, context: MutationContext, requestId: string, approvalId: string,
                   approved: bool)
    requires AppendOnly(before, after) && MoveNoted(before, context, requestId, approvalId, approved)
    ensures MoveNoted(after, context, requestId, approvalId, approved)
  {
  }

  lemma DecideNotes(db: Db, a: Approval, access: AccessContext, command: Command, context: MutationContext,
                    approved: bool, now: int)
    requires WellFormed(db) && Decide(db, a, access, command, context, approved, now).Success?
    requires Mover(db, a).Some?
    ensures MoveNoted(Decide(db, a, access, command, context, approved, now).value.0, context, Mover(db, a).value.id,
                      a.id, approved)
  {
    hide SaveIn, Valid, MoveRequest, MoveNoted, LinkOf, LegalEvent, WellFormed, WithVersion;
    var saved := SaveIn(db, ApprovalEntity(Decided(a, approved, access.userId, command)),
                        command.expectedVersion).value;
    MoveNotes(saved, Mover(db, a).value, context, a, approved, command.occurredAt);
    var moved := MoveRequest(saved, Mover(db, a).value, context, a, approved, command.occurredAt).value;
    NotedStays(moved, Decide(db, a, access, command, context, approved, now).value.0, context, Mover(db, a).value.id,
               a.id, approved);
  }

  /** What the log says of the request that a decision moves. */
  lemma MoveIsLogged(db: Db, t: Attempt)
    requires WellFormed(db) && ValidContext(t.context) && Objection(t).None? && DecidesNow(db, t)
    requires Mover(db, Subject(db, t).value).Some?
    ensures MoveNoted(Commit(db, t).0, t.context, Mover(db, Subject(db, t).value).value.id, t.command.approvalId,
                      t.approved)
  {
    hide Mutate, WellFormed, ValidContext, BuildEvent, Decide, MoveNoted, Mover, SpecOf,
         CreateEvents, Fence, AppendOnly;
    var a, call := Subject(db, t).value, CallOf(t);
    DecidesNowMeans(db, t);
    FreshMeans(db, call);
    ResolutionDecides(db, t);
    DecideNotes(db, a, t.access, t.command, t.context, t.approved, t.now);
    CreateEventsExtend(call.body(db).value.0, [Expected(call)] + MissingOrConflict(db, call.additional).value);
    NotedStays(call.body(db).value.0, Commit(db, t).0, t.context, Mover(db, a).value.id, a.id, t.approved);
  }

  /** The mover is the request that follows the approval. */
  lemma MoverFollows(db: Db, t: Attempt, r: MaterialRequest)
    requires WellFormed(db) && Subject(db, t).Some? && Mover(db, Subject(db, t).value) == Some(r)
    ensures var k := Key(Requests, t.command.projectId, r.id);
            k in db && db[k].entity == RequestEntity(r) && Follows(db, t, k)
  {
    hide LinkOf, WellFormed;
    var a := Subject(db, t).value;
    ApprovalPlace(db, t);
    LinkOfIsStored(db, a, r);
    OnlyLinkIsSole(db, a, r);
    OnlyIsSole(db, t, Key(Requests, t.command.projectId, r.id));
  }

  lemma ApprovalPlace(db: Db, t: Attempt)
    requires WellFormed(db) && Subject(db, t).Some?
    ensures Subject(db, t).value.projectId == t.command.projectId && Subject(db, t).value.id == t.command.approvalId
  {
    var k := Key(Kind.Approvals, t.command.projectId, t.command.approvalId);
    assert KeyOf(db[k].entity) == k;
  }

  // ----- the exact condition -----

  /** Two stored requests name the approval. */
  ghost predicate NamedTwice(db: Db, t: Attempt) {
    exists x, y :: x != y && Names(db, t, x) && Names(db, t, y)
  }

  ghost predicate Names(db: Db, t: Attempt, k: Key) {
    && k in db && k.kind == Requests && k.project == t.command.projectId && db[k].entity.RequestEntity?
    && db[k].entity.request.approvalId == Some(t.command.approvalId)
  }

  lemma {:induction false} LinkedAmongDistinct(entities: seq<Entity>, approvalId: string)
    requires forall i, j | 0 <= i < j < |entities| :: entities[i] != entities[j]
    ensures var linked := LinkedAmong(entities, approvalId);
            forall i, j | 0 <= i < j < |linked| :: linked[i] != linked[j]
    decreases |entities|
  {
    if entities != [] {
      var n := |entities| - 1;
      var linked, last := LinkedAmong(entities[..n], approvalId), entities[n];
      LinkedAmongDistinct(entities[..n], approvalId);
      if IsLinked(last, approvalId) {
        NotLinkedBefore(entities[..n], approvalId, last);
        var all := LinkedAmong(entities, approvalId);
        assert all == linked + [last.request];
        forall i, j | 0 <= i < j < |all| ensures all[i] != all[j] {
          assert all[i] == linked[i] && linked[i] in linked;
          assert j < |linked| ==> all[j] == linked[j];
        }
      }
    }
  }

  lemma NotLinkedBefore(entities: seq<Entity>, approvalId: string, last: Entity)
    requires IsLinked(last, approvalId) && last !in entities
    ensures last.request !in LinkedAmong(entities, approvalId)
  {
    if last.request in LinkedAmong(entities, approvalId) {
      LinkedAmongMember(entities, approvalId, last.request);
    }
  }

  lemma ListingIsDistinct(db: Db, project: string)
    requires WellFormed(db)
    ensures var entities := EntitiesIn(db, Requests, project);
            forall i, j | 0 <= i < j < |entities| :: entities[i] != entities[j]
  {
    var ids, entities := SortedIds(IdsIn(db, Requests, project)), EntitiesIn(db, Requests, project);
    SortedIdsAscending(IdsIn(db, Requests, project));
    forall i, j | 0 <= i < j < |entities| ensures entities[i] != entities[j] {
      ListedAt(db, Requests, project, i);
      ListedAt(db, Requests, project, j);
      var ki, kj := Key(Requests, project, ids[i]), Key(Requests, project, ids[j]);
      assert KeyOf(db[ki].entity) == ki && KeyOf(db[kj].entity) == kj;
    }
  }

  lemma LinkedIsDistinct(db: Db, project: string, approvalId: string)
    requires WellFormed(db) && |Linked(db, project, approvalId)| > 1
    ensures var linked := Linked(db, project, approvalId);
            linked[0] in linked && linked[1] in linked && linked[0] != linked[1]
  {
    hide WellFormed, EntitiesIn, LinkedAmong;
    ListingIsDistinct(db, project);
    LinkedAmongDistinct(EntitiesIn(db, Requests, project), approvalId);
    assert Linked(db, project, approvalId) == LinkedAmong(EntitiesIn(db, Requests, project), approvalId);
  }

  lemma SeveralAreNamedTwice(db: Db, t: Attempt)
    requires WellFormed(db) && |Linked(db, t.command.projectId, t.command.approvalId)| > 1
    ensures NamedTwice(db, t)
  {
    hide WellFormed, Linked;
    var project, id := t.command.projectId, t.command.approvalId;
    var linked := Linked(db, project, id);
    LinkedIsDistinct(db, project, id);
    LinkIsStored(db, project, id, linked[0]);
    LinkIsStored(db, project, id, linked[1]);
    var x, y := RequestKey(project, linked[0].id), RequestKey(project, linked[1].id);
    assert x != y && Names(db, t, x) && Names(db, t, y);
  }

  lemma NamedTwiceAreSeveral(db: Db, t: Attempt)
    requires WellFormed(db) && NamedTwice(db, t)
    ensures |Linked(db, t.command.projectId, t.command.approvalId)| > 1
  {
    hide WellFormed, Linked;
    var project, id := t.command.projectId, t.command.approvalId;
    var x, y :| x != y && Names(db, t, x) && Names(db, t, y);
    LinkedIsComplete(db, project, id, x);
    LinkedIsComplete(db, project, id, y);
    PlaceIsKey(db, x);
    PlaceIsKey(db, y);
    TwoMembers(Linked(db, project, id), db[x].entity.request, db[y].entity.request);
  }

  /** The link is ambiguous exactly when two stored requests name a purchase approval. */
  lemma AmbiguousIsNamedTwice(db: Db, t: Attempt)
    requires WellFormed(db) && Subject(db, t).Some?
    ensures var a := Subject(db, t).value;
            LinkOf(db, a).Failure? <==> a.actionType == Purchase && NamedTwice(db, t)
  {
    hide WellFormed, Linked, NamedTwice;
    ApprovalPlace(db, t);
    if NamedTwice(db, t) {
      NamedTwiceAreSeveral(db, t);
    } else if |Linked(db, t.command.projectId, t.command.approvalId)| > 1 {
      SeveralAreNamedTwice(db, t);
    }
  }

  /** Who may decide: a manager or an admin of the project that the command and the context name, as themselves. */
  predicate Entitled(t: Attempt) {
    && t.access.role in {Manager, Admin}
    && t.access.projectId == t.command.projectId == t.context.projectId
    && (t.context.actorType == User ==> t.context.actorId == Some(t.access.userId))
  }

  /** The identifier under which the log would hold an event of this context's scope with that key. */
  function LogKey(c: MutationContext, key: string): Key {
    Key(Activities, c.projectId, ActivityIdOf(c.projectId, c.actorId, key))
  }

  /** The approval's ID is canonical, and it, the notes and the request's ID may be shown. */
  predicate Showable(t: Attempt) {
    && CanonicalId(t.command.approvalId) && !Restricted(t.command.approvalId)
    && (t.command.notes.Some? ==> !Restricted(t.command.notes.value))
    && (t.requestId.Some? ==> |t.requestId.value| <= 5000 && !Restricted(t.requestId.value))
  }

  lemma SafeIsShowable(t: Attempt)
    ensures SafeSpec(t) <==> Showable(t) && (t.command.notes.Some? ==> |t.command.notes.value| <= 5000)
  {
    hide Restricted;
  }

  /** Everything a decision needs, as a caller can check it: the approval is pending at the expected version, no two
      requests name a purchase, the times are in order, notes that are given have content and at most 5,000
      characters, the key leaves room for its suffix, the texts may be shown, the confirmation holds, and the
      identifiers of the decision's event and of the move's are free and differ. */
  ghost predicate MayDecide(db: Db, t: Attempt) {
    var key := t.context.idempotencyKey;
    var moveKey := "request-resolution:" + Sha256(key);
    && Subject(db, t).Some? && Subject(db, t).value.status == ApprovalStatus.Pending
    && t.command.expectedVersion == Some(Subject(db, t).value.version)
    && !(Subject(db, t).value.actionType == Purchase && NamedTwice(db, t))
    && Subject(db, t).value.requestedAt <= t.command.occurredAt <= t.now
    && (t.command.notes.Some? ==> !Blank(t.command.notes.value) && |t.command.notes.value| <= 5000)
    && |key| <= 249 && Showable(t) && Fence(db, t.context).None?
    && LogKey(t.context, key) !in db
    && ((exists k :: k in db && k.kind == Requests && db[k].entity.RequestEntity? && Follows(db, t, k)) ==>
          LogKey(t.context, moveKey) !in db && LogKey(t.context, moveKey) != LogKey(t.context, key))
  }

  /** An attempt decides if and only if its caller is entitled and it meets these conditions. */
  lemma DecidesIff(db: Db, t: Attempt)
    requires WellFormed(db) && ValidContext(t.context)
    ensures DecidesNow(db, t) <==> Entitled(t) && MayDecide(db, t)
  {
    hide WellFormed, DecidesNow, MayDecide, ValidContext;
    OnlyApproversDecide(db, t);
    FailedDoesNotDecide(db, t);
    EntitledIsNoObjection(t);
    if Entitled(t) {
      DecidesExactly(db, t);
      ReadyIsMayDecide(db, t);
    }
  }

  lemma FailedDoesNotDecide(db: Db, t: Attempt)
    ensures DecidesNow(db, t) ==> Commit(db, t).1.Success?
  {
    hide Commit;
  }

  lemma EntitledIsNoObjection(t: Attempt)
    ensures Entitled(t) <==> Objection(t).None?
  {
  }

  lemma MoverIffFollower(db: Db, t: Attempt)
    requires WellFormed(db) && Subject(db, t).Some? && LinkOf(db, Subject(db, t).value).Success?
    ensures Mover(db, Subject(db, t).value).Some? <==>
            exists k :: k in db && k.kind == Requests && db[k].entity.RequestEntity? && Follows(db, t, k)
  {
    hide LinkOf, WellFormed, OnlyRequest, Mover;
    var a := Subject(db, t).value;
    ApprovalPlace(db, t);
    if Mover(db, a).Some? {
      MoverFollows(db, t, Mover(db, a).value);
    }
    if k :| k in db && k.kind == Requests && db[k].entity.RequestEntity? && Follows(db, t, k) {
      OnlyInProject(db, t, k);
      OnlyIsSole(db, t, k);
      SoleLinkIsLinked(db, a.projectId, a.id, k.id);
      SoleMover(db, a, db[k].entity.request);
    }
  }

  lemma SoleMover(db: Db, a: Approval, r: MaterialRequest)
    requires a.actionType == Purchase && Linked(db, a.projectId, a.id) == [r]
    requires r.status in {RequestStatus.Proposed, RequestStatus.AwaitingApproval}
    ensures Mover(db, a) == Some(r)
  {
    hide Linked;
  }

  lemma EventsAreLogKeys(t: Attempt, requestId: string, approvalId: string)
    ensures EventKey(Expected(CallOf(t))) == LogKey(t.context, t.context.idempotencyKey)
    ensures EventKey(RequestEvent(t.context, requestId, approvalId, t.approved)) ==
            LogKey(t.context, "request-resolution:" + Sha256(t.context.idempotencyKey))
  {
    hide ActivityIdOf, SpecOf;
  }

  lemma LegalMeans(command: Command, context: MutationContext, now: int)
    ensures LegalEvent(command, context, now) <==>
            && command.occurredAt <= now && |context.idempotencyKey| <= 249
            && (command.notes.Some? ==> !Blank(command.notes.value) && |command.notes.value| <= 5000)
  {
  }

  lemma ReadyIsMayDecide(db: Db, t: Attempt)
    requires WellFormed(db) && Entitled(t)
    ensures Ready(db, t) <==> MayDecide(db, t)
  {
    hide WellFormed, SafeSpec, Showable, Fence, NamedTwice, Mover, LinkOf, Follows, LegalEvent,
         LogKey, Expected, CallOf,
         RequestEvent, EventKey, Blank;
    SafeIsShowable(t);
    LegalMeans(t.command, t.context, t.now);
    if Subject(db, t).Some? {
      var a := Subject(db, t).value;
      ApprovalPlace(db, t);
      AmbiguousIsNamedTwice(db, t);
      if LinkOf(db, a).Success? {
        MoverIffFollower(db, t);
        EventsAreLogKeys(t, if Mover(db, a).Some? then Mover(db, a).value.id else "", a.id);
      }
    }
  }

  // ----- what the service reads before, and what it answers -----

  /** The run at `k` is the only one of the project that the event triggered. */
  ghost predicate OnlyRun(db: Db, project: string, eventId: string, k: Key) {
    && k in db && k.kind == Runs && k.project == project && db[k].entity.RunEntity?
    && db[k].entity.run.triggerEventId == eventId
    && forall other | other in db && other.kind == Runs && other.project == project && db[other].entity.RunEntity?
                      && db[other].entity.run.triggerEventId == eventId :: other == k
  }

  lemma {:induction false} RunsAmongOne(entities: seq<Entity>, eventId: string, n: nat)
    requires n < |entities| && entities[n].RunEntity? && entities[n].run.triggerEventId == eventId
    requires forall i | 0 <= i < |entities| && i != n ::
               !(entities[i].RunEntity? && entities[i].run.triggerEventId == eventId)
    ensures RunsAmong(entities, eventId) == [entities[n].run]
    decreases |entities|
  {
    var last := |entities| - 1;
    if n < last {
      RunsAmongOne(entities[..last], eventId, n);
    } else {
      RunsAmongNone(entities[..last], eventId);
    }
  }

  lemma {:induction false} RunsAmongNone(entities: seq<Entity>, eventId: string)
    requires forall i | 0 <= i < |entities| :: !(entities[i].RunEntity? && entities[i].run.triggerEventId == eventId)
    ensures RunsAmong(entities, eventId) == []
    decreases |entities|
  {
    if entities != [] {
      RunsAmongNone(entities[..|entities| - 1], eventId);
    }
  }

  lemma OnlyRunIsFound(db: Db, project: string, eventId: string, k: Key)
    requires OnlyRun(db, project, eventId, k)
    ensures RunsAmong(EntitiesIn(db, Runs, project), eventId) == [db[k].entity.run]
  {
    var ids, entities := SortedIds(IdsIn(db, Runs, project)), EntitiesIn(db, Runs, project);
    SortedIdsAscending(IdsIn(db, Runs, project));
    assert k == Key(Runs, project, k.id) && k.id in IdsIn(db, Runs, project);
    var n :| 0 <= n < |ids| && ids[n] == k.id;
    forall i | 0 <= i < |entities| && i != n
      ensures !(entities[i].RunEntity? && entities[i].run.triggerEventId == eventId)
    {
      ListedAt(db, Runs, project, i);
    }
    RunsAmongOne(entities, eventId, n);
  }

  /** Before the transaction a purchase decision is tied to the request that names it and to the run that the request's
      event triggered: the event unless the context names one, the run unless the context names another. */
  lemma CausalityIsRead(db: Db, order: Order, kr: Key, ku: Key)
    requires WellFormed(db) && Subject(db, Plain(order, 0)).Some?
    requires Subject(db, Plain(order, 0)).value.actionType == Purchase && OnlyRequest(db, Plain(order, 0), kr)
    requires OnlyRun(db, order.command.projectId, db[kr].entity.request.sourceEventId, ku)
    ensures var c, r, run := order.context, db[kr].entity.request, db[ku].entity.run;
            EnrichmentOf(db, order) ==
            if c.agentRunId.Some? && c.agentRunId != Some(run.id) then Failure(ApprovalFailed)
            else
              var source := if c.sourceEventId.Some? && c.sourceEventId.value != "" then c.sourceEventId
                            else Some(r.sourceEventId);
              Success((c.(sourceEventId := source, agentRunId := Some(run.id)), Some(r.id)))
  {
    hide WellFormed, OnlyRequest, OnlyRun, LinkedAmong, RunsAmong, EntitiesIn;
    OnlyIsLinked(db, order, kr);
    OnlyRunIsFound(db, order.command.projectId, db[kr].entity.request.sourceEventId, ku);
  }

  lemma OnlyRequestPlace(db: Db, t: Attempt, k: Key)
    requires OnlyRequest(db, t, k)
    ensures k in db && k.kind == Requests && db[k].entity.RequestEntity? && k == RequestKey(t.command.projectId, k.id)
  {
  }

  /** A decision that is no purchase is tied to nothing. */
  lemma OthersAreNotTied(db: Db, order: Order)
    requires Subject(db, Plain(order, 0)).Some? && Subject(db, Plain(order, 0)).value.actionType != Purchase
    ensures EnrichmentOf(db, order) == Success((order.context, None))
  {
  }

  /** The run at `k` was triggered by the event. */
  ghost predicate Triggered(db: Db, project: string, eventId: string, k: Key) {
    && k in db && k.kind == Runs && k.project == project && db[k].entity.RunEntity?
    && db[k].entity.run.triggerEventId == eventId
  }

  lemma {:induction false} RunsAmongHolds(entities: seq<Entity>, eventId: string, n: nat)
    requires n < |entities| && entities[n].RunEntity? && entities[n].run.triggerEventId == eventId
    ensures entities[n].run in RunsAmong(entities, eventId)
    decreases |entities|
  {
    var last := |entities| - 1;
    if n < last {
      RunsAmongHolds(entities[..last], eventId, n);
      assert entities[..last][n] == entities[n];
    }
  }

  lemma RunIsFound(db: Db, project: string, eventId: string, k: Key)
    requires Triggered(db, project, eventId, k)
    ensures db[k].entity.run in RunsAmong(EntitiesIn(db, Runs, project), eventId)
  {
    hide RunsAmong;
    var ids := SortedIds(IdsIn(db, Runs, project));
    SortedIdsAscending(IdsIn(db, Runs, project));
    assert k == Key(Runs, project, k.id) && k.id in IdsIn(db, Runs, project);
    var n :| 0 <= n < |ids| && ids[n] == k.id;
    ListedAt(db, Runs, project, n);
    RunsAmongHolds(EntitiesIn(db, Runs, project), eventId, n);
  }

  lemma SeveralRunsAreFound(db: Db, project: string, eventId: string, x: Key, y: Key)
    requires WellFormed(db) && x != y && Triggered(db, project, eventId, x) && Triggered(db, project, eventId, y)
    ensures |RunsAmong(EntitiesIn(db, Runs, project), eventId)| > 1
  {
    hide RunsAmong, EntitiesIn;
    RunIsFound(db, project, eventId, x);
    RunIsFound(db, project, eventId, y);
    assert KeyOf(db[x].entity) == x && KeyOf(db[y].entity) == y;
    TwoMembers(RunsAmong(EntitiesIn(db, Runs, project), eventId), db[x].entity.run, db[y].entity.run);
  }

  lemma NoRunIsFound(db: Db, project: string, eventId: string)
    requires forall k :: !Triggered(db, project, eventId, k)
    ensures RunsAmong(EntitiesIn(db, Runs, project), eventId) == []
  {
    hide RunsAmong;
    var ids, entities := SortedIds(IdsIn(db, Runs, project)), EntitiesIn(db, Runs, project);
    forall i | 0 <= i < |entities| ensures !(entities[i].RunEntity? && entities[i].run.triggerEventId == eventId) {
      ListedAt(db, Runs, project, i);
      assert !Triggered(db, project, eventId, Key(Runs, project, ids[i]));
    }
    RunsAmongNone(entities, eventId);
  }

  lemma NoLinkIsFound(db: Db, t: Attempt)
    requires forall k :: !Names(db, t, k)
    ensures Linked(db, t.command.projectId, t.command.approvalId) == []
  {
    hide LinkedAmong;
    var project, id := t.command.projectId, t.command.approvalId;
    var ids, entities := SortedIds(IdsIn(db, Requests, project)), EntitiesIn(db, Requests, project);
    forall i | 0 <= i < |entities| ensures !IsLinked(entities[i], id) {
      ListedAt(db, Requests, project, i);
      assert !Names(db, t, Key(Requests, project, ids[i]));
    }
    LinkedAmongNone(entities, id);
  }

  /** A purchase that no request names is tied to nothing. */
  lemma UnnamedIsNotTied(db: Db, order: Order)
    requires WellFormed(db) && Subject(db, Plain(order, 0)).Some?
    requires forall k :: !Names(db, Plain(order, 0), k)
    ensures EnrichmentOf(db, order) == Success((order.context, None))
  {
    hide WellFormed, Names, Linked, RunsAmong, EntitiesIn;
    ApprovalPlace(db, Plain(order, 0));
    NoLinkIsFound(db, Plain(order, 0));
  }

  /** A purchase whose request's event triggered no run is tied to that request alone. */
  lemma RunlessIsTied(db: Db, order: Order, kr: Key)
    requires WellFormed(db) && Subject(db, Plain(order, 0)).Some?
    requires Subject(db, Plain(order, 0)).value.actionType == Purchase && OnlyRequest(db, Plain(order, 0), kr)
    requires forall k :: !Triggered(db, order.command.projectId, db[kr].entity.request.sourceEventId, k)
    ensures EnrichmentOf(db, order) == Success((order.context, Some(db[kr].entity.request.id)))
  {
    hide WellFormed, OnlyRequest, Triggered, LinkedAmong, RunsAmong, EntitiesIn;
    OnlyIsLinked(db, order, kr);
    NoRunIsFound(db, order.command.projectId, db[kr].entity.request.sourceEventId);
  }

  lemma OnlyIsLinked(db: Db, order: Order, kr: Key)
    requires WellFormed(db) && Subject(db, Plain(order, 0)).Some? && OnlyRequest(db, Plain(order, 0), kr)
    ensures kr in db && db[kr].entity.RequestEntity?
    ensures Linked(db, order.command.projectId, order.command.approvalId) == [db[kr].entity.request]
  {
    hide WellFormed, OnlyRequest, LinkedAmong, EntitiesIn;
    var t := Plain(order, 0);
    ApprovalPlace(db, t);
    OnlyRequestPlace(db, t, kr);
    OnlyIsSole(db, t, kr);
    SoleLinkIsLinked(db, order.command.projectId, order.command.approvalId, kr.id);
  }

  /** A purchase that two requests name cannot be tied. */
  lemma NamedTwiceIsRefused(db: Db, order: Order)
    requires WellFormed(db) && Subject(db, Plain(order, 0)).Some?
    requires Subject(db, Plain(order, 0)).value.actionType == Purchase && NamedTwice(db, Plain(order, 0))
    ensures EnrichmentOf(db, order) == Failure(ApprovalFailed)
  {
    hide WellFormed, NamedTwice, Linked, RunsAmong, EntitiesIn;
    ApprovalPlace(db, Plain(order, 0));
    NamedTwiceAreSeveral(db, Plain(order, 0));
  }

  /** Nor can one whose request's event triggered two runs. */
  lemma TwoRunsAreRefused(db: Db, order: Order, kr: Key, x: Key, y: Key)
    requires WellFormed(db) && Subject(db, Plain(order, 0)).Some?
    requires Subject(db, Plain(order, 0)).value.actionType == Purchase && OnlyRequest(db, Plain(order, 0), kr)
    requires x != y && Triggered(db, order.command.projectId, db[kr].entity.request.sourceEventId, x)
    requires Triggered(db, order.command.projectId, db[kr].entity.request.sourceEventId, y)
    ensures EnrichmentOf(db, order) == Failure(ApprovalFailed)
  {
    hide WellFormed, OnlyRequest, Triggered, LinkedAmong, RunsAmong, EntitiesIn;
    OnlyIsLinked(db, order, kr);
    SeveralRunsAreFound(db, order.command.projectId, db[kr].entity.request.sourceEventId, x, y);
  }

  /** The identifier of the message that announces this outcome, if the store has it. */
  function AnnouncedAs(db: Db, t: Attempt, approved: bool): Option<string> {
    var id := "obx_" + Sha256("approval_" + t.command.approvalId + if approved then "_approved" else "_rejected");
    if Key(Outbox, t.command.projectId, id) in db then Some(id) else None
  }

  lemma AnnouncedAtMessageKey(db: Db, t: Attempt, approved: bool)
    ensures AnnouncedAs(db, t, approved) ==
            var k := MessageKey(t.command.projectId, t.command.approvalId, approved);
            if k in db then Some(k.id) else None
  {
    MessageSays(t.command.projectId, t.command.approvalId, approved);
  }

  /** What the transaction answers for an approval that is not pending, and what it refuses, without writing: another
      version than the expected one first, then another outcome than the one that stands. */
  lemma SettledIsAnswered(db: Db, t: Attempt)
    requires WellFormed(db) && Entitled(t) && Subject(db, t).Some?
    requires Subject(db, t).value.status != ApprovalStatus.Pending
    ensures var a := Subject(db, t).value;
            var stands := a.status == if t.approved then ApprovalStatus.Approved else ApprovalStatus.Rejected;
            ApplyResolution(db, t.access, t.command, t.context, t.approved, t.now) ==
            if t.command.expectedVersion.Some? && t.command.expectedVersion != Some(a.version)
              then Failure(VersionConflict)
            else if stands then Success((db, (a, AnnouncedAs(db, t, t.approved))))
            else Failure(ApprovalFailed)
  {
    ApprovalPlace(db, t);
    AnnouncedAtMessageKey(db, t, t.approved);
    var k := Key(Kind.Approvals, t.command.projectId, t.command.approvalId);
    assert db[k].version == db[k].entity.approval.version;
    hide WellFormed, Decide;
  }

  /** What a duplicate is answered from: the approval as it is stored now, and the message of its own outcome. */
  lemma DuplicateIsAnswered(db: Db, t: Attempt)
    requires WellFormed(db) && Entitled(t) && Subject(db, t).Some?
    ensures var a := Subject(db, t).value;
            Approvals.Replay(db, t.access, t.command) ==
            Success((db, (a, if a.status == ApprovalStatus.Approved then AnnouncedAs(db, t, true)
                             else if a.status == ApprovalStatus.Rejected then AnnouncedAs(db, t, false)
                             else None)))
  {
    ApprovalPlace(db, t);
    AnnouncedAtMessageKey(db, t, true);
    AnnouncedAtMessageKey(db, t, false);
    hide WellFormed;
  }
}
