/** When a decision goes through: the exact conditions, so that a service that refused too much would be
    noticed as well as one that allowed too much. */
module ApprovalProgress {
  import opened Foundations
  import opened Models
  import opened Repository
  import opened Access
  import opened Activity
  import opened Approvals
  import opened ApprovalEffects
  import opened ApprovalRuns
  import opened Texts

  /** The linked request that a decision would move, if any. */
  function Mover(db: Db, a: Approval): Option<MaterialRequest> {
    var link := LinkOf(db, a);
    if link.Success? && link.value.Some? && Awaits(link.value.value.status) then link.value else None
  }

  /** The event that moving the linked request would record is still free. */
  predicate MoveIsFree(db: Db, a: Approval, context: MutationContext, approved: bool) {
    Mover(db, a).Some? ==> EventKey(RequestEvent(context, Mover(db, a).value.id, a.id, approved)) !in db
  }

  predicate Decidable(db: Db, a: Approval, access: AccessContext, command: Command, context: MutationContext,
                      approved: bool, now: int) {
    && LinkOf(db, a).Success?
    && Refusal(access, a.projectId, MayOperate).None?
    && command.expectedVersion == Some(a.version)
    && a.requestedAt <= command.occurredAt && LegalEvent(command, context, now)
    && MoveIsFree(db, a, context, approved)
  }

  lemma ApprovalSavedExactly(db: Db, a: Approval, resolver: string, command: Command, approved: bool)
    requires WellFormed(db) && ReadApproval(db, command.projectId, command.approvalId) == Some(a)
    ensures a.projectId == command.projectId && a.id == command.approvalId
    ensures SaveIn(db, ApprovalEntity(Decided(a, approved, resolver, command)), command.expectedVersion).Success? <==>
            command.expectedVersion == Some(a.version) && a.requestedAt <= command.occurredAt
  {
    var ka := ApprovalKey(command.projectId, command.approvalId);
    assert KeyOf(db[ka].entity) == ka && db[ka].version == a.version;
    var decided := ApprovalEntity(Decided(a, approved, resolver, command));
    assert KeyOf(decided) == ka;
    assert Valid(WithVersion(decided, db[ka].version + 1)) <==> a.requestedAt <= command.occurredAt;
  }

  lemma MovedExactly(db: Db, r: MaterialRequest, context: MutationContext, a: Approval, approved: bool, at: int)
    requires ValidContext(context) && r.approvalId.Some?
    requires RequestKey(r.projectId, r.id) in db
    requires db[RequestKey(r.projectId, r.id)].entity == RequestEntity(r) && ValidRequest(r)
    ensures MoveRequest(db, r, context, a, approved, at).Success? <==>
            EventKey(RequestEvent(context, r.id, a.id, approved)) !in db
  {
    var moved := RequestEntity(MovedRequest(r, approved, at));
    var event := RequestEvent(context, r.id, a.id, approved);
    assert KeyOf(moved) == RequestKey(r.projectId, r.id);
    assert Valid(moved) && WithVersion(moved, db[KeyOf(moved)].version + 1) == moved;
    assert ValidEvent(event);
    hide RequestEvent, MovedRequest, BuildEvent;
    CreateEvent(db[KeyOf(moved) := Record(moved, db[KeyOf(moved)].version + 1)], event);
  }

  lemma StageExactly(db: Db, saved: Db, a: Approval, context: MutationContext, approved: bool, at: int)
    requires WellFormed(db) && ValidContext(context) && LinkOf(db, a).Success?
    requires forall k: Key | k.kind == Requests || k.kind == Activities ::
             (k in saved <==> k in db) && (k in db ==> saved[k] == db[k])
    ensures RequestStage(db, saved, a, context, approved, at).Success? <==> MoveIsFree(db, a, context, approved)
  {
    hide MoveRequest, LinkOf, RequestEvent;
    if Mover(db, a).Some? {
      var r := Mover(db, a).value;
      LinkOfIsStored(db, a, r);
      StoredRequestIsValid(db, r, a.projectId);
      MovedExactly(saved, r, context, a, approved, at);
    }
  }

  lemma StoredRequestIsValid(db: Db, r: MaterialRequest, project: string)
    requires WellFormed(db) && RequestKey(project, r.id) in db
    requires db[RequestKey(project, r.id)].entity == RequestEntity(r)
    ensures ValidRequest(r)
  {
  }

  lemma MessageFits(db: Db, moved: Db, a: Approval, approved: bool, command: Command)
    requires a.projectId == command.projectId && a.id == command.approvalId
    requires MessageKey(a.projectId, a.id, approved) !in moved
    ensures CreateIn(moved, OutboxEntity(DecisionMessage(command, approved))).Success?
  {
    assert KeyOf(OutboxEntity(DecisionMessage(command, approved))) == MessageKey(a.projectId, a.id, approved);
  }

  lemma StageKeepsOutbox(db: Db, saved: Db, a: Approval, context: MutationContext, approved: bool, at: int, k: Key)
    requires LinkOf(db, a).Success? && RequestStage(db, saved, a, context, approved, at).Success? && k.kind == Outbox
    ensures k in RequestStage(db, saved, a, context, approved, at).value <==> k in saved
  {
    hide LinkOf, RequestEvent, MovedRequest, Valid;
  }

  lemma SavedKeepsOthers(db: Db, a: Approval, resolver: string, command: Command, approved: bool)
    requires SaveIn(db, ApprovalEntity(Decided(a, approved, resolver, command)), command.expectedVersion).Success?
    ensures var saved := SaveIn(db, ApprovalEntity(Decided(a, approved, resolver, command)),
                                command.expectedVersion).value;
            forall k: Key | k.kind != Kind.Approvals :: (k in saved <==> k in db) && (k in db ==> saved[k] == db[k])
  {
  }

  /** Deciding a pending approval succeeds exactly when the link is not ambiguous, the resolver may operate,
      the version is the current one, the times are in order, the decision's event is legal (no blank notes, no
      key above 249 characters), and the request's event is free. */
  lemma DecideExactly(db: Db, a: Approval, access: AccessContext, command: Command, context: MutationContext,
                      approved: bool, now: int)
    requires WellFormed(db) && ValidContext(context)
    requires ReadApproval(db, command.projectId, command.approvalId) == Some(a)
    ensures Decide(db, a, access, command, context, approved, now).Success? <==>
            Decidable(db, a, access, command, context, approved, now)
  {
    hide SaveIn, CreateIn, RequestStage, WellFormed, LinkOf, MoveIsFree, WithVersion, ValidContext;
    ApprovalSavedExactly(db, a, access.userId, command, approved);
    var save := SaveIn(db, ApprovalEntity(Decided(a, approved, access.userId, command)), command.expectedVersion);
    if LinkOf(db, a).Success? && save.Success? {
      SavedKeepsOthers(db, a, access.userId, command, approved);
      StageExactly(db, save.value, a, context, approved, command.occurredAt);
      var stage := RequestStage(db, save.value, a, context, approved, command.occurredAt);
      var km := MessageKey(command.projectId, a.id, approved);
      if stage.Success? && km !in db {
        StageKeepsOutbox(db, save.value, a, context, approved, command.occurredAt, km);
        MessageFits(db, stage.value, a, approved, command);
      }
    }
  }

  lemma StageAddsEvent(db: Db, saved: Db, a: Approval, context: MutationContext, approved: bool, at: int, k: Key)
    requires LinkOf(db, a).Success? && RequestStage(db, saved, a, context, approved, at).Success?
    requires k.kind == Activities
    ensures k in RequestStage(db, saved, a, context, approved, at).value <==>
            k in saved || (Mover(db, a).Some?
                           && k == EventKey(RequestEvent(context, Mover(db, a).value.id, a.id, approved)))
  {
    hide LinkOf, RequestEvent, MovedRequest, Valid;
    if Mover(db, a).Some? {
      var event := RequestEvent(context, Mover(db, a).value.id, a.id, approved);
      assert KeyOf(ActivityEntity(event)) == EventKey(event);
    }
  }

  /** A decision adds the moved request's event to the log, and no other. */
  lemma DecideAddsEvent(db: Db, a: Approval, access: AccessContext, command: Command, context: MutationContext,
                        approved: bool, now: int, k: Key)
    requires Decide(db, a, access, command, context, approved, now).Success? && k.kind == Activities
    ensures k in Decide(db, a, access, command, context, approved, now).value.0 <==>
            k in db || (Mover(db, a).Some?
                        && k == EventKey(RequestEvent(context, Mover(db, a).value.id, a.id, approved)))
  {
    hide SaveIn, RequestStage, LinkOf, WithVersion, Mover, RequestEvent, Valid;
    SavedKeepsOthers(db, a, access.userId, command, approved);
    var save := SaveIn(db, ApprovalEntity(Decided(a, approved, access.userId, command)), command.expectedVersion);
    StageAddsEvent(db, save.value, a, context, approved, command.occurredAt, k);
  }

  predicate PendingNow(db: Db, t: Attempt) {
    var a := ReadApproval(db, t.command.projectId, t.command.approvalId);
    a.Some? && a.value.status == ApprovalStatus.Pending
  }

  /** The attempt's transaction went through, not as a duplicate, on a pending approval. */
  predicate DecidesNow(db: Db, t: Attempt) {
    var outcome := Commit(db, t).1;
    PendingNow(db, t) && outcome.Success? && !outcome.value.duplicate
  }

  /** Everything an attempt needs, by what the caller and the store show beforehand. */
  predicate Ready(db: Db, t: Attempt) {
    && PendingNow(db, t) && SafeSpec(t)
    && var a := ReadApproval(db, t.command.projectId, t.command.approvalId).value;
       var main := EventKey(Expected(CallOf(t)));
       && Decidable(db, a, t.access, t.command, t.context, t.approved, t.now)
       && Fence(db, t.context).None? && main !in db
       && (Mover(db, a).Some? ==> main != EventKey(RequestEvent(t.context, Mover(db, a).value.id, a.id, t.approved)))
  }

  lemma ResolutionDecides(db: Db, t: Attempt)
    requires WellFormed(db) && Objection(t).None? && PendingNow(db, t)
    ensures var a := ReadApproval(db, t.command.projectId, t.command.approvalId).value;
            var decide := Decide(db, a, t.access, t.command, t.context, t.approved, t.now);
            var body := CallOf(t).body(db);
            && (body.Success? <==> decide.Success?)
            && (body.Success? ==> body == decide)
  {
    hide Decide, CreateIn;
    var a := ReadApproval(db, t.command.projectId, t.command.approvalId).value;
    assert KeyOf(db[ApprovalKey(t.command.projectId, t.command.approvalId)].entity) ==
           ApprovalKey(t.command.projectId, t.command.approvalId);
    if t.command.expectedVersion != Some(a.version) {
      NoVersionNoDecision(db, a, t);
    }
  }

  lemma NoVersionNoDecision(db: Db, a: Approval, t: Attempt)
    requires WellFormed(db) && ReadApproval(db, t.command.projectId, t.command.approvalId) == Some(a)
    requires t.command.expectedVersion != Some(a.version)
    ensures Decide(db, a, t.access, t.command, t.context, t.approved, t.now).Failure?
  {
    hide CreateIn, RequestStage, LinkOf, SaveIn;
    ApprovalSavedExactly(db, a, t.access.userId, t.command, t.approved);
  }

  /** An attempt decides exactly when it is ready: the approval is pending, its link is not ambiguous, the
      expected version is the current one, the times are in order, the decision's event and description are
      legal, a confirmation still holds, and neither of the activity events it records exists yet. */
  lemma DecidesExactly(db: Db, t: Attempt)
    requires WellFormed(db) && ValidContext(t.context) && Objection(t).None?
    ensures DecidesNow(db, t) <==> Ready(db, t)
  {
    hide Mutate, Decide, Decidable, WellFormed, ValidContext, RequestEvent, BuildEvent, SpecOf, CreateEvents, Fence,
         Mover, ReadApproval, ApplyResolution, CreateIn;
    if PendingNow(db, t) {
      var a := ReadApproval(db, t.command.projectId, t.command.approvalId).value;
      var call, main := CallOf(t), Expected(CallOf(t));
      MainEventIsValid(t);
      FreshMeans(db, call);
      StoredEventIsRead(db, EventKey(main));
      ResolutionDecides(db, t);
      DecideExactly(db, a, t.access, t.command, t.context, t.approved, t.now);
      if call.body(db).Success? {
        OnlyMainEvent(call.body(db).value.0, main);
        DecideAddsEvent(db, a, t.access, t.command, t.context, t.approved, t.now, EventKey(main));
      }
    }
  }

  lemma MainEventIsValid(t: Attempt)
    requires ValidContext(t.context)
    ensures ValidEvent(Expected(CallOf(t))) && EventKey(Expected(CallOf(t))).kind == Activities
  {
  }

  /** And then the domain records are exactly those of the decision. */
  lemma DecidesNowMeans(db: Db, t: Attempt)
    requires WellFormed(db) && ValidContext(t.context) && Objection(t).None? && DecidesNow(db, t)
    ensures Decides(db, Commit(db, t).0, t)
  {
    hide Mutate, Decide, WellFormed, ValidContext, RequestEvent, BuildEvent, SpecOf, CreateEvents, Fence,
         ApplyResolution, AfterDecision, SameDomain, LinkOf;
    var a := ReadApproval(db, t.command.projectId, t.command.approvalId).value;
    var call := CallOf(t);
    FreshMeans(db, call);
    ResolutionDecides(db, t);
    DecideEffect(db, a, t.access, t.command, t.context, t.approved, t.now);
    var body, after := call.body(db).value.0, Commit(db, t).0;
    CreateEventsExtend(body, [Expected(call)] + MissingOrConflict(db, call.additional).value);
    SameDomainTransitive(body, after, body);
    SameDomainTransitive(after, body, AfterDecision(db, a, t.approved, t.access.userId, t.command));
  }

  /** Notes that are present but blank fail every decision, although the command accepts them. */
  lemma BlankNotesFail(db: Db, t: Attempt)
    requires WellFormed(db) && ValidContext(t.context) && Objection(t).None?
    requires t.command.notes.Some? && Blank(t.command.notes.value)
    ensures !DecidesNow(db, t)
  {
    hide DecidesNow, WellFormed, ValidContext;
    DecidesExactly(db, t);
  }

  /** So do idempotency keys of 250 to 256 characters, which are legal for the mutation itself. */
  lemma LongKeyFails(db: Db, t: Attempt)
    requires WellFormed(db) && ValidContext(t.context) && Objection(t).None?
    requires 250 <= |t.context.idempotencyKey|
    ensures !DecidesNow(db, t)
  {
    hide DecidesNow, WellFormed, ValidContext;
    DecidesExactly(db, t);
  }
}
