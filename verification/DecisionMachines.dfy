/** The transaction of a decision as a machine, request by request, proved to be the specified decision. */
module DecisionMachines {
  import opened Foundations
  import opened Models
  import opened Repository
  import opened Access
  import opened Approvals
  import opened ApprovalEffects
  import opened ApprovalRuns
  import opened Machines
  import opened Audits

  /** A linked request and the version it was read at. */
  datatype Pinned = Pinned(request: MaterialRequest, version: Option<int>)

  /** Where `_apply_resolution` stands; `sent` tells whether the decision's message was there already. */
  datatype Stage =
    | Requiring
    | Versioning(approval: Approval)
    | Answering(approval: Approval)
    | Listing(approval: Approval)
    | Pinning(approval: Approval, request: MaterialRequest)
    | Checking(approval: Approval, link: Option<Pinned>)
    | Saving(approval: Approval, link: Option<Pinned>, sent: bool)
    | Moving(saved: Approval, pinned: Pinned, sent: bool)
    | Noting(saved: Approval, request: MaterialRequest, sent: bool)
    | Sending(saved: Approval, sent: bool)
    | Resolved(resolution: Resolution)
    | Refused(error: Error)

  function CommandKey(t: Attempt): Key {
    ApprovalKey(t.access.projectId, t.command.approvalId)
  }

  function DecisionMessageKey(t: Attempt): Key {
    MessageKey(t.command.projectId, t.command.approvalId, t.approved)
  }

  function StageStep(t: Attempt, stage: Stage): Step<Resolution> {
    match stage
    case Requiring =>
      var refusal := Refusal(t.access, t.access.projectId, MayRead);
      if refusal.Some? then Fail(refusal.value) else Ask(Get(CommandKey(t)))
    case Versioning(_) => Ask(Request.VersionOf(CommandKey(t)))
    case Answering(_) => Ask(Get(DecisionMessageKey(t)))
    case Listing(_) => Ask(ListAll(Requests, t.command.projectId))
    case Pinning(_, r) => Ask(Request.VersionOf(RequestKey(r.projectId, r.id)))
    case Checking(_, _) => Ask(Get(DecisionMessageKey(t)))
    case Saving(a, _, _) =>
      var refusal := Refusal(t.access, a.projectId, MayOperate);
      if refusal.Some? then Fail(refusal.value)
      else Ask(Save(ApprovalEntity(Decided(a, t.approved, t.access.userId, t.command)), t.command.expectedVersion))
    case Moving(_, pinned, _) =>
      Ask(Save(RequestEntity(MovedRequest(pinned.request, t.approved, t.command.occurredAt)), pinned.version))
    case Noting(saved, r, _) => Ask(Create(ActivityEntity(RequestEvent(t.context, r.id, saved.id, t.approved))))
    case Sending(saved, sent) =>
      if !LegalEvent(t.command, t.context, t.now) then Fail(ValidationFailed)
      else if sent then Done((saved, None))
      else Ask(Create(OutboxEntity(DecisionMessage(t.command, t.approved))))
    case Resolved(resolution) => Done(resolution)
    case Refused(error) => Fail(error)
  }

  function AfterVersion(t: Attempt, a: Approval, version: Option<nat>): Stage {
    if t.command.expectedVersion.Some? && version.Some? && t.command.expectedVersion.value != version.value
      then Refused(VersionConflict)
    else if a.status == ApprovalStatus.Pending then
      if a.actionType == Purchase then Listing(a) else Checking(a, None)
    else if a.status == Outcome(t.approved) then Answering(a)
    else Refused(ApprovalFailed)
  }

  function AfterListing(a: Approval, entities: seq<Entity>): Stage {
    var linked := LinkedAmong(entities, a.id);
    if linked == [] then Checking(a, None)
    else if |linked| == 1 then Pinning(a, linked[0])
    else Refused(ApprovalFailed)
  }

  function AfterSaving(link: Option<Pinned>, sent: bool, stored: Entity): Stage {
    if !stored.ApprovalEntity? then Refused(Interrupted)
    else if link.Some? && Awaits(link.value.request.status) then Moving(stored.approval, link.value, sent)
    else Sending(stored.approval, sent)
  }

  function Told(a: Approval, found: Reply, messageId: string): Stage {
    Resolved((a, if found.Found? && found.entity.Some? then Some(messageId) else None))
  }

  function NextStage(t: Attempt, stage: Stage, reply: Reply): Stage {
    if reply.Failed? then Refused(reply.error)
    else
      match stage
      case Requiring =>
        if reply.Found? && reply.entity.Some? && reply.entity.value.ApprovalEntity?
        then Versioning(reply.entity.value.approval) else Refused(EntityNotFound)
      case Versioning(a) => AfterVersion(t, a, if reply.Versioned? then reply.version else None)
      case Answering(a) => Told(a, reply, DecisionMessageKey(t).id)
      case Listing(a) => AfterListing(a, if reply.Listed? then reply.entities else [])
      case Pinning(a, r) =>
        var version := if reply.Versioned? && reply.version.Some? then Some(reply.version.value as int) else None;
        Checking(a, Some(Pinned(r, version)))
      case Checking(a, link) => Saving(a, link, reply.Found? && reply.entity.Some?)
      case Saving(_, link, sent) => if reply.Stored? then AfterSaving(link, sent, reply.stored)
        else Refused(Interrupted)
      case Moving(saved, pinned, sent) => Noting(saved, pinned.request, sent)
      case Noting(saved, _, sent) => Sending(saved, sent)
      case Sending(saved, _) => Resolved((saved, Some(DecisionMessageKey(t).id)))
      case _ => stage
  }

  function DecisionMachine(t: Attempt): Machine<Stage, Resolution> {
    Machine(Requiring, (s: Stage) => StageStep(t, s), (s: Stage, reply: Reply) => NextStage(t, s, reply))
  }

  // ----- the machine does what the specification of a decision says -----

  /** What is left to do once the approval and its request are saved. */
  ghost function Sent(t: Attempt, db: Db, saved: Approval, sent: bool): Result<(Db, Resolution), Error> {
    if !LegalEvent(t.command, t.context, t.now) then Failure(ValidationFailed)
    else if sent then Success((db, (saved, None)))
    else
      match CreateIn(db, OutboxEntity(DecisionMessage(t.command, t.approved)))
      case Success(after) => Success((after, (saved, Some(DecisionMessageKey(t).id))))
      case Failure(error) => Failure(error)
  }

  lemma Ends(t: Attempt, db: Db, stage: Stage, fuel: nat)
    requires stage.Resolved? || stage.Refused?
    ensures Execute(DecisionMachine(t), db, stage, fuel) ==
            if stage.Resolved? then Success((db, stage.resolution)) else Failure(stage.error)
    ensures Halts(DecisionMachine(t), db, stage, fuel)
  {
  }

  lemma SendingExecutes(t: Attempt, db: Db, saved: Approval, sent: bool, fuel: nat)
    requires 1 <= fuel
    ensures Execute(DecisionMachine(t), db, Sending(saved, sent), fuel) == Sent(t, db, saved, sent)
    ensures Halts(DecisionMachine(t), db, Sending(saved, sent), fuel)
  {
    hide CreateIn, LegalEvent, DecisionMessageKey;
    var m, stage := DecisionMachine(t), Sending(saved, sent);
    if m.step(stage).Ask? {
      var (after, reply) := Apply(db, m.step(stage).request);
      Asks(m, db, stage, fuel);
      Ends(t, after, m.next(stage, reply), fuel - 1);
    }
  }

  /** The request's move, its event, and the rest. */
  ghost function Moved(t: Attempt, db: Db, saved: Approval, pinned: Pinned,
                       sent: bool): Result<(Db, Resolution), Error> {
    match SaveIn(db, RequestEntity(MovedRequest(pinned.request, t.approved, t.command.occurredAt)), pinned.version)
    case Failure(error) => Failure(error)
    case Success(moved) =>
      match CreateIn(moved, ActivityEntity(RequestEvent(t.context, pinned.request.id, saved.id, t.approved)))
      case Failure(error) => Failure(error)
      case Success(noted) => Sent(t, noted, saved, sent)
  }

  lemma MovingExecutes(t: Attempt, db: Db, saved: Approval, pinned: Pinned, sent: bool, fuel: nat)
    requires 3 <= fuel
    ensures Execute(DecisionMachine(t), db, Moving(saved, pinned, sent), fuel) == Moved(t, db, saved, pinned, sent)
    ensures Halts(DecisionMachine(t), db, Moving(saved, pinned, sent), fuel)
  {
    hide CreateIn, SaveIn, Sent, Execute, Halts, RequestEvent, MovedRequest;
    var m, stage := DecisionMachine(t), Moving(saved, pinned, sent);
    var (moved, reply) := Apply(db, m.step(stage).request);
    Asks(m, db, stage, fuel);
    if reply.Failed? {
      Ends(t, moved, m.next(stage, reply), fuel - 1);
    } else {
      var noting := Noting(saved, pinned.request, sent);
      var (noted, answer) := Apply(moved, m.step(noting).request);
      Asks(m, moved, noting, fuel - 1);
      if answer.Failed? {
        Ends(t, noted, m.next(noting, answer), fuel - 2);
      } else {
        SendingExecutes(t, noted, saved, sent, fuel - 2);
      }
    }
  }

  /** Everything from the saving of the approval on. */
  ghost function Written(t: Attempt, db: Db, a: Approval, link: Option<Pinned>,
                         sent: bool): Result<(Db, Resolution), Error> {
    var refusal := Refusal(t.access, a.projectId, MayOperate);
    var decided := ApprovalEntity(Decided(a, t.approved, t.access.userId, t.command));
    if refusal.Some? then Failure(refusal.value)
    else
      match SaveIn(db, decided, t.command.expectedVersion)
      case Failure(error) => Failure(error)
      case Success(saved) =>
        var result := WithVersion(decided, saved[KeyOf(decided)].version).approval;
        if link.Some? && Awaits(link.value.request.status) then Moved(t, saved, result, link.value, sent)
        else Sent(t, saved, result, sent)
  }

  lemma SavingExecutes(t: Attempt, db: Db, a: Approval, link: Option<Pinned>, sent: bool, fuel: nat)
    requires 4 <= fuel
    ensures Execute(DecisionMachine(t), db, Saving(a, link, sent), fuel) == Written(t, db, a, link, sent)
    ensures Halts(DecisionMachine(t), db, Saving(a, link, sent), fuel)
  {
    hide Apply, SaveIn, Sent, Moved, Decided, Refusal, KeyOf, AfterSaving;
    var m, stage := DecisionMachine(t), Saving(a, link, sent);
    if m.step(stage).Ask? {
      hide Execute, Halts;
      var decided := Decided(a, t.approved, t.access.userId, t.command);
      var (saved, reply) := Apply(db, m.step(stage).request);
      Asks(m, db, stage, fuel);
      SaveReply(db, decided, t.command.expectedVersion);
      if reply.Failed? {
        Ends(t, saved, m.next(stage, reply), fuel - 1);
      } else {
        SavedExecutes(t, saved, reply.stored.approval, link, sent, fuel - 1);
      }
    }
  }

  lemma SaveReply(db: Db, a: Approval, expected: Option<int>)
    ensures var (after, reply) := Apply(db, Save(ApprovalEntity(a), expected));
            match SaveIn(db, ApprovalEntity(a), expected)
            case Failure(error) => (after, reply) == (db, Failed(error))
            case Success(saved) =>
              var k := KeyOf(ApprovalEntity(a));
              && after == saved && k in saved
              && reply == Stored(WithVersion(ApprovalEntity(a), saved[k].version)) && reply.stored.ApprovalEntity?
  {
  }

  lemma SavedExecutes(t: Attempt, db: Db, result: Approval, link: Option<Pinned>, sent: bool, fuel: nat)
    requires 3 <= fuel
    ensures Execute(DecisionMachine(t), db, AfterSaving(link, sent, ApprovalEntity(result)), fuel) ==
            if link.Some? && Awaits(link.value.request.status) then Moved(t, db, result, link.value, sent)
            else Sent(t, db, result, sent)
    ensures Halts(DecisionMachine(t), db, AfterSaving(link, sent, ApprovalEntity(result)), fuel)
  {
    hide Execute, Halts, Moved, Sent, DecisionMachine;
    if link.Some? && Awaits(link.value.request.status) {
      MovingExecutes(t, db, result, link.value, sent, fuel);
    } else {
      SendingExecutes(t, db, result, sent, fuel);
    }
  }

  /** What the machine knows about the link is what the store holds. */
  ghost predicate LinkKnown(db: Db, a: Approval, link: Option<Pinned>) {
    && LinkOf(db, a).Success?
    && (link.None? <==> LinkOf(db, a).value.None?)
    && (link.Some? ==>
          var k := RequestKey(link.value.request.projectId, link.value.request.id);
          && LinkOf(db, a).value == Some(link.value.request) && k in db
          && link.value.version == Some(db[k].version as int))
  }

  ghost predicate Known(t: Attempt, db: Db, a: Approval) {
    && WellFormed(db) && t.access.projectId == t.command.projectId
    && ReadApproval(db, t.command.projectId, t.command.approvalId) == Some(a)
  }

  lemma KnownNames(t: Attempt, db: Db, a: Approval)
    requires Known(t, db, a)
    ensures a.projectId == t.command.projectId && a.id == t.command.approvalId
    ensures CommandKey(t) in db && db[CommandKey(t)].entity == ApprovalEntity(a)
  {
    assert KeyOf(db[CommandKey(t)].entity) == CommandKey(t);
  }

  lemma SaveKeepsRequests(db: Db, e: Entity, expected: Option<int>, k: Key)
    requires SaveIn(db, e, expected).Success? && k != KeyOf(e)
    ensures var after := SaveIn(db, e, expected).value; (k in after <==> k in db) && (k in db ==> after[k] == db[k])
  {
  }

  lemma WrittenIsDecide(t: Attempt, db: Db, a: Approval, link: Option<Pinned>)
    requires Known(t, db, a) && LinkKnown(db, a, link)
    ensures Written(t, db, a, link, DecisionMessageKey(t) in db) ==
            Decide(db, a, t.access, t.command, t.context, t.approved, t.now)
  {
    hide SaveIn, CreateIn, WellFormed, LinkOf, Refusal, RequestEvent, LegalEvent;
    KnownNames(t, db, a);
    var decided := ApprovalEntity(Decided(a, t.approved, t.access.userId, t.command));
    var save := SaveIn(db, decided, t.command.expectedVersion);
    if save.Success? && link.Some? {
      SaveKeepsRequests(db, decided, t.command.expectedVersion,
                        RequestKey(link.value.request.projectId, link.value.request.id));
    }
  }

  lemma CheckingExecutes(t: Attempt, db: Db, a: Approval, link: Option<Pinned>, fuel: nat)
    requires Known(t, db, a) && LinkKnown(db, a, link) && 5 <= fuel
    ensures Execute(DecisionMachine(t), db, Checking(a, link), fuel) ==
            Decide(db, a, t.access, t.command, t.context, t.approved, t.now)
    ensures Halts(DecisionMachine(t), db, Checking(a, link), fuel)
  {
    hide Execute, Halts, Written, Decide, Known, LinkKnown, DecisionMessageKey;
    Asks(DecisionMachine(t), db, Checking(a, link), fuel);
    SavingExecutes(t, db, a, link, DecisionMessageKey(t) in db, fuel - 1);
    WrittenIsDecide(t, db, a, link);
  }

  /** A read leaves the store as it is. */
  ghost predicate Goes(t: Attempt, db: Db, stage: Stage, next: Stage) {
    forall fuel: nat | 0 < fuel ::
      && Execute(DecisionMachine(t), db, stage, fuel) == Execute(DecisionMachine(t), db, next, fuel - 1)
      && (Halts(DecisionMachine(t), db, stage, fuel) <==> Halts(DecisionMachine(t), db, next, fuel - 1))
  }

  lemma StageGoes(t: Attempt, db: Db, stage: Stage, next: Stage)
    requires StageStep(t, stage).Ask? && !IsWrite(StageStep(t, stage).request)
    requires NextStage(t, stage, Apply(db, StageStep(t, stage).request).1) == next
    ensures Goes(t, db, stage, next)
  {
    hide StageStep, NextStage, Apply;
    ReadChangesNothing(db, StageStep(t, stage).request);
    forall fuel: nat | 0 < fuel
      ensures Execute(DecisionMachine(t), db, stage, fuel) == Execute(DecisionMachine(t), db, next, fuel - 1)
      ensures Halts(DecisionMachine(t), db, stage, fuel) <==> Halts(DecisionMachine(t), db, next, fuel - 1)
    {
      Asks(DecisionMachine(t), db, stage, fuel);
    }
  }

  lemma ReadChangesNothing(db: Db, req: Request)
    requires !IsWrite(req)
    ensures Apply(db, req).0 == db
  {
  }

  lemma ReadsGo(t: Attempt, db: Db, a: Approval, link: Option<Pinned>)
    ensures Goes(t, db, Listing(a), AfterListing(a, EntitiesIn(db, Requests, t.command.projectId)))
    ensures CommandKey(t) in db ==>
              Goes(t, db, Versioning(a), AfterVersion(t, a, Some(db[CommandKey(t)].version)))
    ensures Goes(t, db, Answering(a), Told(a, Found(Read(db, DecisionMessageKey(t))), DecisionMessageKey(t).id))
    ensures Goes(t, db, Checking(a, link), Saving(a, link, DecisionMessageKey(t) in db))
  {
    hide Goes, EntitiesIn, AfterListing, AfterVersion, Told, DecisionMessageKey, CommandKey;
    StageGoes(t, db, Listing(a), AfterListing(a, EntitiesIn(db, Requests, t.command.projectId)));
    if CommandKey(t) in db {
      StageGoes(t, db, Versioning(a), AfterVersion(t, a, Some(db[CommandKey(t)].version)));
    }
    StageGoes(t, db, Answering(a), Told(a, Found(Read(db, DecisionMessageKey(t))), DecisionMessageKey(t).id));
    StageGoes(t, db, Checking(a, link), Saving(a, link, DecisionMessageKey(t) in db));
  }

  lemma PinningGoes(t: Attempt, db: Db, a: Approval, r: MaterialRequest)
    requires RequestKey(r.projectId, r.id) in db
    ensures var version := db[RequestKey(r.projectId, r.id)].version;
            Goes(t, db, Pinning(a, r), Checking(a, Some(Pinned(r, Some(version as int)))))
  {
    hide Goes;
    var version := db[RequestKey(r.projectId, r.id)].version;
    StageGoes(t, db, Pinning(a, r), Checking(a, Some(Pinned(r, Some(version as int)))));
  }

  lemma PinningExecutes(t: Attempt, db: Db, a: Approval, r: MaterialRequest, fuel: nat)
    requires Known(t, db, a) && LinkOf(db, a) == Success(Some(r)) && r in Linked(db, a.projectId, a.id) && 6 <= fuel
    ensures Execute(DecisionMachine(t), db, Pinning(a, r), fuel) ==
            Decide(db, a, t.access, t.command, t.context, t.approved, t.now)
    ensures Halts(DecisionMachine(t), db, Pinning(a, r), fuel)
  {
    hide Execute, Halts, Known, Decide, Linked, LinkOf, DecisionMachine;
    KnownStored(t, db, a, r);
    PinningGoes(t, db, a, r);
    CheckingExecutes(t, db, a, Some(Pinned(r, Some(db[RequestKey(r.projectId, r.id)].version as int))), fuel - 1);
  }

  /** The listing leads to the stage that the specified link calls for. */
  lemma LinkCases(db: Db, a: Approval)
    requires a.actionType == Purchase
    ensures var next := AfterListing(a, EntitiesIn(db, Requests, a.projectId));
            || (next == Checking(a, None) && LinkKnown(db, a, None))
            || (next.Pinning? && next == Pinning(a, next.request) && LinkOf(db, a) == Success(Some(next.request))
                && next.request in Linked(db, a.projectId, a.id))
            || (next == Refused(ApprovalFailed) && LinkOf(db, a) == Failure(ApprovalFailed))
  {
    hide EntitiesIn, LinkedAmong;
    var linked := Linked(db, a.projectId, a.id);
    if |linked| == 1 { assert linked[0] in linked; }
  }

  lemma ListingExecutes(t: Attempt, db: Db, a: Approval, fuel: nat)
    requires Known(t, db, a) && a.actionType == Purchase && 7 <= fuel
    ensures Execute(DecisionMachine(t), db, Listing(a), fuel) ==
            Decide(db, a, t.access, t.command, t.context, t.approved, t.now)
    ensures Halts(DecisionMachine(t), db, Listing(a), fuel)
  {
    hide Execute, Halts, Known, EntitiesIn, Linked, LinkOf, LinkKnown, AfterListing, DecisionMachine, Decide;
    KnownNames(t, db, a);
    ReadsGo(t, db, a, None);
    LinkCases(db, a);
    var next := AfterListing(a, EntitiesIn(db, Requests, a.projectId));
    if next.Checking? {
      CheckingExecutes(t, db, a, None, fuel - 1);
    } else if next.Pinning? {
      PinningExecutes(t, db, a, next.request, fuel - 1);
    } else {
      Ends(t, db, Refused(ApprovalFailed), fuel - 1);
      DecideNeedsLink(t, db, a);
    }
  }

  lemma DecideNeedsLink(t: Attempt, db: Db, a: Approval)
    ensures LinkOf(db, a).Failure? ==>
              Decide(db, a, t.access, t.command, t.context, t.approved, t.now) == Failure(LinkOf(db, a).error)
  {
    hide LinkOf;
  }

  lemma KnownStored(t: Attempt, db: Db, a: Approval, r: MaterialRequest)
    requires Known(t, db, a) && r in Linked(db, a.projectId, a.id)
    ensures r.projectId == a.projectId && RequestKey(r.projectId, r.id) in db
    ensures db[RequestKey(r.projectId, r.id)].entity == RequestEntity(r)
  {
    hide WellFormed;
    LinkIsStored(db, a.projectId, a.id, r);
  }

  /** `_apply_resolution` once the approval and its version have been read. */
  lemma ResolutionGoes(t: Attempt, db: Db, a: Approval)
    requires Known(t, db, a) && Refusal(t.access, t.access.projectId, MayRead).None?
    requires a.id == t.command.approvalId && CommandKey(t) in db
    ensures var next := AfterVersion(t, a, Some(db[CommandKey(t)].version));
            ApplyResolution(db, t.access, t.command, t.context, t.approved, t.now) ==
            match next
            case Answering(_) =>
              Success((db, (a, if DecisionMessageKey(t) in db then Some(DecisionMessageKey(t).id) else None)))
            case Refused(error) => Failure(error)
            case _ => Decide(db, a, t.access, t.command, t.context, t.approved, t.now)
  {
    hide WellFormed, Decide, Refusal;
  }

  lemma AfterVersionIs(t: Attempt, a: Approval, version: Option<nat>)
    ensures var next := AfterVersion(t, a, version);
            || (next == Listing(a) && a.actionType == Purchase)
            || (next == Checking(a, None) && a.actionType != Purchase)
            || next == Answering(a) || next.Refused?
  {
  }

  lemma VersioningExecutes(t: Attempt, db: Db, a: Approval, fuel: nat)
    requires Known(t, db, a) && Refusal(t.access, t.access.projectId, MayRead).None? && 8 <= fuel
    ensures Execute(DecisionMachine(t), db, Versioning(a), fuel) ==
            ApplyResolution(db, t.access, t.command, t.context, t.approved, t.now)
    ensures Halts(DecisionMachine(t), db, Versioning(a), fuel)
  {
    hide Execute, Halts, Known, ApplyResolution, Decide, LinkOf, LinkKnown, Refusal, DecisionMachine, AfterVersion,
         CommandKey, DecisionMessageKey;
    KnownNames(t, db, a);
    ResolutionGoes(t, db, a);
    ReadsGo(t, db, a, None);
    var next := AfterVersion(t, a, Some(db[CommandKey(t)].version));
    AfterVersionIs(t, a, Some(db[CommandKey(t)].version));
    if next.Listing? {
      ListingExecutes(t, db, a, fuel - 1);
    } else if next.Checking? {
      NoLink(db, a);
      CheckingExecutes(t, db, a, None, fuel - 1);
    } else if next.Answering? {
      Ends(t, db, Told(a, Found(Read(db, DecisionMessageKey(t))), DecisionMessageKey(t).id), fuel - 2);
    } else {
      Ends(t, db, next, fuel - 1);
    }
  }

  lemma NoLink(db: Db, a: Approval)
    requires a.actionType != Purchase
    ensures LinkKnown(db, a, None)
  {
  }

  /** Request by request, the machine is `_apply_resolution`. */
  lemma MachineResolves(t: Attempt, db: Db)
    requires WellFormed(db) && t.access.projectId == t.command.projectId
    ensures Execute(DecisionMachine(t), db, Requiring, 9) ==
            ApplyResolution(db, t.access, t.command, t.context, t.approved, t.now)
    ensures Halts(DecisionMachine(t), db, Requiring, 9)
  {
    hide WellFormed, Decide, AfterVersion, Refusal;
    var m := DecisionMachine(t);
    if m.step(Requiring).Ask? {
      Asks(m, db, Requiring, 9);
      hide Execute, Halts;
      var current := ReadApproval(db, t.command.projectId, t.command.approvalId);
      if current.Some? {
        VersioningExecutes(t, db, current.value, 8);
      } else {
        Ends(t, db, Refused(EntityNotFound), 8);
      }
    }
  }

  // ----- the answer to a duplicate -----

  /** Where `_replay` stands. */
  datatype Recall = Recalling | Counting(approval: Approval) | Recalled(resolution: Resolution) | Missing

  function StoredMessageKey(t: Attempt, a: Approval): Key {
    MessageKey(t.command.projectId, a.id, a.status == ApprovalStatus.Approved)
  }

  function RecallStep(t: Attempt, place: Recall): Step<Resolution> {
    match place
    case Recalling =>
      var refusal := Refusal(t.access, t.access.projectId, MayRead);
      if refusal.Some? then Fail(refusal.value) else Ask(Get(CommandKey(t)))
    case Counting(a) => Ask(Get(StoredMessageKey(t, a)))
    case Recalled(resolution) => Done(resolution)
    case Missing => Fail(EntityNotFound)
  }

  function NextRecall(t: Attempt, place: Recall, reply: Reply): Recall {
    var found := if reply.Found? then reply.entity else None;
    match place
    case Recalling =>
      if found.None? || !found.value.ApprovalEntity? then Missing
      else if found.value.approval.status !in {ApprovalStatus.Approved, ApprovalStatus.Rejected}
        then Recalled((found.value.approval, None))
      else Counting(found.value.approval)
    case Counting(a) => Recalled((a, if found.Some? then Some(StoredMessageKey(t, a).id) else None))
    case _ => place
  }

  function RecallMachine(t: Attempt): Machine<Recall, Resolution> {
    Machine(Recalling, (s: Recall) => RecallStep(t, s), (s: Recall, reply: Reply) => NextRecall(t, s, reply))
  }

  lemma RecallReplays(t: Attempt, db: Db, fuel: nat)
    requires t.access.projectId == t.command.projectId && 2 <= fuel
    ensures Execute(RecallMachine(t), db, Recalling, fuel) == Approvals.Replay(db, t.access, t.command)
    ensures Halts(RecallMachine(t), db, Recalling, fuel)
  {
    hide Refusal;
    var m := RecallMachine(t);
    if m.step(Recalling).Ask? {
      Asks(m, db, Recalling, fuel);
      var next := m.next(Recalling, Found(Read(db, CommandKey(t))));
      if next.Counting? {
        Asks(m, db, next, fuel - 1);
      }
    }
  }
}
