/** Concrete stores on which the less expected behaviour of decisions can be seen. */
module ApprovalExamples {
  import opened Examples
  import opened Foundations
  import opened Models
  import opened Ordering
  import opened Repository
  import opened Identifiers
  import opened Access
  import opened Activity
  import opened Approvals
  import opened ApprovalEffects
  import opened ApprovalRuns
  import opened ApprovalRetry
  import opened ApprovalProgress
  import opened Texts

  const APPROVAL := "ap_000"
  const REQUEST := "mr_000"
  const SOURCE := "ev_000"
  const USER := "us_000"

  const AGENT_RUN: AgentRun := AgentRun("ru_000", PROJECT, SOURCE, 0, "")

  function PendingApproval(action: ActionType): Approval {
    Approval(APPROVAL, PROJECT, action, ApprovalStatus.Pending, 0, None, None, None, 0, "")
  }

  const LINKED_REQUEST: MaterialRequest :=
    MaterialRequest(REQUEST, PROJECT, SOURCE, RequestStatus.AwaitingApproval, Some(APPROVAL), 1, 0, 0, "")

  /** One pending approval and one request that names it. */
  function Store(action: ActionType): Db {
    map[ApprovalKey(PROJECT, APPROVAL) := Record(ApprovalEntity(PendingApproval(action)), 0),
        RequestKey(PROJECT, REQUEST) := Record(RequestEntity(LINKED_REQUEST), 0)]
  }

  const ORDER: Order := Order(
    AccessContext(USER, PROJECT, Manager),
    Command(PROJECT, APPROVAL, None, Some(0), 0),
    MutationContext(PROJECT, User, Some(USER), None, None, "k", None, None, 0),
    true)

  lemma NamesAreLegal()
    ensures CanonicalId(PROJECT) && CanonicalId(APPROVAL) && CanonicalId(USER)
    ensures Shown(Some(APPROVAL)) && Shown(Some(REQUEST))
  {
    ProjectIsCanonical();
    assert CanonicalAt(APPROVAL, 2) && CanonicalAt(USER, 2);
    ShortIsUnrestricted(APPROVAL);
    ShortIsUnrestricted(REQUEST);
  }

  lemma StoreIsWellFormed(action: ActionType)
    ensures WellFormed(Store(action))
    ensures ReadApproval(Store(action), PROJECT, APPROVAL) == Some(PendingApproval(action))
    ensures forall k | k in Store(action) :: k.kind == Kind.Approvals || k.kind == Requests
  {
  }

  lemma StoreIsLinked(action: ActionType)
    ensures SoleLink(Store(action), PROJECT, APPROVAL, REQUEST)
    ensures Linked(Store(action), PROJECT, APPROVAL) == [LINKED_REQUEST]
  {
    hide Linked, WellFormed;
    assert SoleLink(Store(action), PROJECT, APPROVAL, REQUEST);
    SoleLinkIsLinked(Store(action), PROJECT, APPROVAL, REQUEST);
  }

  lemma NoRuns(db: Db, project: string)
    requires forall k | k in db :: k.kind != Runs
    ensures EntitiesIn(db, Runs, project) == []
  {
    assert IdsIn(db, Runs, project) == {};
  }

  /** What the decision on the store reads outside its transaction. */
  function FirstReading(action: ActionType): (MutationContext, Option<string>) {
    (ORDER.context, if action == Purchase then Some(REQUEST) else None)
  }

  lemma Reads(action: ActionType)
    ensures EnrichmentOf(Store(action), ORDER) == Success(FirstReading(action))
  {
    hide Linked, EntitiesIn, ReadApproval, Store, WellFormed;
    StoreIsWellFormed(action);
    StoreIsLinked(action);
    NoRuns(Store(action), PROJECT);
  }

  function FirstAttempt(action: ActionType): Attempt {
    Enriched(ORDER, FirstReading(action), 0)
  }

  lemma EventsDiffer(requestId: string, action: ActionType)
    ensures EventKey(Expected(CallOf(FirstAttempt(action)))) !=
            EventKey(RequestEvent(ORDER.context, requestId, APPROVAL, true))
  {
    NamesAreLegal();
    hide CanonicalId;
    ActivityIdInjective(PROJECT, Some(USER), "k", PROJECT, Some(USER), "request-resolution:" + Sha256("k"));
    assert |"k"| == 1;
  }

  lemma LinkIs(action: ActionType)
    ensures LinkOf(Store(action), PendingApproval(action)) ==
            Success(if action == Purchase then Some(LINKED_REQUEST) else None)
  {
    hide Linked, Store;
    StoreIsLinked(action);
  }

  lemma FirstIsDecidable(action: ActionType)
    ensures var t := FirstAttempt(action);
            Decidable(Store(action), PendingApproval(action), t.access, t.command, t.context, t.approved, t.now)
  {
    hide LinkOf, RequestEvent, Store, WellFormed;
    StoreIsWellFormed(action);
    LinkIs(action);
  }

  /** The first attempt on the store meets every condition for a decision. */
  lemma ReadyToDecide(action: ActionType)
    ensures Ready(Store(action), FirstAttempt(action))
    ensures Objection(FirstAttempt(action)).None? && ValidContext(FirstAttempt(action).context)
    ensures WellFormed(Store(action))
  {
    hide CanonicalId, Restricted, LinkOf, BuildEvent, SpecOf, ReadApproval, RequestEvent, Expected, Store,
         WellFormed, Decidable;
    NamesAreLegal();
    StoreIsWellFormed(action);
    LinkIs(action);
    EventsDiffer(REQUEST, action);
    FirstIsDecidable(action);
  }

  // ----- a retry that is refused -----

  function AfterFirst(action: ActionType): Db {
    Resolve(Store(action), ORDER, 0).0
  }

  lemma FirstGoesThrough(action: ActionType)
    ensures FirstTime(Store(action), ORDER, 0)
    ensures Decides(Store(action), AfterFirst(action), FirstAttempt(action))
    ensures WellFormed(AfterFirst(action))
  {
    hide Ready, DecidesNow, Decides, Store, WellFormed, Enrich, Commit, ValidContext;
    ReadyToDecide(action);
    Reads(action);
    DecidesExactly(Store(action), FirstAttempt(action));
    DecidesNowMeans(Store(action), FirstAttempt(action));
    CommitCases(Store(action), FirstAttempt(action));
    FirstOutcome(action);
  }

  lemma FirstOutcome(action: ActionType)
    requires EnrichmentOf(Store(action), ORDER) == Success(FirstReading(action))
    ensures Resolve(Store(action), ORDER, 0) == Commit(Store(action), FirstAttempt(action))
    ensures DecidesNow(Store(action), FirstAttempt(action)) ==> FirstTime(Store(action), ORDER, 0)
  {
    hide Enrich, Commit, Store, ReadApproval;
  }

  /** An agent run for the request's source event that is recorded after the decision. */
  function Later(db: Db): Db {
    db[Key(Runs, PROJECT, AGENT_RUN.id) := Record(RunEntity(AGENT_RUN), 0)]
  }

  lemma LaterKeeps(db: Db)
    requires WellFormed(db)
    ensures WellFormed(Later(db)) && AppendOnly(db, Later(db))
    ensures ReadApproval(Later(db), PROJECT, APPROVAL) == ReadApproval(db, PROJECT, APPROVAL)
    ensures EntitiesIn(Later(db), Requests, PROJECT) == EntitiesIn(db, Requests, PROJECT)
  {
    hide EntitiesIn;
    ListIsLocal(Later(db), db, Requests, PROJECT);
  }

  lemma OneRun(db: Db)
    requires forall k | k in db :: k.kind != Runs
    ensures RunsAmong(EntitiesIn(Later(db), Runs, PROJECT), SOURCE) == [AGENT_RUN]
  {
    var ids := IdsIn(Later(db), Runs, PROJECT);
    assert ids == {AGENT_RUN.id};
    assert SortedIds(ids)[0] in SortedIds(ids);
    assert EntitiesIn(Later(db), Runs, PROJECT) == [RunEntity(AGENT_RUN)];
    OnlyRun();
  }

  lemma OnlyRun()
    ensures RunsAmong([RunEntity(AGENT_RUN)], SOURCE) == [AGENT_RUN]
  {
    assert [RunEntity(AGENT_RUN)][..0] == [];
    assert RunsAmong([], SOURCE) == [];
  }

  lemma StillLinked()
    ensures var linked := Linked(AfterFirst(Purchase), PROJECT, APPROVAL);
            |linked| == 1 && linked[0].id == REQUEST && linked[0].sourceEventId == SOURCE
  {
    hide Store, Linked, LinkedAmong, EntitiesIn, WellFormed, Decides, AfterFirst, FirstAttempt, Similar;
    var db, after, t := Store(Purchase), AfterFirst(Purchase), FirstAttempt(Purchase);
    StoreIsWellFormed(Purchase);
    StoreIsLinked(Purchase);
    FirstGoesThrough(Purchase);
    AttemptNames();
    DecisionKeepsListing(db, after, t);
    LinkedIsListed(db);
    LinkedIsListed(after);
    LinkedAmongSimilar(EntitiesIn(db, Requests, PROJECT), EntitiesIn(after, Requests, PROJECT), APPROVAL);
  }

  lemma AttemptNames()
    ensures FirstAttempt(Purchase).command.projectId == PROJECT && FirstAttempt(Purchase).command.approvalId == APPROVAL
  {
  }

  lemma StillPurchase()
    ensures ReadApproval(AfterFirst(Purchase), PROJECT, APPROVAL).Some?
    ensures ReadApproval(AfterFirst(Purchase), PROJECT, APPROVAL).value.actionType == Purchase
  {
    hide Store, Decides, AfterFirst, FirstAttempt, ReadApproval, WellFormed;
    StoreIsWellFormed(Purchase);
    FirstGoesThrough(Purchase);
    AttemptNames();
    DecisionKeepsType(Store(Purchase), AfterFirst(Purchase), FirstAttempt(Purchase));
  }

  lemma StillNoRuns()
    ensures forall k | k in AfterFirst(Purchase) :: k.kind != Runs
  {
    hide Store, Decides, AfterFirst, FirstAttempt, WellFormed;
    StoreIsWellFormed(Purchase);
    FirstGoesThrough(Purchase);
    forall k | k in AfterFirst(Purchase) ensures k.kind != Runs {
      if k.kind == Runs { NoRunsAppear(Store(Purchase), AfterFirst(Purchase), FirstAttempt(Purchase), k); }
    }
  }

  lemma LinkedIsListed(db: Db)
    ensures Linked(db, PROJECT, APPROVAL) == LinkedAmong(EntitiesIn(db, Requests, PROJECT), APPROVAL)
  {
  }

  lemma NoRunsAppear(db: Db, after: Db, t: Attempt, k: Key)
    requires Decides(db, after, t) && k in after && k.kind == Runs
    ensures k in db
  {
  }

  /** The same decision, sent again after an agent run for the request's source event has appeared, is refused:
      what it would record is no longer what was recorded. */
  lemma LateRunRefusesRetry(retriedAt: int)
    ensures var later := Later(AfterFirst(Purchase));
            && FirstTime(Store(Purchase), ORDER, 0)
            && Resolve(later, ORDER, retriedAt).0 == later && Resolve(later, ORDER, retriedAt).1.Failure?
  {
    hide Store, Linked, EntitiesIn, WellFormed, Decides, AfterFirst, Resolve, FirstTime, RunsAmong, Fence, Later,
         ReadApproval, ValidContext, AppendOnly;
    var after, later := AfterFirst(Purchase), Later(AfterFirst(Purchase));
    FirstGoesThrough(Purchase);
    ReadyToDecide(Purchase);
    Reads(Purchase);
    StillLinked();
    StillPurchase();
    StillNoRuns();
    LaterKeeps(after);
    OneRun(after);
    LinkedIsListed(after);
    LinkedIsListed(later);
    LaterReading();
    AfterIs();
    RetryIsDuplicate(Store(Purchase), later, ORDER, 0, retriedAt);
  }

  lemma AfterIs()
    ensures AfterFirst(Purchase) == Resolve(Store(Purchase), ORDER, 0).0
  {
    hide Resolve, Store;
  }

  lemma LaterReading()
    requires var later := Later(AfterFirst(Purchase));
             && ReadApproval(later, PROJECT, APPROVAL).Some?
             && ReadApproval(later, PROJECT, APPROVAL).value.actionType == Purchase
             && RunsAmong(EntitiesIn(later, Runs, PROJECT), SOURCE) == [AGENT_RUN]
             && |Linked(later, PROJECT, APPROVAL)| == 1 && Linked(later, PROJECT, APPROVAL)[0].sourceEventId == SOURCE
    ensures EnrichmentOf(Later(AfterFirst(Purchase)), ORDER) != Success(FirstReading(Purchase))
  {
    hide Linked, EntitiesIn, AfterFirst, RunsAmong, Later, ReadApproval;
  }

  // ----- decisions that leave a linked request, or do not go through -----

  /** A decision on an approval that is not for a purchase leaves the request that names it awaiting approval. */
  lemma OtherApprovalLeavesRequest()
    ensures var db, after := Store(ScheduleChange), AfterFirst(ScheduleChange);
            var k := RequestKey(PROJECT, REQUEST);
            && Decides(db, after, FirstAttempt(ScheduleChange)) && SoleLink(db, PROJECT, APPROVAL, REQUEST)
            && k in db && k in after && after[k] == db[k] && db[k] == Record(RequestEntity(LINKED_REQUEST), 0)
  {
    hide WellFormed, Decides, AfterFirst, SoleLink;
    var db, after, k := Store(ScheduleChange), AfterFirst(ScheduleChange), RequestKey(PROJECT, REQUEST);
    StoreIsWellFormed(ScheduleChange);
    StoreIsLinked(ScheduleChange);
    FirstGoesThrough(ScheduleChange);
    DecisionRequests(db, after, FirstAttempt(ScheduleChange), k);
    RequestMovesIff(db, after, FirstAttempt(ScheduleChange), k);
  }

  /** The decision goes through without notes and fails with empty ones, or with a key of 250 characters. */
  lemma EmptyNotesFail(key: string)
    requires 250 <= |key| <= 256
    ensures var db, t := Store(Purchase), FirstAttempt(Purchase);
            && DecidesNow(db, t)
            && !DecidesNow(db, t.(command := t.command.(notes := Some(""))))
            && !DecidesNow(db, t.(context := t.context.(idempotencyKey := key)))
  {
    hide Ready, DecidesNow, Store, WellFormed, ValidContext;
    var db, t := Store(Purchase), FirstAttempt(Purchase);
    ReadyToDecide(Purchase);
    DecidesExactly(db, t);
    BlankNotesFail(db, t.(command := t.command.(notes := Some(""))));
    KeyedContext(t, key);
    LongKeyFails(db, t.(context := t.context.(idempotencyKey := key)));
  }

  lemma KeyedContext(t: Attempt, key: string)
    requires ValidContext(t.context) && Objection(t).None?
    ensures var u := t.(context := t.context.(idempotencyKey := key)); ValidContext(u.context) && Objection(u).None?
  {
  }
}
