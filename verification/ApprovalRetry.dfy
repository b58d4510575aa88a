/** Causality enrichment, which reads outside the transaction, and what a retry of a decision answers. */
module ApprovalRetry {
  import opened Foundations
  import opened Models
  import opened Ordering
  import opened Repository
  import opened Access
  import opened Activity
  import opened Approvals
  import opened ApprovalEffects
  import opened ApprovalRuns
  import opened Identifiers
  import opened Texts

  /** The agent runs of a listing that the event triggered, in listing order. */
  function RunsAmong(entities: seq<Entity>, eventId: string): seq<AgentRun> {
    if entities == [] then []
    else
      var last := entities[|entities| - 1];
      RunsAmong(entities[..|entities| - 1], eventId) +
      (if last.RunEntity? && last.run.triggerEventId == eventId then [last.run] else [])
  }

  /** The context that the linked run fills in. */
  function WithRun(context: MutationContext, r: MaterialRequest, run: AgentRun): MutationContext {
    var source := if Truthy(context.sourceEventId) then context.sourceEventId else Some(r.sourceEventId);
    context.(sourceEventId := source, agentRunId := Some(run.id))
  }

  /** `_enrich_workflow_causality`: the context to record, and the linked request's ID. */
  function Enrich(db: Db, project: string, approvalId: string, context: MutationContext)
    : Result<(MutationContext, Option<string>), Error>
  {
    var approval := ReadApproval(db, project, approvalId);
    if approval.None? then Failure(EntityNotFound)
    else if approval.value.actionType != Purchase then Success((context, None))
    else
      var linked := Linked(db, project, approvalId);
      if |linked| > 1 then Failure(ApprovalFailed)
      else if linked == [] then Success((context, None))
      else
        var runs := RunsAmong(EntitiesIn(db, Runs, project), linked[0].sourceEventId);
        if |runs| > 1 then Failure(ApprovalFailed)
        else if runs == [] then Success((context, Some(linked[0].id)))
        else if context.agentRunId.Some? && context.agentRunId.value != runs[0].id then Failure(ApprovalFailed)
        else Success((WithRun(context, linked[0], runs[0]), Some(linked[0].id)))
  }

  /** One decision request: its command and the caller's own context, before enrichment. */
  datatype Order = Order(access: AccessContext, command: Command, context: MutationContext, approved: bool)

  function Plain(order: Order, now: int): Attempt {
    Attempt(order.access, order.command, order.context, None, order.approved, now)
  }

  function Enriched(order: Order, enrichment: (MutationContext, Option<string>), now: int): Attempt {
    Attempt(order.access, order.command, enrichment.0, enrichment.1, order.approved, now)
  }

  /** `_resolve`: the checks, the enrichment, the transaction. */
  function Resolve(db: Db, order: Order, now: int): (Db, Result<Mutation<Resolution>, Error>) {
    var objection := Objection(Plain(order, now));
    if objection.Some? then (db, Failure(objection.value))
    else
      match Enrich(db, order.command.projectId, order.command.approvalId, order.context)
      case Failure(error) => (db, Failure(error))
      case Success(enrichment) => Commit(db, Enriched(order, enrichment, now))
  }

  function EnrichmentOf(db: Db, order: Order): Result<(MutationContext, Option<string>), Error> {
    Enrich(db, order.command.projectId, order.command.approvalId, order.context)
  }

  /** The order was carried out for the first time. */
  predicate FirstTime(db: Db, order: Order, now: int) {
    var outcome := Resolve(db, order, now).1;
    outcome.Success? && !outcome.value.duplicate
  }

  lemma FirstTimeIsFresh(db: Db, order: Order, now: int)
    requires FirstTime(db, order, now)
    ensures EnrichmentOf(db, order).Success?
    ensures var t := Enriched(order, EnrichmentOf(db, order).value, now);
            && Objection(t).None? && SafeSpec(t) && IsFresh(db, CallOf(t))
            && Resolve(db, order, now).0 == Mutate(db, CallOf(t)).0
  {
    hide Enrich, Mutate;
  }

  /** Enrichment fills in the source event and the agent run of the context, and nothing else. */
  lemma EnrichShape(db: Db, order: Order)
    requires EnrichmentOf(db, order).Success?
    ensures var c := EnrichmentOf(db, order).value.0;
            c == order.context.(sourceEventId := c.sourceEventId, agentRunId := c.agentRunId)
    ensures ReadApproval(db, order.command.projectId, order.command.approvalId).Some?
  {
    hide Linked, RunsAmong, EntitiesIn;
  }

  /** Different enrichments of one order are different mutations under one idempotency key. */
  lemma EnrichmentsDiffer(order: Order, e: (MutationContext, Option<string>), f: (MutationContext, Option<string>),
                          now: int, later: int)
    requires e.0 == order.context.(sourceEventId := e.0.sourceEventId, agentRunId := e.0.agentRunId)
    requires f.0 == order.context.(sourceEventId := f.0.sourceEventId, agentRunId := f.0.agentRunId)
    ensures var t, u := Enriched(order, e, now), Enriched(order, f, later);
            && EventKey(Expected(CallOf(t))) == EventKey(Expected(CallOf(u)))
            && (MutationFingerprint(t.context, SpecOf(t)) == MutationFingerprint(u.context, SpecOf(u)) <==> e == f)
  {
    var t, u := Enriched(order, e, now), Enriched(order, f, later);
    assert SpecOf(t).metadata["material_request_id"] == e.1;
    assert SpecOf(u).metadata["material_request_id"] == f.1;
  }

  /** A repeated attempt whose event is stored: answered from the stored approval while its confirmation, if
      any, still holds, and refused otherwise. */
  lemma DuplicateAnswers(db: Db, t: Attempt, expected: ActivityEvent)
    requires Objection(t).None? && SafeSpec(t) && expected == Expected(CallOf(t))
    requires ReadEvent(db, EventKey(expected)) == Some(expected)
    requires ReadApproval(db, t.command.projectId, t.command.approvalId).Some?
    ensures var (after, outcome) := Commit(db, t);
            && after == db && (outcome.Success? <==> Fence(db, t.context).None?)
            && (outcome.Success? ==>
                  && outcome.value.duplicate && outcome.value.activity == expected && outcome.value.value.Some?
                  && Some(outcome.value.value.value.0) == ReadApproval(db, t.command.projectId, t.command.approvalId))
  {
    hide Fence, BuildEvent;
    assert [expected] + [] == [expected];
    assert Replay(db, t.access, t.command).Success?;
  }

  /** A repeated attempt that records another mutation under the same key: refused without effect. */
  lemma OtherMutationRefused(db: Db, t: Attempt, stored: ActivityEvent)
    requires Objection(t).None? && ReadEvent(db, EventKey(Expected(CallOf(t)))) == Some(stored)
    requires stored.fingerprint != Some(MutationFingerprint(t.context, SpecOf(t)))
    ensures Commit(db, t).0 == db && Commit(db, t).1.Failure?
  {
    hide Mutate, BuildEvent, SpecOf;
    if Fence(db, t.context).None? {
      assert WellScoped(CallOf(t));
      ConflictChangesNothing(db, CallOf(t));
    } else {
      FencedOut(db, CallOf(t));
    }
  }

  lemma FencedOut<V>(db: Db, call: Call<V>)
    requires Fence(db, call.context).Some?
    ensures Mutate(db, call).0 == db && Mutate(db, call).1.Failure?
  {
  }

  /** The confirmation under which an order is made depends on its own context only. */
  lemma FenceOfOrder(db: Db, order: Order, source: Option<string>, run: Option<string>)
    ensures Fence(db, order.context.(sourceEventId := source, agentRunId := run)) == Fence(db, order.context)
  {
  }

  /** A retry at any later time changes nothing.  It succeeds if and only if its causality still reads the same
      and its confirmation still holds, and is then answered as a duplicate from the stored approval. */
  lemma RetryIsDuplicate(db: Db, later: Db, order: Order, now: int, retriedAt: int)
    requires WellFormed(db) && WellFormed(later) && FirstTime(db, order, now)
    requires EnrichmentOf(db, order).Success? && ValidContext(EnrichmentOf(db, order).value.0)
    requires AppendOnly(Resolve(db, order, now).0, later)
    ensures var (after, outcome) := Resolve(later, order, retriedAt);
            && after == later
            && (outcome.Success? <==>
                EnrichmentOf(later, order) == EnrichmentOf(db, order) && Fence(later, order.context).None?)
            && (outcome.Success? ==>
                  && outcome.value.duplicate && outcome.value.value.Some?
                  && Some(outcome.value.value.value.0) ==
                     ReadApproval(later, order.command.projectId, order.command.approvalId)
                  && outcome.value.activity == Expected(CallOf(Enriched(order, EnrichmentOf(db, order).value, now))))
  {
    hide Enrich, Commit, Mutate, WellFormed, Sound, IsFresh, BuildEvent, SpecOf, Fence, AppendOnly, ReadEvent;
    var e := EnrichmentOf(db, order).value;
    var t := Enriched(order, e, now);
    FirstTimeIsFresh(db, order, now);
    FirstEventStays(db, later, t);
    EnrichShape(db, order);
    if EnrichmentOf(later, order).Success? {
      RetryOf(later, order, e, EnrichmentOf(later, order).value, now, retriedAt);
    }
  }

  lemma FirstEventStays(db: Db, later: Db, t: Attempt)
    requires WellFormed(db) && ValidContext(t.context) && Objection(t).None? && IsFresh(db, CallOf(t))
    requires AppendOnly(Mutate(db, CallOf(t)).0, later)
    ensures ReadEvent(later, EventKey(Expected(CallOf(t)))) == Some(Expected(CallOf(t)))
  {
    hide Mutate, WellFormed, Sound, IsFresh, BuildEvent, SpecOf;
    AttemptIsSound(t);
    FreshStoresItsEvent(db, CallOf(t));
  }

  /** The retry that follows an enrichment, against the stored event of the first attempt. */
  lemma RetryOf(later: Db, order: Order, e: (MutationContext, Option<string>), f: (MutationContext, Option<string>),
                now: int, retriedAt: int)
    requires EnrichmentOf(later, order) == Success(f)
    requires e.0 == order.context.(sourceEventId := e.0.sourceEventId, agentRunId := e.0.agentRunId)
    requires Objection(Enriched(order, e, now)).None? && SafeSpec(Enriched(order, e, now))
    requires var expected := Expected(CallOf(Enriched(order, e, now)));
             ReadEvent(later, EventKey(expected)) == Some(expected)
    ensures var (after, outcome) := Commit(later, Enriched(order, f, retriedAt));
            && after == later
            && (outcome.Success? <==> f == e && Fence(later, order.context).None?)
            && (outcome.Success? ==>
                  && outcome.value.duplicate && outcome.value.value.Some?
                  && Some(outcome.value.value.value.0) ==
                     ReadApproval(later, order.command.projectId, order.command.approvalId)
                  && outcome.value.activity == Expected(CallOf(Enriched(order, e, now))))
  {
    hide Enrich, Commit, Fence, ReadEvent, ReadApproval, SafeSpec;
    var t, retry := Enriched(order, e, now), Enriched(order, f, retriedAt);
    EnrichShape(later, order);
    EnrichmentsDiffer(order, e, f, now, retriedAt);
    FenceOfOrder(later, order, e.0.sourceEventId, e.0.agentRunId);
    assert Objection(retry).None?;
    if e == f {
      SameAttemptText(order, e, now, retriedAt);
      DuplicateAnswers(later, retry, Expected(CallOf(t)));
    } else {
      OtherMutationRefused(later, retry, Expected(CallOf(t)));
    }
  }

  /** An attempt's event and its texts do not depend on the server's clock. */
  lemma SameAttemptText(order: Order, e: (MutationContext, Option<string>), now: int, later: int)
    ensures Expected(CallOf(Enriched(order, e, now))) == Expected(CallOf(Enriched(order, e, later)))
    ensures SafeSpec(Enriched(order, e, now)) == SafeSpec(Enriched(order, e, later))
  {
    hide BuildEvent, Restricted, CanonicalId;
  }

  // ----- a decision does not change its own enrichment -----

  /** The entities differ, if at all, in a request's status, times and amounts only. */
  predicate Similar(e: Entity, f: Entity) {
    e == f ||
    (e.RequestEntity? && f.RequestEntity? && e.request.id == f.request.id
     && e.request.approvalId == f.request.approvalId && e.request.sourceEventId == f.request.sourceEventId)
  }

  lemma {:induction false} LinkedAmongSimilar(es: seq<Entity>, fs: seq<Entity>, approvalId: string)
    requires |es| == |fs| && forall i | 0 <= i < |es| :: Similar(es[i], fs[i])
    ensures var a, b := LinkedAmong(es, approvalId), LinkedAmong(fs, approvalId);
            |a| == |b| && forall i | 0 <= i < |a| :: a[i].id == b[i].id && a[i].sourceEventId == b[i].sourceEventId
    decreases |es|
  {
    if es != [] {
      LinkedAmongSimilar(es[..|es| - 1], fs[..|fs| - 1], approvalId);
    }
  }

  lemma EnrichAlike(db: Db, after: Db, order: Order)
    requires ReadApproval(db, order.command.projectId, order.command.approvalId).Some?
    requires ReadApproval(after, order.command.projectId, order.command.approvalId).Some?
    requires ReadApproval(db, order.command.projectId, order.command.approvalId).value.actionType
             == ReadApproval(after, order.command.projectId, order.command.approvalId).value.actionType
    requires var a, b := Linked(db, order.command.projectId, order.command.approvalId),
             Linked(after, order.command.projectId, order.command.approvalId);
             |a| == |b| && forall i | 0 <= i < |a| :: a[i].id == b[i].id && a[i].sourceEventId == b[i].sourceEventId
    requires EntitiesIn(db, Runs, order.command.projectId) == EntitiesIn(after, Runs, order.command.projectId)
    ensures EnrichmentOf(after, order) == EnrichmentOf(db, order)
  {
    hide ReadApproval, Linked, EntitiesIn, RunsAmong;
  }

  lemma DecisionKeepsIds(db: Db, after: Db, t: Attempt)
    requires WellFormed(db) && Decides(db, after, t)
    ensures IdsIn(db, Requests, t.command.projectId) == IdsIn(after, Requests, t.command.projectId)
  {
    hide Decides, WellFormed;
    forall k: Key | k.kind == Requests ensures k in after <==> k in db {
      DecisionRequestSimilar(db, after, t, k);
    }
  }

  lemma DecisionKeepsListing(db: Db, after: Db, t: Attempt)
    requires WellFormed(db) && Decides(db, after, t)
    ensures var es, fs := EntitiesIn(db, Requests, t.command.projectId),
            EntitiesIn(after, Requests, t.command.projectId);
            |es| == |fs| && forall i | 0 <= i < |es| :: Similar(es[i], fs[i])
    ensures EntitiesIn(db, Runs, t.command.projectId) == EntitiesIn(after, Runs, t.command.projectId)
  {
    hide Decides, WellFormed, EntitiesIn, IdsIn, Similar;
    var p := t.command.projectId;
    DecisionKeepsIds(db, after, t);
    ListedLength(db, Requests, p);
    ListedLength(after, Requests, p);
    var es, fs := EntitiesIn(db, Requests, p), EntitiesIn(after, Requests, p);
    forall i | 0 <= i < |es| ensures Similar(es[i], fs[i]) {
      ListedAt(db, Requests, p, i);
      ListedAt(after, Requests, p, i);
      DecisionRequestSimilar(db, after, t, Key(Requests, p, SortedIds(IdsIn(db, Requests, p))[i]));
    }
    RunsKept(db, after, t);
  }

  lemma ListedLength(db: Db, kind: Kind, project: string)
    ensures |EntitiesIn(db, kind, project)| == |SortedIds(IdsIn(db, kind, project))|
  {
  }

  lemma DecisionRequestSimilar(db: Db, after: Db, t: Attempt, k: Key)
    requires WellFormed(db) && Decides(db, after, t) && k.kind == Requests
    ensures k in after <==> k in db
    ensures k in db ==> Similar(db[k].entity, after[k].entity)
  {
    hide LinkOf, WellFormed, AfterDecision, SameDomain;
    DecisionRequests(db, after, t, k);
    var a := ReadApproval(db, t.command.projectId, t.command.approvalId).value;
    if LinkOf(db, a).value.Some? {
      LinkOfIsStored(db, a, LinkOf(db, a).value.value);
    }
  }

  lemma RunsKept(db: Db, after: Db, t: Attempt)
    requires Decides(db, after, t)
    ensures EntitiesIn(db, Runs, t.command.projectId) == EntitiesIn(after, Runs, t.command.projectId)
  {
    ListIsLocal(db, after, Runs, t.command.projectId);
  }

  lemma DecisionKeepsType(db: Db, after: Db, t: Attempt)
    requires Decides(db, after, t)
    ensures var a := ReadApproval(after, t.command.projectId, t.command.approvalId);
            a.Some? && a.value.actionType ==
              ReadApproval(db, t.command.projectId, t.command.approvalId).value.actionType
  {
    hide LinkOf, MovedRequest, DecisionMessage;
  }

  lemma DecisionKeepsEnrichment(db: Db, after: Db, order: Order, t: Attempt)
    requires WellFormed(db) && Decides(db, after, t) && t.command == order.command
    ensures EnrichmentOf(after, order) == EnrichmentOf(db, order)
  {
    hide Decides, WellFormed, EntitiesIn;
    assert ReadApproval(db, t.command.projectId, t.command.approvalId).Some? by { DecidedApproval(db, after, t); }
    DecisionKeepsListing(db, after, t);
    DecisionKeepsType(db, after, t);
    LinkedAmongSimilar(EntitiesIn(db, Requests, t.command.projectId), EntitiesIn(after, Requests, t.command.projectId),
                       t.command.approvalId);
    EnrichAlike(db, after, order);
  }

  lemma SameDomainReads(db: Db, after: Db, project: string, approvalId: string)
    requires SameDomain(after, db)
    ensures ReadApproval(after, project, approvalId) == ReadApproval(db, project, approvalId)
    ensures Linked(after, project, approvalId) == Linked(db, project, approvalId)
    ensures EntitiesIn(after, Runs, project) == EntitiesIn(db, Runs, project)
  {
    LinkedDependsOnRequests(db, after, project, approvalId);
    ListIsLocal(db, after, Runs, project);
  }

  lemma SameDomainKeepsEnrichment(db: Db, after: Db, order: Order)
    requires SameDomain(after, db)
    ensures EnrichmentOf(after, order) == EnrichmentOf(db, order)
  {
    hide SameDomain, ReadApproval, Linked, EntitiesIn;
    SameDomainReads(db, after, order.command.projectId, order.command.approvalId);
  }

  /** A decision leaves the claims, and so every confirmation, as they were. */
  lemma FenceKept(db: Db, after: Db, t: Attempt, c: MutationContext)
    requires SameDomain(after, db) || Decides(db, after, t)
    ensures Fence(after, c) == Fence(db, c)
  {
    hide Decides;
    if c.confirmation.Some? {
      var k := Key(Claims, c.projectId, c.confirmation.value.claimId);
      if !SameDomain(after, db) {
        DecisionElsewhere(db, after, t, k);
      }
      assert (k in after <==> k in db) && (k in db ==> after[k] == db[k]);
    }
  }

  /** Sending the same decision twice in a row is the same as sending it once, and the second answer
      is a duplicate that reports the stored approval. */
  lemma DecideTwice(db: Db, order: Order, now: int, retriedAt: int)
    requires WellFormed(db) && FirstTime(db, order, now)
    requires EnrichmentOf(db, order).Success? && ValidContext(EnrichmentOf(db, order).value.0)
    ensures var once := Resolve(db, order, now).0;
            var (twice, outcome) := Resolve(once, order, retriedAt);
            && twice == once && outcome.Success? && outcome.value.duplicate && outcome.value.value.Some?
            && Some(outcome.value.value.value.0) ==
               ReadApproval(once, order.command.projectId, order.command.approvalId)
  {
    hide Resolve, Enrich, WellFormed, Decides, SameDomain, ReadApproval, FirstTime, Fence, Mutate, SafeSpec, BuildEvent;
    var once := Resolve(db, order, now).0;
    var t := Enriched(order, EnrichmentOf(db, order).value, now);
    FirstTimeIsFresh(db, order, now);
    CommitCases(db, t);
    FreshMeans(db, CallOf(t));
    EnrichShape(db, order);
    FenceOfOrder(db, order, t.context.sourceEventId, t.context.agentRunId);
    FenceKept(db, once, t, order.context);
    if SameDomain(once, db) {
      SameDomainKeepsEnrichment(db, once, order);
    } else {
      DecisionKeepsEnrichment(db, once, order, t);
    }
    RetryIsDuplicate(db, once, order, now, retriedAt);
  }
}
