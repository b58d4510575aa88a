/** Approving and rejecting over whole runs: interleaved attempts by any callers, with any keys and
    versions, and the rest of the system working on other records in between. */
module ApprovalRuns {
  import opened Foundations
  import opened Models
  import opened Ordering
  import opened Repository
  import opened Identifiers
  import opened Access
  import opened Activity
  import opened Approvals
  import opened ApprovalEffects
  import opened Texts

  /** One call of `approve` or `reject` that has read its causality: `context` and `requestId` are
      whatever that earlier read, outside the transaction, produced. */
  datatype Attempt = Attempt(
    access: AccessContext, command: Command, context: MutationContext, requestId: Option<string>,
    approved: bool, now: int)

  /** The checks `_resolve` makes before anything is read. */
  function Objection(t: Attempt): Option<Error> {
    if t.access.projectId != t.command.projectId || t.access.projectId != t.context.projectId
      then Some(ProjectForbidden)
    else if MayApprove !in Grants(t.access.role) then Some(RoleRequired)
    else if t.context.actorType == User && t.context.actorId != Some(t.access.userId) then Some(ActorMismatch)
    else None
  }

  function SpecOf(t: Attempt): ActivitySpec {
    ActivitySpec("approval." + DecisionText(t.approved), "approval", t.command.approvalId,
                 "Approval " + DecisionText(t.approved),
                 map["notes" := t.command.notes, "status" := Some(DecisionText(t.approved)),
                     "approval_id" := Some(t.command.approvalId), "material_request_id" := t.requestId,
                     "reason" := Some("human_approval_decision")])
  }

  function ReplayEffect(t: Attempt): Effect<Resolution> {
    (db: Db) => Replay(db, t.access, t.command)
  }

  function CallOf(t: Attempt): Call<Resolution> {
    Call(t.context, SpecOf(t), ResolutionEffect(t.access, t.command, t.context, t.approved, t.now), _ => None,
         Some(ReplayEffect(t)), [])
  }

  predicate Shown(text: Option<string>) {
    text.Some? ==> |text.value| <= 5000 && !Restricted(text.value)
  }

  /** What the validator of the activity's description checks of the texts that vary: the fixed ones pass. */
  predicate SafeSpec(t: Attempt) {
    && CanonicalId(t.command.approvalId)
    && Shown(Some(t.command.approvalId)) && Shown(t.command.notes) && Shown(t.requestId)
  }

  /** The rest of `_resolve`: the description of the activity, then the transaction. */
  function Commit(db: Db, t: Attempt): (Db, Result<Mutation<Resolution>, Error>) {
    if Objection(t).Some? then (db, Failure(Objection(t).value))
    else if !SafeSpec(t) then (db, Failure(ValidationFailed))
    else Mutate(db, CallOf(t))
  }

  lemma AttemptIsSound(t: Attempt)
    requires ValidContext(t.context) && Objection(t).None?
    ensures Sound(CallOf(t))
  {
    ResolutionIsLogBlind(t.access, t.command, t.context, t.approved, t.now);
    assert ReadOnly(ReplayEffect(t));
  }

  /** The attempt decided a pending approval, and did nothing else to the domain records. */
  ghost predicate Decides(db: Db, after: Db, t: Attempt) {
    var current := ReadApproval(db, t.command.projectId, t.command.approvalId);
    && current.Some? && current.value.status == ApprovalStatus.Pending
    && current.value.projectId == t.command.projectId && current.value.id == t.command.approvalId
    && LinkOf(db, current.value).Success?
    && t.command.expectedVersion == Some(current.value.version)
    && SameDomain(after, AfterDecision(db, current.value, t.approved, t.access.userId, t.command))
  }

  lemma SameDomainTransitive(a: Db, b: Db, c: Db)
    requires SameDomain(a, b) && SameDomain(b, c)
    ensures SameDomain(a, c) && SameDomain(b, a)
  {
  }

  lemma ResolutionCases(db: Db, t: Attempt)
    requires WellFormed(db) && t.access.projectId == t.command.projectId
    requires ApplyResolution(db, t.access, t.command, t.context, t.approved, t.now).Success?
    ensures var after := ApplyResolution(db, t.access, t.command, t.context, t.approved, t.now).value.0;
            after == db || Decides(db, after, t)
  {
    var a := ReadApproval(db, t.access.projectId, t.command.approvalId).value;
    if a.status == ApprovalStatus.Pending {
      hide Decide, AfterDecision, WellFormed, LinkOf, SameDomain;
      DecideEffect(db, a, t.access, t.command, t.context, t.approved, t.now);
    }
  }

  lemma DecidesFollows(db: Db, body: Db, after: Db, t: Attempt)
    requires Decides(db, body, t) && SameDomain(after, body)
    ensures Decides(db, after, t)
  {
    hide AfterDecision, LinkOf;
  }

  /** Every attempt either leaves the domain records alone or decides one pending approval. */
  lemma CommitCases(db: Db, t: Attempt)
    requires WellFormed(db) && ValidContext(t.context)
    ensures var after := Commit(db, t).0;
            && WellFormed(after) && AppendOnly(db, after)
            && (SameDomain(after, db) || Decides(db, after, t))
  {
    hide WellFormed, BuildEvent, SpecOf, LinkOf, CreateEvents, SameDomain, AfterDecision, Mutate, ApplyResolution,
         Sound, AppendOnly, SafeSpec, ValidContext, Decides;
    var call, after := CallOf(t), Commit(db, t).0;
    SameDomainItself(db);
    AppendOnlyItself(db);
    if Objection(t).None? && SafeSpec(t) {
      AttemptIsSound(t);
      MutateAppends(db, call);
      if IsFresh(db, call) {
        FreshMeans(db, call);
        var body := call.body(db).value.0;
        ResolutionCases(db, t);
        CreateEventsExtend(body, [Expected(call)] + MissingOrConflict(db, call.additional).value);
        SameDomainSymmetric(body, after);
        if body != db {
          DecidesFollows(db, body, after, t);
        }
      } else {
        NotFreshKeepsDomain(db, call);
        SameDomainSymmetric(db, after);
      }
    }
  }

  // ----- what one decision changes -----

  lemma DecidedApproval(db: Db, after: Db, t: Attempt)
    requires Decides(db, after, t)
    ensures var ka := ApprovalKey(t.command.projectId, t.command.approvalId);
            && ka in db && db[ka].entity.ApprovalEntity? && db[ka].entity.approval.status == ApprovalStatus.Pending
            && ka in after && after[ka].version == db[ka].version + 1
            && after[ka].entity.ApprovalEntity? && after[ka].entity.approval.status == Outcome(t.approved)
  {
  }

  lemma OtherApprovalsKept(db: Db, after: Db, t: Attempt, k: Key)
    requires Decides(db, after, t) && k.kind == Kind.Approvals
    requires k != ApprovalKey(t.command.projectId, t.command.approvalId)
    ensures (k in after <==> k in db) && (k in db ==> after[k] == db[k])
  {
    hide LinkOf, DecisionMessage, Decided, MovedRequest;
  }

  /** Records of other collections are untouched. */
  lemma DecisionElsewhere(db: Db, after: Db, t: Attempt, k: Key)
    requires Decides(db, after, t) && k.kind !in {Kind.Approvals, Requests, Outbox, Activities}
    ensures (k in after <==> k in db) && (k in db ==> after[k] == db[k])
  {
    hide LinkOf, DecisionMessage, Decided, MovedRequest;
  }

  /** The decision's message is stored afterwards, and every other outbox record is untouched. */
  lemma DecisionMessages(db: Db, after: Db, t: Attempt, k: Key)
    requires Decides(db, after, t) && k.kind == Outbox
    ensures var km := MessageKey(t.command.projectId, t.command.approvalId, t.approved);
            && km in after
            && (k != km || k in db ==> (k in after <==> k in db) && (k in db ==> after[k] == db[k]))
            && (km !in db ==> after[km].entity == OutboxEntity(DecisionMessage(t.command, t.approved)))
  {
    hide LinkOf, DecisionMessage, Decided, MovedRequest;
  }

  /** The message of a decision is stored, with the type that announces it and the approval it is about. */
  ghost predicate Sent(db: Db, project: string, approvalId: string, approved: bool) {
    var deduplication := "approval_" + approvalId + if approved then "_approved" else "_rejected";
    var km := Key(Outbox, project, "obx_" + Sha256(deduplication));
    && km in db && db[km].entity.OutboxEntity?
    && db[km].entity.message.messageType == (if approved then "APPROVAL_GRANTED" else "APPROVAL_REJECTED")
    && db[km].entity.message.deduplicationKey == deduplication
    && db[km].entity.message.payload == approvalId
  }

  /** An approval has a decision message exactly when it is decided, of its own outcome, and no other. */
  ghost predicate MessagesAgree(db: Db, k: Key) {
    k in db && db[k].entity.ApprovalEntity? ==>
      var status := db[k].entity.approval.status;
      && (status == ApprovalStatus.Approved <==> MessageKey(k.project, k.id, true) in db)
      && (status == ApprovalStatus.Rejected <==> MessageKey(k.project, k.id, false) in db)
      && (status == ApprovalStatus.Approved ==> Sent(db, k.project, k.id, true))
      && (status == ApprovalStatus.Rejected ==> Sent(db, k.project, k.id, false))
  }

  ghost predicate Consistent(db: Db) {
    forall k: Key | k.kind == Kind.Approvals :: MessagesAgree(db, k)
  }

  lemma MessageSays(project: string, approvalId: string, approved: bool)
    ensures var deduplication := "approval_" + approvalId + if approved then "_approved" else "_rejected";
            && MessageKey(project, approvalId, approved) == Key(Outbox, project, "obx_" + Sha256(deduplication))
            && forall command: Command | command.approvalId == approvalId ::
                 var message := DecisionMessage(command, approved);
                 && message.messageType == (if approved then "APPROVAL_GRANTED" else "APPROVAL_REJECTED")
                 && message.deduplicationKey == deduplication && message.payload == approvalId
  {
    assert "approval_" + approvalId + "_approved" == "approval_" + approvalId + "_" + "approved";
    assert "approval_" + approvalId + "_rejected" == "approval_" + approvalId + "_" + "rejected";
  }

  lemma MessagesAgreeAfter(db: Db, after: Db, t: Attempt, k: Key)
    requires Decides(db, after, t) && k.kind == Kind.Approvals
    requires MessagesAgree(db, k)
    ensures MessagesAgree(after, k)
  {
    var ka := ApprovalKey(t.command.projectId, t.command.approvalId);
    var grant, refusal := MessageKey(k.project, k.id, true), MessageKey(k.project, k.id, false);
    MessageSays(k.project, k.id, true);
    MessageSays(k.project, k.id, false);
    DecisionMessages(db, after, t, grant);
    DecisionMessages(db, after, t, refusal);
    DecisionMessageInjective(k.id, true, t.command.approvalId, t.approved);
    DecisionMessageInjective(k.id, false, t.command.approvalId, t.approved);
    if k == ka {
      DecidedApproval(db, after, t);
    } else {
      OtherApprovalsKept(db, after, t, k);
    }
  }

  lemma SameDomainAgrees(db: Db, after: Db, k: Key)
    requires SameDomain(after, db) && k.kind == Kind.Approvals && MessagesAgree(db, k)
    ensures MessagesAgree(after, k)
  {
  }

  /** Requests after a decision: the moved one, or exactly as before. */
  lemma DecisionRequests(db: Db, after: Db, t: Attempt, k: Key)
    requires WellFormed(db) && Decides(db, after, t) && k.kind == Requests
    ensures k in after <==> k in db
    ensures var a := ReadApproval(db, t.command.projectId, t.command.approvalId).value;
            k in db ==>
              match LinkOf(db, a).value
              case Some(r) => if k == RequestKey(a.projectId, r.id) && Awaits(r.status)
                              then after[k] == Record(RequestEntity(MovedRequest(r, t.approved, t.command.occurredAt)),
                                                      db[k].version + 1)
                              else after[k] == db[k]
              case None => after[k] == db[k]
  {
    hide LinkOf, Decided, DecisionMessage, MovedRequest, WellFormed;
    var a := ReadApproval(db, t.command.projectId, t.command.approvalId).value;
    if LinkOf(db, a).value.Some? {
      LinkOfIsStored(db, a, LinkOf(db, a).value.value);
    }
  }

  lemma {:induction false} LinkedAmongHolds(entities: seq<Entity>, approvalId: string, i: nat)
    requires i < |entities| && IsLinked(entities[i], approvalId)
    ensures entities[i].request in LinkedAmong(entities, approvalId)
    decreases |entities|
  {
    var n := |entities| - 1;
    if i < n {
      LinkedAmongHolds(entities[..n], approvalId, i);
    }
  }

  /** Every stored request that names the approval is found by the decision. */
  lemma LinkedIsComplete(db: Db, project: string, approvalId: string, k: Key)
    requires k in db && k.kind == Requests && k.project == project && IsLinked(db[k].entity, approvalId)
    ensures db[k].entity.request in Linked(db, project, approvalId)
  {
    var ids := SortedIds(IdsIn(db, Requests, project));
    assert k.id in IdsIn(db, Requests, project);
    var i :| 0 <= i < |ids| && ids[i] == k.id;
    ListedAt(db, Requests, project, i);
    LinkedAmongHolds(EntitiesIn(db, Requests, project), approvalId, i);
  }

  lemma OnlyLinkIsSole(db: Db, a: Approval, r: MaterialRequest)
    requires WellFormed(db) && LinkOf(db, a) == Success(Some(r))
    ensures SoleLink(db, a.projectId, a.id, r.id)
  {
    LinkOfIsStored(db, a, r);
    var linked := Linked(db, a.projectId, a.id);
    forall k | k in db && k.kind == Requests && k.project == a.projectId && IsLinked(db[k].entity, a.id)
      ensures k.id == r.id {
      LinkedIsComplete(db, a.projectId, a.id, k);
      assert db[k].entity.request == r;
      assert KeyOf(db[k].entity) == k;
    }
  }

  /** A decision moves a request if and only if the approval is for a purchase, the request is its only
      linked one, and it was still proposed or awaiting approval. */
  lemma RequestMovesIff(db: Db, after: Db, t: Attempt, k: Key)
    requires WellFormed(db) && Decides(db, after, t)
    requires k in db && k.kind == Requests && db[k].entity.RequestEntity?
    ensures var a := ReadApproval(db, t.command.projectId, t.command.approvalId).value;
            after[k] != db[k] <==>
            a.actionType == Purchase && k.project == a.projectId && SoleLink(db, a.projectId, a.id, k.id)
            && db[k].entity.request.status in {RequestStatus.Proposed, RequestStatus.AwaitingApproval}
  {
    var a := ReadApproval(db, t.command.projectId, t.command.approvalId).value;
    DecisionRequests(db, after, t, k);
    if k.project == a.projectId && SoleLink(db, a.projectId, a.id, k.id) {
      SoleLinkIsLinked(db, a.projectId, a.id, k.id);
      assert KeyOf(db[k].entity) == k;
    } else if LinkOf(db, a).value.Some? {
      var r := LinkOf(db, a).value.value;
      LinkOfIsStored(db, a, r);
      var kr := RequestKey(a.projectId, r.id);
      OnlyLinkIsSole(db, a, r);
    }
  }

  // ----- runs -----

  /** A new approval is pending and has no decision message yet. */
  ghost predicate NewApproval(after: Db, k: Key)
    requires k in after
  {
    && after[k].entity.ApprovalEntity? && after[k].entity.approval.status == ApprovalStatus.Pending
    && forall approved :: MessageKey(k.project, k.id, approved) !in after
  }

  /** A new request waits, if at all, for an approval that did not exist before it. */
  ghost predicate NewRequest(db: Db, after: Db, k: Key)
    requires k in after
  {
    forall id | ApprovalKey(k.project, id) in db :: !IsLinked(after[k].entity, id)
  }

  /** The rest of the system: it may change any record except approvals and requests, of which it may create
      new ones; it may deliver outbox messages and add others, but neither drops nor rewrites one, nor adds a
      decision's; and it only appends to the log. */
  ghost predicate Environment(db: Db, after: Db) {
    && WellFormed(after) && AppendOnly(db, after)
    && (forall k: Key | (k.kind == Kind.Approvals || k.kind == Requests) && k in db :: k in after && after[k] == db[k])
    && (forall k | k in after && k.kind == Kind.Approvals && k !in db :: NewApproval(after, k))
    && (forall k | k in after && k.kind == Requests && k !in db :: NewRequest(db, after, k))
    && (forall k | k in db && k.kind == Outbox :: k in after)
    && (forall project, id, approved ::
        MessageKey(project, id, approved) in after ==> MessageKey(project, id, approved) in db)
    && (forall k | k in db && k.kind == Outbox && db[k].entity.OutboxEntity? ::
          && after[k].entity.OutboxEntity?
          && after[k].entity.message.messageType == db[k].entity.message.messageType
          && after[k].entity.message.deduplicationKey == db[k].entity.message.deduplicationKey
          && after[k].entity.message.payload == db[k].entity.message.payload)
  }

  lemma EnvironmentAgrees(db: Db, after: Db, k: Key)
    requires Environment(db, after) && k.kind == Kind.Approvals && MessagesAgree(db, k)
    ensures MessagesAgree(after, k)
  {
    hide WellFormed, AppendOnly;
  }

  lemma EnvironmentLinks(db: Db, after: Db, ka: Key, requestId: string)
    requires Environment(db, after) && ka.kind == Kind.Approvals && ka in db
    requires SoleLink(db, ka.project, ka.id, requestId)
    ensures SoleLink(after, ka.project, ka.id, requestId)
  {
    hide WellFormed, AppendOnly, NewApproval;
    assert ka == ApprovalKey(ka.project, ka.id);
    forall k | k in after && k.kind == Requests && k.project == ka.project && IsLinked(after[k].entity, ka.id)
      ensures k.id == requestId
    {
      assert k in db || NewRequest(db, after, k);
    }
  }

  ghost predicate Next(db: Db, after: Db) {
    (exists t: Attempt :: ValidContext(t.context) && Commit(db, t).0 == after) || Environment(db, after)
  }

  /** A run: any number of attempts and other work, in any interleaving of their transactions. */
  ghost predicate Behaviour(states: seq<Db>) {
    && states != [] && WellFormed(states[0]) && Consistent(states[0])
    && forall i | 0 <= i < |states| - 1 :: Next(states[i], states[i + 1])
  }

  /** One step, seen from the approvals and requests. */
  ghost predicate StepKind(db: Db, after: Db) {
    Environment(db, after) || SameDomain(after, db) || exists t: Attempt :: Decides(db, after, t)
  }

  lemma NextCases(db: Db, after: Db)
    requires WellFormed(db) && Next(db, after)
    ensures WellFormed(after) && AppendOnly(db, after) && StepKind(db, after)
  {
    if !Environment(db, after) {
      var t: Attempt :| ValidContext(t.context) && Commit(db, t).0 == after;
      CommitCases(db, t);
    }
  }

  lemma NextKeepsConsistent(db: Db, after: Db)
    requires WellFormed(db) && Consistent(db) && Next(db, after)
    ensures Consistent(after)
  {
    hide Next, WellFormed, Decides;
    NextCases(db, after);
    forall k: Key | k.kind == Kind.Approvals ensures MessagesAgree(after, k) {
      if SameDomain(after, db) {
        SameDomainAgrees(db, after, k);
      } else if Environment(db, after) {
        EnvironmentAgrees(db, after, k);
      } else {
        var t: Attempt :| Decides(db, after, t);
        MessagesAgreeAfter(db, after, t, k);
      }
    }
  }

  /** What has become of an approval record that was `was`. */
  ghost predicate DecidedAtMostOnce(was: Record, now: Record)
    requires was.entity.ApprovalEntity?
  {
    || now == was
    || (was.entity.approval.status == ApprovalStatus.Pending && now.entity.ApprovalEntity?
        && now.version == was.version + 1
        && now.entity.approval.status in {ApprovalStatus.Approved, ApprovalStatus.Rejected})
  }

  lemma NextDecides(db: Db, after: Db, k: Key)
    requires WellFormed(db) && Next(db, after) && k in db && k.kind == Kind.Approvals && db[k].entity.ApprovalEntity?
    ensures k in after && DecidedAtMostOnce(db[k], after[k])
  {
    hide Next, WellFormed, Decides;
    NextCases(db, after);
    if !SameDomain(after, db) && !Environment(db, after) {
      var t: Attempt :| Decides(db, after, t);
      if k == ApprovalKey(t.command.projectId, t.command.approvalId) {
        DecidedApproval(db, after, t);
      } else {
        OtherApprovalsKept(db, after, t, k);
      }
    }
  }

  lemma BehaviourStep(states: seq<Db>, n: nat)
    requires Behaviour(states) && 0 < n < |states|
    ensures Next(states[n - 1], states[n])
  {
    hide Next, WellFormed, Consistent;
    assert Next(states[n - 1], states[n - 1 + 1]);
  }

  lemma BehaviourStart(states: seq<Db>)
    requires Behaviour(states)
    ensures WellFormed(states[0]) && Consistent(states[0])
  {
  }

  lemma {:induction false} RunInvariants(states: seq<Db>, n: nat)
    requires Behaviour(states) && n < |states|
    ensures WellFormed(states[n]) && Consistent(states[n])
    decreases n
  {
    hide Behaviour, Next, WellFormed, Consistent, StepKind, AppendOnly;
    if n == 0 {
      BehaviourStart(states);
    } else {
      RunInvariants(states, n - 1);
      BehaviourStep(states, n);
      NextCases(states[n - 1], states[n]);
      NextKeepsConsistent(states[n - 1], states[n]);
    }
  }

  /** Over any run: the messages always agree with the decisions, and an approval is decided at most
      once; from then on its record never changes. */
  lemma {:induction false} ApprovalSafety(states: seq<Db>, i: nat, j: nat, k: Key)
    requires Behaviour(states) && i <= j < |states|
    requires k in states[i] && k.kind == Kind.Approvals && states[i][k].entity.ApprovalEntity?
    ensures Consistent(states[j]) && k in states[j] && DecidedAtMostOnce(states[i][k], states[j][k])
    decreases j - i
  {
    hide Behaviour, Next, WellFormed, Consistent;
    RunInvariants(states, j);
    if i < j {
      ApprovalSafety(states, i, j - 1, k);
      RunInvariants(states, j - 1);
      BehaviourStep(states, j);
      NextDecides(states[j - 1], states[j], k);
    }
  }

  /** The request agrees with the approval it waits for. */
  ghost predicate InStep(db: Db, ka: Key, kr: Key, request: Record) {
    && ka in db && db[ka].entity.ApprovalEntity? && kr in db && db[kr].entity.RequestEntity?
    && match db[ka].entity.approval.status
       case Pending => db[kr] == request
       case Approved => db[kr].entity.request.status == RequestStatus.Approved
       case Rejected => db[kr].entity.request.status == RequestStatus.Cancelled
       case _ => false
  }

  /** The purchase approval and its only linked request, as the run carries them along. */
  ghost predicate Bound(db: Db, ka: Key, kr: Key, request: Record) {
    && InStep(db, ka, kr, request) && db[ka].entity.approval.actionType == Purchase
    && SoleLink(db, ka.project, ka.id, kr.id)
  }

  lemma LinksKept(db: Db, after: Db, t: Attempt, k: Key, approvalId: string)
    requires WellFormed(db) && Decides(db, after, t) && k.kind == Requests
    ensures k in after <==> k in db
    ensures k in db ==> (IsLinked(after[k].entity, approvalId) <==> IsLinked(db[k].entity, approvalId))
  {
    var a := ReadApproval(db, t.command.projectId, t.command.approvalId).value;
    DecisionRequests(db, after, t, k);
    if LinkOf(db, a).value.Some? {
      LinkOfIsStored(db, a, LinkOf(db, a).value.value);
    }
  }

  lemma DecisionKeepsBound(db: Db, after: Db, t: Attempt, ka: Key, kr: Key, request: Record)
    requires WellFormed(db) && Decides(db, after, t)
    requires ka.kind == Kind.Approvals && kr == RequestKey(ka.project, kr.id) && Bound(db, ka, kr, request)
    requires request.entity.RequestEntity? && Awaits(request.entity.request.status)
    ensures Bound(after, ka, kr, request)
  {
    var a := ReadApproval(db, t.command.projectId, t.command.approvalId).value;
    forall k: Key | k.kind == Requests
      ensures k in after <==> k in db
      ensures k in db ==> (IsLinked(after[k].entity, ka.id) <==> IsLinked(db[k].entity, ka.id))
    {
      LinksKept(db, after, t, k, ka.id);
    }
    assert SoleLink(after, ka.project, ka.id, kr.id);
    assert KeyOf(db[ka].entity) == ka;
    DecisionRequests(db, after, t, kr);
    if ka == ApprovalKey(t.command.projectId, t.command.approvalId) {
      SoleLinkIsLinked(db, ka.project, ka.id, kr.id);
      assert KeyOf(db[kr].entity) == kr;
      DecidedApproval(db, after, t);
    } else {
      OtherApprovalsKept(db, after, t, ka);
      if LinkOf(db, a).value.Some? {
        LinkOfIsStored(db, a, LinkOf(db, a).value.value);
      }
    }
  }

  lemma NextKeepsBound(db: Db, after: Db, ka: Key, kr: Key, request: Record)
    requires WellFormed(db) && Next(db, after)
    requires ka.kind == Kind.Approvals && kr == RequestKey(ka.project, kr.id) && Bound(db, ka, kr, request)
    requires request.entity.RequestEntity? && Awaits(request.entity.request.status)
    ensures Bound(after, ka, kr, request)
  {
    hide Next, WellFormed, Decides;
    NextCases(db, after);
    if Environment(db, after) {
      EnvironmentLinks(db, after, ka, kr.id);
    } else if !SameDomain(after, db) {
      var t: Attempt :| Decides(db, after, t);
      DecisionKeepsBound(db, after, t, ka, kr, request);
    }
  }

  lemma BoundStart(db: Db, ka: Key, kr: Key)
    requires ka.kind == Kind.Approvals && kr == RequestKey(ka.project, kr.id)
    requires ka in db && db[ka].entity.ApprovalEntity? && db[ka].entity.approval.status == ApprovalStatus.Pending
    requires db[ka].entity.approval.actionType == Purchase && SoleLink(db, ka.project, ka.id, kr.id)
    ensures kr in db && db[kr].entity.RequestEntity? && Bound(db, ka, kr, db[kr])
  {
  }

  /** Over any run: while a purchase approval is pending its only linked request, proposed or awaiting
      approval, is untouched; once it is decided the request is approved or cancelled with it. */
  lemma {:induction false} RequestAgreement(states: seq<Db>, i: nat, j: nat, ka: Key, kr: Key)
    requires Behaviour(states) && i <= j < |states|
    requires ka.kind == Kind.Approvals && kr == RequestKey(ka.project, kr.id)
    requires ka in states[i] && states[i][ka].entity.ApprovalEntity?
    requires states[i][ka].entity.approval.status == ApprovalStatus.Pending
    requires states[i][ka].entity.approval.actionType == Purchase && SoleLink(states[i], ka.project, ka.id, kr.id)
    requires states[i][kr].entity.request.status in {RequestStatus.Proposed, RequestStatus.AwaitingApproval}
    ensures Bound(states[j], ka, kr, states[i][kr])
    decreases j - i
  {
    hide Behaviour, Next, WellFormed, Consistent, SoleLink, Bound;
    BoundStart(states[i], ka, kr);
    if i < j {
      RequestAgreement(states, i, j - 1, ka, kr);
      RunInvariants(states, j - 1);
      BehaviourStep(states, j);
      NextKeepsBound(states[j - 1], states[j], ka, kr, states[i][kr]);
    }
  }

  /** Two requests name the approval. */
  ghost predicate TwoLinks(db: Db, ka: Key, x: Key, y: Key) {
    && ka in db && db[ka].entity.ApprovalEntity? && db[ka].entity.approval.actionType == Purchase
    && x != y && x.kind == Requests && y.kind == Requests && x.project == ka.project && y.project == ka.project
    && x in db && y in db && IsLinked(db[x].entity, ka.id) && IsLinked(db[y].entity, ka.id)
  }

  /** While two requests name it, a purchase approval cannot be the one that is decided. */
  lemma TwoLinksRefuse(db: Db, after: Db, t: Attempt, ka: Key, x: Key, y: Key)
    requires WellFormed(db) && Decides(db, after, t) && ka.kind == Kind.Approvals && TwoLinks(db, ka, x, y)
    ensures ka != ApprovalKey(t.command.projectId, t.command.approvalId)
  {
    assert KeyOf(db[ka].entity) == ka && KeyOf(db[x].entity) == x && KeyOf(db[y].entity) == y;
    LinkedIsComplete(db, ka.project, ka.id, x);
    LinkedIsComplete(db, ka.project, ka.id, y);
    TwoMembers(Linked(db, ka.project, ka.id), db[x].entity.request, db[y].entity.request);
  }

  lemma DecisionKeepsTwoLinks(db: Db, after: Db, t: Attempt, ka: Key, x: Key, y: Key)
    requires WellFormed(db) && Decides(db, after, t) && ka.kind == Kind.Approvals && TwoLinks(db, ka, x, y)
    ensures TwoLinks(after, ka, x, y) && after[ka] == db[ka]
  {
    TwoLinksRefuse(db, after, t, ka, x, y);
    hide Decides, WellFormed;
    LinksKept(db, after, t, x, ka.id);
    LinksKept(db, after, t, y, ka.id);
    OtherApprovalsKept(db, after, t, ka);
  }

  /** A purchase approval that two requests name is not decided by any step. */
  lemma AmbiguousLinkBlocks(db: Db, after: Db, ka: Key, x: Key, y: Key)
    requires WellFormed(db) && Next(db, after) && ka.kind == Kind.Approvals && TwoLinks(db, ka, x, y)
    ensures TwoLinks(after, ka, x, y) && after[ka] == db[ka]
  {
    hide Next, WellFormed, Decides;
    NextCases(db, after);
    if !SameDomain(after, db) && !Environment(db, after) {
      var t: Attempt :| Decides(db, after, t);
      DecisionKeepsTwoLinks(db, after, t, ka, x, y);
    }
  }

  lemma TwoMembers<T>(xs: seq<T>, a: T, b: T)
    requires a in xs && b in xs && a != b
    ensures |xs| >= 2
  {
  }

  lemma {:induction false} AmbiguousNeverDecided(states: seq<Db>, i: nat, j: nat, ka: Key, x: Key, y: Key)
    requires Behaviour(states) && i <= j < |states| && ka.kind == Kind.Approvals && TwoLinks(states[i], ka, x, y)
    ensures TwoLinks(states[j], ka, x, y) && states[j][ka] == states[i][ka]
    decreases j - i
  {
    hide Behaviour, Next, WellFormed, Consistent, TwoLinks;
    if i < j {
      AmbiguousNeverDecided(states, i, j - 1, ka, x, y);
      RunInvariants(states, j - 1);
      BehaviourStep(states, j);
      AmbiguousLinkBlocks(states[j - 1], states[j], ka, x, y);
    }
  }
}
