/** What deciding an approval does to the store, stated record by record, and that it is a callback
    to which the exactly-once theorem applies. */
module ApprovalEffects {
  import opened Foundations
  import opened Models
  import opened Ordering
  import opened Repository
  import opened Access
  import opened Activity
  import opened Approvals

  // ----- links -----

  /** `requestId` is the only request of the project that names the approval. */
  ghost predicate SoleLink(db: Db, project: string, approvalId: string, requestId: string) {
    && RequestKey(project, requestId) in db && IsLinked(db[RequestKey(project, requestId)].entity, approvalId)
    && forall k | k in db && k.kind == Requests && k.project == project && IsLinked(db[k].entity, approvalId) ::
       k.id == requestId
  }

  lemma ListedAt(db: Db, kind: Kind, project: string, i: nat)
    requires i < |EntitiesIn(db, kind, project)|
    ensures var id := SortedIds(IdsIn(db, kind, project))[i];
            Key(kind, project, id) in db && EntitiesIn(db, kind, project)[i] == db[Key(kind, project, id)].entity
  {
    assert SortedIds(IdsIn(db, kind, project))[i] in IdsIn(db, kind, project);
  }

  lemma {:induction false} LinkedAmongNone(entities: seq<Entity>, approvalId: string)
    requires forall i | 0 <= i < |entities| :: !IsLinked(entities[i], approvalId)
    ensures LinkedAmong(entities, approvalId) == []
    decreases |entities|
  {
    if entities != [] {
      LinkedAmongNone(entities[..|entities| - 1], approvalId);
    }
  }

  lemma {:induction false} LinkedAmongOne(entities: seq<Entity>, approvalId: string, n: nat)
    requires n < |entities| && IsLinked(entities[n], approvalId)
    requires forall i | 0 <= i < |entities| && i != n :: !IsLinked(entities[i], approvalId)
    ensures LinkedAmong(entities, approvalId) == [entities[n].request]
    decreases |entities|
  {
    if n == |entities| - 1 {
      LinkedAmongNone(entities[..n], approvalId);
    } else {
      LinkedAmongOne(entities[..|entities| - 1], approvalId, n);
    }
  }

  lemma SoleLinkIsLinked(db: Db, project: string, approvalId: string, requestId: string)
    requires SoleLink(db, project, approvalId, requestId)
    ensures Linked(db, project, approvalId) == [db[RequestKey(project, requestId)].entity.request]
  {
    var ids, entities := SortedIds(IdsIn(db, Requests, project)), EntitiesIn(db, Requests, project);
    assert RequestKey(project, requestId).id in IdsIn(db, Requests, project);
    var n :| 0 <= n < |ids| && ids[n] == requestId;
    SortedIdsAscending(IdsIn(db, Requests, project));
    forall i | 0 <= i < |entities| && i != n ensures !IsLinked(entities[i], approvalId) {
      ListedAt(db, Requests, project, i);
    }
    ListedAt(db, Requests, project, n);
    LinkedAmongOne(entities, approvalId, n);
  }

  lemma {:induction false} LinkedAmongMember(entities: seq<Entity>, approvalId: string, r: MaterialRequest)
    requires r in LinkedAmong(entities, approvalId)
    ensures exists i :: 0 <= i < |entities| && entities[i] == RequestEntity(r) && r.approvalId == Some(approvalId)
    decreases |entities|
  {
    var n := |entities| - 1;
    if r in LinkedAmong(entities[..n], approvalId) {
      LinkedAmongMember(entities[..n], approvalId, r);
      var i :| 0 <= i < n && entities[..n][i] == RequestEntity(r) && r.approvalId == Some(approvalId);
      assert entities[i] == RequestEntity(r);
    } else {
      assert entities[n] == RequestEntity(r);
    }
  }

  /** A linked request is stored under its own key. */
  lemma LinkIsStored(db: Db, project: string, approvalId: string, r: MaterialRequest)
    requires WellFormed(db) && r in Linked(db, project, approvalId)
    ensures r.approvalId == Some(approvalId) && r.projectId == project
    ensures RequestKey(project, r.id) in db && db[RequestKey(project, r.id)].entity == RequestEntity(r)
  {
    var entities := EntitiesIn(db, Requests, project);
    LinkedAmongMember(entities, approvalId, r);
    var i :| 0 <= i < |entities| && entities[i] == RequestEntity(r);
    ListedAt(db, Requests, project, i);
    var k := Key(Requests, project, SortedIds(IdsIn(db, Requests, project))[i]);
    assert KeyOf(db[k].entity) == k;
  }

  lemma LinkedDependsOnRequests(a: Db, b: Db, project: string, approvalId: string)
    requires SameDomain(a, b)
    ensures Linked(a, project, approvalId) == Linked(b, project, approvalId)
  {
    ListIsLocal(a, b, Requests, project);
  }

  // ----- the decision, as updates of three records -----

  ghost function WithApproval(db: Db, a: Approval, approved: bool, resolver: string, command: Command): Db
    requires ApprovalKey(a.projectId, a.id) in db
  {
    var ka := ApprovalKey(a.projectId, a.id);
    var version := db[ka].version + 1;
    db[ka := Record(ApprovalEntity(Decided(a, approved, resolver, command).(version := version)), version)]
  }

  ghost function WithRequest(db: Db, saved: Db, a: Approval, approved: bool, at: int): Db {
    match LinkOf(db, a)
    case Success(Some(r)) =>
      var kr := RequestKey(a.projectId, r.id);
      if Awaits(r.status) && kr in db
      then saved[kr := Record(RequestEntity(MovedRequest(r, approved, at)), db[kr].version + 1)]
      else saved
    case _ => saved
  }

  ghost function WithMessage(db: Db, moved: Db, a: Approval, approved: bool, command: Command): Db {
    var km := MessageKey(a.projectId, a.id, approved);
    if km in db then moved else moved[km := Record(OutboxEntity(DecisionMessage(command, approved)), 0)]
  }

  /** The domain records after a decision: the approval, the request it moves, if any, and the message. */
  ghost function AfterDecision(db: Db, a: Approval, approved: bool, resolver: string, command: Command): Db
    requires ApprovalKey(a.projectId, a.id) in db
  {
    var saved := WithApproval(db, a, approved, resolver, command);
    WithMessage(db, WithRequest(db, saved, a, approved, command.occurredAt), a, approved, command)
  }

  lemma SaveKeepsWellFormed(db: Db, e: Entity, expected: Option<int>)
    requires WellFormed(db) && SaveIn(db, e, expected).Success?
    ensures WellFormed(SaveIn(db, e, expected).value)
  {
    ApplyKeepsWellFormed(db, Save(e, expected));
  }

  lemma CreateKeepsWellFormed(db: Db, e: Entity)
    requires WellFormed(db) && CreateIn(db, e).Success?
    ensures WellFormed(CreateIn(db, e).value)
  {
    ApplyKeepsWellFormed(db, Create(e));
  }

  lemma MovedPlace(r: MaterialRequest, approved: bool, at: int)
    ensures var moved := RequestEntity(MovedRequest(r, approved, at));
            KeyOf(moved) == RequestKey(r.projectId, r.id) && forall v :: WithVersion(moved, v) == moved
  {
  }

  lemma EventPlace(e: ActivityEvent)
    ensures KeyOf(ActivityEntity(e)) == EventKey(e)
  {
  }

  lemma MoveRequestEffect(db: Db, r: MaterialRequest, context: MutationContext, a: Approval, approved: bool, at: int)
    requires WellFormed(db) && MoveRequest(db, r, context, a, approved, at).Success?
    ensures var after, kr := MoveRequest(db, r, context, a, approved, at).value, RequestKey(r.projectId, r.id);
            && WellFormed(after) && AppendOnly(db, after)
            && kr in db && SameDomain(after,
                                      db[kr := Record(RequestEntity(MovedRequest(r, approved, at)),
                                                      db[kr].version + 1)])
  {
    hide WellFormed, RequestEvent, Valid, KeyOf, WithVersion;
    var moved := RequestEntity(MovedRequest(r, approved, at));
    var version := Some(db[RequestKey(r.projectId, r.id)].version as int);
    MovedPlace(r, approved, at);
    EventPlace(RequestEvent(context, r.id, a.id, approved));
    SaveKeepsWellFormed(db, moved, version);
    CreateKeepsWellFormed(SaveIn(db, moved, version).value,
                          ActivityEntity(RequestEvent(context, r.id, a.id, approved)));
  }

  lemma SameDomainUpdate(a: Db, b: Db, k: Key, record: Record)
    requires SameDomain(a, b)
    ensures SameDomain(a[k := record], b[k := record])
  {
  }

  /** Saving the decided approval replaces that record and nothing else. */
  lemma ApprovalSaved(db: Db, a: Approval, resolver: string, command: Command, approved: bool)
    requires WellFormed(db) && ReadApproval(db, command.projectId, command.approvalId) == Some(a)
    requires SaveIn(db, ApprovalEntity(Decided(a, approved, resolver, command)), command.expectedVersion).Success?
    ensures a.projectId == command.projectId && a.id == command.approvalId
    ensures var ka := ApprovalKey(a.projectId, a.id);
            var saved := SaveIn(db, ApprovalEntity(Decided(a, approved, resolver, command)),
                                command.expectedVersion).value;
            saved == WithApproval(db, a, approved, resolver, command) && WellFormed(saved)
    ensures command.expectedVersion == Some(a.version) && a.requestedAt <= command.occurredAt
  {
    var ka := ApprovalKey(command.projectId, command.approvalId);
    assert KeyOf(db[ka].entity) == ka && db[ka].version == a.version;
    var decided := ApprovalEntity(Decided(a, approved, resolver, command));
    assert KeyOf(decided) == ka;
    assert Valid(WithVersion(decided, db[ka].version + 1));
    SaveKeepsWellFormed(db, decided, command.expectedVersion);
  }

  lemma MessageCreated(db: Db, moved: Db, expected: Db, a: Approval, approved: bool, command: Command)
    requires a.projectId == command.projectId && a.id == command.approvalId
    requires SameDomain(moved, expected) && WellFormed(moved)
    requires MessageKey(a.projectId, a.id, approved) !in db
    requires CreateIn(moved, OutboxEntity(DecisionMessage(command, approved))).Success?
    ensures var sent := CreateIn(moved, OutboxEntity(DecisionMessage(command, approved))).value;
            && WellFormed(sent) && AppendOnly(moved, sent)
            && SameDomain(sent, WithMessage(db, expected, a, approved, command))
  {
    var message := OutboxEntity(DecisionMessage(command, approved));
    assert KeyOf(message) == MessageKey(a.projectId, a.id, approved);
    CreateKeepsWellFormed(moved, message);
    SameDomainUpdate(moved, expected, KeyOf(message), Record(message, 0));
  }

  lemma LinkOfIsStored(db: Db, a: Approval, r: MaterialRequest)
    requires WellFormed(db) && LinkOf(db, a) == Success(Some(r))
    ensures r.approvalId == Some(a.id) && r.projectId == a.projectId && a.actionType == Purchase
    ensures RequestKey(a.projectId, r.id) in db && db[RequestKey(a.projectId, r.id)].entity == RequestEntity(r)
  {
    assert r in Linked(db, a.projectId, a.id);
    LinkIsStored(db, a.projectId, a.id, r);
  }

  lemma SameDomainItself(db: Db)
    ensures SameDomain(db, db)
  {
  }

  lemma AppendOnlyItself(db: Db)
    ensures AppendOnly(db, db)
  {
  }

  lemma RequestMoved(db: Db, saved: Db, a: Approval, context: MutationContext, approved: bool, at: int)
    requires WellFormed(db) && WellFormed(saved) && LinkOf(db, a).Success?
    requires forall k | k in db && k.kind == Requests :: k in saved && saved[k] == db[k]
    requires RequestStage(db, saved, a, context, approved, at).Success?
    ensures var moved := RequestStage(db, saved, a, context, approved, at).value;
            WellFormed(moved) && AppendOnly(saved, moved) && SameDomain(moved, WithRequest(db, saved, a, approved, at))
  {
    hide WellFormed, MoveRequest, SameDomain, AppendOnly, LinkOf;
    SameDomainItself(saved);
    AppendOnlyItself(saved);
    var link := LinkOf(db, a).value;
    if link.Some? && Awaits(link.value.status) {
      LinkOfIsStored(db, a, link.value);
      MoveRequestEffect(saved, link.value, context, a, approved, at);
    }
  }

  /** A decision changes exactly the approval, the request it moves, and the decision's outbox message. */
  lemma DecideEffect(db: Db, a: Approval, access: AccessContext, command: Command, context: MutationContext,
                     approved: bool, now: int)
    requires WellFormed(db) && ReadApproval(db, command.projectId, command.approvalId) == Some(a)
    requires Decide(db, a, access, command, context, approved, now).Success?
    ensures a.projectId == command.projectId && a.id == command.approvalId
    ensures var after := Decide(db, a, access, command, context, approved, now).value.0;
            && WellFormed(after) && AppendOnly(db, after)
            && SameDomain(after, AfterDecision(db, a, approved, access.userId, command))
    ensures LinkOf(db, a).Success? && command.expectedVersion == Some(a.version) && a.requestedAt <= command.occurredAt
    ensures LegalEvent(command, context, now)
  {
    ApprovalSaved(db, a, access.userId, command, approved);
    hide SaveIn, CreateIn, RequestStage, WellFormed, LinkOf, SameDomain, WithApproval, WithRequest, WithMessage;
    var saved := WithApproval(db, a, approved, access.userId, command);
    RequestsKept(db, a, approved, access.userId, command);
    RequestMoved(db, saved, a, context, approved, command.occurredAt);
    var moved := RequestStage(db, saved, a, context, approved, command.occurredAt).value;
    var expected := WithRequest(db, saved, a, approved, command.occurredAt);
    if MessageKey(a.projectId, a.id, approved) !in db {
      MessageCreated(db, moved, expected, a, approved, command);
    } else {
      MessageKept(db, expected, a, approved, command);
    }
  }

  lemma RequestsKept(db: Db, a: Approval, approved: bool, resolver: string, command: Command)
    requires ApprovalKey(a.projectId, a.id) in db
    ensures var saved := WithApproval(db, a, approved, resolver, command);
            && AppendOnly(db, saved)
            && (forall k | k in db && k.kind == Requests :: k in saved && saved[k] == db[k])
            && (forall k: Key | k.kind == Outbox :: k in saved <==> k in db)
  {
  }

  lemma MessageKept(db: Db, moved: Db, a: Approval, approved: bool, command: Command)
    requires MessageKey(a.projectId, a.id, approved) in db
    ensures WithMessage(db, moved, a, approved, command) == moved
  {
  }

  // ----- the decision does not read the activity log -----

  lemma BodySaves(full: Db, f: Db, reduced: Db, r: Db, e: Entity, expected: Option<int>)
    requires AfterBody(full, f, reduced, r) && KindOf(e) != Activities && SaveIn(f, e, expected).Success?
    ensures SaveIn(r, e, expected).Success?
    ensures AfterBody(full, SaveIn(f, e, expected).value, reduced, SaveIn(r, e, expected).value)
    ensures SaveIn(f, e, expected).value[KeyOf(e)] == SaveIn(r, e, expected).value[KeyOf(e)]
  {
    hide WellFormed, AfterBody, SaveIn, KeyOf;
    KindOfKey(e);
    SameRecord(full, f, reduced, r, KeyOf(e));
    SaveDependsOnRecord(f, r, e, expected);
    BodyWellFormed(full, f, reduced, r);
    SaveKeepsWellFormed(f, e, expected);
    SaveKeepsWellFormed(r, e, expected);
    var version := f[KeyOf(e)].version + 1;
    BodyUpdates(full, f, reduced, r, KeyOf(e), Record(WithVersion(e, version), version));
  }

  lemma KindOfKey(e: Entity)
    ensures KeyOf(e).kind == KindOf(e)
  {
  }

  lemma BodyWellFormed(full: Db, f: Db, reduced: Db, r: Db)
    requires AfterBody(full, f, reduced, r)
    ensures WellFormed(f) && WellFormed(r)
  {
  }

  /** What a save does depends on the record it replaces only. */
  lemma SaveDependsOnRecord(f: Db, r: Db, e: Entity, expected: Option<int>)
    requires SaveIn(f, e, expected).Success?
    requires (KeyOf(e) in f <==> KeyOf(e) in r) && (KeyOf(e) in f ==> f[KeyOf(e)] == r[KeyOf(e)])
    ensures KeyOf(e) in f && SaveIn(r, e, expected).Success?
    ensures var version := f[KeyOf(e)].version + 1;
            var record := Record(WithVersion(e, version), version);
            SaveIn(f, e, expected).value == f[KeyOf(e) := record]
              && SaveIn(r, e, expected).value == r[KeyOf(e) := record]
  {
  }

  lemma BodyUpdates(full: Db, f: Db, reduced: Db, r: Db, k: Key, record: Record)
    requires AfterBody(full, f, reduced, r) && k.kind != Activities
    requires WellFormed(f[k := record]) && WellFormed(r[k := record])
    ensures AfterBody(full, f[k := record], reduced, r[k := record])
  {
    hide WellFormed, Reduces, SameNewEvents, AppendOnly;
    ReducesUpdated(f, r, k, record);
    LogUpdated(full, f, reduced, r, k, record);
  }

  lemma ReducesUpdated(f: Db, r: Db, k: Key, record: Record)
    requires Reduces(f, r) && k.kind != Activities
    ensures Reduces(f[k := record], r[k := record])
  {
    hide Matches;
  }

  lemma LogUpdated(full: Db, f: Db, reduced: Db, r: Db, k: Key, record: Record)
    requires SameNewEvents(full, f, reduced, r) && AppendOnly(full, f) && AppendOnly(reduced, r) && k.kind != Activities
    ensures SameNewEvents(full, f[k := record], reduced, r[k := record])
    ensures AppendOnly(full, f[k := record]) && AppendOnly(reduced, r[k := record])
  {
  }

  lemma BodyCreates(full: Db, f: Db, reduced: Db, r: Db, e: Entity)
    requires AfterBody(full, f, reduced, r) && KindOf(e) != Activities && CreateIn(f, e).Success?
    ensures CreateIn(r, e).Success?
    ensures AfterBody(full, CreateIn(f, e).value, reduced, CreateIn(r, e).value)
  {
    hide WellFormed, AfterBody, KeyOf;
    KindOfKey(e);
    SameRecord(full, f, reduced, r, KeyOf(e));
    BodyWellFormed(full, f, reduced, r);
    CreateKeepsWellFormed(f, e);
    CreateKeepsWellFormed(r, e);
    BodyUpdates(full, f, reduced, r, KeyOf(e), Record(e, 0));
  }

  lemma ReducesWithEvent(f: Db, r: Db, k: Key, e: ActivityEvent)
    requires Reduces(f, r) && k.kind == Activities
    ensures var record := Record(ActivityEntity(e), 0);
            Reduces(f[k := record], r[k := record])
  {
  }

  lemma SameNewEventsWith(full: Db, f: Db, reduced: Db, r: Db, k: Key, record: Record)
    requires SameNewEvents(full, f, reduced, r) && k !in full && k !in reduced
    ensures SameNewEvents(full, f[k := record], reduced, r[k := record])
  {
  }

  lemma AppendOnlyWith(before: Db, after: Db, k: Key, record: Record)
    requires AppendOnly(before, after) && k !in before
    ensures AppendOnly(before, after[k := record])
  {
  }

  lemma BodyRecords(full: Db, f: Db, reduced: Db, r: Db, e: ActivityEvent)
    requires AfterBody(full, f, reduced, r) && CreateIn(f, ActivityEntity(e)).Success?
    ensures CreateIn(r, ActivityEntity(e)).Success?
    ensures AfterBody(full, CreateIn(f, ActivityEntity(e)).value, reduced, CreateIn(r, ActivityEntity(e)).value)
  {
    hide WellFormed;
    var k, record := EventKey(e), Record(ActivityEntity(e), 0);
    CreateEvent(f, e);
    CreateEvent(r, e);
    assert k !in r && k !in full && k !in reduced;
    hide CreateIn, Reduces, SameNewEvents, AppendOnly;
    ReducesWithEvent(f, r, k, e);
    SameNewEventsWith(full, f, reduced, r, k, record);
    AppendOnlyWith(full, f, k, record);
    AppendOnlyWith(reduced, r, k, record);
  }

  lemma BodyMoves(full: Db, f: Db, reduced: Db, r: Db, request: MaterialRequest, context: MutationContext, a: Approval,
                  approved: bool, at: int)
    requires AfterBody(full, f, reduced, r) && MoveRequest(f, request, context, a, approved, at).Success?
    ensures MoveRequest(r, request, context, a, approved, at).Success?
    ensures AfterBody(full, MoveRequest(f, request, context, a, approved, at).value,
                      reduced, MoveRequest(r, request, context, a, approved, at).value)
  {
    hide AfterBody, SaveIn, CreateIn;
    var moved := RequestEntity(MovedRequest(request, approved, at));
    var k := RequestKey(request.projectId, request.id);
    SameRecord(full, f, reduced, r, k);
    var version := if k in f then Some(f[k].version as int) else None;
    BodySaves(full, f, reduced, r, moved, version);
    BodyRecords(full, SaveIn(f, moved, version).value, reduced, SaveIn(r, moved, version).value,
                RequestEvent(context, request.id, a.id, approved));
  }

  lemma SameRecord(full: Db, f: Db, reduced: Db, r: Db, k: Key)
    requires AfterBody(full, f, reduced, r) && k.kind != Activities
    ensures (k in f <==> k in r) && (k in f ==> f[k] == r[k])
  {
  }

  lemma SameLink(a: Db, b: Db, approval: Approval)
    requires SameDomain(a, b)
    ensures LinkOf(a, approval) == LinkOf(b, approval)
  {
    LinkedDependsOnRequests(a, b, approval.projectId, approval.id);
  }

  lemma BodyStages(full: Db, f: Db, reduced: Db, r: Db, a: Approval, context: MutationContext, approved: bool, at: int)
    requires AfterBody(full, f, reduced, r) && LinkOf(full, a).Success? && LinkOf(reduced, a) == LinkOf(full, a)
    requires RequestStage(full, f, a, context, approved, at).Success?
    ensures RequestStage(reduced, r, a, context, approved, at).Success?
    ensures AfterBody(full, RequestStage(full, f, a, context, approved, at).value,
                      reduced, RequestStage(reduced, r, a, context, approved, at).value)
  {
    hide AfterBody, MoveRequest, LinkOf;
    var link := LinkOf(full, a).value;
    if link.Some? && Awaits(link.value.status) {
      BodyMoves(full, f, reduced, r, link.value, context, a, approved, at);
    }
  }

  lemma DecisionKinds(a: Approval, command: Command, approved: bool, resolver: string)
    requires a.projectId == command.projectId && a.id == command.approvalId
    ensures var decided := ApprovalEntity(Decided(a, approved, resolver, command));
            KindOf(decided) == Kind.Approvals && KeyOf(decided) == ApprovalKey(a.projectId, a.id)
    ensures var message := OutboxEntity(DecisionMessage(command, approved));
            KindOf(message) == Outbox && KeyOf(message) == MessageKey(command.projectId, a.id, approved)
  {
  }

  lemma DecideIgnoresLog(full: Db, reduced: Db, a: Approval, access: AccessContext, command: Command,
                         context: MutationContext, approved: bool, now: int)
    requires AfterBody(full, full, reduced, reduced) && a.projectId == command.projectId && a.id == command.approvalId
    requires Decide(full, a, access, command, context, approved, now).Success?
    ensures Decide(reduced, a, access, command, context, approved, now).Success?
    ensures var (f, x), (r, y) := Decide(full, a, access, command, context, approved, now).value,
            Decide(reduced, a, access, command, context, approved, now).value;
            x == y && AfterBody(full, f, reduced, r)
  {
    hide AfterBody, SaveIn, CreateIn, RequestStage, LinkOf, KeyOf, KindOf, Decided, DecisionMessage, SameDomain;
    assert SameDomain(full, reduced) by { BodyAgrees(full, full, reduced, reduced); }
    SameLink(full, reduced, a);
    var decided := ApprovalEntity(Decided(a, approved, access.userId, command));
    var message := OutboxEntity(DecisionMessage(command, approved));
    SameRecord(full, full, reduced, reduced, MessageKey(command.projectId, a.id, approved));
    DecisionKinds(a, command, approved, access.userId);
    BodySaves(full, full, reduced, reduced, decided, command.expectedVersion);
    var f, r := SaveIn(full, decided, command.expectedVersion).value,
      SaveIn(reduced, decided, command.expectedVersion).value;
    BodyStages(full, f, reduced, r, a, context, approved, command.occurredAt);
    if MessageKey(command.projectId, a.id, approved) !in full {
      BodyCreates(full, RequestStage(full, f, a, context, approved, command.occurredAt).value,
                  reduced, RequestStage(reduced, r, a, context, approved, command.occurredAt).value, message);
    }
  }

  lemma BodyAgrees(full: Db, f: Db, reduced: Db, r: Db)
    requires AfterBody(full, f, reduced, r)
    ensures SameDomain(f, r)
  {
  }

  function ResolutionEffect(access: AccessContext, command: Command, context: MutationContext, approved: bool,
                            now: int): Effect<Resolution> {
    (db: Db) => ApplyResolution(db, access, command, context, approved, now)
  }

  lemma ApplyIgnoresLog(full: Db, reduced: Db, access: AccessContext, command: Command, context: MutationContext,
                        approved: bool, now: int)
    requires Reduces(full, reduced) && WellFormed(full) && WellFormed(reduced) && access.projectId == command.projectId
    requires ApplyResolution(full, access, command, context, approved, now).Success?
    ensures ApplyResolution(reduced, access, command, context, approved, now).Success?
    ensures var (f, x), (r, y) := ApplyResolution(full, access, command, context, approved, now).value,
            ApplyResolution(reduced, access, command, context, approved, now).value;
            x == y && AfterBody(full, f, reduced, r)
  {
    assert AfterBody(full, full, reduced, reduced);
    var ka := ApprovalKey(access.projectId, command.approvalId);
    SameRecord(full, full, reduced, reduced, ka);
    var a := ReadApproval(full, access.projectId, command.approvalId).value;
    assert KeyOf(full[ka].entity) == ka;
    SameRecord(full, full, reduced, reduced, MessageKey(command.projectId, a.id, approved));
    if a.status == ApprovalStatus.Pending {
      hide Decide, AfterBody, WellFormed;
      DecideIgnoresLog(full, reduced, a, access, command, context, approved, now);
    }
  }

  /** Deciding an approval writes to the log but does not read it. */
  lemma ResolutionIsLogBlind(access: AccessContext, command: Command, context: MutationContext,
                             approved: bool, now: int)
    requires access.projectId == command.projectId
    ensures LogBlind(ResolutionEffect(access, command, context, approved, now))
  {
    var body := ResolutionEffect(access, command, context, approved, now);
    forall full, reduced | Reduces(full, reduced) && WellFormed(full) && WellFormed(reduced) && body(full).Success?
      ensures body(reduced).Success? && body(reduced).value.1 == body(full).value.1
      ensures Reduces(body(full).value.0, body(reduced).value.0)
      ensures SameNewEvents(full, body(full).value.0, reduced, body(reduced).value.0)
      ensures AppendOnly(full, body(full).value.0) && AppendOnly(reduced, body(reduced).value.0)
      ensures WellFormed(body(full).value.0) && WellFormed(body(reduced).value.0)
    {
      hide ApplyResolution;
      ApplyIgnoresLog(full, reduced, access, command, context, approved, now);
    }
  }
}
