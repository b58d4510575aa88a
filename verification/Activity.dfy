/** `ActivityService.mutate`: one domain change and its append-only audit record, at most once per key. */
module Activity {
  import opened Foundations
  import opened Models
  import opened Repository
  import opened Sessions
  import opened Identifiers

  datatype MutationContext = MutationContext(
    projectId: string, actorType: ActorType, actorId: Option<string>, sourceEventId: Option<string>,
    agentRunId: Option<string>, idempotencyKey: string, requestFingerprint: Option<string>,
    confirmation: Option<Confirmation>, occurredAt: int)

  /** What the context's own validator guarantees. */
  predicate ValidContext(c: MutationContext) {
    && CanonicalId(c.projectId)
    && (c.actorId.Some? ==> CanonicalId(c.actorId.value))
    && (c.actorType == System <==> c.actorId.None?)
    && (c.sourceEventId.None? ==> c.actorType == User)
  }

  datatype ActivitySpec = ActivitySpec(
    action: string, entityType: string, entityId: string, summary: string, metadata: Metadata)

  function ActivityId(c: MutationContext): string {
    ActivityIdOf(c.projectId, c.actorId, c.idempotencyKey)
  }

  function MutationFingerprint(c: MutationContext, s: ActivitySpec): Fingerprint {
    Fingerprint(c.projectId, c.actorType, c.actorId, c.sourceEventId, c.agentRunId, c.idempotencyKey,
                s.action, s.entityType, s.entityId, s.summary, s.metadata, c.requestFingerprint, c.confirmation)
  }

  function BuildEvent(c: MutationContext, s: ActivitySpec): ActivityEvent {
    var marked := s.metadata["_idempotency_key_digest" := Some(Sha256(c.idempotencyKey))];
    var metadata :=
      if c.confirmation.None? then marked
      else marked["_confirmation_claim_id" := Some(c.confirmation.value.claimId)]
                 ["_confirmation_command_fingerprint" := Some(c.confirmation.value.commandFingerprint)];
    ActivityEvent(ActivityId(c), c.projectId, c.actorType, c.actorId, s.action, s.entityType, s.entityId, s.summary,
                  metadata, Some(MutationFingerprint(c, s)), c.sourceEventId, c.agentRunId, c.occurredAt)
  }

  /** `ensure_replay_matches`: the stored event records the same mutation as the expected one. */
  predicate Matches(existing: ActivityEvent, expected: ActivityEvent) {
    && existing.projectId == expected.projectId
    && existing.action == expected.action
    && existing.entityType == expected.entityType
    && existing.entityId == expected.entityId
    && existing.fingerprint == expected.fingerprint
  }

  function EventKey(e: ActivityEvent): Key {
    Key(Activities, e.projectId, e.id)
  }

  function ReadEvent(db: Db, key: Key): Option<ActivityEvent> {
    if key in db && db[key].entity.ActivityEntity? then Some(db[key].entity.activity) else None
  }

  /** The additional events that are not stored yet, or the conflict of the first stored one that differs. */
  function MissingOrConflict(db: Db, expected: seq<ActivityEvent>): Result<seq<ActivityEvent>, Error> {
    if expected == [] then Success([])
    else
      var n := |expected| - 1;
      var before := MissingOrConflict(db, expected[..n]);
      var existing := ReadEvent(db, EventKey(expected[n]));
      if before.Failure? then before
      else if existing.None? then Success(before.value + [expected[n]])
      else if Matches(existing.value, expected[n]) then before
      else Failure(IdempotencyConflict)
  }

  function CreateEvents(db: Db, events: seq<ActivityEvent>): Result<Db, Error> {
    if events == [] then Success(db)
    else
      var before := CreateEvents(db, events[..|events| - 1]);
      if before.Failure? then before else CreateIn(before.value, ActivityEntity(events[|events| - 1]))
  }

  function ClaimKey(c: MutationContext): Key
    requires c.confirmation.Some?
  {
    Key(Claims, c.projectId, c.confirmation.value.claimId)
  }

  /** What a mutation that cites a confirmation makes of the claim that is stored for it. */
  function ClaimRefusal(claim: Option<Entity>, c: MutationContext): Option<Error>
    requires c.confirmation.Some?
  {
    if claim.None? || !claim.value.ClaimEntity? then Some(EntityNotFound)
    else if claim.value.claim.outcome != "confirming"
         || Some(claim.value.claim.actorId) != c.actorId
         || claim.value.claim.attemptId != Some(c.confirmation.value.attemptId)
         || claim.value.claim.commandFingerprint != c.confirmation.value.commandFingerprint
    then Some(FenceRejected)
    else None
  }

  /** A conversation confirmation is only honoured while its claim is being confirmed by this attempt. */
  function Fence(db: Db, c: MutationContext): Option<Error> {
    if c.confirmation.None? then None else ClaimRefusal(Read(db, ClaimKey(c)), c)
  }

  /** A callback run inside the transaction: what it makes of the store and returns, or its exception. */
  type Effect<!V> = Db -> Result<(Db, V), Error>

  /** One call of `mutate`.  `identity` is the project and ID a returned record exposes. */
  datatype Call<!V> = Call(
    context: MutationContext, spec: ActivitySpec, body: Effect<V>, identity: V -> Option<(string, string)>,
    replay: Option<Effect<V>>, additional: seq<ActivityEvent>)

  datatype Mutation<+V> = Mutation(value: Option<V>, activity: ActivityEvent, duplicate: bool)

  function Expected<V>(call: Call<V>): ActivityEvent {
    BuildEvent(call.context, call.spec)
  }

  predicate DistinctIds(events: seq<ActivityEvent>) {
    forall i, j | 0 <= i < j < |events| :: events[i].id != events[j].id
  }

  /** The checks made before the transaction opens. */
  predicate WellScoped<V>(call: Call<V>) {
    && DistinctIds([Expected(call)] + call.additional)
    && forall i | 0 <= i < |call.additional| :: call.additional[i].projectId == call.context.projectId
  }

  datatype Standing = Standing(existing: Option<ActivityEvent>, missing: seq<ActivityEvent>)

  /** What stands in the log before the callback runs, or the exception that ends the call. */
  function Prepare(db: Db, c: MutationContext, expected: ActivityEvent,
                   additional: seq<ActivityEvent>): Result<Standing, Error> {
    var fence := Fence(db, c);
    var existing := ReadEvent(db, EventKey(expected));
    var missing := MissingOrConflict(db, additional);
    if fence.Some? then Failure(fence.value)
    else if missing.Failure? then Failure(missing.error)
    else if existing.Some? && !Matches(existing.value, expected) then Failure(IdempotencyConflict)
    else Success(Standing(existing, missing.value))
  }

  function Operation<V>(db: Db, call: Call<V>): Result<(Db, Mutation<V>), Error> {
    var expected := Expected(call);
    var standing := Prepare(db, call.context, expected, call.additional);
    if standing.Failure? then Failure(standing.error)
    else if standing.value.existing.Some? then Replayed(db, call, standing.value)
    else Fresh(db, call, standing.value.missing)
  }

  function Replayed<V>(db: Db, call: Call<V>, standing: Standing): Result<(Db, Mutation<V>), Error>
    requires standing.existing.Some?
  {
    var replayed := if call.replay.Some? then call.replay.value(db) else Failure(Interrupted);
    if call.replay.Some? && replayed.Failure? then Failure(replayed.error)
    else
      var after := if call.replay.Some? then replayed.value.0 else db;
      var value := if call.replay.Some? then Some(replayed.value.1) else None;
      var created := CreateEvents(after, standing.missing);
      if created.Failure? then Failure(created.error)
      else Success((created.value, Mutation(value, standing.existing.value, true)))
  }

  predicate InScope(identity: Option<(string, string)>, project: string, id: string) {
    identity.None? || identity.value == (project, id)
  }

  function Fresh<V>(db: Db, call: Call<V>, missing: seq<ActivityEvent>): Result<(Db, Mutation<V>), Error> {
    var done := call.body(db);
    if done.Failure? then Failure(done.error)
    else if !InScope(call.identity(done.value.1), call.context.projectId, call.spec.entityId)
      then Failure(ScopeMismatch)
    else
      var created := CreateEvents(done.value.0, [Expected(call)] + missing);
      if created.Failure? then Failure(created.error)
      else Success((created.value, Mutation(Some(done.value.1), Expected(call), false)))
  }

  /** `mutate`: the operation in one transaction, so an exception leaves no trace. */
  function Mutate<V>(db: Db, call: Call<V>): (Db, Result<Mutation<V>, Error>) {
    if !WellScoped(call) then (db, Failure(ValidationFailed))
    else
      match Operation(db, call)
      case Success((after, mutation)) => (after, Success(mutation))
      case Failure(error) => (db, Failure(error))
  }

  predicate IsFresh<V>(db: Db, call: Call<V>) {
    var outcome := Mutate(db, call).1;
    outcome.Success? && !outcome.value.duplicate
  }

  /** The log keeps every event it has. */
  ghost predicate AppendOnly(before: Db, after: Db) {
    forall k | k in before && k.kind == Activities :: k in after && after[k] == before[k]
  }

  ghost predicate SameDomain(a: Db, b: Db) {
    forall k: Key | k.kind != Activities :: (k in a <==> k in b) && (k in a ==> a[k] == b[k])
  }

  /** The reduced store has the same domain records and, in its log, a part of the full log:
      each of its events records the same mutation as the full log's event of that ID. */
  ghost predicate Reduces(full: Db, reduced: Db) {
    && SameDomain(full, reduced)
    && forall k | k in reduced && k.kind == Activities ::
         && k in full && full[k].entity.ActivityEntity? && reduced[k].entity.ActivityEntity?
         && Matches(full[k].entity.activity, reduced[k].entity.activity)
  }

  /** The body adds the same event IDs to both stores. */
  ghost predicate SameNewEvents(full: Db, full': Db, reduced: Db, reduced': Db) {
    forall k: Key | k.kind == Activities :: (k in full' && k !in full) <==> (k in reduced' && k !in reduced)
  }

  /** A callback that does not read the activity log: taking events away from the log before it runs
      changes neither whether it succeeds, nor what it returns, nor the domain records it leaves. */
  ghost predicate LogBlind<V(!new)>(body: Effect<V>) {
    forall full, reduced | Reduces(full, reduced) && WellFormed(full) && WellFormed(reduced) && body(full).Success? ::
      && body(reduced).Success?
      && body(reduced).value.1 == body(full).value.1
      && Reduces(body(full).value.0, body(reduced).value.0)
      && SameNewEvents(full, body(full).value.0, reduced, body(reduced).value.0)
      && AppendOnly(full, body(full).value.0)
      && AppendOnly(reduced, body(reduced).value.0)
      && WellFormed(body(full).value.0) && WellFormed(body(reduced).value.0)
  }

  ghost predicate ReadOnly<V(!new)>(replay: Effect<V>) {
    forall db | replay(db).Success? :: replay(db).value.0 == db
  }

  predicate ValidEvent(e: ActivityEvent) {
    e.actorType == System || e.actorId.Some?
  }

  ghost predicate Sound<V(!new)>(call: Call<V>) {
    && LogBlind(call.body)
    && (call.replay.Some? ==> ReadOnly(call.replay.value))
    && ValidEvent(Expected(call))
    && forall i | 0 <= i < |call.additional| :: ValidEvent(call.additional[i])
  }

  // ----- one call in the full and in the reduced store -----

  lemma CreateEvent(db: Db, e: ActivityEvent)
    ensures CreateIn(db, ActivityEntity(e)).Success? <==> EventKey(e) !in db && ValidEvent(e)
    ensures EventKey(e) !in db && ValidEvent(e) ==>
              CreateIn(db, ActivityEntity(e)).value == db[EventKey(e) := Record(ActivityEntity(e), 0)]
    ensures WellFormed(db) && EventKey(e) !in db && ValidEvent(e) ==>
              WellFormed(db[EventKey(e) := Record(ActivityEntity(e), 0)])
  {
    assert KeyOf(ActivityEntity(e)) == EventKey(e);
  }

  lemma {:induction false} CreateEventsExtend(db: Db, events: seq<ActivityEvent>)
    requires CreateEvents(db, events).Success?
    ensures AppendOnly(db, CreateEvents(db, events).value)
    ensures SameDomain(db, CreateEvents(db, events).value)
    ensures WellFormed(db) ==> WellFormed(CreateEvents(db, events).value)
    decreases |events|
  {
    if events != [] {
      var init, last := events[..|events| - 1], events[|events| - 1];
      CreateEventsExtend(db, init);
      CreateEvent(CreateEvents(db, init).value, last);
    }
  }

  lemma {:induction false} CreateEventsAdds(db: Db, events: seq<ActivityEvent>, k: Key)
    requires CreateEvents(db, events).Success?
    ensures k in CreateEvents(db, events).value <==>
            k in db || exists i :: 0 <= i < |events| && k == EventKey(events[i])
    decreases |events|
  {
    if events != [] {
      var init, last := events[..|events| - 1], events[|events| - 1];
      CreateEventsAdds(db, init, k);
      CreateEvent(CreateEvents(db, init).value, last);
      assert forall i | 0 <= i < |init| :: init[i] == events[i];
    }
  }

  /** The stores in which the two runs stand after the callback. */
  ghost predicate AfterBody(full: Db, full': Db, reduced: Db, reduced': Db) {
    && Reduces(full, reduced) && Reduces(full', reduced')
    && SameNewEvents(full, full', reduced, reduced')
    && AppendOnly(full, full') && AppendOnly(reduced, reduced')
    && WellFormed(full) && WellFormed(reduced) && WellFormed(full') && WellFormed(reduced')
  }

  lemma SameDomainWithEvent(a: Db, b: Db, k: Key, record: Record)
    requires SameDomain(a, b) && k.kind == Activities
    ensures SameDomain(a[k := record], b[k := record])
  {
  }

  lemma BothCreate(full: Db, reduced: Db, e: ActivityEvent)
    requires Reduces(full, reduced) && CreateIn(full, ActivityEntity(e)).Success?
    ensures CreateIn(reduced, ActivityEntity(e)).Success?
    ensures Reduces(CreateIn(full, ActivityEntity(e)).value, CreateIn(reduced, ActivityEntity(e)).value)
  {
    hide WellFormed, CreateIn, SameDomain;
    CreateEvent(full, e);
    CreateEvent(reduced, e);
    assert EventKey(e) !in reduced;
    SameDomainWithEvent(full, reduced, EventKey(e), Record(ActivityEntity(e), 0));
  }

  lemma OnlyReducedCreates(full: Db, reduced: Db, e: ActivityEvent)
    requires Reduces(full, reduced) && ValidEvent(e) && EventKey(e) !in reduced
    requires ReadEvent(full, EventKey(e)).Some? && Matches(ReadEvent(full, EventKey(e)).value, e)
    ensures CreateIn(reduced, ActivityEntity(e)).Success?
    ensures Reduces(full, CreateIn(reduced, ActivityEntity(e)).value)
  {
    CreateEvent(reduced, e);
  }

  lemma {:induction false} MissingInReduced(full: Db, reduced: Db, expected: seq<ActivityEvent>)
    requires Reduces(full, reduced) && MissingOrConflict(full, expected).Success?
    ensures MissingOrConflict(reduced, expected).Success?
    ensures forall e | e in MissingOrConflict(reduced, expected).value :: e in expected
    decreases |expected|
  {
    if expected != [] {
      MissingInReduced(full, reduced, expected[..|expected| - 1]);
    }
  }

  /** An event that none of the created ones shares its ID with is stored afterwards iff it was before. */
  lemma NotAmong(db: Db, main: ActivityEvent, created: seq<ActivityEvent>, e: ActivityEvent)
    requires CreateEvents(db, [main] + created).Success?
    requires e.id != main.id && forall x | x in created :: x.id != e.id
    ensures EventKey(e) in CreateEvents(db, [main] + created).value <==> EventKey(e) in db
  {
    CreateEventsAdds(db, [main] + created, EventKey(e));
    forall i | 0 <= i < |[main] + created| ensures EventKey(([main] + created)[i]) != EventKey(e) {
      if i > 0 { assert ([main] + created)[i] in created; }
    }
  }

  lemma DistinctInit(main: ActivityEvent, additional: seq<ActivityEvent>)
    requires DistinctIds([main] + additional) && additional != []
    ensures DistinctIds([main] + additional[..|additional| - 1])
    ensures var x := additional[|additional| - 1];
            x.id != main.id && forall e | e in additional[..|additional| - 1] :: e.id != x.id
  {
    var all, n := [main] + additional, |additional| - 1;
    assert [main] + additional[..n] == all[..n + 1];
    assert all[n + 1] == additional[n] && all[0] == main;
    assert forall i | 0 <= i < n :: additional[..n][i] == all[i + 1];
  }

  lemma CreateEventsSnoc(db: Db, main: ActivityEvent, events: seq<ActivityEvent>, x: ActivityEvent)
    ensures CreateEvents(db, [main] + (events + [x])) ==
            var before := CreateEvents(db, [main] + events);
            if before.Failure? then before else CreateIn(before.value, ActivityEntity(x))
  {
    var all := [main] + (events + [x]);
    assert all[..|all| - 1] == [main] + events && all[|all| - 1] == x;
  }

  /** One more additional event, given that the earlier ones were written to both stores. */
  lemma WriteOneMore(full: Db, full': Db, reduced: Db, reduced': Db, main: ActivityEvent,
                     mf: seq<ActivityEvent>, mr: seq<ActivityEvent>, x: ActivityEvent)
    requires AfterBody(full, full', reduced, reduced') && ValidEvent(x)
    requires CreateEvents(full', [main] + mf).Success? && CreateEvents(reduced', [main] + mr).Success?
    requires Reduces(CreateEvents(full', [main] + mf).value, CreateEvents(reduced', [main] + mr).value)
    requires x.id != main.id && forall e | e in mr :: e.id != x.id
    requires ReadEvent(full, EventKey(x)).Some? && Matches(ReadEvent(full, EventKey(x)).value, x)
    requires ReadEvent(reduced, EventKey(x)).None?
    ensures CreateEvents(reduced', [main] + (mr + [x])).Success?
    ensures Reduces(CreateEvents(full', [main] + mf).value, CreateEvents(reduced', [main] + (mr + [x])).value)
  {
    var f, r := CreateEvents(full', [main] + mf).value, CreateEvents(reduced', [main] + mr).value;
    CreateEventsExtend(full', [main] + mf);
    assert f[EventKey(x)] == full[EventKey(x)];
    assert EventKey(x) !in reduced;
    NotAmong(reduced', main, mr, x);
    OnlyReducedCreates(f, r, x);
    CreateEventsSnoc(reduced', main, mr, x);
  }

  lemma AfterBodyReduces(full: Db, full': Db, reduced: Db, reduced': Db)
    requires AfterBody(full, full', reduced, reduced')
    ensures Reduces(full, reduced) && Reduces(full', reduced')
  {
  }

  /** Writing the main event and then the missing additional ones succeeds in the reduced store when it
      succeeds in the full one, although more of them may be missing there. */
  lemma {:induction false} WriteEvents(full: Db, full': Db, reduced: Db, reduced': Db, main: ActivityEvent,
                                       additional: seq<ActivityEvent>)
    requires AfterBody(full, full', reduced, reduced')
    requires DistinctIds([main] + additional)
    requires forall i | 0 <= i < |additional| :: ValidEvent(additional[i])
    requires MissingOrConflict(full, additional).Success?
    requires CreateEvents(full', [main] + MissingOrConflict(full, additional).value).Success?
    ensures MissingOrConflict(reduced, additional).Success?
    ensures CreateEvents(reduced', [main] + MissingOrConflict(reduced, additional).value).Success?
    ensures Reduces(CreateEvents(full', [main] + MissingOrConflict(full, additional).value).value,
                    CreateEvents(reduced', [main] + MissingOrConflict(reduced, additional).value).value)
    decreases |additional|
  {
    hide WellFormed, Reduces, AfterBody, CreateIn, BuildEvent;
    AfterBodyReduces(full, full', reduced, reduced');
    MissingInReduced(full, reduced, additional);
    if additional == [] {
      assert [main] + [] == [main] && [main][..0] == [];
      BothCreate(full', reduced', main);
    } else {
      var n := |additional| - 1;
      var x, init := additional[n], additional[..n];
      DistinctInit(main, additional);
      MissingInReduced(full, reduced, init);
      var mf, mr := MissingOrConflict(full, init).value, MissingOrConflict(reduced, init).value;
      CreateEventsSnoc(full', main, mf, x);
      WriteEvents(full, full', reduced, reduced', main, init);
      if ReadEvent(full, EventKey(x)).None? {
        CreateEventsSnoc(reduced', main, mr, x);
        BothCreate(CreateEvents(full', [main] + mf).value, CreateEvents(reduced', [main] + mr).value, x);
      } else if ReadEvent(reduced, EventKey(x)).None? {
        WriteOneMore(full, full', reduced, reduced', main, mf, mr, x);
      }
    }
  }

  /** When a call is fresh, in terms of its parts. */
  predicate FreshParts<V>(db: Db, call: Call<V>) {
    && WellScoped(call)
    && Fence(db, call.context).None?
    && ReadEvent(db, EventKey(Expected(call))).None?
    && MissingOrConflict(db, call.additional).Success?
    && call.body(db).Success?
    && InScope(call.identity(call.body(db).value.1), call.context.projectId, call.spec.entityId)
    && CreateEvents(call.body(db).value.0, [Expected(call)] + MissingOrConflict(db, call.additional).value).Success?
  }

  lemma FreshMeans<V>(db: Db, call: Call<V>)
    ensures IsFresh(db, call) <==> FreshParts(db, call)
    ensures FreshParts(db, call) ==>
              Mutate(db, call) ==
              (CreateEvents(call.body(db).value.0,
                            [Expected(call)] + MissingOrConflict(db, call.additional).value).value,
               Success(Mutation(Some(call.body(db).value.1), Expected(call), false)))
  {
  }

  lemma OnlyMainEvent(after: Db, main: ActivityEvent)
    requires ValidEvent(main)
    ensures CreateEvents(after, [main] + []).Success? <==> EventKey(main) !in after
  {
    assert [main] + [] == [main] && [main][..0] == [];
    assert CreateEvents(after, []) == Success(after);
    CreateEvent(after, main);
  }

  lemma BlindBody<V(!new)>(full: Db, reduced: Db, body: Effect<V>)
    requires LogBlind(body) && Reduces(full, reduced) && WellFormed(full) && WellFormed(reduced) && body(full).Success?
    ensures body(reduced).Success? && body(reduced).value.1 == body(full).value.1
    ensures AfterBody(full, body(full).value.0, reduced, body(reduced).value.0)
    ensures WellFormed(body(full).value.0) && WellFormed(body(reduced).value.0) && AppendOnly(full, body(full).value.0)
  {
  }

  lemma FreeInReduced<V>(full: Db, reduced: Db, call: Call<V>)
    requires Reduces(full, reduced) && ReadEvent(full, EventKey(Expected(call))).None? && WellFormed(full)
    ensures Fence(reduced, call.context) == Fence(full, call.context)
    ensures ReadEvent(reduced, EventKey(Expected(call))).None?
  {
    hide BuildEvent;
  }

  lemma AppendTwice(first: Db, second: Db, third: Db)
    requires AppendOnly(first, second) && AppendOnly(second, third)
    ensures AppendOnly(first, third)
  {
  }

  lemma FreshInReduced<V(!new)>(full: Db, reduced: Db, call: Call<V>)
    requires Reduces(full, reduced) && WellFormed(full) && WellFormed(reduced) && Sound(call)
    requires IsFresh(full, call)
    ensures IsFresh(reduced, call)
    ensures Mutate(full, call).1.value.value == Mutate(reduced, call).1.value.value
    ensures Reduces(Mutate(full, call).0, Mutate(reduced, call).0)
    ensures WellFormed(Mutate(full, call).0) && WellFormed(Mutate(reduced, call).0)
    ensures AppendOnly(full, Mutate(full, call).0)
  {
    hide IsFresh, Mutate, WellFormed, BuildEvent, CreateEvents, MissingOrConflict, Reduces, AppendOnly, SameNewEvents,
         AfterBody, Fence, ReadEvent, LogBlind;
    var main := Expected(call);
    FreshMeans(full, call);
    FreshMeans(reduced, call);
    BlindBody(full, reduced, call.body);
    var full', reduced' := call.body(full).value.0, call.body(reduced).value.0;
    WriteEvents(full, full', reduced, reduced', main, call.additional);
    FreeInReduced(full, reduced, call);
    CreateEventsExtend(full', [main] + MissingOrConflict(full, call.additional).value);
    AppendTwice(full, full', Mutate(full, call).0);
    CreateEventsExtend(reduced', [main] + MissingOrConflict(reduced, call.additional).value);
  }

  lemma NotFreshKeepsDomain<V(!new)>(full: Db, call: Call<V>)
    requires WellFormed(full) && Sound(call) && !IsFresh(full, call)
    ensures SameDomain(full, Mutate(full, call).0) && AppendOnly(full, Mutate(full, call).0)
    ensures WellFormed(Mutate(full, call).0)
  {
    hide WellFormed, Mutate, LogBlind, BuildEvent, SameDomain, AppendOnly;
    NotFreshWrites(full, call);
    if Mutate(full, call).0 == full {
      SameLog(full);
    } else {
      CreateEventsExtend(full, MissingOrConflict(full, call.additional).value);
    }
  }

  /** A call that is not fresh writes nothing but the additional events that were missing. */
  lemma NotFreshWrites<V(!new)>(full: Db, call: Call<V>)
    requires Sound(call) && !IsFresh(full, call)
    ensures var missing := MissingOrConflict(full, call.additional);
            || Mutate(full, call).0 == full
            || (missing.Success? && CreateEvents(full, missing.value) == Success(Mutate(full, call).0))
  {
    hide LogBlind, BuildEvent, CreateEvents, MissingOrConflict, Fence;
  }

  lemma SameLog(db: Db)
    ensures SameDomain(db, db) && AppendOnly(db, db)
  {
  }

  /** A mutation only ever appends to the log. */
  lemma MutateAppends<V(!new)>(db: Db, call: Call<V>)
    requires WellFormed(db) && Sound(call)
    ensures AppendOnly(db, Mutate(db, call).0) && WellFormed(Mutate(db, call).0)
  {
    if IsFresh(db, call) {
      FreshInReduced(db, db, call);
    } else {
      NotFreshKeepsDomain(db, call);
    }
  }

  /** An idempotency key that already names another mutation: refused, and nothing changes. */
  lemma ConflictChangesNothing<V>(db: Db, call: Call<V>)
    requires WellScoped(call) && Fence(db, call.context).None?
    requires ReadEvent(db, EventKey(Expected(call))).Some?
    requires ReadEvent(db, EventKey(Expected(call))).value.fingerprint !=
             Some(MutationFingerprint(call.context, call.spec))
    ensures Mutate(db, call) == (db, Failure(IdempotencyConflict))
  {
    if call.additional != [] {
      OnlyConflicts(db, call.additional);
    }
  }

  lemma {:induction false} OnlyConflicts(db: Db, expected: seq<ActivityEvent>)
    ensures var missing := MissingOrConflict(db, expected);
            missing.Failure? ==> missing.error == IdempotencyConflict
    decreases |expected|
  {
    if expected != [] {
      OnlyConflicts(db, expected[..|expected| - 1]);
    }
  }

  // ----- whole runs -----

  function RunCalls<V>(db: Db, calls: seq<Call<V>>): Db {
    if calls == [] then db
    else Mutate(RunCalls(db, calls[..|calls| - 1]), calls[|calls| - 1]).0
  }

  /** The calls that were neither duplicates nor failures. */
  function Kept<V>(db: Db, calls: seq<Call<V>>): seq<Call<V>> {
    if calls == [] then []
    else
      var init, last := calls[..|calls| - 1], calls[|calls| - 1];
      if IsFresh(RunCalls(db, init), last) then Kept(db, init) + [last] else Kept(db, init)
  }

  /** What the fresh calls returned, in order. */
  function FreshValues<V>(db: Db, calls: seq<Call<V>>): seq<Option<V>> {
    if calls == [] then []
    else
      var init, last := calls[..|calls| - 1], calls[|calls| - 1];
      var now := RunCalls(db, init);
      FreshValues(db, init) + (if IsFresh(now, last) then [Mutate(now, last).1.value.value] else [])
  }

  lemma RunCallsSnoc<V>(db: Db, calls: seq<Call<V>>, call: Call<V>)
    ensures RunCalls(db, calls + [call]) == Mutate(RunCalls(db, calls), call).0
    ensures Kept(db, calls + [call]) == Kept(db, calls) + (if IsFresh(RunCalls(db, calls), call) then [call] else [])
    ensures FreshValues(db, calls + [call]) ==
            FreshValues(db, calls) + (if IsFresh(RunCalls(db, calls), call)
                                      then [Mutate(RunCalls(db, calls), call).1.value.value] else [])
  {
    assert (calls + [call])[..|calls|] == calls;
  }

  /** Exactly once: a run of retries, conflicts, duplicates and failures leaves the domain records of
      the run in which only the fresh calls were made; there every one of them is fresh and returns the
      same value; and the log only grew. */
  lemma {:induction false} ExactlyOnce<V(!new)>(db: Db, calls: seq<Call<V>>)
    requires WellFormed(db) && forall i | 0 <= i < |calls| :: Sound(calls[i])
    ensures var kept := Kept(db, calls);
            && Kept(db, kept) == kept
            && FreshValues(db, kept) == FreshValues(db, calls)
            && Reduces(RunCalls(db, calls), RunCalls(db, kept))
            && AppendOnly(db, RunCalls(db, calls))
            && WellFormed(RunCalls(db, calls)) && WellFormed(RunCalls(db, kept))
    decreases |calls|
  {
    hide Sound, Mutate, WellFormed, IsFresh;
    if calls == [] {
      ReducesItself(db);
    } else {
      var init, last := calls[..|calls| - 1], calls[|calls| - 1];
      ExactlyOnce(db, init);
      var kept := Kept(db, init);
      var full, reduced := RunCalls(db, init), RunCalls(db, kept);
      MutateAppends(full, last);
      if IsFresh(full, last) {
        FreshInReduced(full, reduced, last);
        RunCallsSnoc(db, kept, last);
      } else {
        NotFreshKeepsDomain(full, last);
      }
    }
  }

  lemma ReducesItself(db: Db)
    requires WellFormed(db)
    ensures Reduces(db, db)
  {
    forall k | k in db && k.kind == Activities ensures db[k].entity.ActivityEntity? {
      assert KeyOf(db[k].entity) == k;
    }
  }

  lemma {:induction false} LogGrows<V(!new)>(db: Db, calls: seq<Call<V>>, m: nat, n: nat)
    requires WellFormed(db) && (forall i | 0 <= i < |calls| :: Sound(calls[i])) && m <= n <= |calls|
    ensures AppendOnly(RunCalls(db, calls[..m]), RunCalls(db, calls[..n]))
    ensures WellFormed(RunCalls(db, calls[..n]))
    decreases n
  {
    hide Sound, Mutate, WellFormed;
    if n != 0 {
      LogGrows(db, calls, if m < n then m else n - 1, n - 1);
      assert calls[..n] == calls[..n - 1] + [calls[n - 1]];
      RunCallsSnoc(db, calls[..n - 1], calls[n - 1]);
      MutateAppends(RunCalls(db, calls[..n - 1]), calls[n - 1]);
    }
  }

  lemma StoredEventIsRead(db: Db, key: Key)
    requires WellFormed(db) && key.kind == Activities
    ensures ReadEvent(db, key).Some? <==> key in db
  {
    assert key in db ==> KeyOf(db[key].entity) == key;
  }

  lemma {:induction false} CreateEventsStores(db: Db, events: seq<ActivityEvent>, i: nat)
    requires i < |events| && CreateEvents(db, events).Success?
    ensures EventKey(events[i]) in CreateEvents(db, events).value
    ensures CreateEvents(db, events).value[EventKey(events[i])] == Record(ActivityEntity(events[i]), 0)
    decreases |events|
  {
    var init, last := events[..|events| - 1], events[|events| - 1];
    CreateEvent(CreateEvents(db, init).value, last);
    if i < |init| {
      CreateEventsStores(db, init, i);
    }
  }

  lemma FreshStoresItsEvent<V(!new)>(db: Db, call: Call<V>)
    requires WellFormed(db) && Sound(call) && IsFresh(db, call)
    ensures EventKey(Expected(call)) !in db
    ensures ReadEvent(Mutate(db, call).0, EventKey(Expected(call))) == Some(Expected(call))
  {
    var main := Expected(call);
    var events := [main] + MissingOrConflict(db, call.additional).value;
    FreshMeans(db, call);
    assert events[0] == main;
    CreateEventsStores(call.body(db).value.0, events, 0);
    StoredEventIsRead(db, EventKey(main));
  }

  lemma FreshKeysDiffer<V(!new)>(db: Db, calls: seq<Call<V>>, i: nat, j: nat)
    requires WellFormed(db) && forall n | 0 <= n < |calls| :: Sound(calls[n])
    requires i < j < |calls|
    requires IsFresh(RunCalls(db, calls[..i]), calls[i]) && IsFresh(RunCalls(db, calls[..j]), calls[j])
    ensures EventKey(Expected(calls[i])) != EventKey(Expected(calls[j]))
  {
    hide Sound, IsFresh, Mutate, RunCalls, WellFormed;
    var before, after := RunCalls(db, calls[..i]), RunCalls(db, calls[..i + 1]);
    LogGrows(db, calls, i, i);
    LogGrows(db, calls, i + 1, j);
    assert calls[..i + 1] == calls[..i] + [calls[i]];
    RunCallsSnoc(db, calls[..i], calls[i]);
    FreshStoresItsEvent(before, calls[i]);
    FreshStoresItsEvent(RunCalls(db, calls[..j]), calls[j]);
  }

  /** In any run, two fresh calls never share project, actor and idempotency key. */
  lemma AtMostOncePerKey<V(!new)>(db: Db, calls: seq<Call<V>>, i: nat, j: nat)
    requires WellFormed(db) && forall n | 0 <= n < |calls| :: Sound(calls[n])
    requires i < j < |calls|
    requires IsFresh(RunCalls(db, calls[..i]), calls[i]) && IsFresh(RunCalls(db, calls[..j]), calls[j])
    ensures var a, b := calls[i].context, calls[j].context;
            !(a.projectId == b.projectId && a.actorId == b.actorId && a.idempotencyKey == b.idempotencyKey)
  {
    FreshKeysDiffer(db, calls, i, j);
  }

  /** Once a call has been fresh, repeating it never changes a domain record again, however the
      store has moved on in the meantime. */
  lemma RetryNeverReapplies<V(!new)>(db: Db, call: Call<V>, later: Db)
    requires WellFormed(db) && WellFormed(later) && Sound(call) && IsFresh(db, call)
    requires AppendOnly(Mutate(db, call).0, later)
    ensures !IsFresh(later, call) && SameDomain(later, Mutate(later, call).0)
  {
    FreshStoresItsEvent(db, call);
    assert EventKey(Expected(call)) in later;
    if IsFresh(later, call) {
      FreshStoresItsEvent(later, call);
    }
    NotFreshKeepsDomain(later, call);
  }

  /** Different keys have different events: an ID names one project, actor and idempotency key. */
  lemma EventIdentifiesScope(a: MutationContext, b: MutationContext)
    requires ValidContext(a) && ValidContext(b)
    ensures ActivityId(a) == ActivityId(b) <==>
            a.projectId == b.projectId && a.actorId == b.actorId && a.idempotencyKey == b.idempotencyKey
  {
    ActivityIdInjective(a.projectId, a.actorId, a.idempotencyKey, b.projectId, b.actorId, b.idempotencyKey);
  }

  // ----- callbacks that are clients of the store -----

  ghost function ClientEffect<V>(client: Client<V>, fuel: nat): Effect<V> {
    (db: Db) =>
      var (s, result) := Run(Begin(db), client, fuel);
      if result.Success? then Success((s.db, result.value)) else Failure(result.error)
  }

  /** The client never asks the activity log for anything. */
  ghost predicate ActivityFree<V>(client: Client<V>) {
    forall transcript :: match client(transcript)
      case Call(req) => RequestKind(req) != Activities
      case Enter(kind) => kind != Activities
      case _ => true
  }

  /** The sessions differ in the activity log only, and neither has touched it since it began. */
  ghost predicate DifferInLog(a: Session, logA: Db, b: Session, logB: Db) {
    && SameDomain(a.db, b.db) && a.transcript == b.transcript && a.stack == b.stack
    && OfKind(a.db, Activities) == logA && OfKind(b.db, Activities) == logB
    && WellFormed(a.db) && WellFormed(b.db)
    && forall i | 0 <= i < |a.stack| ::
         a.stack[i].kind != Activities && WellFormed(a.stack[i].saved)
           && forall k | k in a.stack[i].saved :: k.kind == a.stack[i].kind
  }

  lemma DomainByKind(a: Db, b: Db, kind: Kind)
    requires SameDomain(a, b) && kind != Activities
    ensures OfKind(a, kind) == OfKind(b, kind)
  {
  }

  lemma DomainFromKinds(a: Db, b: Db)
    requires forall kind | kind != Activities :: OfKind(a, kind) == OfKind(b, kind)
    ensures SameDomain(a, b)
  {
    forall k: Key | k.kind != Activities ensures (k in a <==> k in b) && (k in a ==> a[k] == b[k]) {
      SameKind(a, b, k.kind);
    }
  }

  lemma CallDiffersInLog(a: Db, b: Db, req: Request)
    requires SameDomain(a, b) && RequestKind(req) != Activities
    ensures Apply(a, req).1 == Apply(b, req).1
    ensures SameDomain(Apply(a, req).0, Apply(b, req).0)
    ensures OfKind(Apply(a, req).0, Activities) == OfKind(a, Activities)
  {
    DomainByKind(a, b, RequestKind(req));
    ApplyIsLocal(a, b, req);
    ApplyKeepsOtherKinds(a, req, Activities);
    forall kind | kind != Activities ensures OfKind(Apply(a, req).0, kind) == OfKind(Apply(b, req).0, kind) {
      if kind != RequestKind(req) {
        ApplyKeepsOtherKinds(a, req, kind);
        ApplyKeepsOtherKinds(b, req, kind);
        DomainByKind(a, b, kind);
      }
    }
    DomainFromKinds(Apply(a, req).0, Apply(b, req).0);
  }

  lemma RestoreDiffersInLog(a: Db, b: Db, kind: Kind, saved: Db)
    requires SameDomain(a, b) && kind != Activities && forall k | k in saved :: k.kind == kind
    ensures SameDomain(Restore(a, kind, saved), Restore(b, kind, saved))
    ensures OfKind(Restore(a, kind, saved), Activities) == OfKind(a, Activities)
    ensures WellFormed(a) && WellFormed(saved) ==> WellFormed(Restore(a, kind, saved))
  {
    RestoreKinds(a, kind, saved);
  }

  lemma SameDomainSymmetric(a: Db, b: Db)
    requires SameDomain(a, b)
    ensures SameDomain(b, a)
  {
  }

  lemma CallKeepsDifference(a: Session, logA: Db, b: Session, logB: Db, req: Request)
    requires DifferInLog(a, logA, b, logB) && RequestKind(req) != Activities
    ensures Apply(a.db, req).1 == Apply(b.db, req).1
    ensures DifferInLog(Session(Apply(a.db, req).0, a.stack, a.transcript + [Apply(a.db, req).1]), logA,
                        Session(Apply(b.db, req).0, b.stack, b.transcript + [Apply(b.db, req).1]), logB)
  {
    hide WellFormed, Apply, SameDomain, OfKind, RequestKind;
    CallDiffersInLog(a.db, b.db, req);
    SameDomainSymmetric(a.db, b.db);
    CallDiffersInLog(b.db, a.db, req);
    ApplyKeepsWellFormed(a.db, req);
    ApplyKeepsWellFormed(b.db, req);
  }

  lemma UndoKeepsDifference(a: Session, logA: Db, b: Session, logB: Db, transcript: seq<Reply>)
    requires DifferInLog(a, logA, b, logB) && a.stack != []
    ensures var n := |a.stack| - 1;
            var top := a.stack[n];
            DifferInLog(Session(Restore(a.db, top.kind, top.saved), a.stack[..n], transcript), logA,
                        Session(Restore(b.db, top.kind, top.saved), b.stack[..n], transcript), logB)
  {
    hide WellFormed, SameDomain, OfKind, Restore;
    var top := a.stack[|a.stack| - 1];
    RestoreDiffersInLog(a.db, b.db, top.kind, top.saved);
    SameDomainSymmetric(a.db, b.db);
    RestoreDiffersInLog(b.db, a.db, top.kind, top.saved);
  }

  lemma AdvanceDiffersInLog<V>(a: Session, logA: Db, b: Session, logB: Db, m: Move<V>)
    requires !Finishes(m) && DifferInLog(a, logA, b, logB)
    requires m.Call? ==> RequestKind(m.request) != Activities
    requires m.Enter? ==> m.kind != Activities
    ensures DifferInLog(Advance(a, m), logA, Advance(b, m), logB)
  {
    match m {
      case Call(req) =>
        CallKeepsDifference(a, logA, b, logB, req);
        hide DifferInLog, Apply;
      case Enter(kind) =>
        EnterKeepsDifference(a, logA, b, logB, kind);
        hide DifferInLog;
      case Leave(raised) =>
        hide WellFormed, SameDomain, OfKind, Restore;
        if raised && a.stack != [] {
          UndoKeepsDifference(a, logA, b, logB, a.transcript + [Noted]);
        }
      case _ =>
    }
  }

  lemma EnterKeepsDifference(a: Session, logA: Db, b: Session, logB: Db, kind: Kind)
    requires DifferInLog(a, logA, b, logB) && kind != Activities
    ensures DifferInLog(Session(a.db, a.stack + [Frame(kind, OfKind(a.db, kind))], a.transcript + [Noted]), logA,
                        Session(b.db, b.stack + [Frame(kind, OfKind(b.db, kind))], b.transcript + [Noted]), logB)
  {
    DomainByKind(a.db, b.db, kind);
  }

  lemma SameTranscript(a: Session, logA: Db, b: Session, logB: Db)
    requires DifferInLog(a, logA, b, logB)
    ensures a.transcript == b.transcript
  {
  }

  lemma {:induction false} RunDiffersInLog<V>(a: Session, logA: Db, b: Session, logB: Db, client: Client<V>, fuel: nat)
    requires ActivityFree(client) && DifferInLog(a, logA, b, logB)
    ensures var (a', ra), (b', rb) := Run(a, client, fuel), Run(b, client, fuel);
            ra == rb && DifferInLog(a', logA, b', logB)
    decreases fuel
  {
    hide DifferInLog, Advance;
    SameTranscript(a, logA, b, logB);
    var m := client(a.transcript);
    if fuel == 0 || Finishes(m) {
    } else {
      AdvanceDiffersInLog(a, logA, b, logB, m);
      RunDiffersInLog(Advance(a, m), logA, Advance(b, m), logB, client, fuel - 1);
    }
  }

  lemma SameLogSameEvents(db: Db, db': Db)
    requires OfKind(db', Activities) == OfKind(db, Activities)
    ensures forall k: Key | k.kind == Activities :: (k in db <==> k in db') && (k in db ==> db[k] == db'[k])
  {
    SameKind(db, db', Activities);
  }

  /** Every client that leaves the activity log alone, nested transactions and caught exceptions
      included, is a callback to which the exactly-once theorem applies. */
  lemma ActivityFreeIsLogBlind<V(!new)>(client: Client<V>, fuel: nat)
    requires ActivityFree(client)
    ensures LogBlind(ClientEffect(client, fuel))
  {
    var body := ClientEffect(client, fuel);
    forall full, reduced | Reduces(full, reduced) && WellFormed(full) && WellFormed(reduced) && body(full).Success?
      ensures body(reduced).Success? && body(reduced).value.1 == body(full).value.1
      ensures Reduces(body(full).value.0, body(reduced).value.0)
      ensures SameNewEvents(full, body(full).value.0, reduced, body(reduced).value.0)
      ensures AppendOnly(full, body(full).value.0) && AppendOnly(reduced, body(reduced).value.0)
      ensures WellFormed(body(full).value.0) && WellFormed(body(reduced).value.0)
    {
      RunDiffersInLog(Begin(full), OfKind(full, Activities), Begin(reduced), OfKind(reduced, Activities), client, fuel);
      SameLogSameEvents(full, body(full).value.0);
      SameLogSameEvents(reduced, body(reduced).value.0);
    }
  }
}
