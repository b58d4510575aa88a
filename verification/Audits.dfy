/** The transaction of an audited mutation as one machine: the confirmation and the event are read, then the
    callback or its replay runs, then the event is created. */
module Audits {
  import opened Foundations
  import opened Models
  import opened Repository
  import opened Activity
  import opened FirestoreCache
  import opened FirestoreTransactions
  import opened Machines

  /** A mutation without additional events, whose callback and replay are machines. */
  datatype Audit<!S, !R, !V> = Audit(
    context: MutationContext, spec: ActivitySpec, body: Machine<S, V>, identity: V -> Option<(string, string)>,
    replay: Machine<R, V>)

  datatype Phase<S, R, V> =
    | Fencing
    | Looking
    | Running(state: S)
    | Replaying(existing: ActivityEvent, place: R)
    | Over(result: Result<Mutation<V>, Error>)

  function Main<S, R, V>(a: Audit<S, R, V>): ActivityEvent {
    BuildEvent(a.context, a.spec)
  }

  function Entered<S, R, V>(a: Audit<S, R, V>, found: Option<Entity>): Phase<S, R, V> {
    if found.None? || !found.value.ActivityEntity? then Running(a.body.start)
    else if Matches(found.value.activity, Main(a)) then Replaying(found.value.activity, a.replay.start)
    else Over(Failure(IdempotencyConflict))
  }

  function StepIn<S, R, V>(a: Audit<S, R, V>, phase: Phase<S, R, V>): Step<Mutation<V>> {
    match phase
    case Fencing => if a.context.confirmation.Some? then Ask(Get(ClaimKey(a.context))) else Fail(Interrupted)
    case Looking => Ask(Get(EventKey(Main(a))))
    case Running(state) => (match a.body.step(state)
                            case Ask(request) => Ask(request)
                            case Fail(error) => Fail(error)
                            case Done(value) =>
                              if InScope(a.identity(value), a.context.projectId, a.spec.entityId)
                              then Ask(Create(ActivityEntity(Main(a)))) else Fail(ScopeMismatch))
    case Replaying(existing, place) => (match a.replay.step(place)
                                        case Ask(request) => Ask(request)
                                        case Fail(error) => Fail(error)
                                        case Done(value) => Done(Mutation(Some(value), existing, true)))
    case Over(result) => if result.Success? then Done(result.value) else Fail(result.error)
  }

  function NextPhase<S, R, V>(a: Audit<S, R, V>, phase: Phase<S, R, V>, reply: Reply): Phase<S, R, V> {
    match phase
    case Fencing =>
      var claim := if reply.Found? then reply.entity else None;
      var refusal := if a.context.confirmation.Some? then ClaimRefusal(claim, a.context) else None;
      if refusal.Some? then Over(Failure(refusal.value)) else Looking
    case Looking => Entered(a, if reply.Found? then reply.entity else None)
    case Running(state) =>
      if !a.body.step(state).Done? then Running(a.body.next(state, reply))
      else if reply.Failed? then Over(Failure(reply.error))
      else Over(Success(Mutation(Some(a.body.step(state).value), Main(a), false)))
    case Replaying(existing, place) => Replaying(existing, a.replay.next(place, reply))
    case Over(_) => phase
  }

  function Audited<S, R, V>(a: Audit<S, R, V>): Machine<Phase<S, R, V>, Mutation<V>> {
    Machine(if a.context.confirmation.Some? then Fencing else Looking,
            (phase: Phase<S, R, V>) => StepIn(a, phase),
            (phase: Phase<S, R, V>, reply: Reply) => NextPhase(a, phase, reply))
  }

  ghost function Effects<S, V>(m: Machine<S, V>, fuel: nat): Effect<V> {
    (db: Db) => Execute(m, db, m.start, fuel)
  }

  /** The call of `mutate` that the audit stands for. */
  ghost function CallFor<S, R, V>(a: Audit<S, R, V>, fuel: nat): Call<V> {
    Activity.Call.Call(a.context, a.spec, Effects(a.body, fuel), a.identity, Some(Effects(a.replay, fuel)), [])
  }

  // ----- on the simple store -----

  lemma Asks<S, V>(m: Machine<S, V>, db: Db, s: S, fuel: nat)
    requires m.step(s).Ask? && fuel != 0
    ensures var (after, reply) := Apply(db, m.step(s).request);
            && Execute(m, db, s, fuel) == Execute(m, after, m.next(s, reply), fuel - 1)
            && (Halts(m, db, s, fuel) <==> Halts(m, after, m.next(s, reply), fuel - 1))
  {
    hide Apply;
  }

  /** The callback inside the mutation: the same store and answer, then the event. */
  lemma {:induction false} BodyExecutes<S, R, V>(a: Audit<S, R, V>, db: Db, s: S, fuel: nat)
    requires Halts(a.body, db, s, fuel)
    ensures Execute(Audited(a), db, Running(s), fuel + 1) == Recorded(a, Execute(a.body, db, s, fuel))
    ensures Halts(Audited(a), db, Running(s), fuel + 1)
    decreases fuel
  {
    hide BuildEvent, Entered;
    var m := Audited(a);
    if a.body.step(s).Ask? {
      hide Apply;
      Asks(m, db, Running(s), fuel + 1);
      var (after, reply) := Apply(db, a.body.step(s).request);
      BodyExecutes(a, after, a.body.next(s, reply), fuel - 1);
    } else if a.body.step(s).Done? && m.step(Running(s)).Ask? {
      hide CreateIn;
      Asks(m, db, Running(s), fuel + 1);
    }
  }

  /** The callback's result with the event created after it. */
  ghost function Recorded<S, R, V>(a: Audit<S, R, V>, done: Result<(Db, V), Error>): Result<(Db, Mutation<V>), Error> {
    if done.Failure? then Failure(done.error)
    else if !InScope(a.identity(done.value.1), a.context.projectId, a.spec.entityId) then Failure(ScopeMismatch)
    else
      match CreateIn(done.value.0, ActivityEntity(Main(a)))
      case Success(after) => Success((after, Mutation(Some(done.value.1), Main(a), false)))
      case Failure(error) => Failure(error)
  }

  lemma {:induction false} ReplayExecutes<S, R, V>(a: Audit<S, R, V>, db: Db, existing: ActivityEvent,
                                                   place: R, fuel: nat)
    requires Halts(a.replay, db, place, fuel)
    ensures Execute(Audited(a), db, Replaying(existing, place), fuel) ==
            Answered(existing, Execute(a.replay, db, place, fuel))
    ensures Halts(Audited(a), db, Replaying(existing, place), fuel)
    decreases fuel
  {
    hide BuildEvent, Apply, Entered;
    if a.replay.step(place).Ask? {
      var (after, reply) := Apply(db, a.replay.step(place).request);
      ReplayExecutes(a, after, existing, a.replay.next(place, reply), fuel - 1);
    }
  }

  ghost function Answered<V>(existing: ActivityEvent, done: Result<(Db, V), Error>): Result<(Db, Mutation<V>), Error> {
    if done.Failure? then Failure(done.error)
    else Success((done.value.0, Mutation(Some(done.value.1), existing, true)))
  }

  lemma LookingExecutes<S, R, V>(a: Audit<S, R, V>, db: Db, fuel: nat)
    requires Halts(a.body, db, a.body.start, fuel) && Halts(a.replay, db, a.replay.start, fuel)
    ensures Halts(Audited(a), db, Looking, fuel + 2)
    ensures var existing := ReadEvent(db, EventKey(Main(a)));
            Execute(Audited(a), db, Looking, fuel + 2) ==
            if existing.None? then Recorded(a, Execute(a.body, db, a.body.start, fuel))
            else if !Matches(existing.value, Main(a)) then Failure(IdempotencyConflict)
            else Answered(existing.value, Execute(a.replay, db, a.replay.start, fuel))
  {
    hide BuildEvent, Recorded, Answered, Execute, Halts, Matches;
    Asks(Audited(a), db, Looking, fuel + 2);
    BodyExecutes(a, db, a.body.start, fuel);
    var existing := ReadEvent(db, EventKey(Main(a)));
    if existing.Some? {
      if Matches(existing.value, Main(a)) {
        ReplayExecutes(a, db, existing.value, a.replay.start, fuel);
        MoreFuel(Audited(a), db, Replaying(existing.value, a.replay.start), fuel, fuel + 1);
      } else {
        OverExecutes(a, db, Failure(IdempotencyConflict), fuel + 1);
      }
    }
  }

  lemma OverExecutes<S, R, V>(a: Audit<S, R, V>, db: Db, result: Result<Mutation<V>, Error>, fuel: nat)
    ensures Halts(Audited(a), db, Over(result), fuel)
    ensures Execute(Audited(a), db, Over(result), fuel) ==
            if result.Success? then Success((db, result.value)) else Failure(result.error)
  {
  }

  /** The machine's transaction is the mutation. */
  lemma AuditedIsMutate<S, R, V>(a: Audit<S, R, V>, db: Db, fuel: nat)
    requires Halts(a.body, db, a.body.start, fuel) && Halts(a.replay, db, a.replay.start, fuel)
    ensures Committed(db, Execute(Audited(a), db, Audited(a).start, fuel + 3)) == Mutate(db, CallFor(a, fuel))
    ensures Halts(Audited(a), db, Audited(a).start, fuel + 3)
  {
    hide Execute, Halts, Matches, BuildEvent, ClaimRefusal, EventKey;
    LookingExecutes(a, db, fuel);
    if a.context.confirmation.Some? {
      Asks(Audited(a), db, Fencing, fuel + 3);
      var refusal := Fence(db, a.context);
      if refusal.Some? {
        OverExecutes(a, db, Failure(refusal.value), fuel + 2);
      }
    } else {
      MoreFuel(Audited(a), db, Looking, fuel + 2, fuel + 3);
    }
    MutateIs(a, db, fuel);
  }

  lemma MutateIs<S, R, V>(a: Audit<S, R, V>, db: Db, fuel: nat)
    ensures var existing := ReadEvent(db, EventKey(Main(a)));
            Mutate(db, CallFor(a, fuel)) ==
            if Fence(db, a.context).Some? then (db, Failure(Fence(db, a.context).value))
            else Committed(db, if existing.None? then Recorded(a, Execute(a.body, db, a.body.start, fuel))
                             else if !Matches(existing.value, Main(a)) then Failure(IdempotencyConflict)
                             else Answered(existing.value, Execute(a.replay, db, a.replay.start, fuel)))
  {
    hide Execute, Matches, BuildEvent, Fence, CreateIn, EventKey, ReadEvent, CreateEvents, MissingOrConflict;
    var call := CallFor(a, fuel);
    assert [Main(a)] + [] == [Main(a)];
    NoAdditional(db);
    var existing := ReadEvent(db, EventKey(Main(a)));
    if existing.None? {
      var done := Execute(a.body, db, a.body.start, fuel);
      if done.Success? { OneEvent(done.value.0, Main(a)); }
    } else {
      var done := Execute(a.replay, db, a.replay.start, fuel);
      if done.Success? { NoAdditional(done.value.0); }
    }
  }

  lemma OneEvent(db: Db, e: ActivityEvent)
    ensures CreateEvents(db, [e]) == CreateIn(db, ActivityEntity(e))
  {
    assert [e][..0] == [];
    assert CreateEvents(db, []) == Success(db);
  }

  lemma NoAdditional(db: Db)
    ensures MissingOrConflict(db, []) == Success([]) && CreateEvents(db, []) == Success(db)
  {
  }

  // ----- on Firestore -----

  lemma GetReads(f: Fire, k: Key)
    requires f.writes == []
    ensures var g := FireApply(f, Get(k)).0; g.snapshot == f.snapshot && g.writes == []
  {
  }

  lemma {:induction false} BodyPortable<S, R, V>(a: Audit<S, R, V>, db: Db, f: Fire, s: S, fuel: nat)
    requires PortableFrom(a.body, db, f, s, fuel)
    requires var done := Execute(a.body, db, s, fuel); done.Success? ==> EventKey(Main(a)) !in done.value.0
    ensures PortableFrom(Audited(a), db, f, Running(s), fuel + 1)
    decreases fuel
  {
    hide BuildEvent, Entered, Apply, FireApply;
    if a.body.step(s).Ask? {
      var req := a.body.step(s).request;
      BodyPortable(a, Apply(db, req).0, FireApply(f, req).0, a.body.next(s, Apply(db, req).1), fuel - 1);
    }
  }

  lemma {:induction false} ReplayPortable<S, R, V>(a: Audit<S, R, V>, db: Db, f: Fire,
                                                   existing: ActivityEvent, place: R,
                                                   fuel: nat)
    requires PortableFrom(a.replay, db, f, place, fuel)
    ensures PortableFrom(Audited(a), db, f, Replaying(existing, place), fuel)
    decreases fuel
  {
    hide BuildEvent, Entered, Apply, FireApply, Portable, Answerable;
    if a.replay.step(place).Ask? {
      var req := a.replay.step(place).request;
      ReplayPortable(a, Apply(db, req).0, FireApply(f, req).0, existing,
                     a.replay.next(place, Apply(db, req).1), fuel - 1);
    }
  }

  /** The callback is portable when it runs, and the event is still free after it; the replay is portable. */
  ghost predicate PortableAudit<S, R, V>(a: Audit<S, R, V>, db: Db, fuel: nat) {
    && Halts(a.body, db, a.body.start, fuel) && PortableMachine(a.replay, db, fuel)
    && (ReadEvent(db, EventKey(Main(a))).None? ==>
          && PortableMachine(a.body, db, fuel)
          && var done := Execute(a.body, db, a.body.start, fuel);
             done.Success? ==> EventKey(Main(a)) !in done.value.0)
  }

  lemma {:induction false} MorePortable<S, V>(m: Machine<S, V>, db: Db, f: Fire, s: S, fuel: nat, more: nat)
    requires PortableFrom(m, db, f, s, fuel) && fuel <= more
    ensures PortableFrom(m, db, f, s, more)
    decreases fuel
  {
    hide Apply, FireApply, Portable, Answerable;
    if m.step(s).Ask? {
      var req := m.step(s).request;
      MorePortable(m, Apply(db, req).0, FireApply(f, req).0, m.next(s, Apply(db, req).1), fuel - 1, more - 1);
    }
  }

  lemma AsksPortably<S, V>(m: Machine<S, V>, db: Db, f: Fire, s: S, fuel: nat)
    requires m.step(s).Ask? && fuel != 0 && Portable(db, m.step(s).request) && Answerable(f, m.step(s).request)
    ensures var req := m.step(s).request;
            PortableFrom(m, db, f, s, fuel) <==>
            PortableFrom(m, Apply(db, req).0, FireApply(f, req).0, m.next(s, Apply(db, req).1), fuel - 1)
  {
    hide Apply, FireApply, Portable, Answerable;
  }

  lemma LookingPortable<S, R, V>(a: Audit<S, R, V>, db: Db, f: Fire, fuel: nat)
    requires PortableAudit(a, db, fuel) && f.snapshot == db && f.writes == []
    ensures PortableFrom(Audited(a), db, f, Looking, fuel + 2)
  {
    hide BuildEvent, PortableFrom, Halts, Execute, FireApply, Matches;
    var k := EventKey(Main(a));
    GetReads(f, k);
    var g := FireApply(f, Get(k)).0;
    AsksPortably(Audited(a), db, f, Looking, fuel + 2);
    var existing := ReadEvent(db, k);
    if existing.None? {
      BodyPortable(a, db, g, a.body.start, fuel);
    } else if Matches(existing.value, Main(a)) {
      ReplayPortable(a, db, g, existing.value, a.replay.start, fuel);
      MorePortable(Audited(a), db, g, Replaying(existing.value, a.replay.start), fuel, fuel + 1);
    } else {
      OverPortable(a, db, g, Failure(IdempotencyConflict), fuel + 1);
    }
  }

  lemma OverPortable<S, R, V>(a: Audit<S, R, V>, db: Db, f: Fire, result: Result<Mutation<V>, Error>, fuel: nat)
    ensures PortableFrom(Audited(a), db, f, Over(result), fuel)
  {
  }

  lemma AuditedIsPortable<S, R, V>(a: Audit<S, R, V>, db: Db, fuel: nat)
    requires PortableAudit(a, db, fuel)
    ensures PortableFrom(Audited(a), db, Fire(db, [], map[]), Audited(a).start, fuel + 3)
  {
    hide BuildEvent, PortableFrom, PortableAudit, FireApply, ClaimRefusal;
    var f := Fire(db, [], map[]);
    if a.context.confirmation.Some? {
      var k := ClaimKey(a.context);
      GetReads(f, k);
      AsksPortably(Audited(a), db, f, Fencing, fuel + 3);
      var g := FireApply(f, Get(k)).0;
      var refusal := Fence(db, a.context);
      if refusal.Some? {
        OverPortable(a, db, g, Failure(refusal.value), fuel + 2);
      } else {
        LookingPortable(a, db, g, fuel);
      }
    } else {
      LookingPortable(a, db, f, fuel);
      MorePortable(Audited(a), db, f, Looking, fuel + 2, fuel + 3);
    }
  }

  /** A portable audited mutation does in a Firestore transaction exactly what it does on the simple store. */
  lemma AuditedOnFirestore<S, R, V>(a: Audit<S, R, V>, db: Db, fuel: nat)
    requires WellFormed(db) && PortableAudit(a, db, fuel)
    ensures FireTransaction(db, ClientOf(Audited(a)), fuel + 4) == Mutate(db, CallFor(a, fuel))
  {
    hide WellFormed, PortableFrom, Execute, Mutate, FireTransaction, Halts;
    PortableHalts(a.replay, db, Fire(db, [], map[]), a.replay.start, fuel);
    AuditedIsPortable(a, db, fuel);
    MachineOnFirestore(Audited(a), db, fuel + 3);
    AuditedIsMutate(a, db, fuel);
  }
}
