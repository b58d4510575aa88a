/** Clients of the store as state machines, the audited mutation around such a client, and the conditions
    under which its Firestore transaction does what the mutation does on the simple store. */
module Machines {
  import opened Foundations
  import opened Repository
  import opened Sessions
  import opened Activity
  import opened FirestoreCache
  import opened FirestoreTransactions

  /** What a machine does in a state: it asks the store, or it ends with a value or an exception. */
  datatype Step<+V> = Ask(request: Request) | Done(value: V) | Fail(error: Error)

  datatype Machine<!S, !V> = Machine(start: S, step: S -> Step<V>, next: (S, Reply) -> S)

  function StateAfter<S, V>(m: Machine<S, V>, transcript: seq<Reply>): S {
    if transcript == [] then m.start
    else
      var n := |transcript| - 1;
      m.next(StateAfter(m, transcript[..n]), transcript[n])
  }

  function MoveOf<V>(step: Step<V>): Move<V> {
    match step
    case Ask(request) => Move.Call(request)
    case Done(value) => Return(value)
    case Fail(error) => Raise(error)
  }

  function ClientOf<S, V>(m: Machine<S, V>): Client<V> {
    (transcript: seq<Reply>) => MoveOf(m.step(StateAfter(m, transcript)))
  }

  /** A client without nested transactions, as a machine whose states are the answers it has seen. */
  function MachineOf<V>(client: Client<V>): Machine<seq<Reply>, V> {
    Machine([], (t: seq<Reply>) => StepOf(client(t)), (t: seq<Reply>, reply: Reply) => t + [reply])
  }

  function StepOf<V>(move: Move<V>): Step<V> {
    match move
    case Call(request) => Ask(request)
    case Return(value) => Done(value)
    case Raise(error) => Fail(error)
    case _ => Fail(Interrupted)
  }

  /** The machine on the simple store, from a state on, with at most `fuel` requests. */
  ghost function Execute<S, V>(m: Machine<S, V>, db: Db, s: S, fuel: nat): Result<(Db, V), Error>
    decreases fuel
  {
    match m.step(s)
    case Done(value) => Success((db, value))
    case Fail(error) => Failure(error)
    case Ask(req) =>
      if fuel == 0 then Failure(Interrupted)
      else Execute(m, Apply(db, req).0, m.next(s, Apply(db, req).1), fuel - 1)
  }

  /** It ends within `fuel` requests. */
  ghost predicate Halts<S, V>(m: Machine<S, V>, db: Db, s: S, fuel: nat)
    decreases fuel
  {
    m.step(s).Ask? ==>
      var req := m.step(s).request;
      fuel != 0 && Halts(m, Apply(db, req).0, m.next(s, Apply(db, req).1), fuel - 1)
  }

  lemma {:induction false} MoreFuel<S, V>(m: Machine<S, V>, db: Db, s: S, fuel: nat, more: nat)
    requires Halts(m, db, s, fuel) && fuel <= more
    ensures Execute(m, db, s, more) == Execute(m, db, s, fuel) && Halts(m, db, s, more)
    decreases fuel
  {
    hide Apply;
    if m.step(s).Ask? {
      var (after, reply) := Apply(db, m.step(s).request);
      MoreFuel(m, after, m.next(s, reply), fuel - 1, more - 1);
    }
  }

  lemma StateNext<S, V>(m: Machine<S, V>, transcript: seq<Reply>, reply: Reply)
    ensures StateAfter(m, transcript + [reply]) == m.next(StateAfter(m, transcript), reply)
  {
    assert (transcript + [reply])[..|transcript|] == transcript;
  }

  lemma {:induction false} MachineRuns<S, V>(m: Machine<S, V>, s: Session, fuel: nat)
    ensures var (end, result) := Run(s, ClientOf(m), fuel + 1);
            Execute(m, s.db, StateAfter(m, s.transcript), fuel) ==
            if result.Success? then Success((end.db, result.value)) else Failure(result.error)
    decreases fuel
  {
    hide Apply, StateAfter;
    var state := StateAfter(m, s.transcript);
    if m.step(state).Ask? {
      var req := m.step(state).request;
      StateNext(m, s.transcript, Apply(s.db, req).1);
      if fuel != 0 {
        MachineRuns(m, Advance(s, Move<V>.Call(req)), fuel - 1);
      }
    }
  }

  /** A whole transaction of the machine: all of its writes, or none of them when it raises. */
  ghost function Committed<V>(db: Db, result: Result<(Db, V), Error>): (Db, Result<V, Error>) {
    match result
    case Success((after, value)) => (after, Success(value))
    case Failure(error) => (db, Failure(error))
  }

  lemma MachineTransaction<S, V>(m: Machine<S, V>, db: Db, fuel: nat)
    ensures Transaction(db, ClientOf(m), fuel + 1) == Committed(db, Execute(m, db, m.start, fuel))
    ensures ClientEffect(ClientOf(m), fuel + 1)(db) == Execute(m, db, m.start, fuel)
  {
    hide Execute, Run;
    MachineRuns(m, Begin(db), fuel);
  }

  /** The client opens no nested transaction. */
  ghost predicate Flat<V>(client: Client<V>) {
    forall transcript :: client(transcript).Call? || Finishes(client(transcript))
  }

  lemma {:induction false} ClientExecutes<V>(client: Client<V>, s: Session, fuel: nat)
    requires Flat(client)
    ensures var (end, result) := Run(s, client, fuel + 1);
            Execute(MachineOf(client), s.db, s.transcript, fuel) ==
            if result.Success? then Success((end.db, result.value)) else Failure(result.error)
    decreases fuel
  {
    hide Apply;
    if client(s.transcript).Call? && fuel != 0 {
      ClientExecutes(client, Advance(s, client(s.transcript)), fuel - 1);
    }
  }

  // ----- Firestore -----

  /** Every request from this state on can be answered by a Firestore transaction, as the simple store answers it. */
  ghost predicate PortableFrom<S, V>(m: Machine<S, V>, db: Db, f: Fire, s: S, fuel: nat)
    decreases fuel
  {
    m.step(s).Ask? ==>
      var req := m.step(s).request;
      && fuel != 0 && Portable(db, req) && Answerable(f, req)
      && PortableFrom(m, Apply(db, req).0, FireApply(f, req).0, m.next(s, Apply(db, req).1), fuel - 1)
  }

  /** The same at the start, whichever documents have been read before. */
  ghost predicate PortableMachine<S, V>(m: Machine<S, V>, db: Db, fuel: nat) {
    forall f: Fire | f.snapshot == db && f.writes == [] :: PortableFrom(m, db, f, m.start, fuel)
  }

  lemma {:induction false} PortableHalts<S, V>(m: Machine<S, V>, db: Db, f: Fire, s: S, fuel: nat)
    requires PortableFrom(m, db, f, s, fuel)
    ensures Halts(m, db, s, fuel)
    decreases fuel
  {
    hide Apply, FireApply, Portable, Answerable;
    if m.step(s).Ask? {
      var req := m.step(s).request;
      PortableHalts(m, Apply(db, req).0, FireApply(f, req).0, m.next(s, Apply(db, req).1), fuel - 1);
    }
  }

  lemma {:induction false} PortableMoves<S, V>(m: Machine<S, V>, s: Session, fs: FireSession, fuel: nat)
    requires PortableFrom(m, s.db, fs.fire, StateAfter(m, s.transcript), fuel)
    ensures PortableRun(s, fs, ClientOf(m), fuel + 1)
    decreases fuel
  {
    hide Apply, FireApply, Portable, Answerable, StateAfter;
    var state := StateAfter(m, s.transcript);
    if m.step(state).Ask? {
      var req := m.step(state).request;
      StateNext(m, s.transcript, Apply(s.db, req).1);
      PortableMoves(m, Advance(s, Move<V>.Call(req)), FireAdvance(fs, Move<V>.Call(req)), fuel - 1);
    }
  }

  lemma MachineOnFirestore<S, V>(m: Machine<S, V>, db: Db, fuel: nat)
    requires WellFormed(db) && PortableFrom(m, db, Fire(db, [], map[]), m.start, fuel)
    ensures FireTransaction(db, ClientOf(m), fuel + 1) == Committed(db, Execute(m, db, m.start, fuel))
  {
    hide WellFormed, PortableFrom, PortableRun, FireTransaction, Execute, Transaction;
    PortableMoves(m, Begin(db), Start(db), fuel);
    FireRefinesMemory(db, ClientOf(m), fuel + 1);
    MachineTransaction(m, db, fuel);
  }
}
