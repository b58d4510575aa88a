/** Clients of the store as adaptive programs, transactions over them, and the history behind a state.

    A client is any function from the answers it has seen so far to its next move, so a theorem
    about every client covers every callback the services pass to a transaction.  Running out of
    `fuel` is an exception at that point, so it also covers a failure at any step. */
module Sessions {
  import opened Foundations
  import opened Models
  import opened Repository

  /** `Enter` and `Leave` open and close a nested single-collection transaction; `Leave(true)` is an
      exception that leaves the nested block and is caught right outside it. */
  datatype Move<+V> =
    | Call(request: Request)
    | Enter(kind: Kind)
    | Leave(raised: bool)
    | Return(value: V)
    | Raise(error: Error)

  type Client<!V> = seq<Reply> -> Move<V>

  datatype Frame = Frame(kind: Kind, saved: Db)

  datatype Session = Session(db: Db, stack: seq<Frame>, transcript: seq<Reply>)

  predicate Finishes<V>(m: Move<V>) {
    m.Return? || m.Raise?
  }

  ghost function Advance<V>(s: Session, m: Move<V>): Session
    requires !Finishes(m)
  {
    match m
    case Call(req) =>
      var (db, reply) := Apply(s.db, req);
      Session(db, s.stack, s.transcript + [reply])
    case Enter(kind) =>
      Session(s.db, s.stack + [Frame(kind, OfKind(s.db, kind))], s.transcript + [Noted])
    case Leave(raised) =>
      if s.stack == [] then Session(s.db, [], s.transcript + [Noted])
      else
        var top := s.stack[|s.stack| - 1];
        Session(if raised then Restore(s.db, top.kind, top.saved) else s.db,
                s.stack[..|s.stack| - 1], s.transcript + [Noted])
  }

  ghost function Run<V>(s: Session, client: Client<V>, fuel: nat): (Session, Result<V, Error>)
    decreases fuel
  {
    var m := client(s.transcript);
    if fuel == 0 then (s, Failure(Interrupted))
    else if m.Return? then (s, Success(m.value))
    else if m.Raise? then (s, Failure(m.error))
    else Run(Advance(s, m), client, fuel - 1)
  }

  ghost function Begin(db: Db): Session {
    Session(db, [], [])
  }

  /** All of the client's writes, or none of them when it raised. */
  ghost function Transaction<V>(db: Db, client: Client<V>, fuel: nat): (Db, Result<V, Error>) {
    var (s, result) := Run(Begin(db), client, fuel);
    (if result.Success? then s.db else db, result)
  }

  /** The accepted writes of a history, one after the other. */
  ghost function Replay(db: Db, log: seq<Request>): Db {
    if log == [] then db
    else Apply(Replay(db, log[..|log| - 1]), log[|log| - 1]).0
  }

  ghost predicate Accepted(db: Db, log: seq<Request>) {
    log == [] ||
    var before := log[..|log| - 1];
    var last := log[|log| - 1];
    Accepted(db, before) && IsWrite(last) && !Apply(Replay(db, before), last).1.Failed?
  }

  lemma ReplaySnoc(db: Db, log: seq<Request>, req: Request)
    ensures Replay(db, log + [req]) == Apply(Replay(db, log), req).0
    ensures Accepted(db, log + [req]) <==>
            Accepted(db, log) && IsWrite(req) && !Apply(Replay(db, log), req).1.Failed?
  {
    assert (log + [req])[..|log|] == log;
  }

  lemma {:induction false} AcceptedPrefix(db: Db, log: seq<Request>, n: nat)
    requires n <= |log| && Accepted(db, log)
    ensures Accepted(db, log[..n])
    decreases |log| - n
  {
    if n == |log| {
      assert log[..n] == log;
    } else {
      AcceptedPrefix(db, log, n + 1);
      assert log[..n + 1][..n] == log[..n];
    }
  }

  ghost function Without(log: seq<Request>, kind: Kind): seq<Request> {
    if log == [] then []
    else
      var rest := Without(log[..|log| - 1], kind);
      if RequestKind(log[|log| - 1]) == kind then rest else rest + [log[|log| - 1]]
  }

  lemma RestoreKinds(db: Db, kind: Kind, saved: Db)
    requires forall k | k in saved :: k.kind == kind
    ensures OfKind(Restore(db, kind, saved), kind) == saved
    ensures forall other | other != kind :: OfKind(Restore(db, kind, saved), other) == OfKind(db, other)
  {
    var put := Restore(db, kind, saved);
    forall k ensures k in OfKind(put, kind) <==> k in saved {
      RestoreHas(db, kind, saved, k);
    }
    forall other | other != kind ensures OfKind(put, other) == OfKind(db, other) {
      forall k ensures k in OfKind(put, other) <==> k in OfKind(db, other) {
        RestoreHas(db, kind, saved, k);
      }
    }
  }

  lemma EqualByKinds(a: Db, b: Db)
    requires forall kind :: OfKind(a, kind) == OfKind(b, kind)
    ensures a == b
  {
    forall k ensures (k in a <==> k in b) && (k in a ==> a[k] == b[k]) {
      SameKind(a, b, k.kind);
    }
  }

  /** A store that differs in one collection is the old store with that collection replaced. */
  lemma RestoreIsReplacement(before: Db, after: Db, kind: Kind)
    requires forall other | other != kind :: OfKind(after, other) == OfKind(before, other)
    ensures after == Restore(before, kind, OfKind(after, kind))
  {
    RestoreKinds(before, kind, OfKind(after, kind));
    EqualByKinds(after, Restore(before, kind, OfKind(after, kind)));
  }

  /** A request on the whole store is the request on its own collection. */
  lemma ApplyOnCollection(whole: Db, req: Request)
    ensures var part := OfKind(whole, RequestKind(req));
            Apply(whole, req) == (Restore(whole, RequestKind(req), Apply(part, req).0), Apply(part, req).1)
  {
    var kind := RequestKind(req);
    var part := OfKind(whole, kind);
    assert OfKind(part, kind) == part;
    ApplyIsLocal(whole, part, req);
    OneCollectionStays(part, req);
    forall other | other != kind ensures OfKind(Apply(whole, req).0, other) == OfKind(whole, other) {
      ApplyKeepsOtherKinds(whole, req, other);
    }
    RestoreIsReplacement(whole, Apply(whole, req).0, kind);
  }

  lemma OneCollectionStays(part: Db, req: Request)
    requires OfKind(part, RequestKind(req)) == part
    ensures OfKind(Apply(part, req).0, RequestKind(req)) == Apply(part, req).0
  {
    forall k | k in part ensures k.kind == RequestKind(req) {
      assert k in OfKind(part, RequestKind(req));
    }
  }

  /** A request of the collection that is put back leaves no trace. */
  lemma ApplyThenRestore(db: Db, req: Request, saved: Db)
    requires forall k | k in saved :: k.kind == RequestKind(req)
    ensures Restore(Apply(db, req).0, RequestKind(req), saved) == Restore(db, RequestKind(req), saved)
  {
    hide Apply, Restore, OfKind, RequestKind;
    var kind, after := RequestKind(req), Apply(db, req).0;
    RestoreKinds(db, kind, saved);
    RestoreKinds(after, kind, saved);
    forall other | other != kind ensures OfKind(after, other) == OfKind(db, other) {
      ApplyKeepsOtherKinds(db, req, other);
    }
    EqualByKinds(Restore(after, kind, saved), Restore(db, kind, saved));
  }

  /** A request of another collection commutes with putting one collection back. */
  lemma ApplyUnderRestore(db: Db, req: Request, kind: Kind, saved: Db)
    requires RequestKind(req) != kind && forall k | k in saved :: k.kind == kind
    ensures Restore(Apply(db, req).0, kind, saved) == Apply(Restore(db, kind, saved), req).0
    ensures Apply(Restore(db, kind, saved), req).1 == Apply(db, req).1
  {
    hide Apply, Restore, OfKind, RequestKind;
    var after, put := Apply(db, req).0, Restore(db, kind, saved);
    RestoreKinds(db, kind, saved);
    RestoreKinds(after, kind, saved);
    ApplyIsLocal(put, db, req);
    forall other ensures OfKind(Restore(after, kind, saved), other) == OfKind(Apply(put, req).0, other) {
      if other != RequestKind(req) {
        ApplyKeepsOtherKinds(db, req, other);
        ApplyKeepsOtherKinds(put, req, other);
      }
    }
    EqualByKinds(Restore(after, kind, saved), Apply(put, req).0);
  }

  lemma SavedIsOfKind(db: Db, kind: Kind)
    ensures forall k | k in OfKind(db, kind) :: k.kind == kind
  {
  }

  lemma WithoutLast(log: seq<Request>, kind: Kind)
    requires log != []
    ensures var init, last := log[..|log| - 1], log[|log| - 1];
            Without(log, kind) == if RequestKind(last) == kind then Without(init, kind)
              else Without(init, kind) + [last]
  {
  }

  /** Undoing one collection's writes is the history without them. */
  lemma {:induction false} UndoKind(db: Db, before: seq<Request>, inner: seq<Request>, kind: Kind)
    requires Accepted(db, before + inner)
    ensures Accepted(db, before + Without(inner, kind))
    ensures Replay(db, before + Without(inner, kind)) ==
            Restore(Replay(db, before + inner), kind, OfKind(Replay(db, before), kind))
    decreases |inner|
  {
    hide Accepted, Replay, Apply, Restore, OfKind, RequestKind, IsWrite;
    var saved := OfKind(Replay(db, before), kind);
    SavedIsOfKind(Replay(db, before), kind);
    if inner == [] {
      assert before + inner == before;
      RestoreKinds(Replay(db, before), kind, saved);
      EqualByKinds(Restore(Replay(db, before), kind, saved), Replay(db, before));
      assert before + Without(inner, kind) == before;
    } else {
      var init, last := inner[..|inner| - 1], inner[|inner| - 1];
      assert before + inner == (before + init) + [last];
      ReplaySnoc(db, before + init, last);
      UndoKind(db, before, init, kind);
      WithoutLast(inner, kind);
      if RequestKind(last) == kind {
        ApplyThenRestore(Replay(db, before + init), last, saved);
      } else {
        ApplyUnderRestore(Replay(db, before + init), last, kind, saved);
        assert before + Without(inner, kind) == (before + Without(init, kind)) + [last];
        ReplaySnoc(db, before + Without(init, kind), last);
      }
    }
  }

  /** The marks say where in the history each open nested transaction began. */
  ghost predicate Marked(base: Db, log: seq<Request>, stack: seq<Frame>, marks: seq<nat>) {
    && |marks| == |stack|
    && (forall i | 0 <= i < |marks| :: marks[i] <= |log|)
    && (forall i, j | 0 <= i < j < |marks| :: marks[i] <= marks[j])
    && (forall i | 0 <= i < |marks| :: stack[i].saved == OfKind(Replay(base, log[..marks[i]]), stack[i].kind))
  }

  lemma MarkedKept(base: Db, log: seq<Request>, stack: seq<Frame>, marks: seq<nat>, n: nat, log': seq<Request>)
    requires Marked(base, log, stack, marks) && n <= |marks|
    requires forall i | 0 <= i < n :: marks[i] <= |log'| && log'[..marks[i]] == log[..marks[i]]
    ensures Marked(base, log', stack[..n], marks[..n])
  {
  }

  lemma CallHasHistory(s: Session, req: Request, base: Db, log: seq<Request>, marks: seq<nat>)
    returns (log': seq<Request>)
    requires Accepted(base, log) && Replay(base, log) == s.db && Marked(base, log, s.stack, marks)
    ensures Accepted(base, log') && Replay(base, log') == Apply(s.db, req).0
    ensures Marked(base, log', s.stack, marks)
  {
    log' := log;
    if IsWrite(req) && !Apply(s.db, req).1.Failed? {
      log' := log + [req];
      ReplaySnoc(base, log, req);
      MarkedKept(base, log, s.stack, marks, |marks|, log');
      assert s.stack[..|marks|] == s.stack && marks[..|marks|] == marks;
    }
  }

  lemma UndoHasHistory(s: Session, base: Db, log: seq<Request>, marks: seq<nat>) returns (log': seq<Request>)
    requires Accepted(base, log) && Replay(base, log) == s.db && Marked(base, log, s.stack, marks)
    requires s.stack != []
    ensures var n := |s.stack| - 1;
            && Accepted(base, log') && Replay(base, log') == Restore(s.db, s.stack[n].kind, s.stack[n].saved)
            && Marked(base, log', s.stack[..n], marks[..n])
  {
    hide Accepted, Replay, OfKind, Restore;
    var n := |s.stack| - 1;
    var before, inner := log[..marks[n]], log[marks[n]..];
    assert log == before + inner;
    UndoKind(base, before, inner, s.stack[n].kind);
    log' := before + Without(inner, s.stack[n].kind);
    MarkedKept(base, log, s.stack, marks, n, log');
  }

  /** One move extends, or partly withdraws, the history that explains the store. */
  lemma AdvanceHasHistory<V>(s: Session, m: Move<V>, base: Db, log: seq<Request>, marks: seq<nat>)
    returns (log': seq<Request>, marks': seq<nat>)
    requires !Finishes(m)
    requires Accepted(base, log) && Replay(base, log) == s.db && Marked(base, log, s.stack, marks)
    ensures Accepted(base, log') && Replay(base, log') == Advance(s, m).db
    ensures Marked(base, log', Advance(s, m).stack, marks')
  {
    hide Accepted, Replay, Apply, OfKind, Restore;
    log', marks' := log, marks;
    match m {
      case Call(req) =>
        hide Marked;
        log' := CallHasHistory(s, req, base, log, marks);
      case Enter(kind) =>
        marks' := marks + [|log|];
        assert log[..|log|] == log;
      case Leave(raised) =>
        if s.stack != [] {
          marks' := marks[..|s.stack| - 1];
          if raised {
            log' := UndoHasHistory(s, base, log, marks);
          }
        }
      case _ =>
    }
  }

  lemma {:induction false} RunHasHistory<V>(s: Session, client: Client<V>, fuel: nat, base: Db,
                                            log: seq<Request>, marks: seq<nat>)
    returns (log': seq<Request>)
    requires Accepted(base, log) && Replay(base, log) == s.db && Marked(base, log, s.stack, marks)
    ensures Accepted(base, log') && Replay(base, log') == Run(s, client, fuel).0.db
    decreases fuel
  {
    hide Accepted, Replay, Marked, Advance;
    var m := client(s.transcript);
    if fuel == 0 || Finishes(m) {
      log' := log;
    } else {
      var log1, marks1 := AdvanceHasHistory(s, m, base, log, marks);
      log' := RunHasHistory(Advance(s, m), client, fuel - 1, base, log1, marks1);
    }
  }

  /** One transaction of one client. */
  datatype Job = Job(client: Client<int>, fuel: nat)

  ghost function RunJobs(db: Db, jobs: seq<Job>): Db {
    if jobs == [] then db
    else
      var last := jobs[|jobs| - 1];
      Transaction(RunJobs(db, jobs[..|jobs| - 1]), last.client, last.fuel).0
  }

  /** Every reachable store is the replay of the writes that were committed, and of no others. */
  lemma {:induction false} ReachableHasHistory(jobs: seq<Job>) returns (log: seq<Request>)
    ensures Accepted(map[], log) && Replay(map[], log) == RunJobs(map[], jobs)
    decreases |jobs|
  {
    if jobs == [] {
      log := [];
    } else {
      var last := jobs[|jobs| - 1];
      log := ReachableHasHistory(jobs[..|jobs| - 1]);
      var db := RunJobs(map[], jobs[..|jobs| - 1]);
      if Run(Begin(db), last.client, last.fuel).1.Success? {
        log := RunHasHistory(Begin(db), last.client, last.fuel, map[], log, []);
      }
    }
  }

  /** How often a record was saved since it was last created; None when it does not exist. */
  ghost function SavesSinceCreation(log: seq<Request>, key: Key): Option<nat> {
    if log == [] then None
    else
      var before := SavesSinceCreation(log[..|log| - 1], key);
      match log[|log| - 1]
      case Create(e) => if KeyOf(e) == key then Some(0) else before
      case Save(e, _) => if KeyOf(e) == key && before.Some? then Some(before.value + 1) else before
      case Delete(k, _) => if k == key then None else before
      case _ => before
  }

  lemma {:induction false} VersionCountsSaves(log: seq<Request>, key: Key)
    requires Accepted(map[], log)
    ensures var db := Replay(map[], log);
            SavesSinceCreation(log, key) == if key in db then Some(db[key].version) else None
    decreases |log|
  {
    if log != [] {
      VersionCountsSaves(log[..|log| - 1], key);
    }
  }

  lemma {:induction false} ReplayWellFormed(db: Db, log: seq<Request>)
    requires WellFormed(db)
    ensures WellFormed(Replay(db, log))
    decreases |log|
  {
    if log != [] {
      ReplayWellFormed(db, log[..|log| - 1]);
      ApplyKeepsWellFormed(Replay(db, log[..|log| - 1]), log[|log| - 1]);
    }
  }

  /** In every reachable store a record's version is the number of committed saves since its
      creation, and is what its own version field says. */
  lemma ReachableVersions(jobs: seq<Job>) returns (log: seq<Request>)
    ensures Accepted(map[], log) && Replay(map[], log) == RunJobs(map[], jobs)
    ensures WellFormed(RunJobs(map[], jobs))
    ensures var db := RunJobs(map[], jobs);
            forall key :: SavesSinceCreation(log, key) == if key in db then Some(db[key].version) else None
  {
    log := ReachableHasHistory(jobs);
    ReplayWellFormed(map[], log);
    forall key
      ensures var db := RunJobs(map[], jobs);
              SavesSinceCreation(log, key) == if key in db then Some(db[key].version) else None
    {
      VersionCountsSaves(log, key);
    }
  }

  lemma ApplyKeepsVersion(db: Db, req: Request, key: Key)
    requires key in db && !(req.Delete? && req.key == key)
    ensures key in Apply(db, req).0 && db[key].version <= Apply(db, req).0[key].version
  {
  }

  /** While a record is not deleted its version only grows. */
  lemma {:induction false} VersionGrows(db: Db, log: seq<Request>, key: Key, i: nat, j: nat)
    requires Accepted(db, log) && i <= j <= |log|
    requires key in Replay(db, log[..i])
    requires forall m | i <= m < j :: !(log[m].Delete? && log[m].key == key)
    ensures key in Replay(db, log[..j])
    ensures Replay(db, log[..i])[key].version <= Replay(db, log[..j])[key].version
    decreases j - i
  {
    hide Accepted, Replay, Apply;
    if i == j {
    } else {
      VersionGrows(db, log, key, i, j - 1);
      assert log[..j] == log[..j - 1] + [log[j - 1]];
      ReplaySnoc(db, log[..j - 1], log[j - 1]);
      ApplyKeepsVersion(Replay(db, log[..j - 1]), log[j - 1], key);
    }
  }

  lemma AcceptedSave(db: Db, e: Entity, expected: Option<int>)
    requires !Apply(db, Save(e, expected)).1.Failed?
    ensures KeyOf(e) in db && expected == Some(db[KeyOf(e)].version)
    ensures var after := Apply(db, Save(e, expected)).0;
            KeyOf(e) in after && after[KeyOf(e)].version == db[KeyOf(e)].version + 1
  {
  }

  lemma SaveConsumesItsVersion(db: Db, log: seq<Request>, i: nat)
    requires Accepted(db, log) && i < |log| && log[i].Save?
    ensures var key := KeyOf(log[i].entity);
            && key in Replay(db, log[..i]) && log[i].expected == Some(Replay(db, log[..i])[key].version)
            && key in Replay(db, log[..i + 1])
            && Replay(db, log[..i + 1])[key].version == Replay(db, log[..i])[key].version + 1
  {
    hide Accepted, Replay, Apply, KeyOf;
    AcceptedPrefix(db, log, i + 1);
    assert log[..i + 1] == log[..i] + [log[i]];
    ReplaySnoc(db, log[..i], log[i]);
    AcceptedSave(Replay(db, log[..i]), log[i].entity, log[i].expected);
  }

  /** Two accepted saves of one record against the same version: it was deleted in between. */
  lemma NoLostUpdate(db: Db, log: seq<Request>, i: nat, j: nat)
    requires Accepted(db, log) && i < j < |log|
    requires log[i].Save? && log[j].Save? && KeyOf(log[i].entity) == KeyOf(log[j].entity)
    requires log[i].expected == log[j].expected
    ensures exists m :: i < m < j && log[m].Delete? && log[m].key == KeyOf(log[i].entity)
  {
    var key := KeyOf(log[i].entity);
    SaveConsumesItsVersion(db, log, i);
    SaveConsumesItsVersion(db, log, j);
    if forall m | i + 1 <= m < j :: !(log[m].Delete? && log[m].key == key) {
      VersionGrows(db, log, key, i + 1, j);
    }
  }

  /** How many nested transactions a stretch of moves leaves open. */
  ghost function Depth<V>(moves: seq<Move<V>>): int {
    if moves == [] then 0
    else
      var last := moves[|moves| - 1];
      Depth(moves[..|moves| - 1]) + (if last.Enter? then 1 else if last.Leave? then -1 else 0)
  }

  /** A stretch that closes only what it opened itself, and does not end the client. */
  ghost predicate StaysInside<V>(moves: seq<Move<V>>) {
    && (forall i | 0 <= i < |moves| :: !Finishes(moves[i]))
    && (forall n | 0 <= n <= |moves| :: 0 <= Depth(moves[..n]))
  }

  ghost function Perform<V>(s: Session, moves: seq<Move<V>>): Session
    requires forall i | 0 <= i < |moves| :: !Finishes(moves[i])
  {
    if moves == [] then s
    else Advance(Perform(s, moves[..|moves| - 1]), moves[|moves| - 1])
  }

  lemma {:induction false} InsideKeepsOuterStack<V>(s: Session, moves: seq<Move<V>>)
    requires StaysInside(moves)
    ensures 0 <= Depth(moves) && |Perform(s, moves).stack| == |s.stack| + Depth(moves)
    ensures Perform(s, moves).stack[..|s.stack|] == s.stack
    decreases |moves|
  {
    assert moves[..|moves|] == moves;
    if moves != [] {
      var init := moves[..|moves| - 1];
      assert forall n | 0 <= n <= |init| :: init[..n] == moves[..n];
      InsideKeepsOuterStack(s, init);
    }
  }

  /** A nested transaction whose exception is caught undoes exactly its own collection. */
  lemma NestedRollback<V>(s: Session, kind: Kind, inner: seq<Move<V>>)
    requires StaysInside(inner) && Depth(inner) == 0
    ensures var entered := Advance(s, Move<V>.Enter(kind));
            var worked := Perform(entered, inner);
            var caught := Advance(worked, Move<V>.Leave(true));
            && caught.stack == s.stack
            && OfKind(caught.db, kind) == OfKind(s.db, kind)
            && forall other | other != kind :: OfKind(caught.db, other) == OfKind(worked.db, other)
  {
    var entered := Advance(s, Move<V>.Enter(kind));
    var worked := Perform(entered, inner);
    InsideKeepsOuterStack(entered, inner);
    assert worked.stack == entered.stack;
    assert worked.stack[..|s.stack|] == s.stack;
    RestoreKinds(worked.db, kind, OfKind(s.db, kind));
  }
}
