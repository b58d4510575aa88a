/** Whole Firestore transactions against whole transactions of the simple store, for every client,
    and the three cases in which the two really differ. */
module FirestoreTransactions {
  import opened Foundations
  import opened Models
  import opened Repository
  import opened Sessions
  import opened FirestoreCache

  datatype FireSession = FireSession(fire: Fire, transcript: seq<Reply>)

  ghost function Start(db: Db): FireSession {
    FireSession(Fire(db, [], map[]), [])
  }

  /** A nested transaction of a repository that is already in one just runs its operation. */
  ghost function FireAdvance<V>(s: FireSession, m: Move<V>): FireSession
    requires !Finishes(m)
  {
    match m
    case Call(req) =>
      var (fire, reply) := FireApply(s.fire, req);
      FireSession(fire, s.transcript + [reply])
    case Enter(_) => s.(transcript := s.transcript + [Noted])
    case Leave(_) => s.(transcript := s.transcript + [Noted])
  }

  ghost function FireRun<V>(s: FireSession, client: Client<V>, fuel: nat): (FireSession, Result<V, Error>)
    decreases fuel
  {
    var m := client(s.transcript);
    if fuel == 0 then (s, Failure(Interrupted))
    else if m.Return? then (s, Success(m.value))
    else if m.Raise? then (s, Failure(m.error))
    else FireRun(FireAdvance(s, m), client, fuel - 1)
  }

  ghost function FireTransaction<V>(db: Db, client: Client<V>, fuel: nat): (Db, Result<V, Error>) {
    var (s, result) := FireRun(Start(db), client, fuel);
    if result.Failure? then (db, result)
    else
      match Commit(s.fire.snapshot, s.fire.writes)
      case Success(d) => (d, result)
      case Failure(err) => (db, Failure(err))
  }

  /** A request that the transaction can answer without reading after a write. */
  ghost predicate Answerable(f: Fire, req: Request) {
    || f.writes == []
    || (match req
        case Get(_) => false
        case ListAll(_, _) => false
        case VersionOf(k) => k in f.versions
        case Create(_) => true
        case Save(e, _) => KeyOf(e) in f.versions
        case Delete(k, _) => k in f.versions)
  }

  lemma AnswerableExactly(f: Fire, req: Request)
    requires RequestKind(req) != Projects
    ensures FireApply(f, req).1 == Failed(ReadAfterWrite) <==> !Answerable(f, req)
  {
    hide Valid, WithVersion;
  }

  ghost predicate PortableMove<V>(s: Session, fs: FireSession, m: Move<V>) {
    match m
    case Call(req) => Portable(s.db, req) && Answerable(fs.fire, req)
    case Leave(raised) => !raised || s.stack == []
    case _ => true
  }

  /** Every move of the run: reads come first, identifiers are fresh, no nested failure is caught,
      and no project record is touched. */
  ghost predicate PortableRun<V>(s: Session, fs: FireSession, client: Client<V>, fuel: nat)
    decreases fuel
  {
    var m := client(s.transcript);
    fuel == 0 || Finishes(m) ||
    (PortableMove(s, fs, m) && PortableRun(Advance(s, m), FireAdvance(fs, m), client, fuel - 1))
  }

  ghost predicate InStep(s: Session, fs: FireSession) {
    Mirrors(fs.fire, s.db) && s.transcript == fs.transcript
  }

  lemma AdvanceInStep<V>(s: Session, fs: FireSession, m: Move<V>)
    requires InStep(s, fs) && !Finishes(m) && PortableMove(s, fs, m)
    ensures InStep(Advance(s, m), FireAdvance(fs, m))
    ensures FireAdvance(fs, m).fire.snapshot == fs.fire.snapshot
  {
    match m
    case Call(req) => {
      AnswerableExactly(fs.fire, req);
      FireMirrors(fs.fire, s.db, req);
      hide Mirrors, FireApply, Apply, Answerable, Portable;
    }
    case Enter(_) => { hide Mirrors; }
    case Leave(_) => { hide Mirrors; }
  }

  lemma {:induction false} RunInStep<V>(s: Session, fs: FireSession, client: Client<V>, fuel: nat)
    requires InStep(s, fs) && PortableRun(s, fs, client, fuel)
    ensures var (s', result) := Run(s, client, fuel);
            var (fs', fireResult) := FireRun(fs, client, fuel);
            fireResult == result && InStep(s', fs') && fs'.fire.snapshot == fs.fire.snapshot
    decreases fuel
  {
    var m := client(s.transcript);
    if fuel != 0 && !Finishes(m) {
      AdvanceInStep(s, fs, m);
      RunInStep(Advance(s, m), FireAdvance(fs, m), client, fuel - 1);
    }
  }

  /** A portable client gets the same answers and leaves the same store behind. */
  lemma FireRefinesMemory<V>(db: Db, client: Client<V>, fuel: nat)
    requires WellFormed(db) && PortableRun(Begin(db), Start(db), client, fuel)
    ensures FireTransaction(db, client, fuel) == Transaction(db, client, fuel)
    ensures FireRun(Start(db), client, fuel).0.transcript == Run(Begin(db), client, fuel).0.transcript
  {
    assert Commit(db, []) == Success(db);
    RunInStep(Begin(db), Start(db), client, fuel);
  }

  // ----- where they differ -----

  lemma CommitAppends(db: Db, writes: seq<Write>, w: Write)
    requires Commit(db, writes).Failure?
    ensures Commit(db, writes + [w]) == Commit(db, writes)
  {
    assert (writes + [w])[..|writes|] == writes;
  }

  lemma DoomedStep(f: Fire, req: Request)
    requires Commit(f.snapshot, f.writes).Failure?
    ensures var g := FireApply(f, req).0;
            g.snapshot == f.snapshot && Commit(g.snapshot, g.writes) == Commit(f.snapshot, f.writes)
  {
    forall w ensures Commit(f.snapshot, f.writes + [w]) == Commit(f.snapshot, f.writes) {
      CommitAppends(f.snapshot, f.writes, w);
    }
    hide Commit, Valid, WithVersion, DecodedPartition, PartitionVersions;
  }

  lemma {:induction false} DoomedRun<V>(s: FireSession, client: Client<V>, fuel: nat)
    requires Commit(s.fire.snapshot, s.fire.writes).Failure?
    ensures var end := FireRun(s, client, fuel).0;
            end.fire.snapshot == s.fire.snapshot
              && Commit(end.fire.snapshot, end.fire.writes) == Commit(s.fire.snapshot, s.fire.writes)
    decreases fuel
  {
    var m := client(s.transcript);
    if fuel != 0 && !Finishes(m) {
      if m.Call? { DoomedStep(s.fire, m.request); }
      DoomedRun(FireAdvance(s, m), client, fuel - 1);
    }
  }

  /** An accepted creation dooms the commit exactly when its identifier is in use; whatever the client
      does afterwards, the commit then fails with "already exists". */
  lemma CollisionIsFoundAtCommit<V>(s: FireSession, db: Db, e: Entity, client: Client<V>, fuel: nat)
    requires Commit(s.fire.snapshot, s.fire.writes) == Success(db)
    requires FireApply(s.fire, Create(e)).1 == Stored(e)
    ensures var next := FireAdvance(s, Move<V>.Call(Create(e)));
            var end := FireRun(next, client, fuel).0;
            && (Commit(next.fire.snapshot, next.fire.writes).Success? <==> KeyOf(e) !in db)
            && (KeyOf(e) in db ==> Commit(end.fire.snapshot, end.fire.writes) == Failure(EntityAlreadyExists))
  {
    hide Valid;
    var next := FireAdvance(s, Move<V>.Call(Create(e)));
    assert next.fire.writes == s.fire.writes + [Put(e, 0, true)];
    CommitSnoc(s.fire.snapshot, s.fire.writes, Put(e, 0, true));
    if KeyOf(e) in db {
      DoomedRun(next, client, fuel);
    }
  }

  /** The first of two saves: its document is written with the next version, or without one for a project. */
  lemma FirstSaveCommits(db: Db, e: Entity, v: int)
    requires FireApply(Start(db).fire, Save(e, Some(v))).1.Stored?
    ensures KeyOf(e) in db && db[KeyOf(e)].version == v && !MisplacedProject(KeyOf(e))
    ensures var after := Commit(db, FireApply(Start(db).fire, Save(e, Some(v))).0.writes);
            && after.Success? && KeyOf(e) in after.value
            && after.value[KeyOf(e)].version == if KindOf(e) == Projects then 0 else v + 1
  {
    hide Valid, KeyOf, KindOf, WithVersion, MisplacedProject, Commit;
    WithVersionKeepsPlace(e, v + 1);
    CommitAlone(db, WithVersion(e, v + 1), v + 1);
    assert FireApply(Start(db).fire, Save(e, Some(v))).0.writes == [Put(WithVersion(e, v + 1), v + 1, false)];
  }

  lemma CommitAlone(db: Db, e: Entity, v: nat)
    ensures Commit(db, [Put(e, v, false)]) == Success(db[KeyOf(e) := Record(e, DocumentVersion(e, v))])
  {
    hide KeyOf, DocumentVersion;
    assert [Put(e, v, false)][..0] == [];
    assert Commit(db, []) == Success(db);
  }

  lemma SaveInNewTransaction(db: Db, e: Entity, v: int)
    requires KeyOf(e) in db && !MisplacedProject(KeyOf(e)) && Valid(WithVersion(e, v + 1))
    ensures var reply := FireApply(Start(db).fire, Save(e, Some(v))).1;
            if db[KeyOf(e)].version == v then reply.Stored? else reply == Failed(VersionConflict)
  {
    hide Valid, KeyOf, WithVersion, MisplacedProject;
  }

  /** Of two saves of one record against the same version, in two transactions, the second is refused exactly
      when the record is no project or the version is not 0; otherwise both are accepted. */
  lemma SecondSaveExactly(db: Db, first: Entity, second: Entity, v: int)
    requires KeyOf(first) == KeyOf(second) && Valid(WithVersion(second, v + 1))
    requires FireApply(Start(db).fire, Save(first, Some(v))).1.Stored?
    ensures var after := Commit(db, FireApply(Start(db).fire, Save(first, Some(v))).0.writes);
            && after.Success?
            && var reply := FireApply(Start(after.value).fire, Save(second, Some(v))).1;
               && (reply == Failed(VersionConflict) <==> KindOf(first) != Projects || v != 0)
               && (reply.Stored? <==> KindOf(first) == Projects && v == 0)
  {
    hide FireApply, Commit, Valid, KeyOf, KindOf, WithVersion, MisplacedProject;
    FirstSaveCommits(db, first, v);
    SaveInNewTransaction(Commit(db, FireApply(Start(db).fire, Save(first, Some(v))).0.writes).value, second, v);
  }

  /** Project documents carry no version, so two saves of one project against version 0, in two
      transactions, are both accepted; the simple store refuses the second. */
  lemma ProjectSavesNeverConflict(db: Db, p: string, first: string, second: string)
    requires Key(Projects, p, p) in db && db[Key(Projects, p, p)].version == 0
    ensures var save1, save2 := Save(ProjectEntity(p, first), Some(0)), Save(ProjectEntity(p, second), Some(0));
            var (f1, reply1) := FireApply(Start(db).fire, save1);
            var after := Commit(db, f1.writes);
            && reply1.Stored? && after.Success?
            && FireApply(Start(after.value).fire, save2).1.Stored?
            && Apply(Apply(db, save1).0, save2).1 == Failed(VersionConflict)
  {
    SaveInNewTransaction(db, ProjectEntity(p, first), 0);
    SecondSaveExactly(db, ProjectEntity(p, first), ProjectEntity(p, second), 0);
  }

  /** A caught failure of a nested single-collection transaction: Firestore keeps the nested writes, so
      the two stay in step exactly when there were none. */
  lemma NestedFailureDiffers<V>(s: Session, fs: FireSession)
    requires InStep(s, fs) && s.stack != []
    requires forall k | k in s.stack[|s.stack| - 1].saved :: k.kind == s.stack[|s.stack| - 1].kind
    ensures var top := s.stack[|s.stack| - 1];
            InStep(Advance(s, Move<V>.Leave(true)), FireAdvance(fs, Move<V>.Leave(true))) <==>
              OfKind(s.db, top.kind) == top.saved
  {
    var top := s.stack[|s.stack| - 1];
    RestoreKinds(s.db, top.kind, top.saved);
    if OfKind(s.db, top.kind) == top.saved {
      EqualByKinds(Restore(s.db, top.kind, top.saved), s.db);
    }
  }
}
