/** Two clients, as concrete programs, for which a Firestore transaction and the simple store differ. */
module FirestoreExamples {
  import opened Examples
  import opened Foundations
  import opened Models
  import opened Repository
  import opened Sessions
  import opened FirestoreCache
  import opened FirestoreTransactions

  const TASKS := Other("tasks")

  const TASK: Entity := OtherEntity("tasks", PROJECT, "ta_000", None, "")

  const TASK_KEY := Key(TASKS, PROJECT, "ta_000")

  /** Creates the task, ignores the answer and returns. */
  function CreateBlindly(): Client<int> {
    transcript => if transcript == [] then Call(Create(TASK)) else Return(0)
  }

  /** Creates the task in a nested transaction that fails, catches the failure and returns. */
  function CreateNested(): Client<int> {
    transcript =>
      if |transcript| == 0 then Enter(TASKS)
      else if |transcript| == 1 then Call(Create(TASK))
      else if |transcript| == 2 then Leave(true)
      else Return(0)
  }

  function StoredTask(): Db {
    map[TASK_KEY := Record(TASK, 0)]
  }

  lemma TaskFits()
    ensures KeyOf(TASK) == TASK_KEY && Valid(TASK) && VersionField(TASK).None? && KindOf(TASK) == TASKS
  {
  }

  lemma CommitOne(db: Db)
    ensures Commit(db, [Put(TASK, 0, true)]) ==
            if TASK_KEY in db then Failure(EntityAlreadyExists) else Success(db[TASK_KEY := Record(TASK, 0)])
  {
    TaskFits();
    assert [Put(TASK, 0, true)][..0] == [];
    assert Commit(db, []) == Success(db);
  }

  lemma FireCreates(db: Db)
    ensures FireApply(Start(db).fire, Create(TASK)) ==
            (Fire(db, [Put(TASK, 0, true)], map[TASK_KEY := 0]), Stored(TASK))
  {
    TaskFits();
    assert [] + [Put(TASK, 0, true)] == [Put(TASK, 0, true)];
  }

  /** The identifier is in use: in memory the client returns normally, in Firestore the transaction fails. */
  lemma CollisionExample()
    ensures Transaction(StoredTask(), CreateBlindly(), 2) == (StoredTask(), Success(0))
    ensures FireTransaction(StoredTask(), CreateBlindly(), 2) == (StoredTask(), Failure(EntityAlreadyExists))
  {
    hide FireApply, Commit, Valid, KindOf, VersionField;
    TaskFits();
    CommitOne(StoredTask());
    FireCreates(StoredTask());
    var client, db := CreateBlindly(), StoredTask();
    assert Apply(db, Create(TASK)) == (db, Failed(EntityAlreadyExists));
    var s := Advance(Begin(db), client([]));
    assert Run(Begin(db), client, 2) == Run(s, client, 1);
    var f := FireAdvance(Start(db), client([]));
    assert FireRun(Start(db), client, 2) == FireRun(f, client, 1);
  }

  /** The nested failure is caught: in memory its creation is undone, in Firestore it is committed. */
  lemma NestedFailureExample()
    ensures Transaction(map[], CreateNested(), 4) == (map[], Success(0))
    ensures FireTransaction(map[], CreateNested(), 4) == (StoredTask(), Success(0))
  {
    NestedInMemory();
    NestedInFirestore();
  }

  lemma NestedInMemory()
    ensures Transaction(map[], CreateNested(), 4) == (map[], Success(0))
  {
    hide Advance;
    NestedSteps();
    var client := CreateNested();
    var s0 := Begin(map[]);
    var s1 := Advance(s0, client(s0.transcript));
    var s2 := Advance(s1, client(s1.transcript));
    var s3 := Advance(s2, client(s2.transcript));
    assert Run(s0, client, 4) == Run(s1, client, 3) == Run(s2, client, 2) == Run(s3, client, 1);
  }

  lemma NestedSteps()
    ensures var s1 := Advance(Begin(map[]), Move<int>.Enter(TASKS));
            var s2 := Advance(s1, Move<int>.Call(Create(TASK)));
            var s3 := Advance(s2, Move<int>.Leave(true));
            && |s1.transcript| == 1 && |s2.transcript| == 2 && |s3.transcript| == 3 && s3.db == map[]
  {
    hide KindOf, VersionField, KeyOf, Valid;
    TaskFits();
    var s1 := Advance(Begin(map[]), Move<int>.Enter(TASKS));
    var s2 := Advance(s1, Move<int>.Call(Create(TASK)));
    assert s2.db == StoredTask() && s2.stack == [Frame(TASKS, OfKind(map[], TASKS))];
    assert Restore(StoredTask(), TASKS, OfKind(map[], TASKS)) == map[];
  }

  lemma NestedInFirestore()
    ensures FireTransaction(map[], CreateNested(), 4) == (StoredTask(), Success(0))
  {
    hide FireApply, Commit, KindOf, VersionField, KeyOf, Valid;
    var client := CreateNested();
    var f0 := Start(map[]);
    var f1 := FireAdvance(f0, client(f0.transcript));
    var f2 := FireAdvance(f1, client(f1.transcript));
    var f3 := FireAdvance(f2, client(f2.transcript));
    FireCreates(map[]);
    CommitOne(map[]);
    assert FireRun(f0, client, 4) == FireRun(f1, client, 3) == FireRun(f2, client, 2) == FireRun(f3, client, 1);
  }
}
