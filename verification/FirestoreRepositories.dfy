/** The Firestore repositories of one transaction: objects over one shared buffer of writes and one
    shared dictionary of versions. */
module FirestoreRepositories {
  import opened Foundations
  import opened Models
  import opened Repository
  import opened Sessions
  import opened FirestoreCache
  import opened FirestoreTransactions

  class FirestoreTransaction {
    const snapshot: Db
    var writes: seq<Write>

    constructor (snapshot: Db)
      ensures this.snapshot == snapshot && writes == []
    {
      this.snapshot := snapshot;
      writes := [];
    }
  }

  class ReadVersions {
    var entries: Versions

    constructor ()
      ensures entries == map[]
    {
      entries := map[];
    }
  }

  class FirestoreRepository {
    const kind: Kind
    const transaction: FirestoreTransaction
    const readVersions: ReadVersions

    constructor (kind: Kind, transaction: FirestoreTransaction, readVersions: ReadVersions)
      ensures this.kind == kind && this.transaction == transaction && this.readVersions == readVersions
    {
      this.kind := kind;
      this.transaction := transaction;
      this.readVersions := readVersions;
    }

    ghost function State(): Fire
      reads transaction, readVersions
    {
      Fire(transaction.snapshot, transaction.writes, readVersions.entries)
    }

    method Read(k: Key) returns (snapshot: Result<Option<Record>, Error>)
      ensures snapshot == Fetch(State(), k)
    {
      if MisplacedProject(k) {
        return Failure(EntityNotFound);
      }
      if transaction.writes != [] {
        return Failure(ReadAfterWrite);
      }
      snapshot := Success(if k in transaction.snapshot then Some(transaction.snapshot[k]) else None);
    }

    /** The version a write or `version_of` works with: cached, or read and cached. */
    method Current(k: Key) returns (version: Result<Option<nat>, Error>)
      modifies readVersions
      ensures (State(), version) == CurrentVersion(old(State()), k)
    {
      if MisplacedProject(k) {
        return Failure(EntityNotFound);
      }
      if k in readVersions.entries {
        return Success(Some(readVersions.entries[k]));
      }
      var snapshot := Read(k);
      match snapshot {
        case Failure(err) => return Failure(err);
        case Success(None) => return Success(None);
        case Success(Some(record)) =>
          readVersions.entries := readVersions.entries[k := record.version];
          return Success(Some(record.version));
      }
    }

    method Get(project: string, id: string) returns (reply: Reply)
      modifies readVersions
      ensures (State(), reply) == FireGet(old(State()), Key(kind, project, id))
    {
      var k := Key(kind, project, id);
      var snapshot := Read(k);
      match snapshot {
        case Failure(err) => return Failed(err);
        case Success(None) => return Found(None);
        case Success(Some(record)) =>
          readVersions.entries := readVersions.entries[k := record.version];
          return Found(Some(Decoded(record)));
      }
    }

    method List(project: string) returns (reply: Reply)
      modifies readVersions
      ensures (State(), reply) == FireList(old(State()), kind, project)
    {
      if transaction.writes != [] {
        return Failed(ReadAfterWrite);
      }
      readVersions.entries := readVersions.entries + PartitionVersions(transaction.snapshot, kind, project);
      reply := Listed(DecodedPartition(transaction.snapshot, kind, project));
    }

    method VersionOf(project: string, id: string) returns (reply: Reply)
      modifies readVersions
      ensures (State(), reply) == FireVersionOf(old(State()), Key(kind, project, id))
    {
      var version := Current(Key(kind, project, id));
      reply := match version case Success(v) => Versioned(v) case Failure(err) => Failed(err);
    }

    method Create(e: Entity) returns (reply: Reply)
      requires KindOf(e) == kind
      modifies transaction, readVersions
      ensures (State(), reply) == FireCreate(old(State()), e)
    {
      if kind == Projects {
        return Failed(UnsupportedOperation);
      }
      if !Valid(e) {
        return Failed(ValidationFailed);
      }
      if VersionField(e).Some? && VersionField(e).value != 0 {
        return Failed(VersionConflict);
      }
      transaction.writes := transaction.writes + [Put(e, 0, true)];
      readVersions.entries := readVersions.entries[KeyOf(e) := 0];
      reply := Stored(e);
    }

    method Save(e: Entity, expected: Option<int>) returns (reply: Reply)
      requires KindOf(e) == kind
      modifies transaction, readVersions
      ensures (State(), reply) == FireSave(old(State()), e, expected)
    {
      hide Valid, KindOf, KeyOf, WithVersion, CurrentVersion;
      var current := Current(KeyOf(e));
      if current.Failure? {
        return Failed(current.error);
      }
      if current.value.None? {
        return Failed(EntityNotFound);
      }
      var version := current.value.value;
      if !VersionMatches(expected, version) {
        return Failed(VersionConflict);
      }
      var updated := WithVersion(e, version + 1);
      if !Valid(updated) {
        return Failed(ValidationFailed);
      }
      transaction.writes := transaction.writes + [Put(updated, version + 1, false)];
      readVersions.entries := readVersions.entries[KeyOf(e) := version + 1];
      reply := Stored(updated);
    }

    method Delete(project: string, id: string, expected: Option<int>) returns (reply: Reply)
      modifies transaction, readVersions
      ensures (State(), reply) == FireDelete(old(State()), Key(kind, project, id), expected)
    {
      hide CurrentVersion;
      var k := Key(kind, project, id);
      var current := Current(k);
      if current.Failure? {
        return Failed(current.error);
      }
      if current.value.None? {
        return Failed(EntityNotFound);
      }
      if !VersionMatches(expected, current.value.value) {
        return Failed(VersionConflict);
      }
      transaction.writes := transaction.writes + [Erase(k)];
      readVersions.entries := readVersions.entries - {k};
      reply := Removed;
    }
  }

  /** Hands out one repository per entity type, all over the same transaction and the same dictionary. */
  class FirestoreRepositoryStore {
    const transaction: FirestoreTransaction
    const readVersions: ReadVersions

    constructor (snapshot: Db)
      ensures transaction.snapshot == snapshot && transaction.writes == [] && readVersions.entries == map[]
      ensures fresh(transaction) && fresh(readVersions)
    {
      transaction := new FirestoreTransaction(snapshot);
      readVersions := new ReadVersions();
    }

    ghost function State(): Fire
      reads transaction, readVersions
    {
      Fire(transaction.snapshot, transaction.writes, readVersions.entries)
    }

    method Repository(kind: Kind) returns (r: FirestoreRepository)
      ensures fresh(r) && r.kind == kind && r.transaction == transaction && r.readVersions == readVersions
    {
      r := new FirestoreRepository(kind, transaction, readVersions);
    }

    /** One request, served by the repository of its entity type. */
    method Perform(req: Request) returns (reply: Reply)
      modifies transaction, readVersions
      ensures (State(), reply) == FireApply(old(State()), req)
    {
      hide FireGet, FireList, FireVersionOf, FireCreate, FireSave, FireDelete;
      var r := Repository(RequestKind(req));
      match req {
        case Get(k) => reply := r.Get(k.project, k.id);
        case ListAll(_, p) => reply := r.List(p);
        case VersionOf(k) => reply := r.VersionOf(k.project, k.id);
        case Create(e) => reply := r.Create(e);
        case Save(e, v) => reply := r.Save(e, v);
        case Delete(k, v) => reply := r.Delete(k.project, k.id, v);
      }
    }
  }

  /** The documents themselves; a commit applies all of a transaction's writes or none. */
  class FirestoreDatabase {
    var documents: Db

    constructor (documents: Db)
      ensures this.documents == documents
    {
      this.documents := documents;
    }

    method CommitWrites(writes: seq<Write>) returns (failure: Option<Error>)
      modifies this
      ensures match Commit(old(documents), writes)
              case Success(db) => failure == None && documents == db
              case Failure(error) => failure == Some(error) && documents == old(documents)
    {
      hide KeyOf, KindOf;
      var db := documents;
      for i := 0 to |writes|
        invariant documents == old(documents) && Commit(documents, writes[..i]) == Success(db)
      {
        assert writes[..i + 1][..i] == writes[..i];
        match writes[i] {
          case Put(e, version, mustBeNew) =>
            if mustBeNew && KeyOf(e) in db {
              CommitStaysFailed(documents, writes, i + 1);
              return Some(EntityAlreadyExists);
            }
            db := db[KeyOf(e) := Record(e, DocumentVersion(e, version))];
          case Erase(k) =>
            db := db - {k};
        }
      }
      assert writes[..|writes|] == writes;
      documents := db;
      failure := None;
    }

    /** `run_transaction`: for every client, the repositories over the shared buffer and dictionary give the
        value-level Firestore transaction, and for a portable client the transaction of the simple store. */
    method RunTransaction<V>(client: Client<V>, fuel: nat) returns (result: Result<V, Error>)
      modifies this
      ensures (documents, result) == FireTransaction(old(documents), client, fuel)
      ensures WellFormed(old(documents)) && PortableRun(Begin(old(documents)), Start(old(documents)), client, fuel) ==>
                (documents, result) == Transaction(old(documents), client, fuel)
    {
      hide FireApply, Commit, WellFormed, PortableRun, Run;
      ghost var db := documents;
      result := RunClient(client, fuel);
      if WellFormed(db) && PortableRun(Begin(db), Start(db), client, fuel) {
        FireRefinesMemory(db, client, fuel);
      }
    }

    method RunClient<V>(client: Client<V>, fuel: nat) returns (result: Result<V, Error>)
      modifies this
      ensures (documents, result) == FireTransaction(old(documents), client, fuel)
    {
      hide FireApply, Commit;
      var session := new FirestoreRepositoryStore(documents);
      var transcript: seq<Reply> := [];
      var left := fuel;
      while left > 0
        invariant documents == old(documents) && session.transaction.snapshot == documents
        invariant fresh(session.transaction) && fresh(session.readVersions)
        invariant FireRun(Start(documents), client, fuel) ==
                  FireRun(FireSession(session.State(), transcript), client, left)
      {
        var m := client(transcript);
        match m {
          case Return(value) =>
            var failure := CommitWrites(session.transaction.writes);
            return if failure.Some? then Failure(failure.value) else Success(value);
          case Raise(error) =>
            return Failure(error);
          case Call(req) =>
            var reply := session.Perform(req);
            transcript := transcript + [reply];
          case _ =>
            transcript := transcript + [Noted];
        }
        left := left - 1;
      }
      result := Failure(Interrupted);
    }
  }

  lemma {:induction false} CommitStaysFailed(db: Db, writes: seq<Write>, n: nat)
    requires n <= |writes| && Commit(db, writes[..n]).Failure?
    ensures Commit(db, writes) == Commit(db, writes[..n])
    decreases |writes| - n
  {
    if n == |writes| {
      assert writes[..n] == writes;
    } else {
      assert writes[..n + 1] == writes[..n] + [writes[n]];
      CommitAppends(db, writes[..n], writes[n]);
      CommitStaysFailed(db, writes, n + 1);
    }
  }
}
