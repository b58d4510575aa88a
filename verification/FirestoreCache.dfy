/** The Firestore repository inside one transaction: a fixed read snapshot, buffered writes and a
    version cache shared by every repository of the transaction. */
module FirestoreCache {
  import opened Foundations
  import opened Models
  import opened Repository

  /** A buffered write; a `mustBeNew` one fails the commit when the document exists by then. */
  datatype Write =
    | Put(entity: Entity, version: nat, mustBeNew: bool)
    | Erase(key: Key)

  type Versions = map<Key, nat>

  datatype Fire = Fire(snapshot: Db, writes: seq<Write>, versions: Versions)

  /** The version a document carries; project documents are written without one and read as 0. */
  function DocumentVersion(e: Entity, version: nat): nat {
    if KindOf(e) == Projects then 0 else version
  }

  /** A stored document as a record of its type: a version field takes the document's version. */
  function Decoded(r: Record): Entity {
    WithVersion(r.entity, r.version)
  }

  /** The buffered writes, applied in order, all of them or none. */
  function Commit(db: Db, writes: seq<Write>): Result<Db, Error> {
    if writes == [] then Success(db)
    else
      match Commit(db, writes[..|writes| - 1])
      case Failure(err) => Failure(err)
      case Success(d) =>
        match writes[|writes| - 1]
        case Put(e, v, mustBeNew) =>
          if mustBeNew && KeyOf(e) in d then Failure(EntityAlreadyExists)
          else Success(d[KeyOf(e) := Record(e, DocumentVersion(e, v))])
        case Erase(k) => Success(d - {k})
  }

  predicate MisplacedProject(k: Key) {
    k.kind == Projects && k.id != k.project
  }

  /** A read of one document through the transaction.  The client library refuses reads after a write. */
  function Fetch(f: Fire, k: Key): Result<Option<Record>, Error> {
    if MisplacedProject(k) then Failure(EntityNotFound)
    else if f.writes != [] then Failure(ReadAfterWrite)
    else Success(if k in f.snapshot then Some(f.snapshot[k]) else None)
  }

  function Remember(f: Fire, k: Key, version: nat): Fire {
    f.(versions := f.versions[k := version])
  }

  function PartitionVersions(db: Db, kind: Kind, project: string): Versions {
    map k | k in db && k.kind == kind && k.project == project :: db[k].version
  }

  function DecodedPartition(db: Db, kind: Kind, project: string): seq<Entity> {
    var records := EntitiesIn(db, kind, project);
    seq(|records|, i requires 0 <= i < |records| =>
      var k := Key(kind, project, IdOf(records[i]));
      if k in db then Decoded(db[k]) else records[i])
  }

  /** The cached version of a document, or the one read and cached now. */
  function CurrentVersion(f: Fire, k: Key): (Fire, Result<Option<nat>, Error>) {
    if MisplacedProject(k) then (f, Failure(EntityNotFound))
    else if k in f.versions then (f, Success(Some(f.versions[k])))
    else
      match Fetch(f, k)
      case Failure(err) => (f, Failure(err))
      case Success(None) => (f, Success(None))
      case Success(Some(record)) => (Remember(f, k, record.version), Success(Some(record.version)))
  }

  function FireGet(f: Fire, k: Key): (Fire, Reply) {
    match Fetch(f, k)
    case Failure(err) => (f, Failed(err))
    case Success(None) => (f, Found(None))
    case Success(Some(record)) => (Remember(f, k, record.version), Found(Some(Decoded(record))))
  }

  function FireList(f: Fire, kind: Kind, project: string): (Fire, Reply) {
    if f.writes != [] then (f, Failed(ReadAfterWrite))
    else (f.(versions := f.versions + PartitionVersions(f.snapshot, kind, project)),
          Listed(DecodedPartition(f.snapshot, kind, project)))
  }

  function FireVersionOf(f: Fire, k: Key): (Fire, Reply) {
    var (g, current) := CurrentVersion(f, k);
    (g, match current case Success(v) => Versioned(v) case Failure(err) => Failed(err))
  }

  function FireCreate(f: Fire, e: Entity): (Fire, Reply) {
    if KindOf(e) == Projects then (f, Failed(UnsupportedOperation))
    else if !Valid(e) then (f, Failed(ValidationFailed))
    else if VersionField(e).Some? && VersionField(e).value != 0 then (f, Failed(VersionConflict))
    else (Remember(f.(writes := f.writes + [Put(e, 0, true)]), KeyOf(e), 0), Stored(e))
  }

  /** A save once the current version is known. */
  function SaveOver(f: Fire, e: Entity, expected: Option<int>, version: nat): (Fire, Reply) {
    if !VersionMatches(expected, version) then (f, Failed(VersionConflict))
    else
      var updated := WithVersion(e, version + 1);
      if !Valid(updated) then (f, Failed(ValidationFailed))
      else (Remember(f.(writes := f.writes + [Put(updated, version + 1, false)]), KeyOf(e), version + 1),
            Stored(updated))
  }

  function FireSave(f: Fire, e: Entity, expected: Option<int>): (Fire, Reply) {
    var (g, current) := CurrentVersion(f, KeyOf(e));
    match current
    case Failure(err) => (g, Failed(err))
    case Success(None) => (g, Failed(EntityNotFound))
    case Success(Some(version)) => SaveOver(g, e, expected, version)
  }

  function FireDelete(f: Fire, k: Key, expected: Option<int>): (Fire, Reply) {
    var (g, current) := CurrentVersion(f, k);
    match current
    case Failure(err) => (g, Failed(err))
    case Success(None) => (g, Failed(EntityNotFound))
    case Success(Some(version)) =>
      if !VersionMatches(expected, version) then (g, Failed(VersionConflict))
      else (g.(writes := g.writes + [Erase(k)], versions := g.versions - {k}), Removed)
  }

  function FireApply(f: Fire, req: Request): (Fire, Reply) {
    match req
    case Get(k) => FireGet(f, k)
    case ListAll(kind, p) => FireList(f, kind, p)
    case VersionOf(k) => FireVersionOf(f, k)
    case Create(e) => FireCreate(f, e)
    case Save(e, v) => FireSave(f, e, v)
    case Delete(k, v) => FireDelete(f, k, v)
  }

  // ----- one request against the simple store -----

  /** What the transaction has read and buffered stands for the store `db`: committing gives it, and
      every cached version is the version there. */
  ghost predicate Mirrors(f: Fire, db: Db) {
    && WellFormed(f.snapshot)
    && Commit(f.snapshot, f.writes) == Success(db)
    && forall k | k in f.versions :: k in db && f.versions[k] == db[k].version
  }

  /** A request on which the two repositories must agree: no project record, no identifier in use. */
  ghost predicate Portable(db: Db, req: Request) {
    RequestKind(req) != Projects && (req.Create? ==> KeyOf(req.entity) !in db)
  }

  lemma CommitSnoc(db: Db, writes: seq<Write>, w: Write)
    requires Commit(db, writes).Success?
    ensures Commit(db, writes + [w]) == Commit(Commit(db, writes).value, [w])
  {
    assert (writes + [w])[..|writes|] == writes;
    assert [w][..0] == [];
  }

  lemma DecodedIsStored(db: Db, k: Key)
    requires WellFormed(db) && k in db
    ensures Decoded(db[k]) == db[k].entity
  {
  }

  lemma DecodedPartitionIsStored(db: Db, kind: Kind, project: string)
    requires WellFormed(db)
    ensures DecodedPartition(db, kind, project) == EntitiesIn(db, kind, project)
  {
    hide WellFormed, EntitiesIn, Decoded;
    var records := EntitiesIn(db, kind, project);
    forall i | 0 <= i < |records| ensures DecodedPartition(db, kind, project)[i] == records[i] {
      var k := Key(kind, project, IdOf(records[i]));
      if k in db {
        EntitiesAt(db, kind, project, i);
        DecodedIsStored(db, k);
      }
    }
  }

  lemma EntitiesAt(db: Db, kind: Kind, project: string, i: nat)
    requires WellFormed(db) && i < |EntitiesIn(db, kind, project)|
    ensures var k := Key(kind, project, IdOf(EntitiesIn(db, kind, project)[i]));
            k in db && db[k].entity == EntitiesIn(db, kind, project)[i]
  {
    var ids := Ordering.SortedIds(IdsIn(db, kind, project));
    assert ids[i] in ids;
  }

  lemma CurrentVersionMirrors(f: Fire, db: Db, k: Key)
    requires Mirrors(f, db) && k.kind != Projects
    ensures var (g, current) := CurrentVersion(f, k);
            && Mirrors(g, db) && g.snapshot == f.snapshot && g.writes == f.writes
            && (current.Failure? ==> current.error == ReadAfterWrite)
            && (current.Success? ==> current.value == if k in db then Some(db[k].version) else None)
  {
    hide WellFormed;
  }

  lemma PutMirrors(f: Fire, db: Db, e: Entity, version: nat)
    requires Mirrors(f, db) && KindOf(e) != Projects
    ensures Mirrors(Remember(f.(writes := f.writes + [Put(e, version, false)]), KeyOf(e), version),
                    db[KeyOf(e) := Record(e, version)])
  {
    hide WellFormed, KeyOf;
    CommitSnoc(f.snapshot, f.writes, Put(e, version, false));
  }

  /** The simple store's save of a record it has. */
  lemma SaveOfStored(db: Db, e: Entity, expected: Option<int>, version: nat, updated: Entity)
    requires KeyOf(e) in db && version == db[KeyOf(e)].version && updated == WithVersion(e, version + 1)
    ensures Apply(db, Save(e, expected)) ==
            if !VersionMatches(expected, version) then (db, Failed(VersionConflict))
            else if !Valid(updated) then (db, Failed(ValidationFailed))
            else (db[KeyOf(e) := Record(updated, version + 1)], Stored(updated))
  {
    hide Valid, WithVersion, KeyOf;
  }

  lemma WithVersionKeepsPlace(e: Entity, version: int)
    ensures KeyOf(WithVersion(e, version)) == KeyOf(e) && KindOf(WithVersion(e, version)) == KindOf(e)
  {
    assert KeyOf(WithVersion(e, version)).kind == KeyOf(e).kind;
  }

  lemma SaveOverMirrors(f: Fire, db: Db, e: Entity, expected: Option<int>)
    requires Mirrors(f, db) && KindOf(e) != Projects && KeyOf(e) in db
    ensures var (g, reply) := SaveOver(f, e, expected, db[KeyOf(e)].version);
            g.snapshot == f.snapshot && reply == Apply(db, Save(e, expected)).1
              && Mirrors(g, Apply(db, Save(e, expected)).0)
  {
    hide Mirrors, WellFormed, Valid, WithVersion, KeyOf, KindOf, VersionField, Apply;
    var version := db[KeyOf(e)].version;
    var updated := WithVersion(e, version + 1);
    WithVersionKeepsPlace(e, version + 1);
    SaveOfStored(db, e, expected, version, updated);
    if VersionMatches(expected, version) && Valid(updated) {
      PutMirrors(f, db, updated, version + 1);
    }
  }

  lemma SaveMirrors(f: Fire, db: Db, e: Entity, expected: Option<int>)
    requires Mirrors(f, db) && KindOf(e) != Projects
    ensures var (g, reply) := FireSave(f, e, expected);
            reply != Failed(ReadAfterWrite) ==>
              (g.snapshot == f.snapshot && reply == Apply(db, Save(e, expected)).1
               && Mirrors(g, Apply(db, Save(e, expected)).0))
  {
    assert KeyOf(e).kind != Projects;
    hide Mirrors, WellFormed, CurrentVersion, Valid, WithVersion, KeyOf, KindOf, VersionField, SaveOver;
    CurrentVersionMirrors(f, db, KeyOf(e));
    if KeyOf(e) in db {
      SaveOverMirrors(CurrentVersion(f, KeyOf(e)).0, db, e, expected);
    }
  }

  lemma EraseMirrors(f: Fire, db: Db, k: Key)
    requires Mirrors(f, db)
    ensures Mirrors(f.(writes := f.writes + [Erase(k)], versions := f.versions - {k}), db - {k})
  {
    hide WellFormed;
    CommitSnoc(f.snapshot, f.writes, Erase(k));
  }

  lemma DeleteMirrors(f: Fire, db: Db, k: Key, expected: Option<int>)
    requires Mirrors(f, db) && k.kind != Projects
    ensures var (g, reply) := FireDelete(f, k, expected);
            reply != Failed(ReadAfterWrite) ==>
              (g.snapshot == f.snapshot && reply == Apply(db, Delete(k, expected)).1
               && Mirrors(g, Apply(db, Delete(k, expected)).0))
  {
    hide Mirrors, CurrentVersion;
    CurrentVersionMirrors(f, db, k);
    var (g, current) := CurrentVersion(f, k);
    if current.Failure? {
    } else if current.value.None? {
    } else {
      EraseMirrors(g, db, k);
    }
  }

  lemma CreateMirrors(f: Fire, db: Db, e: Entity)
    requires Mirrors(f, db) && KindOf(e) != Projects && KeyOf(e) !in db
    ensures var (g, reply) := FireCreate(f, e);
            g.snapshot == f.snapshot && reply == Apply(db, Create(e)).1 && Mirrors(g, Apply(db, Create(e)).0)
  {
    hide WellFormed, Valid, VersionField, KeyOf;
    CommitSnoc(f.snapshot, f.writes, Put(e, 0, true));
  }

  lemma GetMirrors(f: Fire, db: Db, k: Key)
    requires Mirrors(f, db) && k.kind != Projects
    ensures var (g, reply) := FireGet(f, k);
            reply != Failed(ReadAfterWrite) ==>
              (g.snapshot == f.snapshot && reply == Found(Read(db, k)) && Mirrors(g, db))
  {
    hide WellFormed, Decoded;
    if k in f.snapshot {
      DecodedIsStored(f.snapshot, k);
    }
  }

  lemma ListMirrors(f: Fire, db: Db, kind: Kind, project: string)
    requires Mirrors(f, db)
    ensures var (g, reply) := FireList(f, kind, project);
            reply != Failed(ReadAfterWrite) ==>
              (g.snapshot == f.snapshot && reply == Listed(EntitiesIn(db, kind, project)) && Mirrors(g, db))
  {
    hide WellFormed, DecodedPartition, EntitiesIn;
    DecodedPartitionIsStored(f.snapshot, kind, project);
  }

  lemma VersionMirrors(f: Fire, db: Db, k: Key)
    requires Mirrors(f, db) && k.kind != Projects
    ensures var (g, reply) := FireVersionOf(f, k);
            reply != Failed(ReadAfterWrite) ==>
              (g.snapshot == f.snapshot && Mirrors(g, db)
               && reply == Versioned(if k in db then Some(db[k].version) else None))
  {
    hide Mirrors, CurrentVersion;
    CurrentVersionMirrors(f, db, k);
    match CurrentVersion(f, k).1 {
      case Success(version) => assert version == if k in db then Some(db[k].version) else None;
      case Failure(error) => assert error == ReadAfterWrite;
    }
  }

  lemma ReadMirrors(f: Fire, db: Db, req: Request)
    requires Mirrors(f, db) && RequestKind(req) != Projects && !IsWrite(req)
    ensures var (g, reply) := FireApply(f, req);
            reply != Failed(ReadAfterWrite) ==>
              (g.snapshot == f.snapshot && reply == Apply(db, req).1 && Mirrors(g, db))
  {
    hide Mirrors, FireGet, FireList, FireVersionOf, EntitiesIn;
    match req
    case Get(k) => GetMirrors(f, db, k);
    case ListAll(kind, p) => ListMirrors(f, db, kind, p);
    case VersionOf(k) => VersionMirrors(f, db, k);
  }

  /** Every portable request is answered as the simple store answers it, unless it would read after a write. */
  lemma FireMirrors(f: Fire, db: Db, req: Request)
    requires Mirrors(f, db) && Portable(db, req)
    ensures var (g, reply) := FireApply(f, req);
            reply != Failed(ReadAfterWrite) ==>
              (g.snapshot == f.snapshot && reply == Apply(db, req).1 && Mirrors(g, Apply(db, req).0))
  {
    match req
    case Create(e) => { hide Mirrors, FireCreate; CreateMirrors(f, db, e); }
    case Save(e, v) => { hide Mirrors, FireSave; SaveMirrors(f, db, e, v); }
    case Delete(k, v) => { hide Mirrors, FireDelete; DeleteMirrors(f, db, k, v); }
    case _ => { hide Mirrors, FireGet, FireList, FireVersionOf; ReadMirrors(f, db, req); }
  }
}
