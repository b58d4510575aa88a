/** The repository contract on values: one request against the whole store, and what it answers. */
module Repository {
  import opened Foundations
  import opened Models
  import opened Ordering

  datatype Record = Record(entity: Entity, version: nat)

  /** Every collection of the store, flattened to one map. */
  type Db = map<Key, Record>

  datatype Request =
    | Get(key: Key)
    | ListAll(kind: Kind, project: string)
    | VersionOf(key: Key)
    | Create(entity: Entity)
    | Save(entity: Entity, expected: Option<int>)
    | Delete(key: Key, expected: Option<int>)

  datatype Reply =
    | Found(entity: Option<Entity>)
    | Listed(entities: seq<Entity>)
    | Versioned(version: Option<nat>)
    | Stored(stored: Entity)
    | Removed
    | Failed(error: Error)
    | Noted

  function RequestKind(req: Request): Kind {
    match req
    case Get(k) => k.kind
    case ListAll(kind, _) => kind
    case VersionOf(k) => k.kind
    case Create(e) => KindOf(e)
    case Save(e, _) => KindOf(e)
    case Delete(k, _) => k.kind
  }

  function RequestProject(req: Request): string {
    match req
    case Get(k) => k.project
    case ListAll(_, p) => p
    case VersionOf(k) => k.project
    case Create(e) => ProjectOf(e)
    case Save(e, _) => ProjectOf(e)
    case Delete(k, _) => k.project
  }

  predicate IsWrite(req: Request) {
    req.Create? || req.Save? || req.Delete?
  }

  function Read(db: Db, key: Key): Option<Entity> {
    if key in db then Some(db[key].entity) else None
  }

  /** The identifiers one collection holds for one project. */
  function IdsIn(db: Db, kind: Kind, project: string): set<string> {
    set k | k in db && k.kind == kind && k.project == project :: k.id
  }

  /** All records of one partition in identifier order. */
  function EntitiesIn(db: Db, kind: Kind, project: string): seq<Entity> {
    var ids := SortedIds(IdsIn(db, kind, project));
    seq(|ids|, i requires 0 <= i < |ids| => assert ids[i] in ids; db[Key(kind, project, ids[i])].entity)
  }

  predicate VersionMatches(expected: Option<int>, current: nat) {
    expected == Some(current)
  }

  function CreateIn(db: Db, e: Entity): Result<Db, Error> {
    if KeyOf(e) in db then Failure(EntityAlreadyExists)
    else if !Valid(e) then Failure(ValidationFailed)
    else if VersionField(e).Some? && VersionField(e).value != 0 then Failure(VersionConflict)
    else Success(db[KeyOf(e) := Record(e, 0)])
  }

  function SaveIn(db: Db, e: Entity, expected: Option<int>): Result<Db, Error> {
    if KeyOf(e) !in db then Failure(EntityNotFound)
    else if !VersionMatches(expected, db[KeyOf(e)].version) then Failure(VersionConflict)
    else
      var next := db[KeyOf(e)].version + 1;
      if !Valid(WithVersion(e, next)) then Failure(ValidationFailed)
      else Success(db[KeyOf(e) := Record(WithVersion(e, next), next)])
  }

  function DeleteIn(db: Db, key: Key, expected: Option<int>): Result<Db, Error> {
    if key !in db then Failure(EntityNotFound)
    else if !VersionMatches(expected, db[key].version) then Failure(VersionConflict)
    else Success(db - {key})
  }

  /** One request: the new store and the answer.  A refused request changes nothing. */
  function Apply(db: Db, req: Request): (Db, Reply) {
    match req
    case Get(k) => (db, Found(Read(db, k)))
    case ListAll(kind, p) => (db, Listed(EntitiesIn(db, kind, p)))
    case VersionOf(k) => (db, Versioned(if k in db then Some(db[k].version) else None))
    case Create(e) => (match CreateIn(db, e)
                       case Success(d) => (d, Stored(e))
                       case Failure(err) => (db, Failed(err)))
    case Save(e, v) => (match SaveIn(db, e, v)
                        case Success(d) => (d, Stored(d[KeyOf(e)].entity))
                        case Failure(err) => (db, Failed(err)))
    case Delete(k, v) => (match DeleteIn(db, k, v)
                          case Success(d) => (d, Removed)
                          case Failure(err) => (db, Failed(err)))
  }

  /** What every write keeps: records sit under their own key, valid, and agree with their version field. */
  ghost predicate WellFormed(db: Db) {
    forall k | k in db ::
      && KeyOf(db[k].entity) == k
      && Valid(db[k].entity)
      && (VersionField(db[k].entity).Some? ==> VersionField(db[k].entity).value == db[k].version)
  }

  lemma ApplyKeepsWellFormed(db: Db, req: Request)
    requires WellFormed(db)
    ensures WellFormed(Apply(db, req).0)
  {
  }

  ghost function OfKind(db: Db, kind: Kind): Db {
    map k | k in db && k.kind == kind :: db[k]
  }

  ghost function OtherKinds(db: Db, kind: Kind): Db {
    map k | k in db && k.kind != kind :: db[k]
  }

  /** Put one collection back to the records `saved` of it and leave every other collection alone. */
  ghost function Restore(db: Db, kind: Kind, saved: Db): Db {
    OtherKinds(db, kind) + saved
  }

  lemma RestoreHas(db: Db, kind: Kind, saved: Db, k: Key)
    requires forall j | j in saved :: j.kind == kind
    ensures k in Restore(db, kind, saved) <==> if k.kind == kind then k in saved else k in db
    ensures k in Restore(db, kind, saved) ==> Restore(db, kind, saved)[k] == if k.kind == kind then saved[k] else db[k]
  {
  }

  lemma SameKind(db: Db, other: Db, kind: Kind)
    requires OfKind(db, kind) == OfKind(other, kind)
    ensures forall k: Key | k.kind == kind :: (k in db <==> k in other) && (k in db ==> db[k] == other[k])
  {
    forall k: Key | k.kind == kind
      ensures (k in db <==> k in other) && (k in db ==> db[k] == other[k])
    {
      assert k in db <==> k in OfKind(db, kind);
      assert k in other <==> k in OfKind(other, kind);
    }
  }

  /** Listing a partition depends on that partition only. */
  lemma ListIsLocal(db: Db, other: Db, kind: Kind, project: string)
    requires forall k: Key | k.kind == kind && k.project == project ::
               (k in db <==> k in other) && (k in db ==> db[k] == other[k])
    ensures EntitiesIn(db, kind, project) == EntitiesIn(other, kind, project)
  {
    assert IdsIn(db, kind, project) == IdsIn(other, kind, project);
    var ids := SortedIds(IdsIn(db, kind, project));
    forall i | 0 <= i < |ids|
      ensures EntitiesIn(db, kind, project)[i] == EntitiesIn(other, kind, project)[i]
    {
      assert ids[i] in ids;
      assert Key(kind, project, ids[i]) in db;
    }
  }

  /** A request leaves every record of another collection as it was. */
  lemma ApplyKeepsOtherKinds(db: Db, req: Request, kind: Kind)
    requires kind != RequestKind(req)
    ensures OfKind(Apply(db, req).0, kind) == OfKind(db, kind)
  {
    hide Valid, WithVersion, VersionField, KindOf, ProjectOf, IdOf, EntitiesIn;
  }

  /** What a request answers, and what it makes of its own collection, depends on that collection only. */
  lemma ApplyIsLocal(db: Db, other: Db, req: Request)
    requires OfKind(db, RequestKind(req)) == OfKind(other, RequestKind(req))
    ensures Apply(db, req).1 == Apply(other, req).1
    ensures OfKind(Apply(db, req).0, RequestKind(req)) == OfKind(Apply(other, req).0, RequestKind(req))
  {
    hide Valid, WithVersion, VersionField, KindOf, ProjectOf, IdOf, EntitiesIn;
    SameKind(db, other, RequestKind(req));
    match req
    case ListAll(kind, p) => ListIsLocal(db, other, kind, p);
    case Create(e) =>
    case Save(e, v) =>
    case _ =>
  }

  /** A creation is accepted exactly for a free key, a valid record and version 0; then it reads back as given. */
  lemma CreateReadsBack(db: Db, e: Entity)
    ensures var (after, reply) := Apply(db, Create(e));
            && (!reply.Failed? <==>
                KeyOf(e) !in db && Valid(e) && (VersionField(e).Some? ==> VersionField(e).value == 0))
            && (reply.Failed? ==> after == db)
            && (!reply.Failed? ==> reply == Stored(e)
                                   && Apply(after, Get(KeyOf(e))).1 == Found(Some(e))
                                   && Apply(after, VersionOf(KeyOf(e))).1 == Versioned(Some(0))
                                   && after - {KeyOf(e)} == db)
  {
    hide Valid, KeyOf, VersionField;
    if KeyOf(e) !in db {
      assert db[KeyOf(e) := Record(e, 0)] - {KeyOf(e)} == db;
    }
  }

  /** A save is accepted exactly for a stored record, its current version and a valid result; then the record
      reads back as it was given, with the next version, and nothing else has changed. */
  lemma SaveReadsBack(db: Db, e: Entity, expected: Option<int>)
    ensures var (after, reply) := Apply(db, Save(e, expected));
            var k := KeyOf(e);
            && (!reply.Failed? <==>
                k in db && expected == Some(db[k].version) && Valid(WithVersion(e, db[k].version + 1)))
            && (reply.Failed? ==> after == db)
            && (!reply.Failed? ==> Apply(after, Get(k)).1 == Found(Some(WithVersion(e, db[k].version + 1)))
                                   && Apply(after, VersionOf(k)).1 == Versioned(Some(db[k].version + 1))
                                   && after - {k} == db - {k})
  {
    hide Valid, KeyOf, WithVersion;
  }

  /** A deletion is accepted exactly for a stored record and its current version; then nothing is left of it,
      and a creation of that key starts again at version 0. */
  lemma DeleteReadsBack(db: Db, k: Key, expected: Option<int>)
    ensures var (after, reply) := Apply(db, Delete(k, expected));
            && (!reply.Failed? <==> k in db && expected == Some(db[k].version))
            && (reply.Failed? ==> after == db)
            && (!reply.Failed? ==>
                Apply(after, Get(k)).1 == Found(None) && Apply(after, VersionOf(k)).1 == Versioned(None)
                                   && after[k := db[k]] == db)
  {
  }
}
