/** The in-memory store: repositories that own nested dictionaries, and the snapshot transactions
    over one repository and over the whole store.  Every method is proved against `Repository`. */
module InMemory {
  import opened Foundations
  import opened Models
  import opened Ordering
  import opened Repository
  import opened Sessions

  type Partitions = map<string, map<string, Record>>

  /** A nested dictionary read as a flat map; an empty partition is the same as no partition. */
  function Flat(kind: Kind, records: Partitions): Db {
    map p, id | p in records && id in records[p] :: Key(kind, p, id) := records[p][id]
  }

  function Partition(records: Partitions, project: string): map<string, Record> {
    if project in records then records[project] else map[]
  }

  lemma FlatHas(kind: Kind, records: Partitions, k: Key)
    ensures k in Flat(kind, records) <==> k.kind == kind && k.id in Partition(records, k.project)
    ensures k in Flat(kind, records) ==> Flat(kind, records)[k] == Partition(records, k.project)[k.id]
  {
  }

  lemma FlatPut(kind: Kind, records: Partitions, p: string, id: string, record: Record)
    ensures Flat(kind, records[p := Partition(records, p)[id := record]]) ==
            Flat(kind, records)[Key(kind, p, id) := record]
  {
    hide Flat;
    var after := records[p := Partition(records, p)[id := record]];
    forall k
      ensures k in Flat(kind, after) <==> k in Flat(kind, records)[Key(kind, p, id) := record]
      ensures k in Flat(kind, after) ==> Flat(kind, after)[k] == Flat(kind, records)[Key(kind, p, id) := record][k]
    {
      FlatHas(kind, records, k);
      FlatHas(kind, after, k);
    }
  }

  /** The flat map does not tell an empty partition from a missing one. */
  lemma FlatByPartition(kind: Kind, a: Partitions, b: Partitions)
    requires forall p :: Partition(a, p) == Partition(b, p)
    ensures Flat(kind, a) == Flat(kind, b)
  {
    forall k ensures k in Flat(kind, a) <==> k in Flat(kind, b) {
      FlatHas(kind, a, k);
      FlatHas(kind, b, k);
    }
    forall k | k in Flat(kind, a) ensures Flat(kind, a)[k] == Flat(kind, b)[k] {
      FlatHas(kind, a, k);
      FlatHas(kind, b, k);
    }
  }

  lemma FlatDrop(kind: Kind, records: Partitions, p: string, id: string)
    requires p in records
    ensures Flat(kind, records[p := records[p] - {id}]) == Flat(kind, records) - {Key(kind, p, id)}
  {
    hide Flat;
    var after := records[p := records[p] - {id}];
    var expected := Flat(kind, records) - {Key(kind, p, id)};
    forall k ensures k in Flat(kind, after) <==> k in expected {
      FlatHas(kind, records, k);
      FlatHas(kind, after, k);
    }
    forall k | k in expected ensures Flat(kind, after)[k] == expected[k] {
      FlatHas(kind, records, k);
      FlatHas(kind, after, k);
    }
  }

  lemma FlatIds(kind: Kind, records: Partitions, project: string)
    ensures IdsIn(Flat(kind, records), kind, project) == Partition(records, project).Keys
    ensures forall id | id in Partition(records, project) ::
              Key(kind, project, id) in Flat(kind, records)
                && Flat(kind, records)[Key(kind, project, id)] == Partition(records, project)[id]
  {
    forall id ensures id in IdsIn(Flat(kind, records), kind, project) <==> id in Partition(records, project) {
      FlatHas(kind, records, Key(kind, project, id));
    }
    forall id | id in Partition(records, project)
      ensures Key(kind, project, id) in Flat(kind, records)
      ensures Flat(kind, records)[Key(kind, project, id)] == Partition(records, project)[id]
    {
      FlatHas(kind, records, Key(kind, project, id));
    }
  }

  /** Every collection's nested dictionary, flattened. */
  function FlatStore(collections: map<Kind, Partitions>): Db {
    map kind, p, id | kind in collections && p in collections[kind] && id in collections[kind][p]
      :: Key(kind, p, id) := collections[kind][p][id]
  }

  function Collection(collections: map<Kind, Partitions>, kind: Kind): Partitions {
    if kind in collections then collections[kind] else map[]
  }

  lemma FlatStoreHas(collections: map<Kind, Partitions>, k: Key)
    ensures k in FlatStore(collections) <==> k.id in Partition(Collection(collections, k.kind), k.project)
    ensures k in FlatStore(collections) ==>
            FlatStore(collections)[k] == Partition(Collection(collections, k.kind), k.project)[k.id]
  {
  }

  lemma FlatStoreOfKind(collections: map<Kind, Partitions>, kind: Kind)
    ensures OfKind(FlatStore(collections), kind) == Flat(kind, Collection(collections, kind))
  {
    hide Flat, FlatStore;
    var records := Collection(collections, kind);
    forall k: Key
      ensures k in OfKind(FlatStore(collections), kind) <==> k in Flat(kind, records)
      ensures k in Flat(kind, records) ==> OfKind(FlatStore(collections), kind)[k] == Flat(kind, records)[k]
    {
      FlatStoreHas(collections, k);
      FlatHas(kind, records, k);
    }
  }

  /** Replacing one collection replaces that part of the flat map and nothing else. */
  lemma FlatStorePut(collections: map<Kind, Partitions>, kind: Kind, records: Partitions)
    ensures FlatStore(collections[kind := records]) == Restore(FlatStore(collections), kind, Flat(kind, records))
  {
    var after := collections[kind := records];
    forall other | other != kind ensures OfKind(FlatStore(after), other) == OfKind(FlatStore(collections), other) {
      FlatStoreOfKind(collections, other);
      FlatStoreOfKind(after, other);
    }
    FlatStoreOfKind(after, kind);
    RestoreIsReplacement(FlatStore(collections), FlatStore(after), kind);
  }

  /** The flat map does not tell an empty collection from a missing one. */
  lemma FlatStoreByCollection(a: map<Kind, Partitions>, b: map<Kind, Partitions>)
    requires forall kind :: Collection(a, kind) == Collection(b, kind)
    ensures FlatStore(a) == FlatStore(b)
  {
    forall k
      ensures k in FlatStore(a) <==> k in FlatStore(b)
      ensures k in FlatStore(b) ==> FlatStore(a)[k] == FlatStore(b)[k]
    {
      FlatStoreHas(a, k);
      FlatStoreHas(b, k);
    }
  }

  /** A collection that is opened but still empty does not show. */
  lemma FlatStoreOpen(collections: map<Kind, Partitions>, kind: Kind)
    ensures FlatStore(collections[kind := Collection(collections, kind)]) == FlatStore(collections)
  {
    var after := collections[kind := Collection(collections, kind)];
    forall other ensures Collection(after, other) == Collection(collections, other) {
    }
    FlatStoreByCollection(after, collections);
  }

  /** A request on one collection is that request on the whole store. */
  lemma ApplyThroughCollection(collections: map<Kind, Partitions>, req: Request, records: Partitions, reply: Reply)
    requires Apply(Flat(RequestKind(req), Collection(collections, RequestKind(req))), req) ==
             (Flat(RequestKind(req), records), reply)
    ensures Apply(FlatStore(collections), req) == (FlatStore(collections[RequestKind(req) := records]), reply)
  {
    FlatStoreOfKind(collections, RequestKind(req));
    FlatStorePut(collections, RequestKind(req), records);
    ApplyOnCollection(FlatStore(collections), req);
  }

  class InMemoryRepository {
    const kind: Kind
    var records: Partitions

    ghost function Contents(): Db
      reads this
    {
      Flat(kind, records)
    }

    constructor (kind: Kind)
      ensures this.kind == kind && records == map[]
    {
      this.kind := kind;
      records := map[];
    }

    method Get(project: string, id: string) returns (entity: Option<Entity>)
      ensures Apply(Contents(), Request.Get(Key(kind, project, id))) == (Contents(), Found(entity))
    {
      if project in records && id in records[project] {
        entity := Some(records[project][id].entity);
      } else {
        entity := None;
      }
    }

    method List(project: string) returns (entities: seq<Entity>)
      ensures Apply(Contents(), ListAll(kind, project)) == (Contents(), Listed(entities))
    {
      hide Flat, IdsIn;
      var partition := if project in records then records[project] else map[];
      var ids := SortedIds(partition.Keys);
      FlatIds(kind, records, project);
      entities := [];
      for i := 0 to |ids|
        invariant |entities| == i
        invariant forall j | 0 <= j < i :: entities[j] == EntitiesIn(Contents(), kind, project)[j]
      {
        assert ids[i] in ids;
        entities := entities + [partition[ids[i]].entity];
      }
      assert entities == EntitiesIn(Contents(), kind, project);
    }

    method VersionOf(project: string, id: string) returns (version: Option<nat>)
      ensures Apply(Contents(), Request.VersionOf(Key(kind, project, id))) == (Contents(), Versioned(version))
    {
      if project in records && id in records[project] {
        version := Some(records[project][id].version);
      } else {
        version := None;
      }
    }

    method Create(e: Entity) returns (result: Result<Entity, Error>)
      requires KindOf(e) == kind
      modifies this
      ensures match CreateIn(old(Contents()), e)
              case Success(db) => result == Success(e) && Contents() == db
              case Failure(error) => result == Failure(error) && Contents() == old(Contents())
    {
      var p, id := ProjectOf(e), IdOf(e);
      FlatHas(kind, records, KeyOf(e));
      if p !in records {
        FlatByPartition(kind, records, records[p := map[]]);
        records := records[p := map[]];
      }
      if id in records[p] {
        return Failure(EntityAlreadyExists);
      }
      if !Models.Valid(e) {
        return Failure(ValidationFailed);
      }
      if VersionField(e).Some? && VersionField(e).value != 0 {
        return Failure(VersionConflict);
      }
      FlatPut(kind, records, p, id, Record(e, 0));
      records := records[p := records[p][id := Record(e, 0)]];
      result := Success(e);
    }

    method Save(e: Entity, expected: Option<int>) returns (result: Result<Entity, Error>)
      requires KindOf(e) == kind
      modifies this
      ensures match SaveIn(old(Contents()), e, expected)
              case Success(db) => result == Success(db[KeyOf(e)].entity) && Contents() == db
              case Failure(error) => result == Failure(error) && Contents() == old(Contents())
    {
      var p, id := ProjectOf(e), IdOf(e);
      ghost var before := Contents();
      FlatHas(kind, records, KeyOf(e));
      if p !in records || id !in records[p] {
        return Failure(EntityNotFound);
      }
      var current := records[p][id].version;
      if expected.None? || expected.value != current {
        return Failure(VersionConflict);
      }
      var next := current + 1;
      var updated := WithVersion(e, next);
      if !Models.Valid(updated) {
        return Failure(ValidationFailed);
      }
      assert SaveIn(before, e, expected) == Success(before[KeyOf(e) := Record(updated, next)]);
      FlatPut(kind, records, p, id, Record(updated, next));
      records := records[p := records[p][id := Record(updated, next)]];
      result := Success(updated);
    }

    method Delete(project: string, id: string, expected: Option<int>) returns (failure: Option<Error>)
      modifies this
      ensures match DeleteIn(old(Contents()), Key(kind, project, id), expected)
              case Success(db) => failure == None && Contents() == db
              case Failure(error) => failure == Some(error) && Contents() == old(Contents())
    {
      FlatHas(kind, records, Key(kind, project, id));
      if project !in records || id !in records[project] {
        return Some(EntityNotFound);
      }
      var current := records[project][id].version;
      if expected.None? || expected.value != current {
        return Some(VersionConflict);
      }
      FlatDrop(kind, records, project, id);
      records := records[project := records[project] - {id}];
      if records[project] == map[] {
        FlatByPartition(kind, records, records - {project});
        records := records - {project};
      }
      failure := None;
    }

    /** Any one request of this collection. */
    method Perform(req: Request) returns (reply: Reply)
      requires RequestKind(req) == kind
      modifies this
      ensures (Contents(), reply) == Apply(old(Contents()), req)
    {
      match req
      case Get(k) =>
        var entity := Get(k.project, k.id);
        reply := Found(entity);
      case ListAll(_, p) =>
        var entities := List(p);
        reply := Listed(entities);
      case VersionOf(k) =>
        var version := VersionOf(k.project, k.id);
        reply := Versioned(version);
      case Create(e) =>
        var result := Create(e);
        reply := if result.Success? then Stored(result.value) else Failed(result.error);
      case Save(e, expected) =>
        var result := Save(e, expected);
        reply := if result.Success? then Stored(result.value) else Failed(result.error);
      case Delete(k, expected) =>
        var failure := Delete(k.project, k.id, expected);
        reply := if failure.None? then Removed else Failed(failure.value);
    }
  }

  /** A transaction over one repository: enter takes a snapshot, a raising exit puts it back. */
  class MemoryTransaction {
    const repository: InMemoryRepository
    var snapshot: Option<Partitions>

    constructor (repository: InMemoryRepository)
      ensures this.repository == repository && snapshot == None
    {
      this.repository := repository;
      snapshot := None;
    }

    method Enter()
      modifies this
      ensures snapshot == Some(repository.records)
    {
      snapshot := Some(repository.records);
    }

    method Exit(raised: bool)
      modifies repository
      ensures repository.records == if raised && snapshot.Some? then snapshot.value else old(repository.records)
    {
      if raised && snapshot.Some? {
        repository.records := snapshot.value;
      }
    }
  }

  class InMemoryRepositoryStore {
    var repositories: map<Kind, InMemoryRepository>
    ghost var objects: set<InMemoryRepository>

    ghost predicate Valid()
      reads this, objects
    {
      forall kind | kind in repositories ::
        repositories[kind] in objects && repositories[kind].kind == kind
    }

    ghost function Collections(): map<Kind, Partitions>
      requires Valid()
      reads this, objects
    {
      map kind | kind in repositories :: repositories[kind].records
    }

    /** The whole store as one flat map. */
    ghost function View(): Db
      requires Valid()
      reads this, objects
    {
      FlatStore(Collections())
    }

    constructor ()
      ensures Valid() && repositories == map[] && objects == {} && View() == map[]
    {
      repositories := map[];
      objects := {};
    }

    /** A new, empty repository for a collection that has none yet. */
    method Open(kind: Kind) returns (repository: InMemoryRepository)
      requires Valid() && kind !in repositories
      modifies this
      ensures Valid() && fresh(repository)
      ensures repositories == old(repositories)[kind := repository] && objects == old(objects) + {repository}
      ensures Collections() == old(Collections())[kind := map[]]
    {
      hide FlatStore, Flat;
      ghost var before := Collections();
      repository := new InMemoryRepository(kind);
      assert Valid() && Collections() == before;
      repositories := repositories[kind := repository];
      objects := objects + {repository};
    }

    /** The typed repository, created the first time it is asked for. */
    method Repository(kind: Kind) returns (repository: InMemoryRepository)
      requires Valid()
      modifies this
      ensures Valid() && old(objects) <= objects && fresh(objects - old(objects))
      ensures kind in repositories && repositories[kind] == repository
      ensures repositories.Keys == old(repositories.Keys) + {kind}
      ensures forall other | other in old(repositories) :: repositories[other] == old(repositories[other])
      ensures Collections() == old(Collections())[kind := Collection(old(Collections()), kind)]
    {
      if kind in repositories {
        repository := repositories[kind];
      } else {
        repository := Open(kind);
      }
    }

    /** One request, sent to the repository of its collection. */
    method Perform(req: Request) returns (reply: Reply)
      requires Valid()
      modifies this, objects
      ensures Valid() && old(objects) <= objects && fresh(objects - old(objects))
      ensures repositories.Keys == old(repositories.Keys) + {RequestKind(req)}
      ensures forall kind | kind in old(repositories) :: repositories[kind] == old(repositories[kind])
      ensures (View(), reply) == Apply(old(View()), req)
    {
      hide FlatStore, Flat, Apply, RequestKind;
      ghost var before := Collections();
      var repository := Repository(RequestKind(req));
      assert Collections()[RequestKind(req)] == repository.records;
      reply := repository.Perform(req);
      assert Collections() == before[RequestKind(req) := repository.records];
      ApplyThroughCollection(before, req, repository.records, reply);
    }
  }
}
