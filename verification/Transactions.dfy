/** `run_transaction` of the in-memory store: it refines `Sessions.Transaction` for every client. */
module Transactions {
  import opened Foundations
  import opened Models
  import opened Repository
  import opened Sessions
  import opened InMemory

  /** A transaction over the whole store: enter snapshots every collection, a raising exit puts
      every one back and forgets the collections that were first touched inside. */
  class MemoryStoreTransaction {
    const store: InMemoryRepositoryStore
    var initialTypes: set<Kind>
    var snapshots: map<Kind, Partitions>

    constructor (store: InMemoryRepositoryStore)
      ensures this.store == store
    {
      this.store := store;
      initialTypes := {};
      snapshots := map[];
    }

    method Enter()
      requires store.Valid()
      modifies this
      ensures initialTypes == store.repositories.Keys && snapshots == store.Collections()
    {
      initialTypes := store.repositories.Keys;
      snapshots := map kind | kind in store.repositories :: store.repositories[kind].records;
    }

    method RestoreSnapshots()
      requires store.Valid() && snapshots.Keys <= store.repositories.Keys
      modifies store.objects
      ensures store.Valid()
      ensures forall kind | kind in snapshots :: store.repositories[kind].records == snapshots[kind]
    {
      var pending := snapshots.Keys;
      while pending != {}
        invariant store.Valid() && pending <= snapshots.Keys
        invariant forall kind | kind in snapshots && kind !in pending ::
                  store.repositories[kind].records == snapshots[kind]
        decreases pending
      {
        var kind :| kind in pending;
        store.repositories[kind].records := snapshots[kind];
        pending := pending - {kind};
      }
    }

    method ForgetNewTypes()
      requires store.Valid()
      modifies store`repositories
      ensures store.Valid()
      ensures store.repositories.Keys == old(store.repositories.Keys) * initialTypes
      ensures forall kind | kind in store.repositories :: store.repositories[kind] == old(store.repositories[kind])
    {
      var extra := store.repositories.Keys - initialTypes;
      while extra != {}
        invariant store.Valid() && extra == store.repositories.Keys - initialTypes
        invariant store.repositories.Keys * initialTypes == old(store.repositories.Keys) * initialTypes
        invariant store.repositories.Keys <= old(store.repositories.Keys)
        invariant forall kind | kind in store.repositories :: store.repositories[kind] == old(store.repositories[kind])
        decreases extra
      {
        var kind :| kind in extra;
        store.repositories := store.repositories - {kind};
        extra := extra - {kind};
      }
      OnlyInitial(store.repositories.Keys, initialTypes, old(store.repositories.Keys));
    }

    method Exit(raised: bool)
      requires store.Valid() && snapshots.Keys == initialTypes <= store.repositories.Keys
      modifies store`repositories, store.objects
      ensures store.Valid()
      ensures !raised ==>
              store.Collections() == old(store.Collections()) && store.repositories == old(store.repositories)
      ensures raised ==> store.Collections() == snapshots && store.repositories.Keys == initialTypes
      ensures forall kind | kind in store.repositories ::
              kind in old(store.repositories) && store.repositories[kind] == old(store.repositories[kind])
    {
      if raised {
        RestoreSnapshots();
        ForgetNewTypes();
        assert store.Collections() == snapshots;
      }
    }
  }

  lemma OnlyInitial(now: set<Kind>, initial: set<Kind>, before: set<Kind>)
    requires now - initial == {} && now * initial == before * initial
    ensures now == before * initial
  {
    forall kind | kind in now ensures kind in initial {
      assert kind !in now - initial;
    }
    assert now == now * initial;
  }

  /** The open nested transactions of the heap are the frames of the session. */
  ghost predicate Represents(store: InMemoryRepositoryStore, stack: seq<MemoryTransaction>, frames: seq<Frame>)
    reads store, stack
  {
    && |stack| == |frames|
    && forall i | 0 <= i < |stack| ::
         && frames[i].kind in store.repositories
         && store.repositories[frames[i].kind] == stack[i].repository
         && stack[i].snapshot.Some?
         && frames[i].saved == Flat(frames[i].kind, stack[i].snapshot.value)
  }

  method OpenNested(store: InMemoryRepositoryStore, kind: Kind) returns (nested: MemoryTransaction)
    requires store.Valid()
    modifies store
    ensures store.Valid() && old(store.objects) <= store.objects && fresh(store.objects - old(store.objects))
    ensures forall other | other in old(store.repositories) ::
              other in store.repositories && store.repositories[other] == old(store.repositories[other])
    ensures store.View() == old(store.View())
    ensures fresh(nested) && kind in store.repositories && nested.repository == store.repositories[kind]
    ensures nested.snapshot.Some? && Flat(kind, nested.snapshot.value) == OfKind(old(store.View()), kind)
  {
    hide FlatStore, Flat;
    ghost var collections := store.Collections();
    var repository := store.Repository(kind);
    nested := new MemoryTransaction(repository);
    nested.Enter();
    FlatStoreOpen(collections, kind);
    FlatStoreOfKind(collections, kind);
    assert store.Collections()[kind] == repository.records;
  }

  method CloseNested(store: InMemoryRepositoryStore, nested: MemoryTransaction, raised: bool)
    requires store.Valid() && nested.snapshot.Some?
    requires nested.repository.kind in store.repositories
    requires store.repositories[nested.repository.kind] == nested.repository
    modifies nested.repository
    ensures store.Valid()
    ensures var kind := nested.repository.kind;
            store.View() == if raised then Restore(old(store.View()), kind, Flat(kind, nested.snapshot.value))
              else old(store.View())
  {
    hide FlatStore, Flat;
    ghost var collections := store.Collections();
    nested.Exit(raised);
    if raised {
      assert store.Collections() == collections[nested.repository.kind := nested.snapshot.value];
      FlatStorePut(collections, nested.repository.kind, nested.snapshot.value);
    } else {
      assert store.Collections() == collections;
    }
  }

  /** One move of the client, performed on the heap. */
  method Advance<V>(store: InMemoryRepositoryStore, m: Move<V>, stack: seq<MemoryTransaction>, ghost session: Session)
    returns (reply: Reply, stack': seq<MemoryTransaction>)
    requires store.Valid() && !Finishes(m)
    requires session.db == store.View() && Represents(store, stack, session.stack)
    modifies store, store.objects
    ensures store.Valid() && old(store.objects) <= store.objects && fresh(store.objects - old(store.objects))
    ensures forall kind | kind in old(store.repositories) ::
              kind in store.repositories && store.repositories[kind] == old(store.repositories[kind])
    ensures forall t | t in stack' :: t in stack || fresh(t)
    ensures var next := Sessions.Advance(session, m);
            && next.db == store.View() && next.transcript == session.transcript + [reply]
            && Represents(store, stack', next.stack)
  {
    hide FlatStore, Flat, Apply, OfKind, Restore;
    reply, stack' := Noted, stack;
    match m {
      case Call(req) =>
        reply := store.Perform(req);
      case Enter(kind) =>
        var nested := OpenNested(store, kind);
        stack' := stack + [nested];
      case Leave(raised) =>
        if stack != [] {
          var nested := stack[|stack| - 1];
          CloseNested(store, nested, raised);
          stack' := stack[..|stack| - 1];
        }
      case _ =>
    }
  }

  /** A client's moves inside a transaction that is already open. */
  method RunClient<V>(store: InMemoryRepositoryStore, client: Client<V>, fuel: nat) returns (result: Result<V, Error>)
    requires store.Valid()
    modifies store, store.objects
    ensures store.Valid() && old(store.objects) <= store.objects && fresh(store.objects - old(store.objects))
    ensures forall kind | kind in old(store.repositories) ::
              kind in store.repositories && store.repositories[kind] == old(store.repositories[kind])
    ensures var (s, r) := Run(Begin(old(store.View())), client, fuel);
            store.View() == s.db && result == r
  {
    hide FlatStore, Flat, Apply, OfKind, Restore, Sessions.Advance;
    var transcript: seq<Reply> := [];
    var stack: seq<MemoryTransaction> := [];
    ghost var session := Begin(store.View());
    ghost var start := session;
    var left: nat := fuel;
    var m := client(transcript);
    while left != 0 && !Finishes(m)
      invariant left <= fuel && m == client(transcript)
      invariant store.Valid() && old(store.objects) <= store.objects && fresh(store.objects - old(store.objects))
      invariant forall t | t in stack :: fresh(t)
      invariant forall kind | kind in old(store.repositories) ::
                  kind in store.repositories && store.repositories[kind] == old(store.repositories[kind])
      invariant session.db == store.View() && session.transcript == transcript
      invariant Represents(store, stack, session.stack)
      invariant Run(session, client, left) == Run(start, client, fuel)
      decreases left
    {
      var reply;
      reply, stack := Advance(store, m, stack, session);
      session := Sessions.Advance(session, m);
      transcript := transcript + [reply];
      left := left - 1;
      m := client(transcript);
    }
    if left != 0 && m.Return? {
      result := Success(m.value);
    } else {
      result := Failure(if left == 0 then Interrupted else m.error);
    }
  }

  /** Every client of the in-memory store sees the value-level transaction: its answers, its result,
      and a store that a raising operation has left exactly as it found it, collection by collection. */
  method RunTransaction<V>(store: InMemoryRepositoryStore, client: Client<V>, fuel: nat)
    returns (result: Result<V, Error>)
    requires store.Valid()
    modifies store, store.objects
    ensures store.Valid() && old(store.objects) <= store.objects && fresh(store.objects - old(store.objects))
    ensures (store.View(), result) == Transaction(old(store.View()), client, fuel)
    ensures result.Failure? ==> store.Collections() == old(store.Collections())
    ensures forall kind | kind in old(store.repositories) ::
              kind in store.repositories && store.repositories[kind] == old(store.repositories[kind])
  {
    hide FlatStore, Run;
    var transaction := new MemoryStoreTransaction(store);
    transaction.Enter();
    result := RunClient(store, client, fuel);
    transaction.Exit(result.Failure?);
  }
}
