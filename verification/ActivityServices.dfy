/** `ActivityService` on the in-memory store, step by step, proved to be `Activity.Mutate`. */
module ActivityServices {
  import opened Foundations
  import opened Models
  import opened Repository
  import opened Sessions
  import opened InMemory
  import opened Transactions
  import opened Activity

  class ActivityService {
    const store: InMemoryRepositoryStore

    constructor (store: InMemoryRepositoryStore)
      ensures this.store == store
    {
      this.store := store;
    }

    /** The store is as it was, apart from collections that were asked for and are still empty. */
    twostate predicate Extended()
      reads store, store.objects
    {
      && store.Valid()
      && old(store.objects) <= store.objects && fresh(store.objects - old(store.objects))
      && forall kind | kind in old(store.repositories) ::
           kind in store.repositories && store.repositories[kind] == old(store.repositories[kind])
    }

    method ReadStored(key: Key) returns (entity: Option<Entity>)
      requires store.Valid()
      modifies store, store.objects
      ensures Extended() && store.View() == old(store.View())
      ensures entity == Read(store.View(), key)
    {
      var reply := store.Perform(Get(key));
      entity := reply.entity;
    }

    method StoredEvent(key: Key) returns (event: Option<ActivityEvent>)
      requires store.Valid()
      modifies store, store.objects
      ensures Extended() && store.View() == old(store.View())
      ensures event == ReadEvent(store.View(), key)
    {
      var entity := ReadStored(key);
      event := if entity.Some? && entity.value.ActivityEntity? then Some(entity.value.activity) else None;
    }

    method ValidateFence(context: MutationContext) returns (refusal: Option<Error>)
      requires store.Valid()
      modifies store, store.objects
      ensures Extended() && store.View() == old(store.View())
      ensures refusal == Fence(store.View(), context)
    {
      if context.confirmation.None? {
        return None;
      }
      var confirmation := context.confirmation.value;
      var claim := ReadStored(Key(Claims, context.projectId, confirmation.claimId));
      if claim.None? || !claim.value.ClaimEntity? {
        return Some(EntityNotFound);
      }
      var held := claim.value.claim;
      if held.outcome != "confirming" || Some(held.actorId) != context.actorId
         || held.attemptId != Some(confirmation.attemptId)
            || held.commandFingerprint != confirmation.commandFingerprint {
        return Some(FenceRejected);
      }
      refusal := None;
    }

    method MissingOrValidate(expected: seq<ActivityEvent>) returns (result: Result<seq<ActivityEvent>, Error>)
      requires store.Valid()
      modifies store, store.objects
      ensures Extended() && store.View() == old(store.View())
      ensures result == MissingOrConflict(store.View(), expected)
    {
      ghost var db := store.View();
      var missing: seq<ActivityEvent> := [];
      for i := 0 to |expected|
        invariant Extended() && store.View() == db
        invariant MissingOrConflict(db, expected[..i]) == Success(missing)
      {
        var existing := StoredEvent(EventKey(expected[i]));
        assert expected[..i + 1][..i] == expected[..i];
        if existing.None? {
          missing := missing + [expected[i]];
        } else if !Matches(existing.value, expected[i]) {
          ConflictStays(db, expected, i + 1);
          return Failure(IdempotencyConflict);
        }
      }
      assert expected[..|expected|] == expected;
      result := Success(missing);
    }

    method CreateMissing(events: seq<ActivityEvent>) returns (failure: Option<Error>)
      requires store.Valid()
      modifies store, store.objects
      ensures Extended()
      ensures match CreateEvents(old(store.View()), events)
              case Success(db) => failure == None && store.View() == db
              case Failure(error) => failure == Some(error)
    {
      ghost var db := store.View();
      for i := 0 to |events|
        invariant Extended()
        invariant CreateEvents(db, events[..i]) == Success(store.View())
      {
        var reply := store.Perform(Create(ActivityEntity(events[i])));
        assert events[..i + 1][..i] == events[..i];
        if reply.Failed? {
          CreationStaysFailed(db, events, i + 1);
          return Some(reply.error);
        }
      }
      assert events[..|events|] == events;
      failure := None;
    }

    method Prepare(context: MutationContext, expected: ActivityEvent, additional: seq<ActivityEvent>)
      returns (standing: Result<Standing, Error>)
      requires store.Valid()
      modifies store, store.objects
      ensures Extended() && store.View() == old(store.View())
      ensures standing == Activity.Prepare(store.View(), context, expected, additional)
    {
      hide FlatStore, Fence;
      var refusal := ValidateFence(context);
      if refusal.Some? {
        return Failure(refusal.value);
      }
      var existing := StoredEvent(EventKey(expected));
      var missing := MissingOrValidate(additional);
      if missing.Failure? {
        return Failure(missing.error);
      }
      if existing.Some? && !Matches(existing.value, expected) {
        return Failure(IdempotencyConflict);
      }
      standing := Success(Standing(existing, missing.value));
    }

    /** The replay callback of a duplicate, and the additional events that are still missing. */
    method Replay<V>(call: ClientCall<V>, standing: Standing) returns (result: Result<Mutation<V>, Error>)
      requires store.Valid() && standing.existing.Some?
      modifies store, store.objects
      ensures Extended()
      ensures match Replayed(old(store.View()), CallOf(call), standing)
              case Success((db, mutation)) => result == Success(mutation) && store.View() == db
              case Failure(error) => result == Failure(error)
    {
      hide FlatStore, Run;
      var value: Option<V> := None;
      if call.replay.Some? {
        var replayed := RunClient(store, call.replay.value, call.fuel);
        if replayed.Failure? {
          return Failure(replayed.error);
        }
        value := Some(replayed.value);
      }
      var failure := CreateMissing(standing.missing);
      if failure.Some? {
        return Failure(failure.value);
      }
      result := Success(Mutation(value, standing.existing.value, true));
    }

    /** The mutation callback, its result check, and the events that record it. */
    method Perform<V>(call: ClientCall<V>, expected: ActivityEvent, missing: seq<ActivityEvent>)
      returns (result: Result<Mutation<V>, Error>)
      requires store.Valid() && expected == Expected(CallOf(call))
      modifies store, store.objects
      ensures Extended()
      ensures match Fresh(old(store.View()), CallOf(call), missing)
              case Success((db, mutation)) => result == Success(mutation) && store.View() == db
              case Failure(error) => result == Failure(error)
    {
      hide FlatStore, Run, BuildEvent;
      var done := RunClient(store, call.body, call.fuel);
      if done.Failure? {
        return Failure(done.error);
      }
      if !InScope(call.identity(done.value), call.context.projectId, call.spec.entityId) {
        return Failure(ScopeMismatch);
      }
      var failure := CreateMissing([expected] + missing);
      if failure.Some? {
        return Failure(failure.value);
      }
      result := Success(Mutation(Some(done.value), expected, false));
    }

    /** `mutate` on the store: the same outcome and the same store as the value-level transaction, and
        a store that is untouched, collection by collection, when the call raises. */
    method Mutate<V>(call: ClientCall<V>) returns (result: Result<Mutation<V>, Error>)
      requires store.Valid()
      modifies store, store.objects
      ensures Extended()
      ensures (store.View(), result) == Activity.Mutate(old(store.View()), CallOf(call))
      ensures result.Failure? ==> store.Collections() == old(store.Collections())
    {
      hide FlatStore, Run, BuildEvent, Replayed, Fresh, Activity.Prepare;
      var expected := BuildEvent(call.context, call.spec);
      if !DistinctIds([expected] + call.additional) {
        return Failure(ValidationFailed);
      }
      if exists i | 0 <= i < |call.additional| :: call.additional[i].projectId != call.context.projectId {
        return Failure(ValidationFailed);
      }
      var transaction := new MemoryStoreTransaction(store);
      transaction.Enter();
      var standing := Prepare(call.context, expected, call.additional);
      if standing.Failure? {
        result := Failure(standing.error);
      } else if standing.value.existing.Some? {
        result := Replay(call, standing.value);
      } else {
        result := Perform(call, expected, standing.value.missing);
      }
      transaction.Exit(result.Failure?);
    }
  }

  /** A call whose callbacks are clients of the store. */
  datatype ClientCall<!V> = ClientCall(
    context: MutationContext, spec: ActivitySpec, body: Client<V>, identity: V -> Option<(string, string)>,
    replay: Option<Client<V>>, additional: seq<ActivityEvent>, fuel: nat)

  ghost function CallOf<V>(call: ClientCall<V>): Call<V> {
    Activity.Call.Call(call.context, call.spec, ClientEffect(call.body, call.fuel), call.identity,
         if call.replay.Some? then Some(ClientEffect(call.replay.value, call.fuel)) else None, call.additional)
  }

  lemma {:induction false} ConflictStays(db: Db, expected: seq<ActivityEvent>, n: nat)
    requires n <= |expected| && MissingOrConflict(db, expected[..n]).Failure?
    ensures MissingOrConflict(db, expected) == MissingOrConflict(db, expected[..n])
    decreases |expected| - n
  {
    if n == |expected| {
      assert expected[..n] == expected;
    } else {
      assert expected[..n + 1][..n] == expected[..n];
      ConflictStays(db, expected, n + 1);
    }
  }

  lemma {:induction false} CreationStaysFailed(db: Db, events: seq<ActivityEvent>, n: nat)
    requires n <= |events| && CreateEvents(db, events[..n]).Failure?
    ensures CreateEvents(db, events) == CreateEvents(db, events[..n])
    decreases |events| - n
  {
    if n == |events| {
      assert events[..n] == events;
    } else {
      assert events[..n + 1][..n] == events[..n];
      CreationStaysFailed(db, events, n + 1);
    }
  }
}
