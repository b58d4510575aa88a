/** What one audited mutation does, by the fields of the call and of the stored records. */
module MutationOutcomes {
  import opened Foundations
  import opened Models
  import opened Repository
  import opened Identifiers
  import opened Activity

  /** The two calls ask for the same mutation: everything but the time and the callbacks agrees. */
  ghost predicate SameRequest<V>(a: Call<V>, b: Call<V>) {
    && a.spec.action == b.spec.action && a.spec.entityType == b.spec.entityType && a.spec.entityId == b.spec.entityId
    && a.spec.summary == b.spec.summary && a.spec.metadata == b.spec.metadata
    && a.context.actorType == b.context.actorType && a.context.sourceEventId == b.context.sourceEventId
    && a.context.agentRunId == b.context.agentRunId && a.context.requestFingerprint == b.context.requestFingerprint
    && a.context.confirmation == b.context.confirmation
  }

  /** How a call without additional events is answered when its event is stored already. */
  ghost function AnsweredFrom<V>(db: Db, call: Call<V>, stored: ActivityEvent): (Db, Result<Mutation<V>, Error>) {
    match call.replay
    case None => (db, Success(Mutation(None, stored, true)))
    case Some(replay) =>
      match replay(db)
      case Failure(error) => (db, Failure(error))
      case Success((after, value)) => (after, Success(Mutation(Some(value), stored, true)))
  }

  /** After a call has been fresh, a later one of the same project, actor and key is answered from the stored event
      exactly when it asks for the same mutation; any difference in what it asks for is a conflict, and changes
      nothing. */
  lemma KeyNamesOneMutation<V(!new)>(db: Db, call: Call<V>, later: Db, again: Call<V>)
    requires WellFormed(db) && WellFormed(later) && Sound(call) && IsFresh(db, call)
    requires AppendOnly(Mutate(db, call).0, later)
    requires again.context.projectId == call.context.projectId && again.context.actorId == call.context.actorId
    requires again.context.idempotencyKey == call.context.idempotencyKey
    requires again.additional == [] && Fence(later, again.context).None?
    ensures Mutate(later, again) ==
            if SameRequest(call, again) then AnsweredFrom(later, again, Expected(call))
            else (later, Failure(IdempotencyConflict))
  {
    hide WellFormed, Sound, IsFresh, Fence, CreateEvents, MissingOrConflict, LogBlind;
    FreshStoresItsEvent(db, call);
    EventStays(Mutate(db, call).0, later, Expected(call));
    assert EventKey(Expected(again)) == EventKey(Expected(call));
    assert Matches(Expected(call), Expected(again)) <==> SameRequest(call, again);
    NoAdditional(later);
    if SameRequest(call, again) && again.replay.Some? && again.replay.value(later).Success? {
      NoAdditional(again.replay.value(later).value.0);
    }
    assert [Expected(again)] + [] == [Expected(again)];
  }

  lemma EventStays(before: Db, after: Db, e: ActivityEvent)
    requires AppendOnly(before, after) && ReadEvent(before, EventKey(e)) == Some(e)
    ensures ReadEvent(after, EventKey(e)) == Some(e)
  {
  }

  lemma NoAdditional(db: Db)
    ensures MissingOrConflict(db, []) == Success([]) && CreateEvents(db, []) == Success(db)
  {
  }

  /** A mutation that cites a confirmation goes through only while the claim it names is being confirmed by this
      actor, this attempt and for this command. */
  lemma ConfirmedOnlyByItsClaim<V>(db: Db, call: Call<V>)
    requires call.context.confirmation.Some?
    ensures var cited := call.context.confirmation.value;
            var k := Key(Claims, call.context.projectId, cited.claimId);
            var confirms := k in db && db[k].entity.ClaimEntity?
                            && db[k].entity.claim.outcome == "confirming"
                            && Some(db[k].entity.claim.actorId) == call.context.actorId
                            && db[k].entity.claim.attemptId == Some(cited.attemptId)
                            && db[k].entity.claim.commandFingerprint == cited.commandFingerprint;
            && (Fence(db, call.context).None? <==> confirms)
            && (Mutate(db, call).1.Success? ==> confirms)
            && (!confirms ==> Mutate(db, call).0 == db)
  {
    hide BuildEvent, CreateEvents, MissingOrConflict, DistinctIds;
  }

  /** The event of a fresh call, field by field. */
  lemma FreshEventSays<V(!new)>(db: Db, call: Call<V>)
    requires WellFormed(db) && Sound(call) && IsFresh(db, call)
    ensures var c, s := call.context, call.spec;
            var k := Key(Activities, c.projectId, ActivityIdOf(c.projectId, c.actorId, c.idempotencyKey));
            var after := Mutate(db, call).0;
            && k !in db && k in after && after[k].entity.ActivityEntity?
            && var e := after[k].entity.activity;
               && e.id == k.id && e.projectId == c.projectId && e.actorType == c.actorType && e.actorId == c.actorId
               && e.action == s.action && e.entityType == s.entityType && e.entityId == s.entityId
               && e.summary == s.summary && e.sourceEventId == c.sourceEventId && e.agentRunId == c.agentRunId
               && e.createdAt == c.occurredAt
               && "_idempotency_key_digest" in e.metadata
               && e.metadata["_idempotency_key_digest"] == Some(Sha256(c.idempotencyKey))
               && (c.confirmation.Some? ==>
                     && "_confirmation_claim_id" in e.metadata
                     && e.metadata["_confirmation_claim_id"] == Some(c.confirmation.value.claimId)
                     && "_confirmation_command_fingerprint" in e.metadata
                     && e.metadata["_confirmation_command_fingerprint"] ==
                        Some(c.confirmation.value.commandFingerprint))
               && forall name | name in s.metadata && name !in {"_idempotency_key_digest", "_confirmation_claim_id",
                                                                "_confirmation_command_fingerprint"} ::
                    name in e.metadata && e.metadata[name] == s.metadata[name]
  {
    hide Mutate, IsFresh, WellFormed, Sound;
    FreshStoresItsEvent(db, call);
  }

  /** A stored event that records this mutation. */
  ghost predicate Logged(db: Db, e: ActivityEvent) {
    var k := Key(Activities, e.projectId, e.id);
    && k in db && db[k].entity.ActivityEntity?
    && var stored := db[k].entity.activity;
       && stored.action == e.action && stored.entityType == e.entityType && stored.entityId == e.entityId
       && stored.projectId == e.projectId && stored.fingerprint == e.fingerprint
  }

  lemma {:induction false} MissingAreLogged(db: Db, after: Db, expected: seq<ActivityEvent>)
    requires MissingOrConflict(db, expected).Success?
    requires AppendOnly(db, after)
    requires forall e | e in MissingOrConflict(db, expected).value :: Logged(after, e)
    ensures forall i | 0 <= i < |expected| :: Logged(after, expected[i])
    decreases |expected|
  {
    if expected != [] {
      var n := |expected| - 1;
      MissingAreLogged(db, after, expected[..n]);
      var last := expected[n];
      if ReadEvent(db, EventKey(last)).None? {
        assert last in MissingOrConflict(db, expected).value;
      }
    }
  }

  lemma CreatedAreLogged(db: Db, events: seq<ActivityEvent>)
    requires CreateEvents(db, events).Success?
    ensures forall e | e in events :: Logged(CreateEvents(db, events).value, e)
  {
    forall e | e in events ensures Logged(CreateEvents(db, events).value, e) {
      var i :| 0 <= i < |events| && events[i] == e;
      CreateEventsStores(db, events, i);
    }
  }

  /** A mutation that went through has its own event and every additional one in the log, each recording the very
      mutation that was asked for. */
  lemma SuccessIsLogged<V(!new)>(db: Db, call: Call<V>)
    requires WellFormed(db) && Sound(call) && Mutate(db, call).1.Success?
    ensures Logged(Mutate(db, call).0, Expected(call))
    ensures forall i | 0 <= i < |call.additional| :: Logged(Mutate(db, call).0, call.additional[i])
  {
    hide WellFormed, Sound, Fence, BuildEvent, CreateEvents, MissingOrConflict, Logged, LogBlind;
    MutateAppends(db, call);
    var missing, after := MissingOrConflict(db, call.additional).value, Mutate(db, call).0;
    if IsFresh(db, call) {
      var events := [Expected(call)] + missing;
      CreatedAreLogged(call.body(db).value.0, events);
      assert Expected(call) in events;
      assert forall e | e in missing :: e in events;
    } else {
      ReplayedStore(db, call);
      CreatedAreLogged(db, missing);
      StoredIsLogged(db, after, call);
    }
    MissingAreLogged(db, after, call.additional);
  }

  lemma ReplayedStore<V(!new)>(db: Db, call: Call<V>)
    requires Sound(call) && Mutate(db, call).1.Success? && !IsFresh(db, call)
    ensures CreateEvents(db, MissingOrConflict(db, call.additional).value) == Success(Mutate(db, call).0)
    ensures ReadEvent(db, EventKey(Expected(call))).Some?
    ensures Matches(ReadEvent(db, EventKey(Expected(call))).value, Expected(call))
  {
    hide LogBlind, BuildEvent, CreateEvents, MissingOrConflict, Fence, Matches;
  }

  lemma StoredIsLogged<V(!new)>(db: Db, after: Db, call: Call<V>)
    requires AppendOnly(db, after) && ReadEvent(db, EventKey(Expected(call))).Some?
    requires Matches(ReadEvent(db, EventKey(Expected(call))).value, Expected(call))
    ensures Logged(after, Expected(call))
  {
    hide BuildEvent;
  }

  /** A fresh call does what its callback does and returns what the callback returned, which is the record that the
      call names, if it is a record at all; a failed one does nothing. */
  lemma FreshDoesItsBody<V(!new)>(db: Db, call: Call<V>)
    requires IsFresh(db, call)
    ensures call.body(db).Success?
    ensures var (after, outcome) := Mutate(db, call);
            var (done, value) := call.body(db).value;
            && SameDomain(done, after) && outcome.value == Mutation(Some(value), Expected(call), false)
            && (call.identity(value).Some? ==>
                  call.identity(value).value == (call.context.projectId, call.spec.entityId))
  {
    hide BuildEvent, CreateEvents, MissingOrConflict, Fence, SameDomain;
    CreateEventsExtend(call.body(db).value.0, [Expected(call)] + MissingOrConflict(db, call.additional).value);
  }

  lemma FailureChangesNothing<V>(db: Db, call: Call<V>)
    ensures Mutate(db, call).1.Failure? ==> Mutate(db, call).0 == db
  {
    hide BuildEvent, CreateEvents, MissingOrConflict, Fence, DistinctIds;
  }

  /** Additional events of another project, or two events of one identifier, are refused before anything is read. */
  lemma IllScopedIsRefused<V>(db: Db, call: Call<V>)
    requires || (exists i :: 0 <= i < |call.additional| && call.additional[i].projectId != call.context.projectId)
             || (exists i :: 0 <= i < |call.additional| &&
                   call.additional[i].id == ActivityIdOf(call.context.projectId, call.context.actorId,
                                                         call.context.idempotencyKey))
             || (exists i, j :: 0 <= i < j < |call.additional| && call.additional[i].id == call.additional[j].id)
    ensures Mutate(db, call) == (db, Failure(ValidationFailed))
  {
    var all := [Expected(call)] + call.additional;
    assert all[0] == Expected(call) && forall i | 0 <= i < |call.additional| :: all[i + 1] == call.additional[i];
  }
}
