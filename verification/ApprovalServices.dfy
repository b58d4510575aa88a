/** `ApprovalService` on the in-memory store, write by write, proved to be `ApprovalRuns.Commit`. */
module ApprovalServices {
  import opened Foundations
  import opened Models
  import opened Repository
  import opened InMemory
  import opened Transactions
  import opened Access
  import opened Activity
  import opened ActivityServices
  import opened Approvals
  import opened ApprovalRuns

  class ApprovalService {
    const store: InMemoryRepositoryStore
    const activities: ActivityService

    ghost predicate Valid()
      reads store, store.objects
    {
      store.Valid() && activities.store == store
    }

    constructor (store: InMemoryRepositoryStore)
      requires store.Valid()
      ensures this.store == store && Valid()
    {
      this.store := store;
      activities := new ActivityService(store);
    }

    method FindApproval(project: string, id: string) returns (approval: Option<Approval>)
      requires Valid()
      modifies store, store.objects
      ensures Valid() && activities.Extended() && store.View() == old(store.View())
      ensures approval == ReadApproval(store.View(), project, id)
    {
      hide FlatStore;
      var entity := activities.ReadStored(ApprovalKey(project, id));
      approval := if entity.Some? && entity.value.ApprovalEntity? then Some(entity.value.approval) else None;
    }

    /** The linked requests, filtered out of the project's listing. */
    method LinkedRequests(project: string, approvalId: string) returns (linked: seq<MaterialRequest>)
      requires Valid()
      modifies store, store.objects
      ensures Valid() && activities.Extended() && store.View() == old(store.View())
      ensures linked == Linked(store.View(), project, approvalId)
    {
      hide FlatStore;
      var reply := store.Perform(ListAll(Requests, project));
      var entities := reply.entities;
      linked := [];
      for i := 0 to |entities|
        invariant linked == LinkedAmong(entities[..i], approvalId)
      {
        assert entities[..i + 1][..i] == entities[..i];
        if IsLinked(entities[i], approvalId) {
          linked := linked + [entities[i].request];
        }
      }
      assert entities[..|entities|] == entities;
    }

    method FindLink(a: Approval) returns (link: Result<Option<MaterialRequest>, Error>)
      requires Valid()
      modifies store, store.objects
      ensures Valid() && activities.Extended() && store.View() == old(store.View())
      ensures link == LinkOf(store.View(), a)
    {
      hide FlatStore, Linked;
      if a.actionType != Purchase {
        return Success(None);
      }
      var linked := LinkedRequests(a.projectId, a.id);
      if |linked| > 1 {
        return Failure(ApprovalFailed);
      }
      link := Success(if linked == [] then None else Some(linked[0]));
    }

    method SaveEntity(e: Entity, expected: Option<int>) returns (result: Result<Entity, Error>)
      requires Valid()
      modifies store, store.objects
      ensures Valid() && activities.Extended()
      ensures match SaveIn(old(store.View()), e, expected)
              case Success(db) => store.View() == db && result == Success(db[KeyOf(e)].entity)
              case Failure(error) => result == Failure(error)
    {
      hide FlatStore, SaveIn, KeyOf;
      var reply := store.Perform(Save(e, expected));
      result := if reply.Failed? then Failure(reply.error) else Success(reply.stored);
    }

    method CreateEntity(e: Entity) returns (failure: Option<Error>)
      requires Valid()
      modifies store, store.objects
      ensures Valid() && activities.Extended()
      ensures match CreateIn(old(store.View()), e)
              case Success(db) => store.View() == db && failure == None
              case Failure(error) => failure == Some(error)
    {
      hide FlatStore, CreateIn;
      var reply := store.Perform(Create(e));
      failure := if reply.Failed? then Some(reply.error) else None;
    }

    /** Saves the linked request under its current version and records the change. */
    method MoveLinkedRequest(r: MaterialRequest, version: Option<int>, context: MutationContext, a: Approval,
                             approved: bool, at: int)
      returns (failure: Option<Error>)
      requires Valid()
      requires version == if RequestKey(r.projectId, r.id) in store.View()
               then Some(store.View()[RequestKey(r.projectId, r.id)].version as int) else None
      modifies store, store.objects
      ensures Valid() && activities.Extended()
      ensures match MoveRequest(old(store.View()), r, context, a, approved, at)
              case Success(db) => store.View() == db && failure == None
              case Failure(error) => failure == Some(error)
    {
      hide FlatStore, SaveIn, CreateIn, BuildEvent, RequestEvent;
      var saved := SaveEntity(RequestEntity(MovedRequest(r, approved, at)), version);
      if saved.Failure? {
        return Some(saved.error);
      }
      failure := CreateEntity(ActivityEntity(RequestEvent(context, r.id, a.id, approved)));
    }

    method StoredVersion(key: Key) returns (version: Option<nat>)
      requires Valid()
      modifies store, store.objects
      ensures Valid() && activities.Extended() && store.View() == old(store.View())
      ensures version == if key in store.View() then Some(store.View()[key].version) else None
    {
      hide FlatStore;
      var reply := store.Perform(VersionOf(key));
      version := reply.version;
    }

    /** What a decision reads before it writes: the linked request, its version, an existing message. */
    method ReadForDecision(a: Approval, messageKey: Key)
      returns (link: Result<Option<MaterialRequest>, Error>, version: Option<int>, existing: Option<Entity>)
      requires Valid()
      modifies store, store.objects
      ensures Valid() && activities.Extended() && store.View() == old(store.View())
      ensures link == LinkOf(store.View(), a) && existing == Read(store.View(), messageKey)
      ensures link.Success? && link.value.Some? ==>
                var kr := RequestKey(link.value.value.projectId, link.value.value.id);
                version == if kr in store.View() then Some(store.View()[kr].version as int) else None
    {
      hide FlatStore, LinkOf;
      version := None;
      link := FindLink(a);
      if link.Success? && link.value.Some? {
        var found := StoredVersion(RequestKey(link.value.value.projectId, link.value.value.id));
        version := if found.Some? then Some(found.value as int) else None;
      }
      existing := activities.ReadStored(messageKey);
    }

    /** The writes after the approval itself: the request, if it is moved, and the message, if it is new. */
    method WriteConsequences(link: Option<MaterialRequest>, version: Option<int>, a: Approval, command: Command,
                             context: MutationContext, approved: bool, now: int, isNew: bool)
      returns (failure: Option<Error>)
      requires Valid()
      requires link.Some? ==>
                 var kr := RequestKey(link.value.projectId, link.value.id);
                 version == if kr in store.View() then Some(store.View()[kr].version as int) else None
      modifies store, store.objects
      ensures Valid() && activities.Extended()
      ensures var moved := if link.Some? && Awaits(link.value.status)
                           then MoveRequest(old(store.View()), link.value, context, a, approved, command.occurredAt)
                           else Success(old(store.View()));
              if moved.Failure? then failure == Some(moved.error)
              else if !LegalEvent(command, context, now) then failure == Some(ValidationFailed)
              else if !isNew then failure == None && store.View() == moved.value
              else match CreateIn(moved.value, OutboxEntity(DecisionMessage(command, approved)))
                   case Success(sent) => failure == None && store.View() == sent
                   case Failure(error) => failure == Some(error)
    {
      hide FlatStore, CreateIn, MoveRequest;
      if link.Some? && Awaits(link.value.status) {
        failure := MoveLinkedRequest(link.value, version, context, a, approved, command.occurredAt);
        if failure.Some? {
          return;
        }
      }
      if !LegalEvent(command, context, now) {
        return Some(ValidationFailed);
      }
      if !isNew {
        return None;
      }
      failure := CreateEntity(OutboxEntity(DecisionMessage(command, approved)));
    }

    /** The branch that decides a pending approval: its record, its request, its message, in that order. */
    method DecidePending(a: Approval, access: AccessContext, command: Command, context: MutationContext,
                         approved: bool, now: int)
      returns (result: Result<Resolution, Error>)
      requires Valid()
      modifies store, store.objects
      ensures Valid() && activities.Extended()
      ensures match Decide(old(store.View()), a, access, command, context, approved, now)
              case Success((db, resolution)) => store.View() == db && result == Success(resolution)
              case Failure(error) => result == Failure(error)
    {
      hide FlatStore, SaveIn, CreateIn, LinkOf, MoveRequest, Apply, KeyOf;
      ghost var db := store.View();
      var messageKey := MessageKey(command.projectId, a.id, approved);
      var link, version, existing := ReadForDecision(a, messageKey);
      if link.Failure? {
        return Failure(link.error);
      }
      var refusal := Refusal(access, a.projectId, MayOperate);
      if refusal.Some? {
        return Failure(refusal.value);
      }
      var decided := Decided(a, approved, access.userId, command);
      ApprovalKeyOf(decided);
      var saved := SaveEntity(ApprovalEntity(decided), command.expectedVersion);
      if saved.Failure? {
        return Failure(saved.error);
      }
      SaveTouchesOneRecord(db, ApprovalEntity(decided), command.expectedVersion);
      var failure := WriteConsequences(link.value, version, a, command, context, approved, now, existing.None?);
      if failure.Some? {
        return Failure(failure.value);
      }
      result := Success((saved.value.approval, if existing.None? then Some(messageKey.id) else None));
    }

    method ApplyResolution(t: Attempt) returns (result: Result<Resolution, Error>)
      requires Valid() && t.access.projectId == t.command.projectId
      modifies store, store.objects
      ensures Valid() && activities.Extended()
      ensures match Approvals.ApplyResolution(old(store.View()), t.access, t.command, t.context, t.approved, t.now)
              case Success((db, resolution)) => store.View() == db && result == Success(resolution)
              case Failure(error) => result == Failure(error)
    {
      hide FlatStore, Decide, Apply;
      var refusal := Refusal(t.access, t.access.projectId, MayRead);
      if refusal.Some? {
        return Failure(refusal.value);
      }
      var current := FindApproval(t.access.projectId, t.command.approvalId);
      if current.None? {
        return Failure(EntityNotFound);
      }
      var a := current.value;
      var version := StoredVersion(ApprovalKey(t.access.projectId, t.command.approvalId));
      if t.command.expectedVersion.Some? && Some(t.command.expectedVersion.value) != version {
        return Failure(VersionConflict);
      }
      if a.status != ApprovalStatus.Pending {
        if a.status != Outcome(t.approved) {
          return Failure(ApprovalFailed);
        }
        var messageKey := MessageKey(t.command.projectId, a.id, t.approved);
        var existing := activities.ReadStored(messageKey);
        return Success((a, if existing.Some? then Some(messageKey.id) else None));
      }
      result := DecidePending(a, t.access, t.command, t.context, t.approved, t.now);
    }

    method AnswerReplay(t: Attempt) returns (result: Result<Resolution, Error>)
      requires Valid() && t.access.projectId == t.command.projectId
      modifies store, store.objects
      ensures Valid() && activities.Extended() && store.View() == old(store.View())
      ensures match Replay(store.View(), t.access, t.command)
              case Success((_, resolution)) => result == Success(resolution)
              case Failure(error) => result == Failure(error)
    {
      hide FlatStore;
      var refusal := Refusal(t.access, t.access.projectId, MayRead);
      if refusal.Some? {
        return Failure(refusal.value);
      }
      var current := FindApproval(t.access.projectId, t.command.approvalId);
      if current.None? {
        return Failure(EntityNotFound);
      }
      var a := current.value;
      if a.status !in {ApprovalStatus.Approved, ApprovalStatus.Rejected} {
        return Success((a, None));
      }
      var messageKey := MessageKey(t.command.projectId, a.id, a.status == ApprovalStatus.Approved);
      var existing := activities.ReadStored(messageKey);
      result := Success((a, if existing.Some? then Some(messageKey.id) else None));
    }

    /** The operation inside the transaction: replay a known mutation, or decide and record. */
    method Operate(t: Attempt) returns (result: Result<Mutation<Resolution>, Error>)
      requires Valid() && t.access.projectId == t.command.projectId
      modifies store, store.objects
      ensures Valid() && activities.Extended()
      ensures match Operation(old(store.View()), ApprovalRuns.CallOf(t))
              case Success((db, mutation)) => store.View() == db && result == Success(mutation)
              case Failure(error) => result == Failure(error)
    {
      hide FlatStore, Activity.Prepare, Approvals.ApplyResolution, Replay, BuildEvent, SpecOf;
      var expected := BuildEvent(t.context, SpecOf(t));
      var standing := activities.Prepare(t.context, expected, []);
      if standing.Failure? {
        return Failure(standing.error);
      }
      if standing.value.existing.Some? {
        var answer := AnswerReplay(t);
        if answer.Failure? {
          return Failure(answer.error);
        }
        ReplayKeepsStore(store.View(), t);
        var unwritten := activities.CreateMissing(standing.value.missing);
        if unwritten.Some? {
          return Failure(unwritten.value);
        }
        return Success(Mutation(Some(answer.value), standing.value.existing.value, true));
      }
      var done := ApplyResolution(t);
      if done.Failure? {
        return Failure(done.error);
      }
      var failure := activities.CreateMissing([expected] + standing.value.missing);
      if failure.Some? {
        return Failure(failure.value);
      }
      result := Success(Mutation(Some(done.value), expected, false));
    }

    /** `approve` and `reject` after their enrichment: the same outcome and store as on values, and a
        store that is untouched, collection by collection, when any step raises. */
    method Commit(t: Attempt) returns (result: Result<Mutation<Resolution>, Error>)
      requires Valid()
      modifies store, store.objects
      ensures Valid() && activities.Extended()
      ensures (store.View(), result) == ApprovalRuns.Commit(old(store.View()), t)
      ensures result.Failure? ==> store.Collections() == old(store.Collections())
    {
      hide FlatStore, Operation, BuildEvent;
      var objection := Objection(t);
      if objection.Some? {
        return Failure(objection.value);
      }
      if !SafeSpec(t) {
        return Failure(ValidationFailed);
      }
      assert WellScoped(ApprovalRuns.CallOf(t));
      var transaction := new MemoryStoreTransaction(store);
      transaction.Enter();
      result := Operate(t);
      transaction.Exit(result.Failure?);
    }
  }

  lemma ApprovalKeyOf(a: Approval)
    ensures KeyOf(ApprovalEntity(a)) == ApprovalKey(a.projectId, a.id)
  {
  }

  lemma SaveTouchesOneRecord(db: Db, e: Entity, expected: Option<int>)
    requires SaveIn(db, e, expected).Success?
    ensures var after := SaveIn(db, e, expected).value;
            && KeyOf(e) in after && after[KeyOf(e)].entity == WithVersion(e, after[KeyOf(e)].version)
            && forall k | k != KeyOf(e) :: (k in after <==> k in db) && (k in db ==> after[k] == db[k])
  {
  }

  lemma ReplayKeepsStore(db: Db, t: Attempt)
    ensures Replay(db, t.access, t.command).Success? ==> Replay(db, t.access, t.command).value.0 == db
  {
  }
}
