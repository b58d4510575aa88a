/** The two write transactions of `AttachmentService` on the in-memory store, step by step. */
module AttachmentServices {
  import opened Foundations
  import opened Models
  import opened Repository
  import opened InMemory
  import opened Transactions
  import opened Access
  import opened ActivityServices
  import opened Attachments

  class AttachmentService {
    const store: InMemoryRepositoryStore
    const reader: ActivityService

    ghost predicate Valid()
      reads store, store.objects
    {
      store.Valid() && reader.store == store
    }

    constructor (store: InMemoryRepositoryStore)
      requires store.Valid()
      ensures this.store == store && Valid()
    {
      this.store := store;
      reader := new ActivityService(store);
    }

    /** `_create_activity`: looks first, and takes losing a race for the same event as success. */
    method CreateActivity(access: AccessContext, a: Attachment, action: Action, now: int)
      requires Valid()
      modifies store, store.objects
      ensures Valid() && reader.Extended()
      ensures store.View() == RecordAction(old(store.View()), access, a, action, now)
    {
      hide FlatStore, CreateIn;
      ghost var db := store.View();
      var key := ActionKey(access.projectId, a.id, action);
      var existing := reader.ReadStored(key);
      if existing.None? {
        var reply := store.Perform(Create(ActivityEntity(ActionEvent(access, a, action, now))));
      }
    }

    method CreateBody(access: AccessContext, a: Attachment, now: int) returns (failure: Option<Error>)
      requires Valid()
      modifies store, store.objects
      ensures Valid() && reader.Extended()
      ensures match Attachments.CreateWithActivity(old(store.View()), access, a, now)
              case Success(db) => failure == None && store.View() == db
              case Failure(error) => failure == Some(error)
    {
      hide FlatStore, CreateIn, RecordAction;
      CreateActivity(access, a, Requested, now);
      var reply := store.Perform(Create(AttachmentEntity(a)));
      failure := if reply.Failed? then Some(reply.error) else None;
    }

    method SaveBody(access: AccessContext, updated: Attachment, action: Action, now: int)
      returns (failure: Option<Error>)
      requires Valid()
      modifies store, store.objects
      ensures Valid() && reader.Extended()
      ensures match Attachments.SaveWithActivity(old(store.View()), access, updated, action, now)
              case Success(db) => failure == None && store.View() == db
              case Failure(error) => failure == Some(error)
    {
      hide FlatStore, SaveIn, RecordAction;
      var current := reader.ReadStored(AttachmentKey(updated.projectId, updated.id));
      if current.None? {
        return Some(EntityNotFound);
      }
      CreateActivity(access, updated, action, now);
      var reply := store.Perform(Save(AttachmentEntity(updated), Some(0)));
      failure := if reply.Failed? then Some(reply.error) else None;
    }

    /** A create that loses to an existing attachment takes its audit event back with it. */
    method CreateWithActivity(access: AccessContext, a: Attachment, now: int) returns (failure: Option<Error>)
      requires Valid()
      modifies store, store.objects
      ensures Valid() && reader.Extended()
      ensures match Attachments.CreateWithActivity(old(store.View()), access, a, now)
              case Success(db) => failure == None && store.View() == db
              case Failure(error) => failure == Some(error) && store.View() == old(store.View())
    {
      hide FlatStore, Attachments.CreateWithActivity;
      var transaction := new MemoryStoreTransaction(store);
      transaction.Enter();
      failure := CreateBody(access, a, now);
      transaction.Exit(failure.Some?);
    }

    /** A save that is too late takes its audit event back with it. */
    method SaveWithActivity(access: AccessContext, updated: Attachment, action: Action, now: int)
      returns (failure: Option<Error>)
      requires Valid()
      modifies store, store.objects
      ensures Valid() && reader.Extended()
      ensures match Attachments.SaveWithActivity(old(store.View()), access, updated, action, now)
              case Success(db) => failure == None && store.View() == db
              case Failure(error) => failure == Some(error) && store.View() == old(store.View())
    {
      hide FlatStore, Attachments.SaveWithActivity;
      var transaction := new MemoryStoreTransaction(store);
      transaction.Enter();
      failure := SaveBody(access, updated, action, now);
      transaction.Exit(failure.Some?);
    }
  }
}
