/** What every store that transactions can reach holds, and what a listing shows of it. */
module StoreOutcomes {
  import opened Foundations
  import opened Models
  import opened Ordering
  import opened Repository
  import opened Sessions
  import opened FirestoreCache

  /** The rules that the records' own validators state. */
  predicate Lawful(e: Entity) {
    match e
    case ApprovalEntity(a) =>
      && 0 <= a.version
      && (a.status == ApprovalStatus.Pending ==>
            a.resolvedAt.None? && (a.resolvedBy.None? || a.resolvedBy == Some(""))
              && (a.notes.None? || a.notes == Some("")))
      && (a.status == ApprovalStatus.Approved || a.status == ApprovalStatus.Rejected ==>
            a.resolvedAt.Some? && a.resolvedBy.Some?)
      && (a.resolvedAt.Some? ==> a.requestedAt <= a.resolvedAt.value)
    case RequestEntity(r) =>
      && 0 < r.quantity && 0 <= r.deliveredQuantity && r.deliveredQuantity <= r.quantity
      && (r.approvalId.None? ==> r.status == RequestStatus.Proposed || r.status == RequestStatus.Cancelled)
    case ActivityEntity(a) => a.actorType == System || a.actorId.Some?
    case AttachmentEntity(a) => 0 < a.byteSize && 0 < |a.objectPath| <= 2000 && |a.sha256| == 64
    case RunEntity(r) => 0 <= r.version
    case OutboxEntity(m) => 0 <= m.version
    case ReportEntity(r) => 0 <= r.version
    case OtherEntity(_, _, _, version, _) => version.Some? ==> 0 <= version.value
    case _ => true
  }

  lemma LawfulIsValid(e: Entity)
    ensures Lawful(e) <==> Valid(e)
  {
  }

  /** Over any transactions of any clients: every record is lawful, sits where its own project and ID say, and
      carries the version that the store counts for it. */
  lemma ReachableRecordsAreLawful(jobs: seq<Job>, k: Key)
    requires k in RunJobs(map[], jobs)
    ensures var record := RunJobs(map[], jobs)[k];
            && Lawful(record.entity)
            && (record.entity.ApprovalEntity? ==>
                  k == Key(Kind.Approvals, record.entity.approval.projectId, record.entity.approval.id)
                  && record.entity.approval.version == record.version)
            && (record.entity.RequestEntity? ==>
                  k == Key(Requests, record.entity.request.projectId, record.entity.request.id))
            && (record.entity.AttachmentEntity? ==>
                  k == Key(Kind.Attachments, record.entity.attachment.projectId, record.entity.attachment.id))
            && (record.entity.ActivityEntity? ==>
                  k == Key(Activities, record.entity.activity.projectId, record.entity.activity.id))
            && (record.entity.ReportEntity? ==>
                  k == Key(Reports, record.entity.report.projectId, record.entity.report.id)
                  && record.entity.report.version == record.version)
            && (record.entity.OutboxEntity? ==>
                  k == Key(Outbox, record.entity.message.projectId, record.entity.message.id)
                  && record.entity.message.version == record.version)
  {
    hide RunJobs, Replay, Accepted, SavesSinceCreation;
    var log := ReachableVersions(jobs);
    LawfulIsValid(RunJobs(map[], jobs)[k].entity);
  }

  /** A listing shows exactly the records that the collection holds for the project, each once, in the order of their
      identifiers. */
  lemma ListingIsExact(db: Db, kind: Kind, project: string)
    requires WellFormed(db)
    ensures Apply(db, ListAll(kind, project)).1.Listed?
    ensures var entities := Apply(db, ListAll(kind, project)).1.entities;
            && (forall e :: e in entities <==> Holds(db, kind, project, e))
            && forall i, j | 0 <= i < j < |entities| ::
                 IdOf(entities[i]) != IdOf(entities[j]) && TextLeq(IdOf(entities[i]), IdOf(entities[j]))
  {
    hide ListedFrom, Holds, WellFormed, SortedIds, IdsIn;
    var ids := SortedIds(IdsIn(db, kind, project));
    var entities := EntitiesIn(db, kind, project);
    SortedIdsAscending(IdsIn(db, kind, project));
    forall i | 0 <= i < |ids| ensures ListedFrom(db, kind, project, ids[i], entities[i]) {
      ListedByPlace(db, kind, project, i);
    }
    forall e ensures e in entities <==> Holds(db, kind, project, e) {
      if e in entities {
        var i :| 0 <= i < |entities| && entities[i] == e;
        ListedIsHeld(db, kind, project, ids[i], e);
      }
      if Holds(db, kind, project, e) {
        var i := HeldIsListed(db, kind, project, e);
        assert entities[i] == e;
      }
    }
    forall i, j | 0 <= i < j < |entities|
      ensures IdOf(entities[i]) != IdOf(entities[j]) && TextLeq(IdOf(entities[i]), IdOf(entities[j]))
    {
      ListedIsHeld(db, kind, project, ids[i], entities[i]);
      ListedIsHeld(db, kind, project, ids[j], entities[j]);
    }
  }

  lemma ListedByPlace(db: Db, kind: Kind, project: string, i: nat)
    requires WellFormed(db) && i < |SortedIds(IdsIn(db, kind, project))|
    ensures |EntitiesIn(db, kind, project)| == |SortedIds(IdsIn(db, kind, project))|
    ensures ListedFrom(db, kind, project, SortedIds(IdsIn(db, kind, project))[i], EntitiesIn(db, kind, project)[i])
  {
    var ids := SortedIds(IdsIn(db, kind, project));
    assert ids[i] in ids;
    assert KeyOf(db[Key(kind, project, ids[i])].entity) == Key(kind, project, ids[i]);
  }

  lemma ListedIsHeld(db: Db, kind: Kind, project: string, id: string, e: Entity)
    requires ListedFrom(db, kind, project, id, e)
    ensures Holds(db, kind, project, e) && IdOf(e) == id
  {
  }

  lemma HeldIsListed(db: Db, kind: Kind, project: string, e: Entity) returns (i: nat)
    requires WellFormed(db) && Holds(db, kind, project, e)
    ensures i < |EntitiesIn(db, kind, project)| && EntitiesIn(db, kind, project)[i] == e
  {
    var k: Key :| k in db && k.kind == kind && k.project == project && db[k].entity == e;
    assert k.id in IdsIn(db, kind, project);
    var ids := SortedIds(IdsIn(db, kind, project));
    i :| 0 <= i < |ids| && ids[i] == k.id;
    ListedByPlace(db, kind, project, i);
    assert k == Key(kind, project, ids[i]);
  }

  ghost predicate Holds(db: Db, kind: Kind, project: string, e: Entity) {
    exists k: Key :: k in db && k.kind == kind && k.project == project && db[k].entity == e
  }

  ghost predicate ListedFrom(db: Db, kind: Kind, project: string, id: string, e: Entity) {
    Key(kind, project, id) in db && db[Key(kind, project, id)].entity == e && IdOf(e) == id
  }

  /** In a Firestore transaction a project can be created by no repository, and only the document under its own ID is
      a project at all: everything else asked about it is not found, and changes nothing. */
  lemma FirestoreProjects(f: Fire, e: Entity, k: Key, expected: Option<int>)
    requires e.ProjectEntity? && k.kind == Projects && k.id != k.project
    ensures FireApply(f, Create(e)) == (f, Failed(UnsupportedOperation))
    ensures FireApply(f, Get(k)) == (f, Failed(EntityNotFound))
    ensures FireApply(f, Request.VersionOf(k)) == (f, Failed(EntityNotFound))
    ensures FireApply(f, Request.Delete(k, expected)) == (f, Failed(EntityNotFound))
  {
  }
}
