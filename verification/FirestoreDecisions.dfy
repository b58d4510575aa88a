/** A decision on Firestore: its requests are portable wherever the request's event has a free identifier. */
module FirestoreDecisions {
  import opened Foundations
  import opened Models
  import opened Repository
  import opened Access
  import opened Activity
  import opened Approvals
  import opened ApprovalRuns
  import opened ApprovalProgress
  import opened FirestoreCache
  import opened FirestoreTransactions
  import opened Machines
  import opened Audits
  import opened FirestoreRebuild
  import opened DecisionMachines

  lemma FireReads(f: Fire, req: Request)
    requires f.writes == [] && !IsWrite(req)
    ensures var g := FireApply(f, req).0; g.snapshot == f.snapshot && g.writes == []
  {
    hide DecodedPartition, PartitionVersions;
  }

  /** Versions that have been read stay known until the document is deleted. */
  lemma CacheGrows(f: Fire, req: Request, k: Key)
    requires k in f.versions && !req.Delete?
    ensures k in FireApply(f, req).0.versions
  {
    hide Valid, WithVersion, DecodedPartition;
  }

  lemma VersionIsCached(f: Fire, k: Key)
    requires f.writes == [] && k in f.snapshot && k.kind != Projects
    ensures k in FireApply(f, Request.VersionOf(k)).0.versions
  {
  }

  lemma WritesAddKeys(db: Db, req: Request, k: Key)
    requires (req.Save? || (req.Create? && KeyOf(req.entity) != k)) && k !in db
    ensures k !in Apply(db, req).0
  {
  }

  lemma RecallIsPortable(t: Attempt, db: Db, f: Fire, fuel: nat)
    requires 2 <= fuel && f.snapshot == db && f.writes == []
    ensures PortableFrom(RecallMachine(t), db, f, Recalling, fuel)
  {
    hide Refusal, FireApply, Apply;
    var m := RecallMachine(t);
    if m.step(Recalling).Ask? {
      FireReads(f, Get(CommandKey(t)));
      AsksPortably(m, db, f, Recalling, fuel);
      ReadChangesNothing(db, Get(CommandKey(t)));
      var g := FireApply(f, Get(CommandKey(t))).0;
      var next := m.next(Recalling, Apply(db, Get(CommandKey(t))).1);
      if next.Counting? {
        AsksPortably(m, db, g, next, fuel - 1);
      }
    }
  }

  lemma EndsPortably(t: Attempt, db: Db, f: Fire, stage: Stage, fuel: nat)
    requires stage.Resolved? || stage.Refused?
    ensures PortableFrom(DecisionMachine(t), db, f, stage, fuel)
  {
  }

  /** The decision's message is there already, or its identifier is free. */
  ghost predicate MessageFree(t: Attempt, db: Db, sent: bool) {
    sent || DecisionMessageKey(t) !in db
  }

  lemma SendingPortable(t: Attempt, db: Db, f: Fire, saved: Approval, sent: bool, fuel: nat)
    requires 1 <= fuel && MessageFree(t, db, sent)
    ensures PortableFrom(DecisionMachine(t), db, f, Sending(saved, sent), fuel)
  {
    hide LegalEvent, Apply, FireApply;
    var m, stage := DecisionMachine(t), Sending(saved, sent);
    if m.step(stage).Ask? {
      var req := m.step(stage).request;
      assert RequestKind(req) != Projects && KeyOf(req.entity) == DecisionMessageKey(t);
      AsksPortably(m, db, f, stage, fuel);
      EndsPortably(t, Apply(db, req).0, FireApply(f, req).0, m.next(stage, Apply(db, req).1), fuel - 1);
    }
  }

  ghost function MoveKey(t: Attempt, r: MaterialRequest, approvalId: string): Key {
    EventKey(RequestEvent(t.context, r.id, approvalId, t.approved))
  }

  lemma MovingNext(t: Attempt, saved: Approval, pinned: Pinned, sent: bool, reply: Reply)
    ensures NextStage(t, Moving(saved, pinned, sent), reply) ==
            if reply.Failed? then Refused(reply.error) else Noting(saved, pinned.request, sent)
  {
  }

  lemma MovingPortable(t: Attempt, db: Db, f: Fire, saved: Approval, pinned: Pinned, sent: bool, fuel: nat)
    requires 3 <= fuel && MessageFree(t, db, sent)
    requires RequestKey(pinned.request.projectId, pinned.request.id) in f.versions
    requires MoveKey(t, pinned.request, saved.id) !in db
    ensures PortableFrom(DecisionMachine(t), db, f, Moving(saved, pinned, sent), fuel)
  {
    hide Apply, FireApply, RequestEvent, DecisionMessageKey, NextStage;
    var m, stage := DecisionMachine(t), Moving(saved, pinned, sent);
    var req := m.step(stage).request;
    AsksPortably(m, db, f, stage, fuel);
    hide PortableFrom, StageStep, MoveKey;
    var (moved, reply) := Apply(db, req);
    MovingNext(t, saved, pinned, sent, reply);
    WritesAddKeys(db, req, MoveKey(t, pinned.request, saved.id));
    if DecisionMessageKey(t) !in db { WritesAddKeys(db, req, DecisionMessageKey(t)); }
    if reply.Failed? {
      EndsPortably(t, moved, FireApply(f, req).0, Refused(reply.error), fuel - 1);
    } else {
      NotingPortable(t, moved, FireApply(f, req).0, saved, pinned.request, sent, fuel - 1);
    }
  }

  lemma NotingPortable(t: Attempt, db: Db, f: Fire, saved: Approval, r: MaterialRequest, sent: bool, fuel: nat)
    requires 2 <= fuel && MessageFree(t, db, sent) && MoveKey(t, r, saved.id) !in db
    ensures PortableFrom(DecisionMachine(t), db, f, Noting(saved, r, sent), fuel)
  {
    hide Apply, FireApply, RequestEvent;
    var m, stage := DecisionMachine(t), Noting(saved, r, sent);
    var req := m.step(stage).request;
    AsksPortably(m, db, f, stage, fuel);
    var (noted, reply) := Apply(db, req);
    if DecisionMessageKey(t) !in db { WritesAddKeys(db, req, DecisionMessageKey(t)); }
    if reply.Failed? {
      EndsPortably(t, noted, FireApply(f, req).0, m.next(stage, reply), fuel - 1);
    } else {
      SendingPortable(t, noted, FireApply(f, req).0, saved, sent, fuel - 1);
    }
  }

  /** The linked request's version has been read and its event's identifier is free. */
  ghost predicate LinkFree(t: Attempt, db: Db, f: Fire, a: Approval, link: Option<Pinned>) {
    link.Some? && Awaits(link.value.request.status) ==>
      && RequestKey(link.value.request.projectId, link.value.request.id) in f.versions
      && MoveKey(t, link.value.request, a.id) !in db
  }

  /** What follows the saving of the approval. */
  lemma SavedPortable(t: Attempt, db: Db, f: Fire, link: Option<Pinned>, sent: bool, stored: Entity, fuel: nat)
    requires 3 <= fuel && MessageFree(t, db, sent)
    requires stored.ApprovalEntity? && LinkFree(t, db, f, stored.approval, link)
    ensures PortableFrom(DecisionMachine(t), db, f, AfterSaving(link, sent, stored), fuel)
  {
    hide PortableFrom, MessageFree, MoveKey;
    if link.Some? && Awaits(link.value.request.status) {
      MovingPortable(t, db, f, stored.approval, link.value, sent, fuel);
    } else {
      SendingPortable(t, db, f, stored.approval, sent, fuel);
    }
  }

  /** A save of another record leaves all that free. */
  lemma SaveLeavesFree(t: Attempt, db: Db, f: Fire, a: Approval, saved: Approval, link: Option<Pinned>, sent: bool,
                       req: Request)
    requires MessageFree(t, db, sent) && LinkFree(t, db, f, a, link) && req.Save? && saved.id == a.id
    ensures MessageFree(t, Apply(db, req).0, sent)
    ensures LinkFree(t, Apply(db, req).0, FireApply(f, req).0, saved, link)
  {
    hide Apply, FireApply, RequestEvent, DecisionMessageKey;
    if DecisionMessageKey(t) !in db { WritesAddKeys(db, req, DecisionMessageKey(t)); }
    if link.Some? && Awaits(link.value.request.status) {
      CacheGrows(f, req, RequestKey(link.value.request.projectId, link.value.request.id));
      WritesAddKeys(db, req, MoveKey(t, link.value.request, a.id));
    }
  }

  lemma StoredApproval(db: Db, a: Approval, expected: Option<int>)
    ensures var reply := Apply(db, Save(ApprovalEntity(a), expected)).1;
            || reply.Failed?
            || (reply.Stored? && reply.stored.ApprovalEntity? && reply.stored.approval.id == a.id)
  {
  }

  lemma SavingNext(t: Attempt, a: Approval, link: Option<Pinned>, sent: bool, reply: Reply)
    ensures var next := NextStage(t, Saving(a, link, sent), reply);
            && (reply.Failed? ==> next == Refused(reply.error))
            && (reply.Stored? ==> next == AfterSaving(link, sent, reply.stored))
  {
    hide AfterSaving;
  }

  lemma SavingPortable(t: Attempt, db: Db, f: Fire, a: Approval, link: Option<Pinned>, sent: bool, fuel: nat)
    requires 4 <= fuel && f.writes == [] && MessageFree(t, db, sent) && LinkFree(t, db, f, a, link)
    ensures PortableFrom(DecisionMachine(t), db, f, Saving(a, link, sent), fuel)
  {
    hide Apply, FireApply, Refusal, MessageFree, LinkFree, AfterSaving, NextStage;
    var m, stage := DecisionMachine(t), Saving(a, link, sent);
    if m.step(stage).Ask? {
      var req := m.step(stage).request;
      AsksPortably(m, db, f, stage, fuel);
      hide PortableFrom, StageStep;
      var (saved, reply) := Apply(db, req);
      var g := FireApply(f, req).0;
      StoredApproval(db, Decided(a, t.approved, t.access.userId, t.command), t.command.expectedVersion);
      SavingNext(t, a, link, sent, reply);
      if reply.Failed? {
        EndsPortably(t, saved, g, Refused(reply.error), fuel - 1);
      } else {
        SaveLeavesFree(t, db, f, a, reply.stored.approval, link, sent, req);
        SavedPortable(t, saved, g, link, sent, reply.stored, fuel - 1);
      }
    }
  }

  lemma CheckingPortable(t: Attempt, db: Db, f: Fire, a: Approval, link: Option<Pinned>, fuel: nat)
    requires 5 <= fuel && f.snapshot == db && f.writes == [] && LinkFree(t, db, f, a, link)
    ensures PortableFrom(DecisionMachine(t), db, f, Checking(a, link), fuel)
  {
    hide Apply, FireApply, RequestEvent;
    var m, stage, k := DecisionMachine(t), Checking(a, link), DecisionMessageKey(t);
    AsksPortably(m, db, f, stage, fuel);
    hide PortableFrom;
    FireReads(f, Get(k));
    ReadChangesNothing(db, Get(k));
    if link.Some? && Awaits(link.value.request.status) {
      CacheGrows(f, Get(k), RequestKey(link.value.request.projectId, link.value.request.id));
    }
    ReadFinds(db, k);
    SavingPortable(t, db, FireApply(f, Get(k)).0, a, link, k in db, fuel - 1);
  }

  lemma ReadFinds(db: Db, k: Key)
    ensures Apply(db, Get(k)).1 == Found(Read(db, k)) && (Read(db, k).Some? <==> k in db)
  {
  }

  /** The event that the decision's move would record is free. */
  ghost predicate MoveFree(t: Attempt, db: Db, a: Approval) {
    MoveIsFree(db, a, t.context, t.approved)
  }

  lemma PinningPortable(t: Attempt, db: Db, f: Fire, a: Approval, r: MaterialRequest, fuel: nat)
    requires 6 <= fuel && f.snapshot == db && f.writes == [] && Known(t, db, a) && MoveFree(t, db, a)
    requires LinkOf(db, a) == Success(Some(r)) && r in Linked(db, a.projectId, a.id)
    ensures PortableFrom(DecisionMachine(t), db, f, Pinning(a, r), fuel)
  {
    hide Apply, FireApply, Linked, LinkOf, LinkFree, MoveFree, Known, NextStage;
    KnownStored(t, db, a, r);
    var m, stage, k := DecisionMachine(t), Pinning(a, r), RequestKey(r.projectId, r.id);
    AsksPortably(m, db, f, stage, fuel);
    hide PortableFrom, StageStep;
    FireReads(f, Request.VersionOf(k));
    VersionIsCached(f, k);
    ReadChangesNothing(db, Request.VersionOf(k));
    var next := m.next(stage, Apply(db, Request.VersionOf(k)).1);
    PinnedNext(t, db, a, r);
    var g := FireApply(f, Request.VersionOf(k)).0;
    PinnedIsFree(t, db, g, a, r, next.link);
    CheckingPortable(t, db, g, a, next.link, fuel - 1);
  }

  lemma PinnedIsFree(t: Attempt, db: Db, f: Fire, a: Approval, r: MaterialRequest, link: Option<Pinned>)
    requires LinkOf(db, a) == Success(Some(r)) && MoveFree(t, db, a) && link.Some? && link.value.request == r
    requires RequestKey(r.projectId, r.id) in f.versions
    ensures LinkFree(t, db, f, a, link)
  {
    hide LinkOf, RequestEvent;
  }

  lemma PinnedNext(t: Attempt, db: Db, a: Approval, r: MaterialRequest)
    ensures var next := NextStage(t, Pinning(a, r), Apply(db, Request.VersionOf(RequestKey(r.projectId, r.id))).1);
            next.Checking? && next.approval == a && next.link.Some? && next.link.value.request == r
  {
  }

  lemma ListedReply(db: Db, project: string)
    ensures Apply(db, ListAll(Requests, project)) == (db, Listed(EntitiesIn(db, Requests, project)))
  {
  }

  lemma ListingPortable(t: Attempt, db: Db, f: Fire, a: Approval, fuel: nat)
    requires 7 <= fuel && f.snapshot == db && f.writes == [] && Known(t, db, a) && MoveFree(t, db, a)
    requires a.actionType == Purchase
    ensures PortableFrom(DecisionMachine(t), db, f, Listing(a), fuel)
  {
    hide Apply, FireApply, Known, EntitiesIn, Linked, LinkOf, LinkKnown, AfterListing, MoveFree;
    KnownNames(t, db, a);
    var m, req := DecisionMachine(t), ListAll(Requests, t.command.projectId);
    AsksPortably(m, db, f, Listing(a), fuel);
    hide PortableFrom;
    FireReads(f, req);
    ListedReply(db, t.command.projectId);
    LinkCases(db, a);
    var g, next := FireApply(f, req).0, AfterListing(a, EntitiesIn(db, Requests, a.projectId));
    if next.Checking? {
      CheckingPortable(t, db, g, a, None, fuel - 1);
    } else if next.Pinning? {
      PinningPortable(t, db, g, a, next.request, fuel - 1);
    } else {
      EndsPortably(t, db, g, next, fuel - 1);
    }
  }

  lemma AnsweringPortable(t: Attempt, db: Db, f: Fire, a: Approval, fuel: nat)
    requires 1 <= fuel && f.snapshot == db && f.writes == []
    ensures PortableFrom(DecisionMachine(t), db, f, Answering(a), fuel)
  {
    hide Apply, FireApply;
    var m, k := DecisionMachine(t), DecisionMessageKey(t);
    AsksPortably(m, db, f, Answering(a), fuel);
    ReadFinds(db, k);
    EndsPortably(t, Apply(db, Get(k)).0, FireApply(f, Get(k)).0, m.next(Answering(a), Apply(db, Get(k)).1), fuel - 1);
  }

  lemma VersioningPortable(t: Attempt, db: Db, f: Fire, a: Approval, fuel: nat)
    requires 8 <= fuel && f.snapshot == db && f.writes == [] && Known(t, db, a)
    requires a.status == ApprovalStatus.Pending ==> MoveFree(t, db, a)
    ensures PortableFrom(DecisionMachine(t), db, f, Versioning(a), fuel)
  {
    hide Apply, FireApply, Known, AfterVersion, MoveFree, NextStage;
    var m, req := DecisionMachine(t), Request.VersionOf(CommandKey(t));
    AsksPortably(m, db, f, Versioning(a), fuel);
    hide PortableFrom, StageStep;
    FireReads(f, req);
    ReadChangesNothing(db, req);
    VersionReply(db, CommandKey(t));
    VersioningNext(t, a, Apply(db, req).1);
    var next, g := m.next(Versioning(a), Apply(db, req).1), FireApply(f, req).0;
    AfterVersionIs(t, a, Apply(db, req).1.version);
    ListingNeedsPending(t, a, Apply(db, req).1.version);
    if next.Listing? {
      ListingPortable(t, db, g, a, fuel - 1);
    } else if next.Checking? {
      CheckingPortable(t, db, g, a, None, fuel - 1);
    } else if next.Answering? {
      AnsweringPortable(t, db, g, a, fuel - 1);
    } else {
      EndsPortably(t, db, g, next, fuel - 1);
    }
  }

  lemma VersioningNext(t: Attempt, a: Approval, reply: Reply)
    requires reply.Versioned?
    ensures NextStage(t, Versioning(a), reply) == AfterVersion(t, a, reply.version)
  {
    hide AfterVersion;
  }

  lemma VersionReply(db: Db, k: Key)
    ensures Apply(db, Request.VersionOf(k)).1.Versioned?
  {
  }

  lemma ListingNeedsPending(t: Attempt, a: Approval, version: Option<nat>)
    ensures AfterVersion(t, a, version).Listing? ==> a.status == ApprovalStatus.Pending
  {
  }

  /** Unless the attempt is a duplicate, the event that moving the linked request records has a free identifier,
      and it is not the decision's own. */
  predicate MovesFreely(t: Attempt, db: Db) {
    PendingNow(db, t) && EventKey(Expected(CallOf(t))) !in db ==>
      var a := ReadApproval(db, t.command.projectId, t.command.approvalId).value;
      && MoveIsFree(db, a, t.context, t.approved)
      && (Mover(db, a).Some? ==>
            EventKey(RequestEvent(t.context, Mover(db, a).value.id, a.id, t.approved)) != EventKey(Expected(CallOf(t))))
  }

  lemma ResolutionIsPortable(t: Attempt, db: Db, f: Fire)
    requires WellFormed(db) && t.access.projectId == t.command.projectId
    requires MovesFreely(t, db) && EventKey(Expected(CallOf(t))) !in db
    requires f.snapshot == db && f.writes == []
    ensures PortableFrom(DecisionMachine(t), db, f, Requiring, 9)
  {
    hide Apply, FireApply, WellFormed, Refusal, MoveIsFree, Mover, RequestEvent, Expected;
    var m, k := DecisionMachine(t), CommandKey(t);
    if m.step(Requiring).Ask? {
      AsksPortably(m, db, f, Requiring, 9);
      hide PortableFrom;
      FireReads(f, Get(k));
      ReadChangesNothing(db, Get(k));
      ReadFinds(db, k);
      var g := FireApply(f, Get(k)).0;
      var current := ReadApproval(db, t.command.projectId, t.command.approvalId);
      if current.Some? {
        VersioningPortable(t, db, g, current.value, 8);
      } else {
        EndsPortably(t, db, g, Refused(EntityNotFound), 8);
      }
    }
  }

  /** The decision adds no event but the move's. */
  lemma DecisionLeavesFree(t: Attempt, db: Db, k: Key)
    requires MovesFreely(t, db) && k == EventKey(Expected(CallOf(t))) && k !in db
    requires t.access.projectId == t.command.projectId
    ensures var done := ApplyResolution(db, t.access, t.command, t.context, t.approved, t.now);
            done.Success? ==> k !in done.value.0
  {
    hide Decide, Refusal, Mover, RequestEvent, SpecOf, BuildEvent;
    var done := ApplyResolution(db, t.access, t.command, t.context, t.approved, t.now);
    if PendingNow(db, t) && done.Success? {
      var a := ReadApproval(db, t.command.projectId, t.command.approvalId).value;
      DecideAddsEvent(db, a, t.access, t.command, t.context, t.approved, t.now, k);
    }
  }

  /** The attempt's mutation as a machine. */
  function DecisionAudit(t: Attempt): Audit<Stage, Recall, Resolution> {
    Audit(t.context, SpecOf(t), DecisionMachine(t), CallOf(t).identity, RecallMachine(t))
  }

  lemma DecisionIsPortable(t: Attempt, db: Db)
    requires WellFormed(db) && t.access.projectId == t.command.projectId && MovesFreely(t, db)
    ensures PortableAudit(DecisionAudit(t), db, 9)
  {
    hide WellFormed, PortableFrom, Halts, Execute, SpecOf, BuildEvent, MovesFreely, ApplyResolution;
    var a := DecisionAudit(t);
    MachineResolves(t, db);
    forall f: Fire | f.snapshot == db && f.writes == [] ensures PortableFrom(a.replay, db, f, a.replay.start, 9) {
      RecallIsPortable(t, db, f, 9);
    }
    assert Main(a) == Expected(CallOf(t));
    if ReadEvent(db, EventKey(Main(a))).None? {
      StoredEventIsRead(db, EventKey(Main(a)));
      forall f: Fire | f.snapshot == db && f.writes == [] ensures PortableFrom(a.body, db, f, a.body.start, 9) {
        ResolutionIsPortable(t, db, f);
      }
      DecisionLeavesFree(t, db, EventKey(Main(a)));
    }
  }

  /** Where the request's event has a free identifier, an attempt to decide does on Firestore exactly what it
      does on the simple store. */
  lemma DecisionOnFirestore(t: Attempt, db: Db)
    requires WellFormed(db) && Objection(t).None? && SafeSpec(t) && MovesFreely(t, db)
    ensures FireTransaction(db, ClientOf(Audited(DecisionAudit(t))), 13) == ApprovalRuns.Commit(db, t)
  {
    hide WellFormed, Execute, SpecOf, SafeSpec, MovesFreely, PortableAudit, FireTransaction, Mutate, ApplyResolution,
         DecisionMachine, RecallMachine, Approvals.Replay;
    var a := DecisionAudit(t);
    DecisionIsPortable(t, db);
    AuditedOnFirestore(a, db, 9);
    MachineResolves(t, db);
    RecallReplays(t, db, 9);
    DecisionCalls(t, db);
    SameMutation(db, CallFor(a, 9), CallOf(t));
  }

  lemma DecisionCalls(t: Attempt, db: Db)
    requires Execute(DecisionMachine(t), db, Requiring, 9) ==
             ApplyResolution(db, t.access, t.command, t.context, t.approved, t.now)
    requires Execute(RecallMachine(t), db, Recalling, 9) == Approvals.Replay(db, t.access, t.command)
    ensures CallFor(DecisionAudit(t), 9).body(db) == CallOf(t).body(db)
    ensures CallFor(DecisionAudit(t), 9).replay.value(db) == CallOf(t).replay.value(db)
  {
    hide Execute, ApplyResolution, Approvals.Replay, SpecOf;
  }

  /** In particular every attempt that decides on the simple store decides on Firestore, with the same effect. */
  lemma DecidesOnFirestore(t: Attempt, db: Db)
    requires WellFormed(db) && ValidContext(t.context) && Objection(t).None? && DecidesNow(db, t)
    ensures FireTransaction(db, ClientOf(Audited(DecisionAudit(t))), 13) == ApprovalRuns.Commit(db, t)
  {
    hide WellFormed, ValidContext, DecidesNow, FireTransaction, ApprovalRuns.Commit, Decidable, SafeSpec,
         RequestEvent, Fence, SpecOf;
    DecidesExactly(db, t);
    ReadyMovesFreely(t, db);
    DecisionOnFirestore(t, db);
  }

  lemma ReadyMovesFreely(t: Attempt, db: Db)
    requires Ready(db, t)
    ensures MovesFreely(t, db) && SafeSpec(t)
  {
    hide SafeSpec, RequestEvent, Fence, SpecOf, Mover, BuildEvent, LegalEvent, LinkOf;
  }
}
