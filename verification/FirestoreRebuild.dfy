/** The rebuild's transaction on Firestore: it is portable whatever the store holds. */
module FirestoreRebuild {
  import opened Foundations
  import opened Models
  import opened Repository
  import opened Sessions
  import opened Activity
  import opened FirestoreCache
  import opened FirestoreTransactions
  import opened Machines
  import opened Audits
  import opened Projections
  import opened ProjectionRebuild

  /** The rebuild's mutation as a machine; the report was read from `seen` before. */
  function RebuildAudit(cal: Calendar, seen: Db, o: Order): Audit<seq<Reply>, seq<Reply>, DailyReport> {
    var selected := SliceOf(cal, o);
    var operationId := if o.operationId.Some? then o.operationId.value else "";
    var desired := Desired(cal, seen, o, selected);
    Audit(RebuildContext(o, desired.id, operationId, selected), RebuildSpec(cal, o, desired.id, operationId, selected),
          MachineOf(PersistClient(desired, o.now)), (r: DailyReport) => Some((r.projectId, r.id)),
          MachineOf(RequireClient(o.project, desired.id)))
  }

  lemma PersistExecutes(db: Db, desired: DailyReport, now: int)
    ensures var m := MachineOf(PersistClient(desired, now));
            Execute(m, db, m.start, 2) == ClientEffect(PersistClient(desired, now), 3)(db)
  {
    hide Run, Execute;
    ClientExecutes(PersistClient(desired, now), Begin(db), 2);
  }

  lemma RequireExecutes(db: Db, project: string, id: string)
    ensures var m := MachineOf(RequireClient(project, id));
            Execute(m, db, m.start, 2) == ClientEffect(RequireClient(project, id), 3)(db)
  {
    hide Run, Execute;
    ClientExecutes(RequireClient(project, id), Begin(db), 2);
  }

  lemma PersistSteps(desired: DailyReport, now: int, t: seq<Reply>)
    ensures var step := MachineOf(PersistClient(desired, now)).step(t);
            && (step.Ask? <==> |t| < 2)
            && (|t| == 0 ==> step == Ask(Get(ReportKey(desired.projectId, desired.id))))
            && (|t| == 1 && t[0].Found? ==>
                  step == Ask(if t[0].entity.Some? && t[0].entity.value.ReportEntity?
                              then Save(ReportEntity(NextReport(desired, t[0].entity.value.report, now)),
                                        Some(t[0].entity.value.report.version))
                              else Create(ReportEntity(FirstReport(desired, now)))))
  {
    var move := PersistClient(desired, now)(t);
    assert MachineOf(PersistClient(desired, now)).step(t) == StepOf(move);
    if |t| >= 2 { assert move == ReportOutcome(t[1]); }
  }

  lemma PersistHalts(db: Db, desired: DailyReport, now: int, t: seq<Reply>)
    requires |t| <= 2
    ensures Halts(MachineOf(PersistClient(desired, now)), db, t, 2 - |t|)
    decreases 2 - |t|
  {
    PersistSteps(desired, now, t);
    hide Apply, FirstReport, NextReport, PersistClient;
    var m := MachineOf(PersistClient(desired, now));
    if m.step(t).Ask? && |t| < 2 {
      PersistHalts(Apply(db, m.step(t).request).0, desired, now, m.next(t, Apply(db, m.step(t).request).1));
    }
  }

  /** One read and one write: an identifier that was read as free is free when it is created. */
  lemma PersistIsPortable(db: Db, f: Fire, desired: DailyReport, now: int)
    requires WellFormed(db) && f.snapshot == db && f.writes == []
    ensures PortableFrom(MachineOf(PersistClient(desired, now)), db, f, [], 2)
  {
    var m, k := MachineOf(PersistClient(desired, now)), ReportKey(desired.projectId, desired.id);
    assert k in db ==> KeyOf(db[k].entity) == k;
    hide FirstReport, NextReport, WellFormed;
    GetReads(f, k);
    var g := FireApply(f, Get(k)).0;
    assert m.step([]) == Ask(Get(k));
    AsksPortably(m, db, f, [], 2);
    var t := [Found(Read(db, k))];
    assert m.next([], Found(Read(db, k))) == t;
    WriteIsPortable(m, db, g, t, desired, now);
  }

  lemma WriteIsPortable(m: Machine<seq<Reply>, DailyReport>, db: Db, g: Fire, t: seq<Reply>,
                        desired: DailyReport, now: int)
    requires m == MachineOf(PersistClient(desired, now)) && g.writes == []
    requires var k := ReportKey(desired.projectId, desired.id);
             t == [Found(Read(db, k))] && (k in db ==> db[k].entity.ReportEntity?)
    ensures PortableFrom(m, db, g, t, 1)
  {
    hide FirstReport, NextReport, Apply, FireApply, PersistClient;
    NamesReport(desired, now);
    PersistSteps(desired, now, t);
    assert m.step(t).Ask?;
    var (after, reply) := Apply(db, m.step(t).request);
    PersistSteps(desired, now, t + [reply]);
    assert m.next(t, reply) == t + [reply];
    AsksPortably(m, db, g, t, 1);
  }

  lemma NamesReport(desired: DailyReport, now: int)
    ensures KeyOf(ReportEntity(FirstReport(desired, now))) == ReportKey(desired.projectId, desired.id)
    ensures KindOf(ReportEntity(FirstReport(desired, now))) == Reports
    ensures forall current :: KindOf(ReportEntity(NextReport(desired, current, now))) == Reports
  {
  }

  lemma RequireIsPortable(db: Db, f: Fire, project: string, id: string)
    requires f.snapshot == db && f.writes == []
    ensures PortableFrom(MachineOf(RequireClient(project, id)), db, f, [], 2)
  {
    hide FireApply;
    var m, k := MachineOf(RequireClient(project, id)), ReportKey(project, id);
    assert m.step([]) == Ask(Get(k));
    AsksPortably(m, db, f, [], 2);
    assert m.next([], Found(Read(db, k))) == [Found(Read(db, k))];
  }

  /** The event's key is no report's, so it stays free while the report is written. */
  lemma EventStaysFree(db: Db, desired: DailyReport, now: int, e: Key)
    requires WellFormed(db) && e.kind == Activities && ReadEvent(db, e).None?
    ensures Persist(db, desired, now).Success? ==> e !in Persist(db, desired, now).value.0
  {
    StoredEventIsRead(db, e);
    if Persist(db, desired, now).Success? {
      PersistedReport(db, desired, now);
    }
  }

  lemma RebuildIsPortable(cal: Calendar, seen: Db, db: Db, o: Order)
    requires WellFormed(db)
    ensures PortableAudit(RebuildAudit(cal, seen, o), db, 2)
  {
    hide WellFormed, PersistClient, RequireClient, PortableFrom, Halts, Execute, Persist, ClientEffect, RebuildContext,
         RebuildSpec, Desired, SliceOf, BuildEvent;
    var a, desired := RebuildAudit(cal, seen, o), Desired(cal, seen, o, SliceOf(cal, o));
    PersistHalts(db, desired, o.now, []);
    forall f: Fire | f.snapshot == db && f.writes == [] ensures PortableFrom(a.body, db, f, a.body.start, 2) {
      PersistIsPortable(db, f, desired, o.now);
    }
    forall f: Fire | f.snapshot == db && f.writes == [] ensures PortableFrom(a.replay, db, f, a.replay.start, 2) {
      RequireIsPortable(db, f, o.project, desired.id);
    }
    PersistExecutes(db, desired, o.now);
    PersistRuns(db, desired, o.now);
    if ReadEvent(db, EventKey(Main(a))).None? {
      EventStaysFree(db, desired, o.now, EventKey(Main(a)));
    }
  }

  /** `mutate` depends on the callbacks' effects on this store only. */
  lemma SameMutation<V>(db: Db, c: Call<V>, d: Call<V>)
    requires c.context == d.context && c.spec == d.spec && c.identity == d.identity && c.additional == d.additional
    requires c.body(db) == d.body(db) && c.replay.Some? && d.replay.Some? && c.replay.value(db) == d.replay.value(db)
    ensures Mutate(db, c) == Mutate(db, d)
  {
    hide BuildEvent, Fence, MissingOrConflict, CreateEvents, Matches, DistinctIds;
  }

  /** On every store the rebuild's Firestore transaction is its transaction on the simple store. */
  lemma RebuildOnFirestore(cal: Calendar, seen: Db, db: Db, o: Order)
    requires WellFormed(db)
    ensures FireTransaction(db, ClientOf(Audited(RebuildAudit(cal, seen, o))), 6) ==
            Mutate(db, AuditedCall(cal, seen, o, SliceOf(cal, o)))
  {
    hide WellFormed, PersistClient, RequireClient, Execute, ClientEffect, RebuildContext, RebuildSpec, Desired, SliceOf,
         PortableAudit, FireTransaction, Mutate;
    var a, desired := RebuildAudit(cal, seen, o), Desired(cal, seen, o, SliceOf(cal, o));
    RebuildIsPortable(cal, seen, db, o);
    AuditedOnFirestore(a, db, 2);
    PersistExecutes(db, desired, o.now);
    RequireExecutes(db, o.project, desired.id);
    SameMutation(db, CallFor(a, 2), AuditedCall(cal, seen, o, SliceOf(cal, o)));
  }
}
