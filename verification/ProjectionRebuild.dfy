/** Rebuilding one daily report from its activities, through an audited mutation. */
module ProjectionRebuild {
  import opened Foundations
  import opened Models
  import opened Ordering
  import opened Repository
  import opened Sessions
  import opened Activity
  import opened ActivityServices
  import opened Projections
  import opened Identifiers
  import opened Texts

  datatype Order = Order(
    project: string, day: int, activities: seq<ActivityEvent>, apply: bool, operationId: Option<string>,
    maxActivities: int, now: int)

  datatype Evidence = Evidence(changed: bool, applied: bool, duplicate: bool, sourceCount: nat,
                               sourceDigest: string, reportId: string)

  predicate OpaqueId(id: string) {
    && 1 <= |id| <= 128 && AsciiAlphanumeric(id[0])
    && forall i | 0 <= i < |id| :: AsciiAlphanumeric(id[i]) || id[i] in {'.', '_', ':', '-'}
  }

  predicate ValidOrder(o: Order) {
    && 1 <= o.maxActivities <= 5000
    && (o.apply ==> Truthy(o.operationId))
    && (Truthy(o.operationId) ==> OpaqueId(o.operationId.value))
  }

  function ReportKey(project: string, id: string): Key {
    Key(Reports, project, id)
  }

  function ReadReport(db: Db, k: Key): Option<DailyReport> {
    var e := Read(db, k);
    if e.Some? && e.value.ReportEntity? then Some(e.value.report) else None
  }

  function SourceLine(a: ActivityEvent): string {
    a.id + ":" + a.action + ":" + if a.sourceEventId.Some? then a.sourceEventId.value else ""
  }

  function SourceMaterial(activities: seq<ActivityEvent>): string {
    if activities == [] then ""
    else if |activities| == 1 then SourceLine(activities[0])
    else SourceMaterial(activities[..|activities| - 1]) + "\n" + SourceLine(activities[|activities| - 1])
  }

  function Prefix(text: string, n: nat): string {
    if |text| < n then text else text[..n]
  }

  /** The source event of the last activity that has one, or an ID derived from the operation. */
  function SourceEvent(selected: seq<ActivityEvent>, operationId: string): string {
    if selected == [] then "evt_rebuild_" + Prefix(Sha256(operationId), 20)
    else
      var last := selected[|selected| - 1];
      if Truthy(last.sourceEventId) then last.sourceEventId.value
      else SourceEvent(selected[..|selected| - 1], operationId)
  }

  function RebuildContext(o: Order, reportId: string, operationId: string,
                          selected: seq<ActivityEvent>): MutationContext {
    MutationContext(o.project, System, None, Some(SourceEvent(selected, operationId)), None,
                    "projection:" + reportId + ":" + Prefix(Sha256(operationId), 24), None, None, o.now)
  }

  function RebuildSpec(cal: Calendar, o: Order, reportId: string, operationId: string,
                       selected: seq<ActivityEvent>): ActivitySpec {
    ActivitySpec("report.projection_rebuilt", "daily_report", reportId,
                 "Rebuilt daily report from " + Digits(|selected|) + " durable activities",
                 map["report_date" := Some(cal.isoDate(o.day)), "source_activity_count" := Some(Digits(|selected|)),
                     "source_digest" := Some(Sha256(SourceMaterial(selected))), "operation_id" := Some(operationId)])
  }

  function FirstReport(desired: DailyReport, now: int): DailyReport {
    desired.(createdAt := now, updatedAt := now)
  }

  function NextReport(desired: DailyReport, current: DailyReport, now: int): DailyReport {
    desired.(version := current.version, createdAt := current.createdAt, updatedAt := now, status := current.status)
  }

  // ----- the callbacks -----

  function ReportOutcome(reply: Reply): Move<DailyReport> {
    if reply.Stored? && reply.stored.ReportEntity? then Return(reply.stored.report)
    else if reply.Failed? then Raise(reply.error)
    else Raise(Interrupted)
  }

  /** `persist`: read the stored report, then create or save. */
  function PersistClient(desired: DailyReport, now: int): Client<DailyReport> {
    (transcript: seq<Reply>) =>
      if |transcript| == 0 then Move.Call(Get(ReportKey(desired.projectId, desired.id)))
      else if |transcript| == 1 then
        var first := transcript[0];
        if first.Found? && first.entity.Some? && first.entity.value.ReportEntity?
        then Move.Call(Save(ReportEntity(NextReport(desired, first.entity.value.report, now)),
                            Some(first.entity.value.report.version)))
        else Move.Call(Create(ReportEntity(FirstReport(desired, now))))
      else ReportOutcome(transcript[1])
  }

  function RequireClient(project: string, id: string): Client<DailyReport> {
    (transcript: seq<Reply>) =>
      if |transcript| == 0 then Move.Call(Get(ReportKey(project, id)))
      else
        var first := transcript[0];
        if first.Found? && first.entity.Some? && first.entity.value.ReportEntity? then Return(first.entity.value.report)
        else Raise(EntityNotFound)
  }

  /** What `persist` comes to. */
  function Persist(db: Db, desired: DailyReport, now: int): Result<(Db, DailyReport), Error> {
    var k := ReportKey(desired.projectId, desired.id);
    var current := ReadReport(db, k);
    if current.None? then
      match CreateIn(db, ReportEntity(FirstReport(desired, now)))
      case Success(d) => Success((d, FirstReport(desired, now)))
      case Failure(err) => Failure(err)
    else
      var next := NextReport(desired, current.value, now);
      match SaveIn(db, ReportEntity(next), Some(current.value.version))
      case Success(d) => Success((d, next.(version := d[k].version)))
      case Failure(err) => Failure(err)
  }

  /** A client that makes two requests and ends. */
  lemma TwoRequests<V>(db: Db, client: Client<V>, r1: Request, r2: Request)
    requires client([]) == Move.Call(r1)
    requires client([Apply(db, r1).1]) == Move.Call(r2)
    requires var (d1, a1) := Apply(db, r1); Finishes(client([a1, Apply(d1, r2).1]))
    ensures var (d1, a1) := Apply(db, r1);
            var (d2, a2) := Apply(d1, r2);
            var end := client([a1, a2]);
            ClientEffect(client, 3)(db) == if end.Return? then Success((d2, end.value)) else Failure(end.error)
  {
    hide Apply;
    var (d1, a1) := Apply(db, r1);
    var (d2, a2) := Apply(d1, r2);
    var s1, s2 := Session(d1, [], [a1]), Session(d2, [], [a1, a2]);
    assert Advance(Begin(db), client([])) == s1 && Advance(s1, client([a1])) == s2;
    assert Run(Begin(db), client, 3) == Run(s1, client, 2) == Run(s2, client, 1);
  }

  lemma NextReportKeepsPlace(desired: DailyReport, current: DailyReport, now: int)
    ensures NextReport(desired, current, now).projectId == desired.projectId
    ensures NextReport(desired, current, now).id == desired.id
  {
  }

  lemma PersistRuns(db: Db, desired: DailyReport, now: int)
    ensures ClientEffect(PersistClient(desired, now), 3)(db) == Persist(db, desired, now)
  {
    hide CreateIn, SaveIn, FirstReport, NextReport, ClientEffect;
    var client, k := PersistClient(desired, now), ReportKey(desired.projectId, desired.id);
    var current := ReadReport(db, k);
    if current.None? {
      var e := ReportEntity(FirstReport(desired, now));
      TwoRequests(db, client, Get(k), Create(e));
    } else {
      NextReportKeepsPlace(desired, current.value, now);
      if SaveIn(db, ReportEntity(NextReport(desired, current.value, now)), Some(current.value.version)).Success? {
        SavedReport(db, NextReport(desired, current.value, now), Some(current.value.version));
      }
      TwoRequests(db, client, Get(k),
                  Save(ReportEntity(NextReport(desired, current.value, now)), Some(current.value.version)));
    }
  }

  lemma SavedReport(db: Db, r: DailyReport, expected: Option<int>)
    requires SaveIn(db, ReportEntity(r), expected).Success?
    ensures var k := ReportKey(r.projectId, r.id);
            var after := SaveIn(db, ReportEntity(r), expected).value;
            k in after && after[k].entity == ReportEntity(r.(version := after[k].version))
  {
  }

  // ----- the rebuild -----

  function RebuildCall(cal: Calendar, o: Order, operationId: string, selected: seq<ActivityEvent>,
                       desired: DailyReport): ClientCall<DailyReport> {
    ClientCall(
      RebuildContext(o, desired.id, operationId, selected), RebuildSpec(cal, o, desired.id, operationId, selected),
      PersistClient(desired, o.now), (r: DailyReport) => Some((r.projectId, r.id)),
      Some(RequireClient(o.project, desired.id)), [], 3)
  }

  function EvidenceOf(cal: Calendar, o: Order, selected: seq<ActivityEvent>, changed: bool, applied: bool,
                      duplicate: bool): Evidence {
    Evidence(changed, applied, duplicate, |selected|, Sha256(SourceMaterial(selected)), ReportId(cal, o.project, o.day))
  }

  function Desired(cal: Calendar, seen: Db, o: Order, selected: seq<ActivityEvent>): DailyReport {
    BuiltReport(cal, o.project, o.day, selected, CurrentReport(cal, seen, o))
  }

  /** The report the store holds for the order's project and day. */
  function CurrentReport(cal: Calendar, db: Db, o: Order): Option<DailyReport> {
    ReadReport(db, ReportKey(o.project, ReportId(cal, o.project, o.day)))
  }

  predicate Changed(cal: Calendar, seen: Db, o: Order, selected: seq<ActivityEvent>) {
    CurrentReport(cal, seen, o).None?
      || !SameProjection(CurrentReport(cal, seen, o).value, Desired(cal, seen, o, selected))
  }

  /** The report's own validator accepts the project and the ID derived from it. */
  predicate Reportable(cal: Calendar, o: Order) {
    CanonicalId(o.project) && CanonicalId(ReportId(cal, o.project, o.day))
  }

  /** The description of the audit event accepts the operation ID. */
  predicate Describable(o: Order) {
    o.operationId.Some? ==> !Restricted(o.operationId.value)
  }

  /** `rebuild_daily_report`.  The stored report is read before the transaction begins: `seen` is the store at
      that moment, `db` the one on which the transaction runs. */
  ghost function Rebuild(cal: Calendar, seen: Db, db: Db, o: Order): (Db, Result<Evidence, Error>) {
    var selection := SelectSlice(cal, o.day, o.activities, o.maxActivities);
    if !ValidOrder(o) then (db, Failure(ValidationFailed))
    else if selection.Failure? then (db, Failure(selection.error))
    else if !Reportable(cal, o) then (db, Failure(ValidationFailed))
    else
      var selected := selection.value;
      var changed := Changed(cal, seen, o, selected);
      if !o.apply || !changed then (db, Success(EvidenceOf(cal, o, selected, changed, false, false)))
      else if !Describable(o) then (db, Failure(ValidationFailed))
      else
        match Mutate(db, AuditedCall(cal, seen, o, selected))
        case (after, Failure(err)) => (after, Failure(err))
        case (after, Success(mutation)) =>
          (after, Success(EvidenceOf(cal, o, selected, true, true, mutation.duplicate)))
  }

  ghost function AuditedCall(cal: Calendar, seen: Db, o: Order, selected: seq<ActivityEvent>): Call<DailyReport> {
    CallOf(RebuildCall(cal, o, if o.operationId.Some? then o.operationId.value else "", selected,
                       Desired(cal, seen, o, selected)))
  }

  /** The slice the order covers, when it is not too long. */
  function SliceOf(cal: Calendar, o: Order): seq<ActivityEvent> {
    var selection := SelectSlice(cal, o.day, o.activities, o.maxActivities);
    if selection.Success? then selection.value else []
  }

  /** The rebuild wrote the report, and not as a replay. */
  ghost predicate Applied(cal: Calendar, seen: Db, db: Db, o: Order) {
    var result := Rebuild(cal, seen, db, o).1;
    result.Success? && result.value.applied && !result.value.duplicate
  }

  method RebuildDailyReport(service: ActivityService, cal: Calendar, o: Order) returns (result: Result<Evidence, Error>)
    requires service.store.Valid()
    modifies service.store, service.store.objects
    ensures service.Extended()
    ensures (service.store.View(), result) == Rebuild(cal, old(service.store.View()), old(service.store.View()), o)
  {
    hide InMemory.FlatStore, Mutate, CallOf, BuiltReport, RebuildCall, SelectSlice, SameProjection;
    if !ValidOrder(o) {
      return Failure(ValidationFailed);
    }
    var selection := SelectSlice(cal, o.day, o.activities, o.maxActivities);
    if selection.Failure? {
      return Failure(selection.error);
    }
    var selected := selection.value;
    var reportId := ReportId(cal, o.project, o.day);
    var entity := service.ReadStored(ReportKey(o.project, reportId));
    var existing := if entity.Some? && entity.value.ReportEntity? then Some(entity.value.report) else None;
    if !CanonicalId(o.project) || !CanonicalId(reportId) {
      return Failure(ValidationFailed);
    }
    SelectionIsSorted(cal, o.day, o.activities, o.maxActivities);
    var desired := BuildReport(cal, o.project, o.day, selected, existing);
    var changed := existing.None? || !SameProjection(existing.value, desired);
    if !o.apply || !changed {
      return Success(EvidenceOf(cal, o, selected, changed, false, false));
    }
    if !Describable(o) {
      return Failure(ValidationFailed);
    }
    var mutation := service.Mutate(RebuildCall(cal, o, o.operationId.value, selected, desired));
    if mutation.Failure? {
      return Failure(mutation.error);
    }
    result := Success(EvidenceOf(cal, o, selected, true, true, mutation.value.duplicate));
  }

  // ----- what a rebuild does -----

  lemma PersistIsLogFree(desired: DailyReport, now: int)
    ensures ActivityFree(PersistClient(desired, now))
  {
  }

  lemma RequireReadsOnly(project: string, id: string)
    ensures ReadOnly(ClientEffect(RequireClient(project, id), 3))
  {
    var client := RequireClient(project, id);
    forall db | ClientEffect(client, 3)(db).Success? ensures ClientEffect(client, 3)(db).value.0 == db {
      var s1 := Advance(Begin(db), client([]));
      assert Run(Begin(db), client, 3) == Run(s1, client, 2);
      assert Finishes(client(s1.transcript));
    }
  }

  /** A rebuild is a mutation to which the exactly-once results apply. */
  lemma RebuildIsSound(cal: Calendar, seen: Db, o: Order, selected: seq<ActivityEvent>)
    ensures Sound(AuditedCall(cal, seen, o, selected))
  {
    var desired := Desired(cal, seen, o, selected);
    PersistIsLogFree(desired, o.now);
    ActivityFreeIsLogBlind(PersistClient(desired, o.now), 3);
    RequireReadsOnly(o.project, desired.id);
    hide LogBlind, ReadOnly, ClientEffect, PersistClient, RequireClient, Desired;
  }

  /** A fresh audited call: the persisted report plus one event. */
  lemma FreshRebuild(cal: Calendar, seen: Db, db: Db, o: Order)
    requires WellFormed(db) && Applied(cal, seen, db, o)
    ensures var call := AuditedCall(cal, seen, o, SliceOf(cal, o));
            var persisted := Persist(db, Desired(cal, seen, o, SliceOf(cal, o)), o.now);
            var after := Rebuild(cal, seen, db, o).0;
            && IsFresh(db, call) && persisted.Success? && after == Mutate(db, call).0
            && SameDomain(persisted.value.0, after) && AppendOnly(db, after) && WellFormed(after)
            && ReadEvent(after, EventKey(Expected(call))) == Some(Expected(call))
  {
    var selected := SliceOf(cal, o);
    var call, desired := AuditedCall(cal, seen, o, selected), Desired(cal, seen, o, selected);
    PersistRuns(db, desired, o.now);
    RebuildIsSound(cal, seen, o, selected);
    hide Sound, WellFormed, Persist, Desired, BuildEvent, ClientEffect, PersistClient, RequireClient, FreshParts,
         SelectSlice, Mutate, RebuildContext, RebuildSpec;
    RebuildOutcome(cal, seen, db, o);
    MutateAppends(db, call);
    FreshStoresItsEvent(db, call);
    FreshBody(db, call);
  }

  lemma FreshBody<V(!new)>(db: Db, call: Call<V>)
    requires IsFresh(db, call) && call.additional == []
    ensures call.body(db).Success? && SameDomain(call.body(db).value.0, Mutate(db, call).0)
  {
    FreshMeans(db, call);
    CreateEventsExtend(call.body(db).value.0, [Expected(call)] + MissingOrConflict(db, call.additional).value);
  }

  lemma PersistedReport(db: Db, desired: DailyReport, now: int)
    requires WellFormed(db) && Persist(db, desired, now).Success?
    ensures var k := ReportKey(desired.projectId, desired.id);
            var (after, report) := Persist(db, desired, now).value;
            && ReadReport(after, k) == Some(report)
            && (match ReadReport(db, k)
                case None => report == FirstReport(desired, now) && report.version == 0
                case Some(r) => report == NextReport(desired, r, now).(version := r.version + 1))
            && forall other | other != k ::
               (other in after <==> other in db) && (other in db ==> after[other] == db[other])
  {
  }

  /** The status a report is given when it is created. */
  function StatusSeen(cal: Calendar, seen: Db, o: Order): ReportStatus {
    var existing := CurrentReport(cal, seen, o);
    if existing.Some? then existing.value.status else Draft
  }

  /** What an applied rebuild leaves, however the store has moved on since the report was read: the report built
      from the slice, the next version of the one before with its status and creation time, every other record as
      it was, and its event in the log. */
  lemma AppliedRebuild(cal: Calendar, seen: Db, db: Db, o: Order)
    requires WellFormed(db) && Applied(cal, seen, db, o)
    ensures var after := Rebuild(cal, seen, db, o).0;
            var before, report := CurrentReport(cal, db, o), CurrentReport(cal, after, o);
            && report.Some?
            && SameProjection(report.value, BuiltReport(cal, o.project, o.day, SliceOf(cal, o), report))
            && report.value.updatedAt == o.now && report.value.extras == NO_EXTRAS
            && (match before
                case None =>
                  && report.value.version == 0 && report.value.createdAt == o.now
                  && report.value.status == StatusSeen(cal, seen, o)
                case Some(r) =>
                  && report.value.version == r.version + 1
                  && report.value.createdAt == r.createdAt
                  && report.value.status == r.status)
            && AppendOnly(db, after)
            && ReadEvent(after, EventKey(AuditEvent(cal, seen, o))) == Some(AuditEvent(cal, seen, o))
            && forall k: Key | k.kind != Activities && k != ReportKey(o.project, ReportId(cal, o.project, o.day)) ::
                 (k in after <==> k in db) && (k in db ==> after[k] == db[k])
  {
    hide SelectSlice, Rebuild, AuditedCall, Applied, AppendOnly, FactsOf, Unique, UpdateIds, Persist, Digits, Expected;
    FreshRebuild(cal, seen, db, o);
    PersistedReport(db, Desired(cal, seen, o, SliceOf(cal, o)), o.now);
  }

  ghost function AuditEvent(cal: Calendar, seen: Db, o: Order): ActivityEvent {
    Expected(AuditedCall(cal, seen, o, SliceOf(cal, o)))
  }

  /** Rebuilding again from the same slice finds nothing to change and writes nothing. */
  lemma RebuildTwice(cal: Calendar, seen: Db, db: Db, o: Order, again: Order)
    requires WellFormed(db) && Applied(cal, seen, db, o)
    requires ValidOrder(again) && again.project == o.project && again.day == o.day
    requires SelectSlice(cal, again.day, again.activities, again.maxActivities) == Success(SliceOf(cal, o))
    ensures var after := Rebuild(cal, seen, db, o).0;
            Rebuild(cal, after, after, again) ==
              (after, Success(EvidenceOf(cal, again, SliceOf(cal, o), false, false, false)))
  {
    NothingChanged(cal, seen, db, o, again);
    hide SelectSlice, AuditedCall, Mutate, Changed, ValidOrder, Applied, SliceOf, WellFormed, EvidenceOf;
    var after := Rebuild(cal, seen, db, o).0;
    assert Rebuild(cal, after, after, again).0 == after;
  }

  lemma NothingChanged(cal: Calendar, seen: Db, db: Db, o: Order, again: Order)
    requires WellFormed(db) && Applied(cal, seen, db, o) && again.project == o.project && again.day == o.day
    ensures !Changed(cal, Rebuild(cal, seen, db, o).0, again, SliceOf(cal, o))
  {
    hide SelectSlice, AppendOnly, Rebuild, Applied, WellFormed, BuiltReport, SameProjection, ReadReport;
    AppliedRebuild(cal, seen, db, o);
  }

  lemma AppliedSelects(cal: Calendar, seen: Db, db: Db, o: Order)
    requires Applied(cal, seen, db, o)
    ensures SelectSlice(cal, o.day, o.activities, o.maxActivities).Success?
  {
    hide SelectSlice, Mutate, AuditedCall, Changed;
  }

  lemma AuditIsUncategorised(cal: Calendar, seen: Db, o: Order)
    ensures CategoryOf(AuditEvent(cal, seen, o).action).None?
  {
    hide SelectSlice, SourceEvent, SourceMaterial, Digits, ClientEffect, BuiltReport, RebuildContext,
         CategoryOf, Desired, SliceOf;
    assert AuditEvent(cal, seen, o).action == "report.projection_rebuilt";
    RebuiltIsUncategorised();
  }

  lemma RebuiltIsUncategorised()
    ensures CategoryOf("report.projection_rebuilt").None?
  {
    var action := "report.projection_rebuilt";
    assert |action| == 25 && action[0] == 'r';
    assert "material.quantity_updated"[0] == 'm';
  }

  /** The same, when the second rebuild also sees the event of the first, and sees them all in any order. */
  lemma RebuildAfterRebuild(cal: Calendar, seen: Db, db: Db, o: Order, again: Order)
    requires WellFormed(db) && Applied(cal, seen, db, o)
    requires ValidOrder(again) && again.project == o.project && again.day == o.day
    requires again.maxActivities == o.maxActivities
    requires multiset(again.activities) == multiset(o.activities) + multiset{AuditEvent(cal, seen, o)}
    requires IdsName(again.activities, ActivityName)
    ensures var after := Rebuild(cal, seen, db, o).0;
            Rebuild(cal, after, after, again) ==
              (after, Success(EvidenceOf(cal, again, SliceOf(cal, o), false, false, false)))
  {
    hide AuditEvent, Rebuild, SelectSlice, Applied;
    AppliedSelects(cal, seen, db, o);
    var event := AuditEvent(cal, seen, o);
    AuditIsUncategorised(cal, seen, o);
    SelectionSkipsUncategorised(cal, o.day, o.activities, event, [], o.maxActivities);
    assert o.activities + [] == o.activities && o.activities + [event] + [] == o.activities + [event];
    SelectionForgetsOrder(cal, o.day, again.activities, o.activities + [event], o.maxActivities);
    RebuildTwice(cal, seen, db, o, again);
  }

  /** An operation ID applies at most once to a report: whatever happens to the store afterwards, another
      order under the same ID leaves every record but the log alone and is not reported as applied anew. */
  lemma OperationAppliesOnce(cal: Calendar, seen: Db, db: Db, o: Order, reading: Db, later: Db, again: Order)
    requires WellFormed(db) && Applied(cal, seen, db, o) && WellFormed(later)
    requires AppendOnly(Rebuild(cal, seen, db, o).0, later)
    requires again.project == o.project && again.day == o.day && again.operationId == o.operationId
    ensures !Applied(cal, reading, later, again) && SameDomain(later, Rebuild(cal, reading, later, again).0)
  {
    hide SelectSlice, WellFormed, AppendOnly, Mutate, Sound, Persist, BuiltReport, Applied, Rebuild, SameDomain,
         IsFresh, AuditedCall, SliceOf, BuildEvent;
    FreshRebuild(cal, seen, db, o);
    var call := AuditedCall(cal, reading, again, SliceOf(cal, again));
    assert EventKey(Expected(call)) == EventKey(AuditEvent(cal, seen, o)) by {
      SameOperationSameEvent(cal, seen, o, reading, again);
    }
    KeepsEvent(Rebuild(cal, seen, db, o).0, later, AuditEvent(cal, seen, o));
    RebuildIsSound(cal, reading, again, SliceOf(cal, again));
    if IsFresh(later, call) {
      FreshStoresItsEvent(later, call);
    }
    NotFreshKeepsDomain(later, call);
    RebuildOutcome(cal, reading, later, again);
  }

  lemma KeepsEvent(before: Db, after: Db, e: ActivityEvent)
    requires AppendOnly(before, after) && ReadEvent(before, EventKey(e)).Some?
    ensures EventKey(e) in after
  {
  }

  lemma SameOperationSameEvent(cal: Calendar, seen: Db, o: Order, reading: Db, again: Order)
    requires again.project == o.project && again.day == o.day && again.operationId == o.operationId
    ensures EventKey(AuditEvent(cal, reading, again)) == EventKey(AuditEvent(cal, seen, o))
  {
    hide SelectSlice, SourceEvent, Sha256, ClientEffect, FactsOf, Unique, UpdateIds;
  }

  /** A rebuild either leaves the store alone or is the audited call. */
  lemma RebuildOutcome(cal: Calendar, seen: Db, db: Db, o: Order)
    ensures var call := AuditedCall(cal, seen, o, SliceOf(cal, o));
            && (Rebuild(cal, seen, db, o).0 == db || Rebuild(cal, seen, db, o).0 == Mutate(db, call).0)
            && SameDomain(db, db)
            && (Applied(cal, seen, db, o) ==> IsFresh(db, call))
  {
    hide SelectSlice, Mutate, AuditedCall, Changed;
  }

  /** The rebuild drops the fields it does not compute: they survive exactly when they were empty. */
  lemma ExtrasDropped(cal: Calendar, seen: Db, db: Db, o: Order)
    requires WellFormed(db) && Applied(cal, seen, db, o) && CurrentReport(cal, db, o).Some?
    ensures var after := CurrentReport(cal, Rebuild(cal, seen, db, o).0, o);
            after.Some? && (after.value.extras == CurrentReport(cal, db, o).value.extras <==>
                            CurrentReport(cal, db, o).value.extras == NO_EXTRAS)
  {
    hide Rebuild, Applied, CurrentReport, WellFormed;
    AppliedRebuild(cal, seen, db, o);
  }

  /** Everything but the selection ignores the order's activities. */
  lemma OrderWithout(cal: Calendar, seen: Db, o: Order, activities: seq<ActivityEvent>, selected: seq<ActivityEvent>)
    ensures var same := o.(activities := activities);
            && AuditedCall(cal, seen, same, selected) == AuditedCall(cal, seen, o, selected)
            && Reportable(cal, same) == Reportable(cal, o) && Describable(same) == Describable(o)
            && ValidOrder(same) == ValidOrder(o)
            && Changed(cal, seen, same, selected) == Changed(cal, seen, o, selected)
            && forall changed, applied, duplicate ::
                 EvidenceOf(cal, same, selected, changed, applied, duplicate) ==
                   EvidenceOf(cal, o, selected, changed, applied, duplicate)
  {
    hide BuiltReport, SameProjection, FactsOf;
  }

  /** Two orders over the same activities in different arrangements do the same thing. */
  lemma RebuildForgetsOrder(cal: Calendar, seen: Db, db: Db, o: Order, activities: seq<ActivityEvent>)
    requires multiset(activities) == multiset(o.activities) && IdsName(o.activities, ActivityName)
    ensures Rebuild(cal, seen, db, o.(activities := activities)) == Rebuild(cal, seen, db, o)
  {
    hide SelectSlice, Mutate, BuiltReport, SameProjection, AuditedCall, Reportable, Describable, Changed,
         ValidOrder, EvidenceOf;
    var same := o.(activities := activities);
    OrderWithout(cal, seen, o, activities, SliceOf(cal, o));
    SelectionForgetsOrder(cal, o.day, o.activities, activities, o.maxActivities);
  }

  /** Persisting the report fails on a well-formed store only when it has to be created at a later version. */
  lemma PersistSucceeds(db: Db, desired: DailyReport, now: int)
    requires WellFormed(db) && 0 <= desired.version
    ensures Persist(db, desired, now) == Failure(VersionConflict) <==>
            ReadReport(db, ReportKey(desired.projectId, desired.id)).None? && desired.version != 0
    ensures Persist(db, desired, now).Failure? ==> Persist(db, desired, now) == Failure(VersionConflict)
    ensures Persist(db, desired, now).Success? ==>
              var report := Persist(db, desired, now).value.1;
              report.projectId == desired.projectId && report.id == desired.id
  {
    var k := ReportKey(desired.projectId, desired.id);
    assert k in db ==> KeyOf(db[k].entity) == k;
  }

  lemma DesiredVersion(cal: Calendar, seen: Db, o: Order, selected: seq<ActivityEvent>)
    requires WellFormed(seen)
    ensures var desired, existing := Desired(cal, seen, o, selected), CurrentReport(cal, seen, o);
            && desired.projectId == o.project && desired.id == ReportId(cal, o.project, o.day)
            && 0 <= desired.version == if existing.Some? then existing.value.version else 0
  {
    hide ReportId, FactsOf, Unique, UpdateIds, Digits;
  }

  lemma AuditedCallIsScoped(cal: Calendar, seen: Db, db: Db, o: Order, selected: seq<ActivityEvent>)
    ensures var call := AuditedCall(cal, seen, o, selected);
            && WellScoped(call) && Fence(db, call.context).None?
            && MissingOrConflict(db, call.additional) == Success([])
            && call.additional == [] && call.context.projectId == o.project
            && call.spec.entityId == ReportId(cal, o.project, o.day)
            && call.identity == ((r: DailyReport) => Some((r.projectId, r.id)))
            && ValidEvent(Expected(call)) && EventKey(Expected(call)).kind == Activities
  {
    hide SourceEvent, SourceMaterial, Digits, ClientEffect, FactsOf, Unique, UpdateIds, ReportId;
  }

  /** The report that was read had been saved before, and is no longer there when the transaction runs. */
  predicate Vanished(cal: Calendar, seen: Db, db: Db, o: Order) {
    CurrentReport(cal, db, o).None? && CurrentReport(cal, seen, o).Some?
      && CurrentReport(cal, seen, o).value.version != 0
  }

  /** A rebuild applies exactly when it is asked to, its order and slice are acceptable, the report and its
      event can be named and described, something had changed when the report was read, its operation has not
      recorded an event, and the report has not vanished since. */
  lemma AppliedExactly(cal: Calendar, seen: Db, db: Db, o: Order)
    requires WellFormed(seen) && WellFormed(db)
    ensures Applied(cal, seen, db, o) <==>
            && ValidOrder(o) && o.apply && SelectSlice(cal, o.day, o.activities, o.maxActivities).Success?
            && Reportable(cal, o) && Describable(o)
            && Changed(cal, seen, o, SliceOf(cal, o)) && EventKey(AuditEvent(cal, seen, o)) !in db
            && !Vanished(cal, seen, db, o)
  {
    hide SelectSlice, WellFormed, Mutate, Persist, FactsOf, Unique, UpdateIds, Digits, ReportId, ClientEffect,
         PersistClient, RequireClient, CreateEvents, Fence, MissingOrConflict, RebuildCall, BuildEvent, WellScoped,
         Changed, ValidOrder, ValidEvent, Reportable, Describable;
    var call, desired := AuditedCall(cal, seen, o, SliceOf(cal, o)), Desired(cal, seen, o, SliceOf(cal, o));
    AuditedCallIsScoped(cal, seen, db, o, SliceOf(cal, o));
    FreshMeans(db, call);
    StoredEventIsRead(db, EventKey(Expected(call)));
    CallRuns(cal, seen, db, o);
    DesiredVersion(cal, seen, o, SliceOf(cal, o));
    PersistSucceeds(db, desired, o.now);
    if !Vanished(cal, seen, db, o) {
      PersistedReport(db, desired, o.now);
      OnlyMainEvent(Persist(db, desired, o.now).value.0, Expected(call));
    }
  }

  lemma CallRuns(cal: Calendar, seen: Db, db: Db, o: Order)
    ensures AuditedCall(cal, seen, o, SliceOf(cal, o)).body(db) ==
            Persist(db, Desired(cal, seen, o, SliceOf(cal, o)), o.now)
  {
    hide SelectSlice, FactsOf, Unique, UpdateIds, Digits, ReportId, Persist, ClientEffect, RebuildContext, RebuildSpec;
    PersistRuns(db, Desired(cal, seen, o, SliceOf(cal, o)), o.now);
  }

  /** A report that vanishes between the reading and the transaction makes a rebuild that would have applied
      fail with a version conflict, and nothing is written. */
  lemma VanishedConflicts(cal: Calendar, seen: Db, db: Db, o: Order)
    requires WellFormed(seen) && WellFormed(db) && Applied(cal, seen, seen, o)
    requires Vanished(cal, seen, db, o) && EventKey(AuditEvent(cal, seen, o)) !in db
    ensures Rebuild(cal, seen, db, o) == (db, Failure(VersionConflict))
  {
    hide SelectSlice, WellFormed, Mutate, Persist, ReportId, CreateEvents, Fence, MissingOrConflict, AuditedCall,
         WellScoped, Changed, ValidOrder, Reportable, Describable, Applied, Desired, Expected, ReadReport;
    AppliedExactly(cal, seen, seen, o);
    var call, desired := AuditedCall(cal, seen, o, SliceOf(cal, o)), Desired(cal, seen, o, SliceOf(cal, o));
    AuditedCallIsScoped(cal, seen, db, o, SliceOf(cal, o));
    CallRuns(cal, seen, db, o);
    DesiredVersion(cal, seen, o, SliceOf(cal, o));
    PersistSucceeds(db, desired, o.now);
    StoredEventIsRead(db, EventKey(Expected(call)));
    BodyFails(db, call, VersionConflict);
  }

  lemma BodyFails<V>(db: Db, call: Call<V>, error: Error)
    requires WellScoped(call) && Fence(db, call.context).None? && MissingOrConflict(db, call.additional).Success?
    requires ReadEvent(db, EventKey(Expected(call))).None? && call.body(db) == Failure(error)
    ensures Mutate(db, call) == (db, Failure(error))
  {
    hide WellScoped, Fence, MissingOrConflict, Expected, ReadEvent;
  }
}
