/** Rebuilds whose outcome may surprise: a report that loses its crew summary, and a project that has none. */
module ProjectionExamples {
  import opened Examples
  import opened Foundations
  import opened Models
  import opened Repository
  import opened Identifiers
  import opened Activity
  import opened Projections
  import opened ProjectionRebuild
  import opened Texts

  const REPORT := "rpt_pr_000_2026-01-01"

  /** A calendar on which everything happens on one day. */
  function OneDay(): Calendar {
    Calendar(_ => 0, _ => "2026-01-01", _ => 0)
  }

  const CREW: ReportExtras := ReportExtras(Some("Six people"), None, [], [], [], [])

  function Written(version: nat): DailyReport {
    DailyReport(REPORT, PROJECT, 0, "By hand.", [], [], [], [], [], Draft, version, 0, 0, CREW)
  }

  const REBUILD: Order := Order(PROJECT, 0, [], true, Some("op_1"), 1, 0)

  /** The store with that report, saved so many times. */
  function StoredReport(version: nat): Db {
    map[ReportKey(PROJECT, REPORT) := Record(ReportEntity(Written(version)), version)]
  }

  lemma RebuildIsLegal()
    ensures ReportId(OneDay(), PROJECT, 0) == REPORT
    ensures Reportable(OneDay(), REBUILD) && Describable(REBUILD) && ValidOrder(REBUILD)
  {
    hide CanonicalId, Restricted, OpaqueId;
    assert ReportId(OneDay(), PROJECT, 0) == REPORT;
    NamesAreCanonical();
    OperationIsLegal();
  }

  lemma NamesAreCanonical()
    ensures CanonicalId(PROJECT) && CanonicalId(REPORT)
  {
    ProjectIsCanonical();
    assert CanonicalAt(REPORT, 3);
  }

  lemma OperationIsLegal()
    ensures OpaqueId("op_1") && !Restricted("op_1")
  {
    ShortIsUnrestricted("op_1");
  }

  lemma NothingToCover()
    ensures SelectSlice(OneDay(), 0, [], 1) == Success([])
  {
  }

  lemma ReportIsStored(version: nat)
    ensures WellFormed(StoredReport(version))
    ensures CurrentReport(OneDay(), StoredReport(version), REBUILD) == Some(Written(version))
    ensures forall k | k in StoredReport(version) :: k.kind == Reports
  {
    RebuildIsLegal();
    hide ReportId, CanonicalId, Restricted;
  }

  lemma ReportIsOutdated(version: nat)
    ensures Changed(OneDay(), StoredReport(version), REBUILD, [])
  {
    hide CanonicalId, Restricted, CurrentReport, ReportId, FactsOf, UpdateIds, Unique;
    ReportIsStored(version);
    var built := BuiltReport(OneDay(), PROJECT, 0, [], Some(Written(version)));
    assert |built.summary| > |Written(version).summary|;
  }

  lemma RebuildApplies(version: nat)
    ensures Applied(OneDay(), StoredReport(version), StoredReport(version), REBUILD)
  {
    hide Applied, Changed, Reportable, Describable, ValidOrder, SelectSlice, WellFormed, StoredReport, CurrentReport;
    RebuildIsLegal();
    NothingToCover();
    ReportIsStored(version);
    ReportIsOutdated(version);
    AuditIsActivity(version);
    AppliedExactly(OneDay(), StoredReport(version), StoredReport(version), REBUILD);
  }

  /** Rebuilding a report with a crew summary applies and leaves a report without one. */
  lemma CrewSummaryIsLost(version: nat)
    ensures Applied(OneDay(), StoredReport(version), StoredReport(version), REBUILD)
    ensures var after := CurrentReport(OneDay(),
                                       Rebuild(OneDay(), StoredReport(version), StoredReport(version),
                                               REBUILD).0, REBUILD);
            after.Some? && after.value.version == version + 1 && after.value.extras.crewSummary == None
  {
    hide Rebuild, Applied, Changed, Reportable, Describable, ValidOrder, SelectSlice, WellFormed,
         StoredReport, CurrentReport;
    RebuildApplies(version);
    ReportIsStored(version);
    AppliedRebuild(OneDay(), StoredReport(version), StoredReport(version), REBUILD);
  }

  lemma AuditIsActivity(version: nat)
    ensures EventKey(AuditEvent(OneDay(), StoredReport(version), REBUILD)).kind == Activities
  {
    hide AuditEvent;
  }

  /** The same rebuild, when the report has been saved before and is deleted between the reading and the
      transaction: a conflict. */
  lemma DeletedReportConflicts(version: nat)
    requires version != 0
    ensures Rebuild(OneDay(), StoredReport(version), map[], REBUILD) == (map[], Failure(VersionConflict))
  {
    hide Rebuild, Applied, StoredReport, CurrentReport, WellFormed;
    RebuildApplies(version);
    ReportIsStored(version);
    NoReport();
    VanishedConflicts(OneDay(), StoredReport(version), map[], REBUILD);
  }

  lemma NoReport()
    ensures WellFormed(map[]) && CurrentReport(OneDay(), map[], REBUILD).None?
  {
    hide ReportId;
  }

  /** A canonical project ID of more than 117 characters has no daily report: every rebuild for it fails. */
  lemma LongProjectHasNoReport(cal: Calendar, seen: Db, db: Db, o: Order)
    requires |cal.isoDate(o.day)| == 10 && 117 < |o.project|
    ensures Rebuild(cal, seen, db, o).1.Failure?
  {
    hide SelectSlice, Changed, AuditedCall;
    var id := ReportId(cal, o.project, o.day);
    assert id[2] == 't' && id[3] == '_' && |id| == |o.project| + 15;
    forall cut | 2 <= cut <= 16 ensures !CanonicalAt(id, cut) {
      assert cut < 3 || cut == 3 || !LowerOrDigit(id[3]);
    }
  }
}
