/** What a rebuilt daily report says, field by field, in terms of the activities that the rebuild was given. */
module ReportOutcomes {
  import opened Foundations
  import opened Models
  import opened Ordering
  import opened Repository
  import opened Activity
  import opened Identifiers
  import opened Projections
  import opened ProjectionRebuild

  const COMPLETED: set<string> := {"task.completed"}
  const BLOCKED: set<string> := {"task.blocked", "issue.created", "issue.detected"}
  const RISKED: set<string> := {"material.quantity_updated", "material.requested"}
  const FOCUSED: set<string> := {"task.planned", "daily_brief.focus_added"}

  /** An activity of the report's day, by the calendar of its time zone, with one of these actions. */
  predicate Happened(cal: Calendar, day: int, a: ActivityEvent, actions: set<string>) {
    cal.localDay(a.createdAt) == day && a.action in actions
  }

  predicate NoLater(a: ActivityEvent, b: ActivityEvent) {
    a.createdAt < b.createdAt || (a.createdAt == b.createdAt && TextLeq(a.id, b.id))
  }

  /** The fact tells this activity: its summary, where it comes from, and what it was about. */
  predicate Tells(fact: ReportFact, a: ActivityEvent) {
    && fact.summary == a.summary
    && fact.sourceRefs == (if a.sourceEventId.Some? && a.sourceEventId.value != "" && a.sourceEventId.value != a.id
                           then [a.sourceEventId.value, a.id] else [a.id])
    && fact.metadata == map["activity_id" := a.id, "action" := a.action, "entity_type" := a.entityType,
                            "entity_id" := a.entityId]
  }

  /** The list holds the facts of exactly these activities of the day, each once, in order of time and ID. */
  ghost predicate Lists(facts: seq<ReportFact>, cal: Calendar, day: int, activities: seq<ActivityEvent>,
                        actions: set<string>) {
    && (forall fact :: fact in facts <==> exists a ::
        a in activities && Happened(cal, day, a, actions) && Tells(fact, a))
    && (forall i, j | 0 <= i < j < |facts| :: facts[i] != facts[j])
    && forall i, j | 0 <= i < j < |facts| :: InTurn(facts[i], facts[j], cal, day, activities, actions)
  }

  ghost predicate InTurn(f: ReportFact, g: ReportFact, cal: Calendar, day: int, activities: seq<ActivityEvent>,
                         actions: set<string>) {
    exists a, b ::
      && a in activities && Happened(cal, day, a, actions) && Tells(f, a)
      && b in activities && Happened(cal, day, b, actions) && Tells(g, b) && NoLater(a, b)
  }

  /** The update that an activity reports on. */
  predicate Updates(a: ActivityEvent, id: string) {
    a.sourceEventId == Some(id) && ("upd_" <= id || "sup_" <= id)
  }

  /** Exactly the updates that activities of the day report on, each once, in the order of their first mention. */
  ghost predicate ListsUpdates(ids: seq<string>, cal: Calendar, day: int, activities: seq<ActivityEvent>,
                               actions: set<string>) {
    && (forall id :: id in ids <==> exists a :: a in activities && Happened(cal, day, a, actions) && Updates(a, id))
    && (forall i, j | 0 <= i < j < |ids| :: ids[i] != ids[j])
    && forall i, j | 0 <= i < j < |ids| :: MentionedFirst(ids[i], ids[j], cal, day, activities, actions)
  }

  ghost predicate MentionedFirst(x: string, y: string, cal: Calendar, day: int, activities: seq<ActivityEvent>,
                                 actions: set<string>) {
    exists a ::
      && a in activities && Happened(cal, day, a, actions) && Updates(a, x)
      && forall b | b in activities && Happened(cal, day, b, actions) && Updates(b, y) :: NoLater(a, b)
  }

  /** How many of the activities happened on the day with one of these actions. */
  function Tally(cal: Calendar, day: int, activities: seq<ActivityEvent>, actions: set<string>): nat {
    if activities == [] then 0
    else
      var n := |activities| - 1;
      Tally(cal, day, activities[..n], actions) + if Happened(cal, day, activities[n], actions) then 1 else 0
  }

  /** The number that a decimal text stands for. */
  function Number(text: string): int {
    if text == "" then 0 else 10 * Number(text[..|text| - 1]) + (text[|text| - 1] as int - '0' as int)
  }

  predicate Decimal(text: string) {
    text != "" && (forall i | 0 <= i < |text| :: '0' <= text[i] <= '9') && (|text| > 1 ==> text[0] != '0')
  }

  lemma {:induction false} DigitsAreDecimal(n: nat)
    ensures Decimal(Digits(n)) && Number(Digits(n)) == n && (n != 0 ==> Digits(n)[0] != '0')
    decreases n
  {
    var digit := "0123456789"[n % 10];
    assert (digit - '0') as int == n % 10;
    if n < 10 {
      assert Digits(n)[..0] == [];
      assert Number("") == 0;
    } else {
      DigitsAreDecimal(n / 10);
      var front := Digits(n / 10);
      assert Digits(n) == front + [digit];
      assert Digits(n)[..|front|] == front;
    }
  }

  // ----- the categories -----

  function ActionsOf(c: Category): set<string> {
    match c
    case CompletedWork => COMPLETED
    case ActiveBlockers => BLOCKED
    case MaterialRisks => RISKED
    case NextFocus => FOCUSED
  }

  lemma CategoryIsActions(action: string, c: Category)
    ensures CategoryOf(action) == Some(c) <==> action in ActionsOf(c)
  {
  }

  lemma CoveredIsHappened(cal: Calendar, day: int, a: ActivityEvent)
    ensures Covered(cal, day, a) <==> Happened(cal, day, a, COMPLETED + BLOCKED + RISKED + FOCUSED)
  {
  }

  lemma RefsAre(a: ActivityEvent)
    ensures SourceRefs(a) == if a.sourceEventId.Some? && a.sourceEventId.value != "" && a.sourceEventId.value != a.id
                             then [a.sourceEventId.value, a.id] else [a.id]
  {
    assert Unique([]) == [];
    assert [a.id][..0] == [];
    if Truthy(a.sourceEventId) {
      var both := [a.sourceEventId.value, a.id];
      assert both[..1] == [a.sourceEventId.value] && [a.sourceEventId.value][..0] == [];
      assert Unique([a.sourceEventId.value]) == [a.sourceEventId.value];
    }
  }

  lemma FactTells(fact: ReportFact, a: ActivityEvent)
    ensures fact == FactOf(a) <==> Tells(fact, a)
  {
    hide SourceRefs;
    RefsAre(a);
  }

  lemma {:induction false} FactsMembers(activities: seq<ActivityEvent>, c: Category)
    ensures forall fact :: fact in FactsOf(activities, c) <==>
              exists a :: a in activities && CategoryOf(a.action) == Some(c) && fact == FactOf(a)
    decreases |activities|
  {
    if activities != [] {
      hide CategoryOf, FactOf;
      var n := |activities| - 1;
      FactsMembers(activities[..n], c);
      assert activities == activities[..n] + [activities[n]];
    }
  }

  predicate Distinct(facts: seq<ReportFact>) {
    forall i, j | 0 <= i < j < |facts| :: facts[i] != facts[j]
  }

  lemma DistinctSnoc(facts: seq<ReportFact>, fact: ReportFact)
    requires Distinct(facts) && fact !in facts
    ensures Distinct(facts + [fact])
  {
  }

  lemma {:induction false} FactsDiffer(activities: seq<ActivityEvent>, c: Category)
    ensures Distinct(FactsOf(activities, c))
    decreases |activities|
  {
    if activities != [] {
      hide CategoryOf, FactOf, Distinct;
      var before, fact := FactsOf(activities[..|activities| - 1], c), FactOf(activities[|activities| - 1]);
      FactsDiffer(activities[..|activities| - 1], c);
      if fact !in before {
        DistinctSnoc(before, fact);
      }
    }
  }

  ghost predicate FromPlaces(activities: seq<ActivityEvent>, c: Category, f: ReportFact, g: ReportFact) {
    exists p, q :: 0 <= p < q < |activities| && FromPlace(activities, c, f, p) && FromPlace(activities, c, g, q)
  }

  ghost predicate FromPlace(activities: seq<ActivityEvent>, c: Category, f: ReportFact, p: int)
    requires 0 <= p < |activities|
  {
    CategoryOf(activities[p].action) == Some(c) && f == FactOf(activities[p])
  }

  lemma {:induction false} FactsInTurn(activities: seq<ActivityEvent>, c: Category, i: nat, j: nat)
    requires i < j < |FactsOf(activities, c)|
    ensures FromPlaces(activities, c, FactsOf(activities, c)[i], FactsOf(activities, c)[j])
    decreases |activities|
  {
    hide CategoryOf, FactOf;
    var n := |activities| - 1;
    var init := activities[..n];
    var before := FactsOf(init, c);
    if j < |before| {
      FactsInTurn(init, c, i, j);
      var p, q :| 0 <= p < q < n && FromPlace(init, c, before[i], p) && FromPlace(init, c, before[j], q);
      assert FromPlace(activities, c, before[i], p) && FromPlace(activities, c, before[j], q);
    } else {
      FactsMembers(init, c);
      assert before[i] in before;
      var a :| a in init && CategoryOf(a.action) == Some(c) && before[i] == FactOf(a);
      var p :| 0 <= p < n && init[p] == a;
      assert FromPlace(activities, c, before[i], p) && FromPlace(activities, c, FactOf(activities[n]), n);
    }
  }

  /** The slice that a rebuild covers, as a list of the activities that happened. */
  ghost predicate IsSlice(selected: seq<ActivityEvent>, cal: Calendar, day: int, activities: seq<ActivityEvent>) {
    && Sorted(selected, Earlier)
    && forall a :: a in selected <==> a in activities && Covered(cal, day, a)
  }

  lemma CategoryIsListed(selected: seq<ActivityEvent>, cal: Calendar, day: int,
                         activities: seq<ActivityEvent>, c: Category)
    requires IsSlice(selected, cal, day, activities)
    ensures Lists(FactsOf(selected, c), cal, day, activities, ActionsOf(c))
  {
    hide FactsOf, FactOf, Tells, CategoryOf, ActionsOf;
    var facts := FactsOf(selected, c);
    FactsMembers(selected, c);
    FactsDiffer(selected, c);
    forall fact, a ensures fact == FactOf(a) <==> Tells(fact, a) { FactTells(fact, a); }
    forall action ensures CategoryOf(action) == Some(c) <==> action in ActionsOf(c) { CategoryIsActions(action, c); }
    forall i, j | 0 <= i < j < |facts| ensures InTurn(facts[i], facts[j], cal, day, activities, ActionsOf(c)) {
      FactsInTurn(selected, c, i, j);
      var p, q :| 0 <= p < q < |selected| && FromPlace(selected, c, facts[i], p) && FromPlace(selected, c, facts[j], q);
      var a, b := selected[p], selected[q];
      assert a in selected && b in selected && Earlier(a, b);
    }
  }

  lemma {:induction false} FilterTally(cal: Calendar, day: int, activities: seq<ActivityEvent>)
    ensures |Filter(cal, day, activities)| == Tally(cal, day, activities, COMPLETED + BLOCKED + RISKED + FOCUSED)
    decreases |activities|
  {
    if activities != [] {
      hide CategoryOf, Happened;
      FilterTally(cal, day, activities[..|activities| - 1]);
      CoveredIsHappened(cal, day, activities[|activities| - 1]);
    }
  }

  // ----- the updates -----

  lemma UniqueSnoc(xs: seq<string>, x: string)
    ensures Unique(xs + [x]) == if x in Unique(xs) then Unique(xs) else Unique(xs) + [x]
  {
    assert (xs + [x])[..|xs|] == xs;
  }

  ghost predicate Mentioned(selected: seq<ActivityEvent>, id: string) {
    exists p :: 0 <= p < |selected| && Updates(selected[p], id)
  }

  ghost predicate FirstBefore(selected: seq<ActivityEvent>, x: string, y: string) {
    exists p :: 0 <= p < |selected| && Updates(selected[p], x)
                && forall q | 0 <= q < |selected| && Updates(selected[q], y) :: p < q
  }

  lemma MentionedSnoc(init: seq<ActivityEvent>, last: ActivityEvent, id: string)
    ensures Mentioned(init + [last], id) <==> Mentioned(init, id) || Updates(last, id)
  {
    hide Updates;
    var all := init + [last];
    assert all[|init|] == last && forall p | 0 <= p < |init| :: all[p] == init[p];
  }

  lemma FirstBeforeSnoc(init: seq<ActivityEvent>, last: ActivityEvent, x: string, y: string)
    requires FirstBefore(init, x, y) || (Mentioned(init, x) && !Mentioned(init, y))
    ensures FirstBefore(init + [last], x, y)
  {
    hide Updates;
    var all := init + [last];
    assert forall p | 0 <= p < |init| :: all[p] == init[p];
    var p :| 0 <= p < |init| && Updates(init[p], x) && forall q | 0 <= q < |init| && Updates(init[q], y) :: p < q;
    assert Updates(all[p], x);
    forall q | 0 <= q < |all| && Updates(all[q], y) ensures p < q {
      if q < |init| { assert Updates(init[q], y); }
    }
  }

  lemma {:induction false} UpdatesMentioned(selected: seq<ActivityEvent>, id: string)
    ensures id in Unique(UpdateIds(selected)) <==> Mentioned(selected, id)
    decreases |selected|
  {
    if selected != [] {
      var n := |selected| - 1;
      UpdatesMentioned(selected[..n], id);
      assert selected == selected[..n] + [selected[n]];
      MentionedSnoc(selected[..n], selected[n], id);
      UpdatesSnoc(selected[..n], selected[n]);
    }
  }

  /** One more activity: the update that it reports on, unless that is mentioned already. */
  lemma UpdatesSnoc(init: seq<ActivityEvent>, last: ActivityEvent)
    ensures var before, after := Unique(UpdateIds(init)), Unique(UpdateIds(init + [last]));
            if last.sourceEventId.Some? && Updates(last, last.sourceEventId.value)
              && last.sourceEventId.value !in before
            then after == before + [last.sourceEventId.value] else after == before
  {
    assert (init + [last])[..|init|] == init;
    if Truthy(last.sourceEventId) && IsUpdateId(last.sourceEventId.value) {
      UniqueSnoc(UpdateIds(init), last.sourceEventId.value);
    } else {
      assert UpdateIds(init + [last]) == UpdateIds(init) + [];
      assert UpdateIds(init) + [] == UpdateIds(init);
    }
  }

  lemma {:induction false} UpdatesInTurn(selected: seq<ActivityEvent>)
    ensures var ids := Unique(UpdateIds(selected));
            forall i, j | 0 <= i < j < |ids| :: ids[i] != ids[j] && FirstBefore(selected, ids[i], ids[j])
    decreases |selected|
  {
    if selected != [] {
      hide Unique, UpdateIds, FirstBefore, Mentioned, Updates;
      var n := |selected| - 1;
      var init, last := selected[..n], selected[n];
      assert selected == init + [last];
      UpdatesInTurn(init);
      UpdatesSnoc(init, last);
      var before, ids := Unique(UpdateIds(init)), Unique(UpdateIds(selected));
      forall i, j | 0 <= i < j < |ids| ensures ids[i] != ids[j] && FirstBefore(selected, ids[i], ids[j]) {
        assert ids[i] == before[i] && before[i] in before;
        UpdatesMentioned(init, ids[i]);
        UpdatesMentioned(init, ids[j]);
        FirstBeforeSnoc(init, last, ids[i], ids[j]);
      }
    } else {
      assert Unique(UpdateIds(selected)) == [];
    }
  }

  lemma SliceMentions(selected: seq<ActivityEvent>, cal: Calendar, day: int, activities: seq<ActivityEvent>, id: string)
    requires IsSlice(selected, cal, day, activities)
    ensures Mentioned(selected, id) <==>
            exists a :: a in activities && Happened(cal, day, a, COMPLETED + BLOCKED + RISKED + FOCUSED)
              && Updates(a, id)
  {
    hide Updates, Happened, Covered;
    forall a ensures Covered(cal, day, a) <==> Happened(cal, day, a, COMPLETED + BLOCKED + RISKED + FOCUSED) {
      CoveredIsHappened(cal, day, a);
    }
    if p :| 0 <= p < |selected| && Updates(selected[p], id) {
      assert selected[p] in selected;
    }
    if a :| a in activities && Happened(cal, day, a, COMPLETED + BLOCKED + RISKED + FOCUSED) && Updates(a, id) {
      assert a in selected;
      var p :| 0 <= p < |selected| && selected[p] == a;
    }
  }

  lemma SliceInTurn(selected: seq<ActivityEvent>, cal: Calendar, day: int, activities: seq<ActivityEvent>,
                    x: string, y: string)
    requires IsSlice(selected, cal, day, activities) && FirstBefore(selected, x, y)
    ensures MentionedFirst(x, y, cal, day, activities, COMPLETED + BLOCKED + RISKED + FOCUSED)
  {
    hide Updates, Happened, Covered;
    forall a ensures Covered(cal, day, a) <==> Happened(cal, day, a, COMPLETED + BLOCKED + RISKED + FOCUSED) {
      CoveredIsHappened(cal, day, a);
    }
    var p :| 0 <= p < |selected| && Updates(selected[p], x)
             && forall q | 0 <= q < |selected| && Updates(selected[q], y) :: p < q;
    var a := selected[p];
    assert a in selected;
    forall b | b in activities && Happened(cal, day, b, COMPLETED + BLOCKED + RISKED + FOCUSED) && Updates(b, y)
      ensures NoLater(a, b)
    {
      assert b in selected;
      var q :| 0 <= q < |selected| && selected[q] == b;
      assert Earlier(selected[p], selected[q]);
    }
  }

  lemma UpdateInTurn(selected: seq<ActivityEvent>, i: nat, j: nat)
    requires i < j < |Unique(UpdateIds(selected))|
    ensures var ids := Unique(UpdateIds(selected)); ids[i] != ids[j] && FirstBefore(selected, ids[i], ids[j])
  {
    hide Unique, UpdateIds, FirstBefore;
    UpdatesInTurn(selected);
  }

  lemma UpdatesAreListed(selected: seq<ActivityEvent>, cal: Calendar, day: int, activities: seq<ActivityEvent>)
    requires IsSlice(selected, cal, day, activities)
    ensures ListsUpdates(Unique(UpdateIds(selected)), cal, day, activities, COMPLETED + BLOCKED + RISKED + FOCUSED)
  {
    hide Unique, UpdateIds, Updates, Happened, IsSlice, Mentioned, FirstBefore, MentionedFirst;
    var ids := Unique(UpdateIds(selected));
    forall id
      ensures id in ids <==>
              exists a :: a in activities && Happened(cal, day, a, COMPLETED + BLOCKED + RISKED + FOCUSED)
                && Updates(a, id)
    {
      UpdatesMentioned(selected, id);
      SliceMentions(selected, cal, day, activities, id);
    }
    forall i, j | 0 <= i < j < |ids|
      ensures ids[i] != ids[j]
      ensures MentionedFirst(ids[i], ids[j], cal, day, activities, COMPLETED + BLOCKED + RISKED + FOCUSED)
    {
      UpdateInTurn(selected, i, j);
      SliceInTurn(selected, cal, day, activities, ids[i], ids[j]);
    }
  }

  // ----- the stored report -----

  /** The report that an applied rebuild leaves, by what it was given: its number, its four lists, its updates, and
      none of the fields that only people fill in. */
  lemma RebuiltReportSays(cal: Calendar, seen: Db, db: Db, o: Order)
    requires WellFormed(db) && Applied(cal, seen, db, o)
    ensures var k := Key(Reports, o.project, "rpt_" + o.project + "_" + cal.isoDate(o.day));
            var after := Rebuild(cal, seen, db, o).0;
            && k in after && after[k].entity.ReportEntity?
            && var r := after[k].entity.report;
               && r.id == k.id && r.projectId == o.project && r.updatedAt == o.now
               && Lists(r.completedWork, cal, o.day, o.activities, {"task.completed"})
               && Lists(r.activeBlockers, cal, o.day, o.activities, {"task.blocked", "issue.created", "issue.detected"})
               && Lists(r.materialRisks, cal, o.day, o.activities, {"material.quantity_updated", "material.requested"})
               && Lists(r.nextFocus, cal, o.day, o.activities, {"task.planned", "daily_brief.focus_added"})
               && ListsUpdates(r.sourceUpdateIds, cal, o.day, o.activities, COMPLETED + BLOCKED + RISKED + FOCUSED)
               && (exists number: string ::
                     && r.summary == "Daily report rebuilt from " + number + " durable activity events."
                     && Decimal(number)
                     && Number(number) == Tally(cal, o.day, o.activities, COMPLETED + BLOCKED + RISKED + FOCUSED))
               && r.extras == ReportExtras(None, None, [], [], [], [])
  {
    hide Lists, ListsUpdates, Rebuild, Applied, SelectSlice, FactsOf, UpdateIds, Unique, Digits, Tally,
         WellFormed, SliceOf,
         IsSlice, AuditEvent, StatusSeen, SameProjection;
    AppliedRebuild(cal, seen, db, o);
    StoredPlace(cal, seen, db, o);
    AppliedSelects(cal, seen, db, o);
    SliceIsSlice(cal, o);
    ReportSays(cal, CurrentReport(cal, Rebuild(cal, seen, db, o).0, o).value, o);
  }

  lemma ReportSays(cal: Calendar, r: DailyReport, o: Order)
    requires IsSlice(SliceOf(cal, o), cal, o.day, o.activities)
    requires |SliceOf(cal, o)| == Tally(cal, o.day, o.activities, COMPLETED + BLOCKED + RISKED + FOCUSED)
    requires SameProjection(r, BuiltReport(cal, o.project, o.day, SliceOf(cal, o), Some(r)))
    ensures Lists(r.completedWork, cal, o.day, o.activities, {"task.completed"})
    ensures Lists(r.activeBlockers, cal, o.day, o.activities, {"task.blocked", "issue.created", "issue.detected"})
    ensures Lists(r.materialRisks, cal, o.day, o.activities, {"material.quantity_updated", "material.requested"})
    ensures Lists(r.nextFocus, cal, o.day, o.activities, {"task.planned", "daily_brief.focus_added"})
    ensures ListsUpdates(r.sourceUpdateIds, cal, o.day, o.activities, COMPLETED + BLOCKED + RISKED + FOCUSED)
    ensures exists number: string ::
              && r.summary == "Daily report rebuilt from " + number + " durable activity events."
              && Decimal(number)
              && Number(number) == Tally(cal, o.day, o.activities, COMPLETED + BLOCKED + RISKED + FOCUSED)
  {
    hide Lists, ListsUpdates, SelectSlice, FactsOf, UpdateIds, Unique, Digits, Tally, IsSlice, SliceOf, Decimal, Number;
    var selected := SliceOf(cal, o);
    CategoryIsListed(selected, cal, o.day, o.activities, CompletedWork);
    CategoryIsListed(selected, cal, o.day, o.activities, ActiveBlockers);
    CategoryIsListed(selected, cal, o.day, o.activities, MaterialRisks);
    CategoryIsListed(selected, cal, o.day, o.activities, NextFocus);
    UpdatesAreListed(selected, cal, o.day, o.activities);
    DigitsAreDecimal(|selected|);
    assert r.summary == "Daily report rebuilt from " + Digits(|selected|) + " durable activity events.";
  }

  lemma SliceIsSlice(cal: Calendar, o: Order)
    requires SelectSlice(cal, o.day, o.activities, o.maxActivities).Success?
    ensures IsSlice(SliceOf(cal, o), cal, o.day, o.activities)
    ensures |SliceOf(cal, o)| == Tally(cal, o.day, o.activities, COMPLETED + BLOCKED + RISKED + FOCUSED)
    ensures |SliceOf(cal, o)| <= o.maxActivities
  {
    SelectionIsSorted(cal, o.day, o.activities, o.maxActivities);
    FilterTally(cal, o.day, o.activities);
    EarlierIsOrder();
    SortSorts(Filter(cal, o.day, o.activities), Earlier);
    SameCount(Filter(cal, o.day, o.activities), SliceOf(cal, o));
  }

  lemma SameCount<T>(xs: seq<T>, ys: seq<T>)
    requires multiset(xs) == multiset(ys)
    ensures |xs| == |ys|
  {
    assert |multiset(xs)| == |xs| && |multiset(ys)| == |ys|;
  }

  lemma StoredPlace(cal: Calendar, seen: Db, db: Db, o: Order)
    requires WellFormed(db) && Applied(cal, seen, db, o)
    ensures var after, k := Rebuild(cal, seen, db, o).0, ReportKey(o.project, ReportId(cal, o.project, o.day));
            WellFormed(after) && (k in after && after[k].entity.ReportEntity? ==>
                                    after[k].entity.report.id == k.id && after[k].entity.report.projectId == o.project)
  {
    hide Rebuild, Applied, AuditedCall, SliceOf, Desired, Persist;
    FreshRebuild(cal, seen, db, o);
    var after, k := Rebuild(cal, seen, db, o).0, ReportKey(o.project, ReportId(cal, o.project, o.day));
    assert k in after ==> KeyOf(after[k].entity) == k;
  }

  /** A slice that is longer than the order allows is refused, and nothing is written. */
  lemma TooManyAreRefused(cal: Calendar, seen: Db, db: Db, o: Order)
    requires Tally(cal, o.day, o.activities, COMPLETED + BLOCKED + RISKED + FOCUSED) > o.maxActivities
    ensures Rebuild(cal, seen, db, o).0 == db && Rebuild(cal, seen, db, o).1.Failure?
  {
    FilterTally(cal, o.day, o.activities);
    EarlierIsOrder();
    SortSorts(Filter(cal, o.day, o.activities), Earlier);
    SameCount(Filter(cal, o.day, o.activities), Sort(Filter(cal, o.day, o.activities), Earlier));
    hide Tally, Filter, AuditedCall, Changed;
  }

  /** The event of a rebuild: done by the system, about the report, under a key that names report and operation, with
      the slice's size and digest. */
  lemma RebuildIsLogged(cal: Calendar, seen: Db, db: Db, o: Order)
    requires WellFormed(db) && Applied(cal, seen, db, o)
    ensures var report := "rpt_" + o.project + "_" + cal.isoDate(o.day);
            var operation := Sha256(o.operationId.value);
            var key := "projection:" + report + ":" + (if |operation| < 24 then operation else operation[..24]);
            var k := Key(Activities, o.project, ActivityIdOf(o.project, None, key));
            var after := Rebuild(cal, seen, db, o).0;
            && o.operationId.Some? && k in after && after[k].entity.ActivityEntity?
            && var e := after[k].entity.activity;
               && e.action == "report.projection_rebuilt" && e.entityType == "daily_report" && e.entityId == report
               && e.actorType == System && e.actorId.None? && e.createdAt == o.now
               && e.metadata.Keys >= {"report_date", "source_activity_count", "source_digest", "operation_id"}
               && e.metadata["report_date"] == Some(cal.isoDate(o.day)) && e.metadata["operation_id"] == o.operationId
               && (exists number: string ::
                     && e.metadata["source_activity_count"] == Some(number) && Decimal(number)
                     && e.summary == "Rebuilt daily report from " + number + " durable activities"
                     && Number(number) == Tally(cal, o.day, o.activities, COMPLETED + BLOCKED + RISKED + FOCUSED))
  {
    hide Rebuild, Applied, SelectSlice, FactsOf, UpdateIds, Unique, Digits, Tally, WellFormed,
         SliceOf, IsSlice, Decimal,
         Number, SourceEvent, SourceMaterial;
    AppliedRebuild(cal, seen, db, o);
    AppliedSelects(cal, seen, db, o);
    AppliedNamesOperation(cal, seen, db, o);
    SliceIsSlice(cal, o);
    DigitsAreDecimal(|SliceOf(cal, o)|);
    AuditSays(cal, seen, o);
    AuditCounts(cal, seen, o);
    StoredAudit(cal, seen, db, o);
  }

  lemma AppliedNamesOperation(cal: Calendar, seen: Db, db: Db, o: Order)
    requires Applied(cal, seen, db, o)
    ensures o.operationId.Some? && o.operationId.value != "" && o.apply
  {
    hide SelectSlice, Changed, AuditedCall;
  }

  lemma AuditSays(cal: Calendar, seen: Db, o: Order)
    requires o.operationId.Some?
    ensures var report := "rpt_" + o.project + "_" + cal.isoDate(o.day);
            var operation := Sha256(o.operationId.value);
            var key := "projection:" + report + ":" + (if |operation| < 24 then operation else operation[..24]);
            var e := AuditEvent(cal, seen, o);
            && e.projectId == o.project && e.id == ActivityIdOf(o.project, None, key)
            && e.action == "report.projection_rebuilt" && e.entityType == "daily_report" && e.entityId == report
            && e.actorType == System && e.actorId.None? && e.createdAt == o.now
  {
    hide SourceEvent, SourceMaterial, Digits, FactsOf, Unique, UpdateIds, SliceOf, ClientEffect;
  }

  ghost predicate Counted(e: ActivityEvent, date: string, number: string, digest: string, operationId: string) {
    && e.summary == "Rebuilt daily report from " + number + " durable activities"
    && e.metadata.Keys >= {"report_date", "source_activity_count", "source_digest", "operation_id"}
    && e.metadata["report_date"] == Some(date) && e.metadata["operation_id"] == Some(operationId)
    && e.metadata["source_activity_count"] == Some(number) && e.metadata["source_digest"] == Some(digest)
  }

  lemma MarkedKeeps(c: MutationContext, s: ActivitySpec, name: string)
    requires c.confirmation.None? && name in s.metadata && name != "_idempotency_key_digest"
    ensures var e := BuildEvent(c, s); name in e.metadata && e.metadata[name] == s.metadata[name]
  {
    hide ActivityId, MutationFingerprint;
  }

  lemma FourEntries<V>(a: string, b: string, c: string, d: string, v: V, w: V, x: V, y: V)
    requires a != b && a != c && a != d && b != c && b != d && c != d
    ensures var m := map[a := v, b := w, c := x, d := y];
            m.Keys == {a, b, c, d} && m[a] == v && m[b] == w && m[c] == x && m[d] == y
  {
  }

  lemma LabelsDiffer()
    ensures "report_date" != "source_activity_count" && "report_date" != "source_digest"
    ensures "report_date" != "operation_id" && "source_activity_count" != "source_digest"
    ensures "source_activity_count" != "operation_id" && "source_digest" != "operation_id"
  {
    assert |"report_date"| == 11 && |"source_activity_count"| == 21 && |"source_digest"| == 13
           && |"operation_id"| == 12;
  }

  lemma SpecCounts(cal: Calendar, o: Order, reportId: string, operationId: string, selected: seq<ActivityEvent>)
    ensures var metadata := RebuildSpec(cal, o, reportId, operationId, selected).metadata;
            && metadata.Keys == {"report_date", "source_activity_count", "source_digest", "operation_id"}
            && metadata["report_date"] == Some(cal.isoDate(o.day)) && metadata["operation_id"] == Some(operationId)
            && metadata["source_activity_count"] == Some(Digits(|selected|))
            && metadata["source_digest"] == Some(Sha256(SourceMaterial(selected)))
  {
    hide SourceMaterial, Digits;
    LabelsDiffer();
    FourEntries("report_date", "source_activity_count", "source_digest", "operation_id", Some(cal.isoDate(o.day)),
                Some(Digits(|selected|)), Some(Sha256(SourceMaterial(selected))), Some(operationId));
  }

  lemma EventCounts(cal: Calendar, o: Order, c: MutationContext, reportId: string, operationId: string,
                    selected: seq<ActivityEvent>)
    requires c.confirmation.None?
    ensures Counted(BuildEvent(c, RebuildSpec(cal, o, reportId, operationId, selected)),
                    cal.isoDate(o.day), Digits(|selected|), Sha256(SourceMaterial(selected)), operationId)
  {
    var s := RebuildSpec(cal, o, reportId, operationId, selected);
    assert s.summary == "Rebuilt daily report from " + Digits(|selected|) + " durable activities";
    hide RebuildSpec, Digits, SourceMaterial, ActivityId, MutationFingerprint;
    SpecCounts(cal, o, reportId, operationId, selected);
    assert "report_date"[0] == 'r' && "source_activity_count"[0] == 's' && "source_digest"[0] == 's';
    assert "operation_id"[0] == 'o' && "_idempotency_key_digest"[0] == '_';
    forall name | name in {"report_date", "source_activity_count", "source_digest", "operation_id"}
      ensures var e := BuildEvent(c, s); name in e.metadata && e.metadata[name] == s.metadata[name]
    {
      MarkedKeeps(c, s, name);
    }
  }

  lemma AuditCounts(cal: Calendar, seen: Db, o: Order)
    requires o.operationId.Some?
    ensures Counted(AuditEvent(cal, seen, o), cal.isoDate(o.day), Digits(|SliceOf(cal, o)|),
                    Sha256(SourceMaterial(SliceOf(cal, o))), o.operationId.value)
  {
    hide SourceEvent, SourceMaterial, Digits, SliceOf, Desired, RebuildSpec, BuildEvent, Counted;
    var id, operationId := Desired(cal, seen, o, SliceOf(cal, o)).id, o.operationId.value;
    EventCounts(cal, o, RebuildContext(o, id, operationId, SliceOf(cal, o)), id, operationId, SliceOf(cal, o));
  }

  lemma StoredAudit(cal: Calendar, seen: Db, db: Db, o: Order)
    requires WellFormed(db) && Applied(cal, seen, db, o)
    ensures var after, e := Rebuild(cal, seen, db, o).0, AuditEvent(cal, seen, o);
            var k := Key(Activities, e.projectId, e.id);
            k in after && after[k].entity == ActivityEntity(e)
  {
    hide Rebuild, Applied, AuditEvent, SliceOf, BuiltReport, StatusSeen;
    AppliedRebuild(cal, seen, db, o);
  }

  /** The evidence of a rebuild that was asked to apply and did: what it covered and where it went. */
  lemma EvidenceSays(cal: Calendar, seen: Db, db: Db, o: Order)
    requires Rebuild(cal, seen, db, o).1.Success?
    ensures var evidence := Rebuild(cal, seen, db, o).1.value;
            && evidence.reportId == "rpt_" + o.project + "_" + cal.isoDate(o.day)
            && evidence.sourceCount == Tally(cal, o.day, o.activities, COMPLETED + BLOCKED + RISKED + FOCUSED)
            && (evidence.applied ==> evidence.changed && o.apply)
            && (!evidence.applied ==> Rebuild(cal, seen, db, o).0 == db && (o.apply ==> !evidence.changed))
  {
    hide AuditedCall, Changed, Mutate, Tally, Reportable, Describable, ValidOrder, SourceMaterial, SelectSlice;
    SelectedOnSuccess(cal, seen, db, o);
    SliceIsSlice(cal, o);
  }

  lemma SelectedOnSuccess(cal: Calendar, seen: Db, db: Db, o: Order)
    requires Rebuild(cal, seen, db, o).1.Success?
    ensures SelectSlice(cal, o.day, o.activities, o.maxActivities).Success?
  {
    hide SelectSlice, AuditedCall, Changed, Mutate;
  }

  predicate NoIdCharacter(c: char) {
    !('a' <= c <= 'z' || 'A' <= c <= 'Z' || '0' <= c <= '9' || c in {'.', '_', ':', '-'})
  }

  /** An order that allows no activity or more than 5,000, that applies without an operation ID, or whose operation ID
      is longer than 128 characters or holds a character other than letters, digits and `. _ : -`, is refused. */
  lemma UnlawfulOrders(cal: Calendar, seen: Db, db: Db, o: Order)
    requires || o.maxActivities < 1 || o.maxActivities > 5000
             || (o.apply && (o.operationId.None? || o.operationId == Some("")))
             || (o.operationId.Some? && |o.operationId.value| > 128)
             || (o.operationId.Some? && exists c :: c in o.operationId.value && NoIdCharacter(c))
    ensures Rebuild(cal, seen, db, o) == (db, Failure(ValidationFailed))
  {
    hide SelectSlice, AuditedCall, Changed, Mutate;
  }
}
