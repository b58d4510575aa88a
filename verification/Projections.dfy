/** The daily-report projection: which activities it covers, and the report built from them. */
module Projections {
  import opened Foundations
  import opened Models
  import opened Ordering

  datatype Category = CompletedWork | ActiveBlockers | MaterialRisks | NextFocus

  function CategoryOf(action: string): Option<Category> {
    if action == "task.completed" then Some(CompletedWork)
    else if action in {"task.blocked", "issue.created", "issue.detected"} then Some(ActiveBlockers)
    else if action in {"material.quantity_updated", "material.requested"} then Some(MaterialRisks)
    else if action in {"task.planned", "daily_brief.focus_added"} then Some(NextFocus)
    else None
  }

  /** The time zone and calendar arithmetic of the platform. */
  datatype Calendar = Calendar(localDay: int -> int, isoDate: int -> string, midnight: int -> int)

  // ----- selection -----

  predicate Covered(cal: Calendar, day: int, a: ActivityEvent) {
    cal.localDay(a.createdAt) == day && CategoryOf(a.action).Some?
  }

  function Filter(cal: Calendar, day: int, activities: seq<ActivityEvent>): seq<ActivityEvent> {
    if activities == [] then []
    else
      var last := activities[|activities| - 1];
      Filter(cal, day, activities[..|activities| - 1]) + (if Covered(cal, day, last) then [last] else [])
  }

  /** By time, then by ID. */
  predicate Earlier(a: ActivityEvent, b: ActivityEvent) {
    a.createdAt < b.createdAt || (a.createdAt == b.createdAt && TextLeq(a.id, b.id))
  }

  /** `select_activity_slice`. */
  function SelectSlice(cal: Calendar, day: int, activities: seq<ActivityEvent>,
                       limit: int): Result<seq<ActivityEvent>, Error> {
    var selected := Sort(Filter(cal, day, activities), Earlier);
    if |selected| > limit then Failure(ValidationFailed) else Success(selected)
  }

  lemma EarlierIsOrder()
    ensures TotalOrder(Earlier)
  {
    forall a, b ensures Earlier(a, b) || Earlier(b, a) {
      TextLeqTotal(a.id, b.id);
    }
    forall a, b, c | Earlier(a, b) && Earlier(b, c) ensures Earlier(a, c) {
      if a.createdAt == b.createdAt == c.createdAt {
        TextLeqTransitive(a.id, b.id, c.id);
      }
    }
  }

  /** What an activity is called. */
  function ActivityName(a: ActivityEvent): string {
    a.id
  }

  lemma {:induction false} FilterMembers(cal: Calendar, day: int, activities: seq<ActivityEvent>, a: ActivityEvent)
    ensures multiset(Filter(cal, day, activities))[a] == if Covered(cal, day, a) then multiset(activities)[a] else 0
    decreases |activities|
  {
    if activities != [] {
      var n := |activities| - 1;
      FilterMembers(cal, day, activities[..n], a);
      assert activities == activities[..n] + [activities[n]];
    }
  }

  /** The slice does not depend on the order in which the activities arrive. */
  lemma SelectionForgetsOrder(cal: Calendar, day: int, xs: seq<ActivityEvent>, ys: seq<ActivityEvent>, limit: int)
    requires multiset(xs) == multiset(ys) && IdsName(xs, ActivityName)
    ensures SelectSlice(cal, day, xs, limit) == SelectSlice(cal, day, ys, limit)
  {
    hide IdsName, Earlier, NoTies;
    var fx, fy := Filter(cal, day, xs), Filter(cal, day, ys);
    forall a ensures multiset(fx)[a] == multiset(fy)[a] {
      FilterMembers(cal, day, xs, a);
      FilterMembers(cal, day, ys, a);
    }
    assert multiset(fx) == multiset(fy);
    forall a | a in fx ensures a in xs {
      FilterMembers(cal, day, xs, a);
      assert a in multiset(fx) && a in multiset(xs);
    }
    NoEarlierTies(xs, fx);
    EarlierIsOrder();
    SortForgetsOrder(fx, fy, Earlier);
  }

  lemma NoEarlierTies(xs: seq<ActivityEvent>, selected: seq<ActivityEvent>)
    requires IdsName(xs, ActivityName) && forall a | a in selected :: a in xs
    ensures NoTies(selected, Earlier)
  {
    forall a, b | a in selected && b in selected && Earlier(a, b) && Earlier(b, a) ensures a == b {
      TextLeqTotal(a.id, b.id);
      assert ActivityName(a) == ActivityName(b);
    }
  }

  lemma {:induction false} FilterAppends(cal: Calendar, day: int, xs: seq<ActivityEvent>, ys: seq<ActivityEvent>)
    ensures Filter(cal, day, xs + ys) == Filter(cal, day, xs) + Filter(cal, day, ys)
    decreases |ys|
  {
    if ys == [] {
      assert xs + ys == xs;
    } else {
      assert (xs + ys)[..|xs + ys| - 1] == xs + ys[..|ys| - 1];
      FilterAppends(cal, day, xs, ys[..|ys| - 1]);
    }
  }

  /** An activity of no category can stand anywhere in the input without being noticed. */
  lemma SelectionSkipsUncategorised(cal: Calendar, day: int, before: seq<ActivityEvent>, a: ActivityEvent,
                                    after: seq<ActivityEvent>, limit: int)
    requires CategoryOf(a.action).None?
    ensures SelectSlice(cal, day, before + [a] + after, limit) == SelectSlice(cal, day, before + after, limit)
  {
    FilterAppends(cal, day, before + [a], after);
    FilterAppends(cal, day, before, [a]);
    FilterAppends(cal, day, before, after);
    assert [a][..0] == [] && Filter(cal, day, [a]) == [];
    assert Filter(cal, day, before) + [] == Filter(cal, day, before);
  }

  /** The slice: exactly the covered activities, in order of time and ID. */
  lemma SelectionIsSorted(cal: Calendar, day: int, activities: seq<ActivityEvent>, limit: int)
    requires SelectSlice(cal, day, activities, limit).Success?
    ensures var selected := SelectSlice(cal, day, activities, limit).value;
            && Sorted(selected, Earlier) && |selected| <= limit
            && (forall a :: a in selected <==> a in activities && Covered(cal, day, a))
            && (DistinctIds(activities, ActivityName) ==> DistinctIds(selected, ActivityName))
  {
    var filtered := Filter(cal, day, activities);
    var selected := Sort(filtered, Earlier);
    EarlierIsOrder();
    SortSorts(filtered, Earlier);
    forall a ensures multiset(selected)[a] == if Covered(cal, day, a) then multiset(activities)[a] else 0 {
      FilterMembers(cal, day, activities, a);
    }
    assert forall a :: a in selected <==> a in multiset(selected);
    if DistinctIds(activities, ActivityName) {
      DistinctStays(activities, ActivityName, selected);
    }
  }

  // ----- the report -----

  /** Python's `list(dict.fromkeys(xs))`. */
  function Unique(xs: seq<string>): seq<string> {
    if xs == [] then []
    else
      var before, last := Unique(xs[..|xs| - 1]), xs[|xs| - 1];
      if last in before then before else before + [last]
  }

  function SourceRefs(a: ActivityEvent): seq<string> {
    Unique(if Truthy(a.sourceEventId) then [a.sourceEventId.value, a.id] else [a.id])
  }

  function FactOf(a: ActivityEvent): ReportFact {
    ReportFact(a.summary, SourceRefs(a),
               map["activity_id" := a.id, "action" := a.action, "entity_type" := a.entityType,
                   "entity_id" := a.entityId])
  }

  predicate IsUpdateId(id: string) {
    "upd_" <= id || "sup_" <= id
  }

  /** The facts of one category, each only once. */
  function FactsOf(activities: seq<ActivityEvent>, c: Category): seq<ReportFact> {
    if activities == [] then []
    else
      var before, last := FactsOf(activities[..|activities| - 1], c), activities[|activities| - 1];
      if CategoryOf(last.action) == Some(c) && FactOf(last) !in before then before + [FactOf(last)] else before
  }

  function UpdateIds(activities: seq<ActivityEvent>): seq<string> {
    if activities == [] then []
    else
      var last := activities[|activities| - 1];
      UpdateIds(activities[..|activities| - 1]) +
      (if Truthy(last.sourceEventId) && IsUpdateId(last.sourceEventId.value) then [last.sourceEventId.value] else [])
  }

  function Digits(n: nat): string {
    var digit := ["0123456789"[n % 10]];
    if n < 10 then digit else Digits(n / 10) + digit
  }

  function ReportId(cal: Calendar, project: string, day: int): string {
    "rpt_" + project + "_" + cal.isoDate(day)
  }

  const NO_EXTRAS: ReportExtras := ReportExtras(None, None, [], [], [], [])

  function CategoryLists(activities: seq<ActivityEvent>): map<Category, seq<ReportFact>> {
    map[CompletedWork := FactsOf(activities, CompletedWork), ActiveBlockers := FactsOf(activities, ActiveBlockers),
        MaterialRisks := FactsOf(activities, MaterialRisks), NextFocus := FactsOf(activities, NextFocus)]
  }

  lemma CategoryListsSnoc(activities: seq<ActivityEvent>, a: ActivityEvent)
    requires CategoryOf(a.action).Some?
    ensures var lists, c := CategoryLists(activities), CategoryOf(a.action).value;
            CategoryLists(activities + [a]) == if FactOf(a) in lists[c] then lists
              else lists[c := lists[c] + [FactOf(a)]]
  {
    hide CategoryOf, FactOf;
    assert (activities + [a])[..|activities|] == activities;
    match CategoryOf(a.action).value
    case CompletedWork =>
    case ActiveBlockers =>
    case MaterialRisks =>
    case NextFocus =>
  }

  /** `_build_report`. */
  function BuiltReport(cal: Calendar, project: string, day: int, activities: seq<ActivityEvent>,
                       existing: Option<DailyReport>): DailyReport {
    var createdAt := if existing.Some? then existing.value.createdAt else cal.midnight(day);
    DailyReport(
      ReportId(cal, project, day), project, day,
      "Daily report rebuilt from " + Digits(|activities|) + " durable activity events.",
      FactsOf(activities, CompletedWork), FactsOf(activities, ActiveBlockers),
      FactsOf(activities, MaterialRisks), FactsOf(activities, NextFocus),
      Unique(UpdateIds(activities)),
      if existing.Some? then existing.value.status else Draft,
      if existing.Some? then existing.value.version else 0,
      createdAt, if existing.Some? then existing.value.updatedAt else createdAt, NO_EXTRAS)
  }

  /** `_same_projection`. */
  predicate SameProjection(left: DailyReport, right: DailyReport) {
    && left.summary == right.summary
    && left.completedWork == right.completedWork
    && left.activeBlockers == right.activeBlockers
    && left.materialRisks == right.materialRisks
    && left.nextFocus == right.nextFocus
    && left.sourceUpdateIds == right.sourceUpdateIds
    && left.status == right.status
  }

  method Deduplicated(xs: seq<string>) returns (unique: seq<string>)
    ensures unique == Unique(xs)
  {
    unique := [];
    for i := 0 to |xs|
      invariant unique == Unique(xs[..i])
    {
      assert xs[..i + 1][..i] == xs[..i];
      if xs[i] !in unique {
        unique := unique + [xs[i]];
      }
    }
    assert xs[..|xs|] == xs;
  }

  method BuildFact(activity: ActivityEvent) returns (fact: ReportFact)
    ensures fact == FactOf(activity)
  {
    var sourceRefs := [activity.id];
    if Truthy(activity.sourceEventId) {
      sourceRefs := [activity.sourceEventId.value] + sourceRefs;
      assert sourceRefs == [activity.sourceEventId.value, activity.id];
    }
    sourceRefs := Deduplicated(sourceRefs);
    fact := ReportFact(activity.summary, sourceRefs,
                       map["activity_id" := activity.id, "action" := activity.action,
                           "entity_type" := activity.entityType, "entity_id" := activity.entityId]);
  }

  /** One pass over the slice, appending to the list of each activity's category. */
  method BuildReport(cal: Calendar, project: string, day: int, activities: seq<ActivityEvent>,
                     existing: Option<DailyReport>)
    returns (report: DailyReport)
    requires forall a | a in activities :: CategoryOf(a.action).Some?
    ensures report == BuiltReport(cal, project, day, activities, existing)
  {
    assert CategoryLists([]) == map[CompletedWork := [], ActiveBlockers := [], MaterialRisks := [], NextFocus := []];
    hide CategoryOf, FactOf, FactsOf, Digits, Unique;
    var categories: map<Category, seq<ReportFact>> :=
      map[CompletedWork := [], ActiveBlockers := [], MaterialRisks := [], NextFocus := []];
    var sourceUpdateIds: seq<string> := [];
    for i := 0 to |activities|
      invariant categories == CategoryLists(activities[..i])
      invariant sourceUpdateIds == UpdateIds(activities[..i])
    {
      var activity := activities[i];
      assert activities[..i + 1] == activities[..i] + [activity] && activities[..i + 1][..i] == activities[..i];
      CategoryListsSnoc(activities[..i], activity);
      var category := CategoryOf(activity.action).value;
      var fact := BuildFact(activity);
      if Truthy(activity.sourceEventId) && IsUpdateId(activity.sourceEventId.value) {
        sourceUpdateIds := sourceUpdateIds + [activity.sourceEventId.value];
      }
      assert category in categories by {
        match category case CompletedWork => case ActiveBlockers => case MaterialRisks => case NextFocus =>
      }
      if fact !in categories[category] {
        categories := categories[category := categories[category] + [fact]];
      }
    }
    assert activities[..|activities|] == activities;
    var updates := Deduplicated(sourceUpdateIds);
    var createdAt := if existing.Some? then existing.value.createdAt else cal.midnight(day);
    report := DailyReport(
      ReportId(cal, project, day), project, day,
      "Daily report rebuilt from " + Digits(|activities|) + " durable activity events.",
      categories[CompletedWork], categories[ActiveBlockers], categories[MaterialRisks], categories[NextFocus], updates,
      if existing.Some? then existing.value.status else Draft,
      if existing.Some? then existing.value.version else 0,
      createdAt, if existing.Some? then existing.value.updatedAt else createdAt, NO_EXTRAS);
  }

  // ----- what the report says about the slice -----

  /** The members of one category, in slice order. */
  function InCategory(activities: seq<ActivityEvent>, c: Category): seq<ActivityEvent> {
    if activities == [] then []
    else
      var last := activities[|activities| - 1];
      InCategory(activities[..|activities| - 1], c) + (if CategoryOf(last.action) == Some(c) then [last] else [])
  }

  lemma {:induction false} InCategoryMembers(activities: seq<ActivityEvent>, c: Category)
    ensures forall a :: a in InCategory(activities, c) <==> a in activities && CategoryOf(a.action) == Some(c)
    decreases |activities|
  {
    if activities != [] {
      var n := |activities| - 1;
      InCategoryMembers(activities[..n], c);
      assert activities == activities[..n] + [activities[n]];
    }
  }

  lemma FactNamesActivity(a: ActivityEvent, b: ActivityEvent)
    requires FactOf(a) == FactOf(b)
    ensures a.id == b.id
  {
    assert FactOf(a).metadata["activity_id"] == a.id;
    assert FactOf(b).metadata["activity_id"] == b.id;
  }

  /** With distinct IDs nothing is suppressed: a category lists one fact per activity of it, in slice order. */
  lemma {:induction false} OneFactEach(activities: seq<ActivityEvent>, c: Category)
    requires DistinctIds(activities, ActivityName)
    ensures var members := InCategory(activities, c);
            |FactsOf(activities, c)| == |members|
              && forall i | 0 <= i < |members| :: FactsOf(activities, c)[i] == FactOf(members[i])
    decreases |activities|
  {
    if activities != [] {
      var n := |activities| - 1;
      var init, last := activities[..n], activities[n];
      hide CategoryOf, FactOf;
      OneFactEach(init, c);
      NewFact(init, last, c);
    }
  }

  lemma NewFact(init: seq<ActivityEvent>, last: ActivityEvent, c: Category)
    requires forall a | a in init :: a.id != last.id
    requires var members := InCategory(init, c);
             |FactsOf(init, c)| == |members|
               && forall i | 0 <= i < |members| :: FactsOf(init, c)[i] == FactOf(members[i])
    ensures FactOf(last) !in FactsOf(init, c)
  {
    hide CategoryOf, FactOf, FactsOf, InCategory;
    InCategoryMembers(init, c);
    var members := InCategory(init, c);
    if FactOf(last) in FactsOf(init, c) {
      var i :| 0 <= i < |members| && FactOf(members[i]) == FactOf(last);
      assert members[i] in init;
      FactNamesActivity(members[i], last);
    }
  }

  lemma {:induction false} CategoriesCount(activities: seq<ActivityEvent>)
    requires forall a | a in activities :: CategoryOf(a.action).Some?
    ensures |InCategory(activities, CompletedWork)| + |InCategory(activities, ActiveBlockers)|
            + |InCategory(activities, MaterialRisks)| + |InCategory(activities, NextFocus)| == |activities|
    decreases |activities|
  {
    if activities != [] {
      hide CategoryOf;
      CategoriesCount(activities[..|activities| - 1]);
      var c := CategoryOf(activities[|activities| - 1].action);
      assert c in {Some(CompletedWork), Some(ActiveBlockers), Some(MaterialRisks), Some(NextFocus)} by {
        match c.value {
          case CompletedWork =>
          case ActiveBlockers =>
          case MaterialRisks =>
          case NextFocus =>
        }
      }
    }
  }

  /** Each activity of the slice is in exactly one category, and the four lists account for all of them. */
  lemma CategoriesPartition(activities: seq<ActivityEvent>)
    requires DistinctIds(activities, ActivityName) && forall a | a in activities :: CategoryOf(a.action).Some?
    ensures |FactsOf(activities, CompletedWork)| + |FactsOf(activities, ActiveBlockers)|
            + |FactsOf(activities, MaterialRisks)| + |FactsOf(activities, NextFocus)| == |activities|
    ensures forall a, c | a in activities :: FactOf(a) in FactsOf(activities, c) <==> CategoryOf(a.action) == Some(c)
  {
    hide CategoryOf, FactsOf, InCategory, FactOf;
    CategoriesCount(activities);
    OneFactEach(activities, CompletedWork);
    OneFactEach(activities, ActiveBlockers);
    OneFactEach(activities, MaterialRisks);
    OneFactEach(activities, NextFocus);
    forall a, c | a in activities ensures FactOf(a) in FactsOf(activities, c) <==> CategoryOf(a.action) == Some(c) {
      FactInItsCategory(activities, a, c);
    }
  }

  lemma FactInItsCategory(activities: seq<ActivityEvent>, a: ActivityEvent, c: Category)
    requires DistinctIds(activities, ActivityName) && a in activities
    ensures FactOf(a) in FactsOf(activities, c) <==> CategoryOf(a.action) == Some(c)
  {
    hide InCategory, FactOf, CategoryOf, FactsOf;
    OneFactEach(activities, c);
    InCategoryMembers(activities, c);
    var members := InCategory(activities, c);
    if CategoryOf(a.action) == Some(c) {
      var i :| 0 <= i < |members| && members[i] == a;
      assert FactsOf(activities, c)[i] == FactOf(a);
    } else if FactOf(a) in FactsOf(activities, c) {
      var i :| 0 <= i < |members| && FactOf(members[i]) == FactOf(a);
      assert members[i] in activities;
      FactNamesActivity(members[i], a);
    }
  }

  /** Where an element first stands. */
  function FirstIndex(xs: seq<string>, x: string): (i: nat)
    requires x in xs
    ensures i < |xs| && xs[i] == x && x !in xs[..i]
  {
    if xs[0] == x then 0 else 1 + FirstIndex(xs[1..], x)
  }

  lemma {:induction false} FirstIndexIs(xs: seq<string>, x: string, i: nat)
    requires i < |xs| && xs[i] == x && x !in xs[..i]
    ensures FirstIndex(xs, x) == i
  {
    if 0 < i {
      assert xs[..i][0] == xs[0] && xs[1..][..i - 1] == xs[..i][1..];
      FirstIndexIs(xs[1..], x, i - 1);
    }
  }

  lemma FirstIndexOfPrefix(xs: seq<string>, n: nat, x: string)
    requires n <= |xs| && x in xs[..n]
    ensures FirstIndex(xs, x) == FirstIndex(xs[..n], x)
  {
    var i := FirstIndex(xs[..n], x);
    assert xs[..i] == xs[..n][..i];
    FirstIndexIs(xs, x, i);
  }

  /** The duplicate-free list of first occurrences. */
  lemma {:induction false} UniqueIsFirstOccurrences(xs: seq<string>)
    ensures forall x :: x in Unique(xs) <==> x in xs
    ensures var u := Unique(xs);
            forall i, j | 0 <= i < j < |u| ::
              u[i] != u[j] && u[i] in xs && u[j] in xs && FirstIndex(xs, u[i]) < FirstIndex(xs, u[j])
    decreases |xs|
  {
    if xs != [] {
      var n := |xs| - 1;
      var init, last := xs[..n], xs[n];
      UniqueIsFirstOccurrences(init);
      assert xs == init + [last];
      var u := Unique(xs);
      forall i, j | 0 <= i < j < |u|
        ensures u[i] != u[j] && u[i] in xs && u[j] in xs && FirstIndex(xs, u[i]) < FirstIndex(xs, u[j])
      {
        assert u[i] in Unique(init);
        FirstIndexOfPrefix(xs, n, u[i]);
        if u[j] in init {
          assert j < |Unique(init)|;
          FirstIndexOfPrefix(xs, n, u[j]);
        } else {
          FirstIndexIs(xs, u[j], n);
        }
      }
    }
  }
}
