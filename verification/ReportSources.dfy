/** Where a rebuild says its report comes from: the event it cites, and the digest that names its activities. */
module ReportSources {
  import opened Foundations
  import opened Models
  import opened Ordering
  import opened Repository
  import opened Activity
  import opened Identifiers
  import opened Projections
  import opened ProjectionRebuild
  import opened ReportOutcomes

  // ----- the digest -----

  /** A separator that starts the shorter back part lies inside the longer one. */
  lemma LastSeparatorPosition(a: string, b: string, c: string, d: string, separator: char)
    requires a + [separator] + b == c + [separator] + d
    ensures |b| < |d| ==> d[|d| - |b| - 1] == separator
  {
    var s, t := a + [separator] + b, c + [separator] + d;
    assert s[|a|] == separator && |s| == |t|;
    assert |b| < |d| ==> t[|a|] == d[|a| - |c| - 1];
  }

  /** Cutting at the last separator recovers both sides. */
  lemma CutAtLast(a: string, b: string, c: string, d: string, separator: char)
    requires separator !in b && separator !in d
    requires a + [separator] + b == c + [separator] + d
    ensures a == c && b == d
  {
    var s, t := a + [separator] + b, c + [separator] + d;
    LastSeparatorPosition(a, b, c, d, separator);
    LastSeparatorPosition(c, d, a, b, separator);
    assert |b| == |d| && |s| == |t|;
    assert a == s[..|a|] == t[..|c|] == c;
    assert b == s[|a| + 1..] == t[|c| + 1..] == d;
  }

  /** An activity whose fields are what its validator and the report's categories admit. */
  ghost predicate Citable(a: ActivityEvent) {
    && CanonicalId(a.id) && (a.sourceEventId.Some? ==> CanonicalId(a.sourceEventId.value))
    && a.action in COMPLETED + BLOCKED + RISKED + FOCUSED
  }

  lemma IdHasNoSeparator(id: string)
    requires CanonicalId(id)
    ensures ':' !in id && '\n' !in id && id != ""
  {
    forall c | c in id ensures c != ':' && c != '\n' {
      CanonicalCharacters(id, c);
    }
  }

  predicate NoSeparatorIn(text: string) {
    ':' !in text && '\n' !in text
  }

  lemma TasksHaveNoSeparator()
    ensures NoSeparatorIn("task.completed") && NoSeparatorIn("task.blocked") && NoSeparatorIn("task.planned")
  {
  }

  lemma IssuesHaveNoSeparator()
    ensures NoSeparatorIn("issue.created") && NoSeparatorIn("issue.detected")
  {
  }

  lemma MaterialsHaveNoSeparator()
    ensures NoSeparatorIn("material.quantity_updated") && NoSeparatorIn("material.requested")
  {
  }

  lemma FocusHasNoSeparator()
    ensures NoSeparatorIn("daily_brief.focus_added")
  {
  }

  lemma ActionHasNoSeparator(action: string)
    requires action in COMPLETED + BLOCKED + RISKED + FOCUSED
    ensures NoSeparatorIn(action)
  {
    hide NoSeparatorIn;
    TasksHaveNoSeparator();
    IssuesHaveNoSeparator();
    MaterialsHaveNoSeparator();
    FocusHasNoSeparator();
  }

  lemma LineIsOne(a: ActivityEvent)
    requires Citable(a)
    ensures '\n' !in SourceLine(a) && SourceLine(a) != ""
  {
    IdHasNoSeparator(a.id);
    ActionHasNoSeparator(a.action);
    if a.sourceEventId.Some? {
      IdHasNoSeparator(a.sourceEventId.value);
    }
  }

  ghost predicate SameSource(a: ActivityEvent, b: ActivityEvent) {
    a.id == b.id && a.action == b.action && a.sourceEventId == b.sourceEventId
  }

  function SourceOf(a: ActivityEvent): string {
    if a.sourceEventId.Some? then a.sourceEventId.value else ""
  }

  lemma LineParts(a: ActivityEvent)
    requires Citable(a)
    ensures SourceLine(a) == a.id + [':'] + (a.action + [':'] + SourceOf(a))
    ensures ':' !in a.id && ':' !in a.action && a.sourceEventId != Some("")
  {
    IdHasNoSeparator(a.id);
    ActionHasNoSeparator(a.action);
    if a.sourceEventId.Some? { IdHasNoSeparator(a.sourceEventId.value); }
    hide Citable, CanonicalId;
    assert SourceLine(a) == a.id + [':'] + (a.action + [':'] + SourceOf(a));
  }

  lemma LineNames(a: ActivityEvent, b: ActivityEvent)
    requires Citable(a) && Citable(b) && SourceLine(a) == SourceLine(b)
    ensures SameSource(a, b)
  {
    hide Citable, SourceLine, CanonicalId;
    LineParts(a);
    LineParts(b);
    var x, y := a.action + [':'] + SourceOf(a), b.action + [':'] + SourceOf(b);
    CutAtSeparator(a.id, x, b.id, y, ':');
    CutAtSeparator(a.action, SourceOf(a), b.action, SourceOf(b), ':');
  }

  lemma MaterialCut(selected: seq<ActivityEvent>)
    requires forall a | a in selected :: Citable(a)
    ensures selected == [] <==> SourceMaterial(selected) == ""
    ensures '\n' in SourceMaterial(selected) <==> |selected| > 1
    ensures |selected| > 1 ==>
              var n := |selected| - 1;
              SourceMaterial(selected) == SourceMaterial(selected[..n]) + ['\n'] + SourceLine(selected[n])
  {
    hide SourceLine, Citable;
    if selected != [] {
      LineIsOne(selected[|selected| - 1]);
    }
    if |selected| > 1 {
      var n := |selected| - 1;
      var material := SourceMaterial(selected[..n]) + ['\n'] + SourceLine(selected[n]);
      assert SourceMaterial(selected) == material;
      assert material[|SourceMaterial(selected[..n])|] == '\n';
    }
  }

  lemma {:induction false} MaterialNames(a: seq<ActivityEvent>, b: seq<ActivityEvent>)
    requires (forall e | e in a :: Citable(e)) && forall e | e in b :: Citable(e)
    requires SourceMaterial(a) == SourceMaterial(b)
    ensures |a| == |b| && forall i | 0 <= i < |a| :: SameSource(a[i], b[i])
    decreases |a|
  {
    hide SourceLine, Citable, SameSource;
    MaterialCut(a);
    MaterialCut(b);
    if |a| > 1 {
      var n, m := |a| - 1, |b| - 1;
      LineIsOne(a[n]);
      LineIsOne(b[m]);
      CutAtLast(SourceMaterial(a[..n]), SourceLine(a[n]), SourceMaterial(b[..m]), SourceLine(b[m]), '\n');
      MaterialNames(a[..n], b[..m]);
      LineNames(a[n], b[m]);
    } else if |a| == 1 {
      LineNames(a[0], b[0]);
    }
  }

  /** The digest names the slice: two lists of one digest have the same activities in the same order, with the same
      actions and source events. */
  lemma DigestNamesSlice(a: seq<ActivityEvent>, b: seq<ActivityEvent>)
    requires (forall e | e in a :: Citable(e)) && forall e | e in b :: Citable(e)
    ensures Sha256(SourceMaterial(a)) == Sha256(SourceMaterial(b)) <==>
            |a| == |b| && forall i | 0 <= i < |a| :: SameSource(a[i], b[i])
  {
    hide Citable, SourceMaterial, SameSource;
    if Sha256(SourceMaterial(a)) == Sha256(SourceMaterial(b)) {
      DigestInjective(SourceMaterial(a), SourceMaterial(b));
      MaterialNames(a, b);
    }
    if |a| == |b| && forall i | 0 <= i < |a| :: SameSource(a[i], b[i]) {
      SameMaterial(a, b);
    }
  }

  lemma {:induction false} SameMaterial(a: seq<ActivityEvent>, b: seq<ActivityEvent>)
    requires |a| == |b| && forall i | 0 <= i < |a| :: SameSource(a[i], b[i])
    ensures SourceMaterial(a) == SourceMaterial(b)
    decreases |a|
  {
    if a != [] {
      SameMaterial(a[..|a| - 1], b[..|b| - 1]);
    }
  }

  // ----- the source event -----

  predicate HasSource(a: ActivityEvent) {
    a.sourceEventId.Some? && a.sourceEventId.value != ""
  }

  lemma {:induction false} SourceEventIsLast(selected: seq<ActivityEvent>, operationId: string)
    ensures || (exists i :: 0 <= i < |selected| && HasSource(selected[i])
                  && SourceEvent(selected, operationId) == selected[i].sourceEventId.value
                  && forall j | i < j < |selected| :: !HasSource(selected[j]))
            || ((forall i | 0 <= i < |selected| :: !HasSource(selected[i]))
                && SourceEvent(selected, operationId) == SourceEvent([], operationId))
    decreases |selected|
  {
    if selected != [] {
      var n := |selected| - 1;
      if HasSource(selected[n]) {
        assert SourceEvent(selected, operationId) == selected[n].sourceEventId.value;
      } else {
        SourceEventIsLast(selected[..n], operationId);
        if i :| 0 <= i < n && HasSource(selected[..n][i])
                && SourceEvent(selected[..n], operationId) == selected[..n][i].sourceEventId.value
                && forall j | i < j < n :: !HasSource(selected[..n][j])
        {
          forall j | i < j < |selected| ensures !HasSource(selected[j]) {
            assert j < n ==> selected[..n][j] == selected[j];
          }
          assert HasSource(selected[i]) && SourceEvent(selected, operationId) == selected[i].sourceEventId.value;
        } else {
          forall i | 0 <= i < |selected| ensures !HasSource(selected[i]) {
            assert i < n ==> selected[..n][i] == selected[i];
          }
        }
      }
    }
  }

  /** The source event of the last activity of the day that has one, and otherwise one named after the operation. */
  ghost predicate CitesLast(source: Option<string>, operationId: string, cal: Calendar, day: int,
                            activities: seq<ActivityEvent>, actions: set<string>) {
    || (exists a ::
          && a in activities && Happened(cal, day, a, actions) && HasSource(a) && source == a.sourceEventId
          && forall b | b in activities && Happened(cal, day, b, actions) && HasSource(b) :: NoLater(b, a))
    || ((forall a | a in activities && Happened(cal, day, a, actions) :: !HasSource(a))
        && var digest := Sha256(operationId);
           source == Some("evt_rebuild_" + if |digest| < 20 then digest else digest[..20]))
  }

  lemma SliceCitesLast(selected: seq<ActivityEvent>, operationId: string, cal: Calendar, day: int,
                       activities: seq<ActivityEvent>)
    requires IsSlice(selected, cal, day, activities)
    ensures CitesLast(Some(SourceEvent(selected, operationId)), operationId, cal, day, activities,
                      COMPLETED + BLOCKED + RISKED + FOCUSED)
  {
    hide SourceEvent, Happened, Covered;
    var actions := COMPLETED + BLOCKED + RISKED + FOCUSED;
    forall a ensures Covered(cal, day, a) <==> Happened(cal, day, a, actions) {
      CoveredIsHappened(cal, day, a);
    }
    SourceEventIsLast(selected, operationId);
    if i :| 0 <= i < |selected| && HasSource(selected[i])
            && SourceEvent(selected, operationId) == selected[i].sourceEventId.value
            && forall j | i < j < |selected| :: !HasSource(selected[j])
    {
      var a := selected[i];
      assert a in selected;
      SourceIsSome(a);
      forall b | b in activities && Happened(cal, day, b, actions) && HasSource(b) ensures NoLater(b, a) {
        assert b in selected;
        var j :| 0 <= j < |selected| && selected[j] == b;
        if j < i {
          assert Earlier(selected[j], selected[i]);
        } else {
          assert j == i;
          TextLeqTotal(a.id, a.id);
        }
      }
    } else {
      forall a | a in activities && Happened(cal, day, a, actions) ensures !HasSource(a) {
        assert a in selected;
      }
      NoSourceIsOperation(operationId);
    }
  }

  lemma SourceIsSome(a: ActivityEvent)
    requires HasSource(a)
    ensures a.sourceEventId == Some(a.sourceEventId.value)
  {
  }

  lemma NoSourceIsOperation(operationId: string)
    ensures var digest := Sha256(operationId);
            SourceEvent([], operationId) == "evt_rebuild_" + if |digest| < 20 then digest else digest[..20]
  {
  }

  /** The digest of the activities that a rebuild covers, in order of time and ID. */
  ghost predicate IsDigest(digest: string, cal: Calendar, day: int, activities: seq<ActivityEvent>) {
    exists selected :: IsSlice(selected, cal, day, activities) && digest == Sha256(SourceMaterial(selected))
  }

  /** The event of an applied rebuild cites the last source event of the day and carries the slice's digest. */
  lemma RebuildCites(cal: Calendar, seen: Db, db: Db, o: Order)
    requires WellFormed(db) && Applied(cal, seen, db, o)
    ensures var report := "rpt_" + o.project + "_" + cal.isoDate(o.day);
            var operation := Sha256(o.operationId.value);
            var key := "projection:" + report + ":" + (if |operation| < 24 then operation else operation[..24]);
            var k := Key(Activities, o.project, ActivityIdOf(o.project, None, key));
            var after := Rebuild(cal, seen, db, o).0;
            && o.operationId.Some? && k in after && after[k].entity.ActivityEntity?
            && var e := after[k].entity.activity;
               && CitesLast(e.sourceEventId, o.operationId.value, cal, o.day, o.activities,
                            COMPLETED + BLOCKED + RISKED + FOCUSED)
               && "source_digest" in e.metadata && e.metadata["source_digest"].Some?
               && IsDigest(e.metadata["source_digest"].value, cal, o.day, o.activities)
  {
    hide Rebuild, Applied, SelectSlice, Digits, WellFormed, SliceOf, IsSlice, SourceEvent, SourceMaterial,
         CitesLast, AuditEvent;
    AppliedSelects(cal, seen, db, o);
    AppliedNamesOperation(cal, seen, db, o);
    SliceIsSlice(cal, o);
    AuditSays(cal, seen, o);
    AuditCounts(cal, seen, o);
    StoredAudit(cal, seen, db, o);
    AuditCites(cal, seen, o);
    SliceCitesLast(SliceOf(cal, o), o.operationId.value, cal, o.day, o.activities);
  }

  /** So does the evidence of any rebuild. */
  lemma EvidenceCites(cal: Calendar, seen: Db, db: Db, o: Order)
    requires Rebuild(cal, seen, db, o).1.Success?
    ensures IsDigest(Rebuild(cal, seen, db, o).1.value.sourceDigest, cal, o.day, o.activities)
  {
    hide AuditedCall, Changed, Mutate, Reportable, Describable, ValidOrder, SourceMaterial, SelectSlice, IsSlice;
    SelectedOnSuccess(cal, seen, db, o);
    SliceIsSlice(cal, o);
  }

  lemma AuditCites(cal: Calendar, seen: Db, o: Order)
    requires o.operationId.Some?
    ensures AuditEvent(cal, seen, o).sourceEventId == Some(SourceEvent(SliceOf(cal, o), o.operationId.value))
  {
    hide SourceEvent, SourceMaterial, Digits, SliceOf, Desired, RebuildSpec;
  }
}
