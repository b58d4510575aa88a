/** Resolving a conversational reference to one record of a project, or asking which one is meant.
    Scores are integers out of FULL_SCORE; the similarity measure itself is a parameter. */
module EntityResolver {
  import opened Foundations
  import opened Ordering
  import opened Texts

  const FULL_SCORE: int := 10_000
  const PARTIAL_SCORE: int := 9_500

  /** `sortName` is the case-folded display name; `names` are the normalised searchable names. */
  datatype EntityRecord = EntityRecord(id: string, displayName: string, sortName: string, names: seq<string>)

  datatype Status = Resolved | Ambiguous | NotFound

  datatype MatchMethod = ByContext | ById | ByExactName | ByPartialName | ByFuzzyName

  datatype Candidate = Candidate(id: string, displayName: string, score: int)

  datatype Resolution = Resolution(
    reference: string, status: Status, entityId: Option<string>, displayName: Option<string>,
    matchMethod: Option<MatchMethod>,
    candidates: seq<Candidate>, clarification: Option<string>, canMutate: bool)

  /** `kindName` is the kind in words. */
  datatype Resolver = Resolver(
    similarity: (string, string) -> int, normalize: string -> string, kindName: string,
    threshold: int, margin: int, maxCandidates: int)

  predicate ValidResolver(v: Resolver) {
    0 <= v.threshold <= FULL_SCORE && 0 <= v.margin <= FULL_SCORE && 1 <= v.maxCandidates <= 5
  }

  // ----- matching -----

  predicate MatchesExactly(r: EntityRecord, wanted: string) {
    wanted in r.names
  }

  predicate MatchesPartly(r: EntityRecord, wanted: string) {
    exists name | name in r.names :: Contains(name, wanted) || Contains(wanted, name)
  }

  function Best(v: Resolver, names: seq<string>, wanted: string): int
    requires names != []
  {
    var last := v.similarity(wanted, names[|names| - 1]);
    if |names| == 1 then last
    else
      var before := Best(v, names[..|names| - 1], wanted);
      if before < last then last else before
  }

  function Score(v: Resolver, r: EntityRecord, wanted: string): int {
    if r.names == [] then 0 else Best(v, r.names, wanted)
  }

  function ExactMatch(wanted: string): EntityRecord -> bool {
    r => MatchesExactly(r, wanted)
  }

  function PartialMatch(wanted: string): EntityRecord -> bool {
    r => MatchesPartly(r, wanted)
  }

  /** Within the margin of the best score. */
  function CloseTo(v: Resolver, wanted: string, top: int): EntityRecord -> bool {
    r => top - Score(v, r, wanted) < v.margin
  }

  function Select(records: seq<EntityRecord>, p: EntityRecord -> bool): seq<EntityRecord> {
    if records == [] then []
    else
      var last := records[|records| - 1];
      Select(records[..|records| - 1], p) + (if p(last) then [last] else [])
  }

  function Find(records: seq<EntityRecord>, id: string): Option<EntityRecord> {
    if records == [] then None
    else if records[0].id == id then Some(records[0])
    else Find(records[1..], id)
  }

  predicate NameOrder(a: EntityRecord, b: EntityRecord) {
    if a.sortName == b.sortName then TextLeq(a.id, b.id) else TextLeq(a.sortName, b.sortName)
  }

  /** Higher scores first, then by name and ID. */
  function RankOrder(v: Resolver, wanted: string): (EntityRecord, EntityRecord) -> bool {
    (a, b) => if Score(v, a, wanted) == Score(v, b, wanted) then NameOrder(a, b)
      else Score(v, b, wanted) < Score(v, a, wanted)
  }

  datatype Decision =
    | One(record: EntityRecord, how: MatchMethod, score: int)
    | Several(records: seq<EntityRecord>, score: int)
    | Nobody

  function DecideByRank(v: Resolver, records: seq<EntityRecord>, wanted: string): Decision {
    var ranked := Sort(records, RankOrder(v, wanted));
    if ranked == [] || Score(v, ranked[0], wanted) < v.threshold then Nobody
    else
      var top := Score(v, ranked[0], wanted);
      if |ranked| == 1 || top - Score(v, ranked[1], wanted) >= v.margin then One(ranked[0], ByFuzzyName, top)
      else Several(Select(ranked, CloseTo(v, wanted, top)), top)
  }

  /** What a list of matching records comes to, when there are any. */
  function DecideAmong(matching: seq<EntityRecord>, how: MatchMethod, score: int): Option<Decision> {
    if |matching| == 0 then None
    else if |matching| == 1 then Some(One(matching[0], how, score))
    else Some(Several(matching, score))
  }

  function DecideByName(v: Resolver, records: seq<EntityRecord>, wanted: string): Decision {
    var exact := DecideAmong(Select(records, ExactMatch(wanted)), ByExactName, FULL_SCORE);
    var partly := DecideAmong(Select(records, PartialMatch(wanted)), ByPartialName, PARTIAL_SCORE);
    if exact.Some? then exact.value
    else if partly.Some? then partly.value
    else DecideByRank(v, records, wanted)
  }

  function Decide(v: Resolver, records: seq<EntityRecord>, reference: string, contextual: Option<string>): Decision {
    var fromContext := if contextual.Some? && contextual.value != "" then Find(records, contextual.value) else None;
    var fromId := Find(records, reference);
    if fromContext.Some? then One(fromContext.value, ByContext, FULL_SCORE)
    else if fromId.Some? then One(fromId.value, ById, FULL_SCORE)
    else DecideByName(v, records, v.normalize(reference))
  }

  // ----- the answer -----

  function Take<T>(xs: seq<T>, n: int): seq<T>
    requires 0 <= n
  {
    if |xs| <= n then xs else xs[..n]
  }

  function CandidatesOf(records: seq<EntityRecord>, score: int): seq<Candidate> {
    seq(|records|, i requires 0 <= i < |records| => Candidate(records[i].id, records[i].displayName, score))
  }

  function Joined(names: seq<string>): string {
    if names == [] then "" else if |names| == 1 then names[0] else names[0] + ", " + Joined(names[1..])
  }

  function Choices(names: seq<string>): string
    requires names != []
  {
    if |names| == 1 then names[0]
    else if |names| == 2 then names[0] + " or " + names[1]
    else Joined(names[..|names| - 1]) + ", or " + names[|names| - 1]
  }

  function NamesOf(records: seq<EntityRecord>): seq<string> {
    seq(|records|, i requires 0 <= i < |records| => records[i].displayName)
  }

  function Question(v: Resolver, ordered: seq<EntityRecord>): string
    requires ordered != []
  {
    "Which " + v.kindName + " do you mean — " + Choices(NamesOf(ordered)) + "?"
  }

  function Absence(v: Resolver): string {
    "I couldn't find that " + v.kindName + " in this project."
  }

  /** The field limits of the answer's type. */
  predicate ValidResolution(r: Resolution) {
    && 1 <= |r.reference| <= 300
    && |r.candidates| <= 5
    && (forall i | 0 <= i < |r.candidates| :: 1 <= |r.candidates[i].displayName| <= 300)
    && (r.clarification.Some? ==> |r.clarification.value| <= 500)
  }

  function Answer(v: Resolver, reference: string, d: Decision): Resolution
    requires ValidResolver(v) && (d.Several? ==> d.records != [])
  {
    match d
    case One(r, how, score) =>
      Resolution(reference, Resolved, Some(r.id), Some(r.displayName), Some(how),
                 [Candidate(r.id, r.displayName, score)], None, true)
    case Several(records, score) =>
      SortLength(records);
      var ordered := Take(Sort(records, NameOrder), v.maxCandidates);
      Resolution(reference, Ambiguous, None, None, None, CandidatesOf(ordered, score),
                 Some(Question(v, ordered)), false)
    case Nobody =>
      Resolution(reference, NotFound, None, None, None, [], Some(Absence(v)), false)
  }

  /** `resolve`, after the caller's permission to read was checked. */
  function Resolve(v: Resolver, records: seq<EntityRecord>, reference: string,
                   contextual: Option<string>): Result<Resolution, Error>
    requires ValidResolver(v)
  {
    if v.normalize(reference) == "" then Failure(ValidationFailed)
    else
      DecisionHasRecords(v, records, reference, contextual);
      var answer := Answer(v, reference, Decide(v, records, reference, contextual));
      if ValidResolution(answer) then Success(answer) else Failure(ValidationFailed)
  }

  // ----- sorting -----

  lemma SortLength(records: seq<EntityRecord>)
    ensures |Sort(records, NameOrder)| == |records|
  {
    NameOrderIsOrder();
    SortSorts(records, NameOrder);
  }

  lemma NameOrderLaws(a: EntityRecord, b: EntityRecord, c: EntityRecord)
    ensures NameOrder(a, b) || NameOrder(b, a)
    ensures NameOrder(a, b) && NameOrder(b, c) ==> NameOrder(a, c)
    ensures NameOrder(a, b) && NameOrder(b, a) ==> a.id == b.id
  {
    TextLeqTotal(a.id, b.id);
    TextLeqTotal(a.sortName, b.sortName);
    TextLeqTotal(b.sortName, c.sortName);
    if NameOrder(a, b) && NameOrder(b, c) {
      if a.sortName == b.sortName == c.sortName {
        TextLeqTransitive(a.id, b.id, c.id);
      } else {
        TextLeqTotal(a.sortName, a.sortName);
        TextLeqTotal(b.sortName, b.sortName);
        TextLeqTransitive(a.sortName, b.sortName, c.sortName);
      }
    }
  }

  lemma NameOrderIsOrder()
    ensures TotalOrder(NameOrder)
  {
    forall a, b ensures NameOrder(a, b) || NameOrder(b, a) {
      NameOrderLaws(a, b, b);
    }
    forall a, b, c | NameOrder(a, b) && NameOrder(b, c) ensures NameOrder(a, c) {
      NameOrderLaws(a, b, c);
    }
  }

  lemma RankOrderIsOrder(v: Resolver, wanted: string)
    ensures TotalOrder(RankOrder(v, wanted))
  {
    hide NameOrder, Score;
    var leq := RankOrder(v, wanted);
    forall a, b ensures leq(a, b) || leq(b, a) {
      NameOrderLaws(a, b, b);
    }
    forall a, b, c | leq(a, b) && leq(b, c) ensures leq(a, c) {
      NameOrderLaws(a, b, c);
    }
  }

  /** A project lists each of these once. */
  function RecordId(r: EntityRecord): string {
    r.id
  }

  lemma NoNameTies(records: seq<EntityRecord>)
    requires IdsName(records, RecordId)
    ensures NoTies(records, NameOrder)
  {
    forall a, b | a in records && b in records && NameOrder(a, b) && NameOrder(b, a) ensures a == b {
      NameOrderLaws(a, b, b);
    }
  }

  lemma NoRankTies(v: Resolver, records: seq<EntityRecord>, wanted: string)
    requires IdsName(records, RecordId)
    ensures NoTies(records, RankOrder(v, wanted))
  {
    hide NameOrder, Score;
    forall a, b | a in records && b in records && RankOrder(v, wanted)(a, b) && RankOrder(v, wanted)(b, a)
      ensures a == b {
      NameOrderLaws(a, b, b);
    }
  }

  // ----- selection -----

  lemma {:induction false} SelectCounts(records: seq<EntityRecord>, p: EntityRecord -> bool, r: EntityRecord)
    ensures multiset(Select(records, p))[r] == if p(r) then multiset(records)[r] else 0
    decreases |records|
  {
    if records != [] {
      var n := |records| - 1;
      SelectCounts(records[..n], p, r);
      assert records == records[..n] + [records[n]];
    }
  }

  lemma SelectMembers(records: seq<EntityRecord>, p: EntityRecord -> bool)
    ensures forall r :: r in Select(records, p) <==> r in records && p(r)
  {
    forall r ensures r in Select(records, p) <==> r in records && p(r) {
      SelectCounts(records, p, r);
      assert r in records <==> r in multiset(records);
      assert r in Select(records, p) <==> r in multiset(Select(records, p));
    }
  }

  lemma SelectEmpty(records: seq<EntityRecord>, p: EntityRecord -> bool)
    ensures Select(records, p) == [] <==> forall r | r in records :: !p(r)
  {
    SelectMembers(records, p);
    if Select(records, p) != [] {
      assert Select(records, p)[0] in Select(records, p);
    }
  }

  lemma SelectForgetsOrder(xs: seq<EntityRecord>, ys: seq<EntityRecord>, p: EntityRecord -> bool)
    requires multiset(xs) == multiset(ys)
    ensures multiset(Select(xs, p)) == multiset(Select(ys, p))
    ensures |Select(xs, p)| == |Select(ys, p)|
  {
    forall r ensures multiset(Select(xs, p))[r] == multiset(Select(ys, p))[r] {
      SelectCounts(xs, p, r);
      SelectCounts(ys, p, r);
    }
    assert multiset(Select(xs, p)) == multiset(Select(ys, p));
    assert |multiset(Select(xs, p))| == |multiset(Select(ys, p))|;
  }

  lemma {:induction false} FindFinds(records: seq<EntityRecord>, id: string)
    ensures Find(records, id).Some? ==> Find(records, id).value in records && Find(records, id).value.id == id
    ensures Find(records, id).None? ==> forall r | r in records :: r.id != id
    decreases |records|
  {
    if records != [] && records[0].id != id {
      FindFinds(records[1..], id);
      assert records == [records[0]] + records[1..];
    }
  }

  lemma FindForgetsOrder(xs: seq<EntityRecord>, ys: seq<EntityRecord>, id: string)
    requires multiset(xs) == multiset(ys) && IdsName(xs, RecordId)
    ensures Find(xs, id) == Find(ys, id)
  {
    MembersOfMultiset(xs, ys);
    FindFinds(xs, id);
    FindFinds(ys, id);
  }

  // ----- the order of the records does not matter -----

  lemma AmongForgetsOrder(v: Resolver, reference: string, xs: seq<EntityRecord>, ys: seq<EntityRecord>,
                          how: MatchMethod, score: int)
    requires ValidResolver(v) && multiset(xs) == multiset(ys) && IdsName(xs, RecordId) && xs != []
    ensures |xs| == |ys|
    ensures Answer(v, reference, DecideAmong(xs, how, score).value) ==
            Answer(v, reference, DecideAmong(ys, how, score).value)
  {
    MembersOfMultiset(xs, ys);
    if |xs| == 1 {
      assert xs[0] in ys;
    } else {
      NameOrderIsOrder();
      NoNameTies(xs);
      SortForgetsOrder(xs, ys, NameOrder);
    }
  }

  lemma RankForgetsOrder(v: Resolver, xs: seq<EntityRecord>, ys: seq<EntityRecord>, wanted: string)
    requires multiset(xs) == multiset(ys) && IdsName(xs, RecordId)
    ensures DecideByRank(v, xs, wanted) == DecideByRank(v, ys, wanted)
  {
    RankOrderIsOrder(v, wanted);
    NoRankTies(v, xs, wanted);
    SortForgetsOrder(xs, ys, RankOrder(v, wanted));
  }

  lemma SelectedIdsName(xs: seq<EntityRecord>, p: EntityRecord -> bool)
    requires IdsName(xs, RecordId)
    ensures IdsName(Select(xs, p), RecordId)
  {
    SelectMembers(xs, p);
  }

  /** The answer does not depend on the order in which the project's records are listed. */
  lemma ResolveForgetsOrder(v: Resolver, xs: seq<EntityRecord>, ys: seq<EntityRecord>, reference: string,
                            contextual: Option<string>)
    requires ValidResolver(v) && multiset(xs) == multiset(ys) && IdsName(xs, RecordId)
    ensures Resolve(v, xs, reference, contextual) == Resolve(v, ys, reference, contextual)
  {
    hide Answer, ValidResolution, DecideByRank, Find, Select, ExactMatch, PartialMatch, DecideAmong;
    var wanted := v.normalize(reference);
    FindForgetsOrder(xs, ys, reference);
    if contextual.Some? { FindForgetsOrder(xs, ys, contextual.value); }
    RankForgetsOrder(v, xs, ys, wanted);
    DecisionHasRecords(v, xs, reference, contextual);
    DecisionHasRecords(v, ys, reference, contextual);
    MatchForgetsOrder(v, reference, xs, ys, ExactMatch(wanted), ByExactName, FULL_SCORE);
    MatchForgetsOrder(v, reference, xs, ys, PartialMatch(wanted), ByPartialName, PARTIAL_SCORE);
  }

  lemma MatchForgetsOrder(v: Resolver, reference: string, xs: seq<EntityRecord>, ys: seq<EntityRecord>,
                          p: EntityRecord -> bool, how: MatchMethod, score: int)
    requires ValidResolver(v) && multiset(xs) == multiset(ys) && IdsName(xs, RecordId)
    ensures DecideAmong(Select(xs, p), how, score).Some? <==> DecideAmong(Select(ys, p), how, score).Some?
    ensures DecideAmong(Select(xs, p), how, score).Some? ==>
              Answer(v, reference, DecideAmong(Select(xs, p), how, score).value) ==
                Answer(v, reference, DecideAmong(Select(ys, p), how, score).value)
  {
    SelectForgetsOrder(xs, ys, p);
    SelectedIdsName(xs, p);
    if Select(xs, p) != [] {
      AmongForgetsOrder(v, reference, Select(xs, p), Select(ys, p), how, score);
    }
  }

  // ----- what an answer means -----

  /** Nothing but the ranking can decide. */
  ghost predicate OnlyFuzzy(v: Resolver, records: seq<EntityRecord>, reference: string, contextual: Option<string>) {
    && (forall r | r in records ::
        r.id != reference && (contextual.Some? && contextual.value != "" ==> r.id != contextual.value))
    && (forall r | r in records ::
        !MatchesExactly(r, v.normalize(reference)) && !MatchesPartly(r, v.normalize(reference)))
  }

  /** The record reaches the threshold and beats every other one by at least the margin. */
  ghost predicate Leads(v: Resolver, records: seq<EntityRecord>, wanted: string, r: EntityRecord) {
    && r in records && v.threshold <= Score(v, r, wanted)
    && forall s | s in records && s != r :: v.margin <= Score(v, r, wanted) - Score(v, s, wanted)
  }

  /** The ranking: the same records, best first. */
  lemma RankedRecords(v: Resolver, records: seq<EntityRecord>, wanted: string)
    requires DistinctIds(records, RecordId)
    ensures var ranked := Sort(records, RankOrder(v, wanted));
            && (forall r :: r in ranked <==> r in records) && |ranked| == |records| && DistinctIds(ranked, RecordId)
            && forall i, j | 0 <= i < j < |ranked| :: Score(v, ranked[j], wanted) <= Score(v, ranked[i], wanted)
  {
    var ranked := Sort(records, RankOrder(v, wanted));
    RankOrderIsOrder(v, wanted);
    SortSorts(records, RankOrder(v, wanted));
    MembersOfMultiset(ranked, records);
    DistinctStays(records, RecordId, ranked);
    forall i, j | 0 <= i < j < |ranked| ensures Score(v, ranked[j], wanted) <= Score(v, ranked[i], wanted) {
      assert RankOrder(v, wanted)(ranked[i], ranked[j]);
    }
  }

  /** The ranking resolves to a record only if that record leads, resolves whenever some record leads, and
      otherwise asks only when at least two records are within the margin of the best. */
  lemma RankDecision(v: Resolver, records: seq<EntityRecord>, wanted: string)
    requires ValidResolver(v) && DistinctIds(records, RecordId)
    ensures var d := DecideByRank(v, records, wanted);
            && (d.One? ==>
                d.how == ByFuzzyName && Leads(v, records, wanted, d.record) && d.score == Score(v, d.record, wanted))
            && (d.One? <==> exists r :: Leads(v, records, wanted, r))
            && (d.Nobody? <==> forall r | r in records :: Score(v, r, wanted) < v.threshold)
            && (d.Several? ==> (2 <= |d.records| && DistinctIds(d.records, RecordId) && v.threshold <= d.score))
            && (d.Several? ==> forall r | r in records :: Score(v, r, wanted) <= d.score)
            && (d.Several? ==> forall r :: r in d.records <==> r in records && d.score - Score(v, r, wanted) < v.margin)
  {
    hide Score, RankOrder;
    var ranked := Sort(records, RankOrder(v, wanted));
    RankedRecords(v, records, wanted);
    if ranked != [] {
      var top := Score(v, ranked[0], wanted);
      assert forall r | r in records :: exists i :: 0 <= i < |ranked| && ranked[i] == r;
      assert forall r | r in records :: Score(v, r, wanted) <= top;
      assert ranked[0] in records;
      if v.threshold <= top {
        if |ranked| == 1 || top - Score(v, ranked[1], wanted) >= v.margin {
          assert Leads(v, records, wanted, ranked[0]);
        } else {
          NoLeader(v, records, ranked, wanted);
          CloseOnes(v, ranked, wanted);
        }
      } else {
        NoLeaderBelow(v, records, wanted, top);
      }
    } else {
      assert forall r :: r !in records;
    }
  }

  lemma NoLeaderBelow(v: Resolver, records: seq<EntityRecord>, wanted: string, top: int)
    requires top < v.threshold && forall r | r in records :: Score(v, r, wanted) <= top
    ensures !exists r :: Leads(v, records, wanted, r)
  {
  }

  lemma NoLeader(v: Resolver, records: seq<EntityRecord>, ranked: seq<EntityRecord>, wanted: string)
    requires 2 <= |ranked| && DistinctIds(ranked, RecordId) && (forall r :: r in ranked <==> r in records)
    requires Score(v, ranked[0], wanted) - Score(v, ranked[1], wanted) < v.margin
    requires Score(v, ranked[1], wanted) <= Score(v, ranked[0], wanted)
    requires forall i, j | 0 <= i < j < |ranked| :: Score(v, ranked[j], wanted) <= Score(v, ranked[i], wanted)
    ensures !exists r :: Leads(v, records, wanted, r)
  {
    hide Score;
    assert ranked[0] in records && ranked[1] in records && ranked[0] != ranked[1];
    forall r | r in records ensures !Leads(v, records, wanted, r) {
      var i :| 0 <= i < |ranked| && ranked[i] == r;
      assert i == 0 || Score(v, r, wanted) <= Score(v, ranked[0], wanted);
    }
  }

  lemma CloseOnes(v: Resolver, ranked: seq<EntityRecord>, wanted: string)
    requires 2 <= |ranked| && DistinctIds(ranked, RecordId)
    requires Score(v, ranked[0], wanted) - Score(v, ranked[1], wanted) < v.margin
    requires Score(v, ranked[1], wanted) <= Score(v, ranked[0], wanted)
    ensures var top := Score(v, ranked[0], wanted);
            var close := Select(ranked, CloseTo(v, wanted, top));
            && 2 <= |close| && DistinctIds(close, RecordId)
            && forall r :: r in close <==> r in ranked && top - Score(v, r, wanted) < v.margin
  {
    hide Score;
    var top := Score(v, ranked[0], wanted);
    var p := CloseTo(v, wanted, top);
    SelectMembers(ranked, p);
    SelectDistinct(ranked, p);
    var close := Select(ranked, p);
    assert ranked[0] in close && ranked[1] in close && ranked[0] != ranked[1];
  }

  lemma SelectDistinct(records: seq<EntityRecord>, p: EntityRecord -> bool)
    requires DistinctIds(records, RecordId)
    ensures DistinctIds(Select(records, p), RecordId)
  {
    forall r ensures multiset(Select(records, p))[r] <= multiset(records)[r] {
      SelectCounts(records, p, r);
    }
    DistinctStays(records, RecordId, Select(records, p));
  }

  lemma RankHasRecords(v: Resolver, records: seq<EntityRecord>, wanted: string)
    requires ValidResolver(v)
    ensures var d := DecideByRank(v, records, wanted); d.Several? ==> d.records != []
  {
    hide Score, RankOrder, NameOrder;
    var ranked := Sort(records, RankOrder(v, wanted));
    if 2 <= |ranked| {
      var top := Score(v, ranked[0], wanted);
      SelectMembers(ranked, CloseTo(v, wanted, top));
      RankOrderIsOrder(v, wanted);
      SortSorts(records, RankOrder(v, wanted));
      ScoreOrder(v, wanted, ranked[0], ranked[1]);
      assert 0 < v.margin ==> ranked[0] in Select(ranked, CloseTo(v, wanted, top));
    }
  }

  lemma DecisionHasRecords(v: Resolver, records: seq<EntityRecord>, reference: string, contextual: Option<string>)
    requires ValidResolver(v)
    ensures var d := Decide(v, records, reference, contextual); d.Several? ==> d.records != []
  {
    hide Select, ExactMatch, PartialMatch, Find, DecideByRank, ValidResolver;
    RankHasRecords(v, records, v.normalize(reference));
  }

  lemma ScoreOrder(v: Resolver, wanted: string, a: EntityRecord, b: EntityRecord)
    requires RankOrder(v, wanted)(a, b)
    ensures Score(v, b, wanted) <= Score(v, a, wanted)
  {
  }

  /** Why a decision for one record was taken. */
  ghost predicate Grounds(v: Resolver, records: seq<EntityRecord>, reference: string, contextual: Option<string>,
                          r: EntityRecord, how: MatchMethod) {
    var wanted := v.normalize(reference);
    match how
    case ByContext => Some(r.id) == contextual
    case ById => r.id == reference
    case ByExactName => forall s | s in records :: MatchesExactly(s, wanted) <==> s == r
    case ByPartialName => (forall s | s in records :: MatchesPartly(s, wanted) <==> s == r)
      && forall s | s in records :: !MatchesExactly(s, wanted)
    case ByFuzzyName => OnlyFuzzy(v, records, reference, contextual) && Leads(v, records, wanted, r)
  }

  /** The records between which an ambiguous reference leaves the choice. */
  function Contenders(v: Resolver, records: seq<EntityRecord>, wanted: string): seq<EntityRecord> {
    var exact, partly := Select(records, ExactMatch(wanted)), Select(records, PartialMatch(wanted));
    if exact != [] then exact
    else if partly != [] then partly
    else
      var ranked := Sort(records, RankOrder(v, wanted));
      if ranked == [] then [] else Select(ranked, CloseTo(v, wanted, Score(v, ranked[0], wanted)))
  }

  lemma {:induction false} OnlyMember(records: seq<EntityRecord>, p: EntityRecord -> bool)
    requires |Select(records, p)| == 1
    ensures forall s | s in records :: p(s) <==> s == Select(records, p)[0]
    ensures Select(records, p)[0] in records
  {
    SelectMembers(records, p);
    var only := Select(records, p);
    assert only == [only[0]];
    assert only[0] in only;
  }

  lemma LeaderIsListed(v: Resolver, records: seq<EntityRecord>, wanted: string, r: EntityRecord)
    requires Leads(v, records, wanted, r)
    ensures r in records
  {
  }

  lemma OneHasGrounds(v: Resolver, records: seq<EntityRecord>, reference: string, contextual: Option<string>)
    requires ValidResolver(v) && DistinctIds(records, RecordId)
    ensures var d := Decide(v, records, reference, contextual);
            d.One? ==> d.record in records && Grounds(v, records, reference, contextual, d.record, d.how)
  {
    hide Select, Find, DecideByRank, MatchesExactly, MatchesPartly, Leads, ValidResolver;
    var wanted := v.normalize(reference);
    var exact, partly := Select(records, ExactMatch(wanted)), Select(records, PartialMatch(wanted));
    FindFinds(records, reference);
    if contextual.Some? { FindFinds(records, contextual.value); }
    var d := Decide(v, records, reference, contextual);
    RankDecision(v, records, wanted);
    SelectMembers(records, ExactMatch(wanted));
    SelectMembers(records, PartialMatch(wanted));
    if d.One? && d.how == ByExactName {
      OnlyMember(records, ExactMatch(wanted));
    } else if d.One? && d.how == ByPartialName {
      OnlyMember(records, PartialMatch(wanted));
    } else if d.One? && d.how == ByFuzzyName {
      assert OnlyFuzzy(v, records, reference, contextual);
      LeaderIsListed(v, records, wanted, d.record);
    }
  }

  lemma SeveralAreContenders(v: Resolver, records: seq<EntityRecord>, reference: string, contextual: Option<string>)
    requires ValidResolver(v) && DistinctIds(records, RecordId)
    ensures var d := Decide(v, records, reference, contextual);
            d.Several? ==>
              d.records == Contenders(v, records, v.normalize(reference)) && 2 <= |d.records|
                && DistinctIds(d.records, RecordId)
                           && forall r | r in d.records :: r in records
  {
    hide Select, Find, MatchesExactly, MatchesPartly, ValidResolver, RankOrder, Score;
    var wanted := v.normalize(reference);
    SelectMembers(records, ExactMatch(wanted));
    SelectMembers(records, PartialMatch(wanted));
    SelectDistinct(records, ExactMatch(wanted));
    SelectDistinct(records, PartialMatch(wanted));
    RankDecision(v, records, wanted);
  }

  lemma NobodyMeans(v: Resolver, records: seq<EntityRecord>, reference: string, contextual: Option<string>)
    requires ValidResolver(v) && DistinctIds(records, RecordId)
    ensures Decide(v, records, reference, contextual).Nobody? <==>
            OnlyFuzzy(v, records, reference, contextual)
              && forall r | r in records :: Score(v, r, v.normalize(reference)) < v.threshold
  {
    hide Select, Find, MatchesExactly, MatchesPartly, ValidResolver, DecideByRank, Score;
    var wanted := v.normalize(reference);
    FindFinds(records, reference);
    if contextual.Some? { FindFinds(records, contextual.value); }
    SelectMembers(records, ExactMatch(wanted));
    SelectMembers(records, PartialMatch(wanted));
    RankDecision(v, records, wanted);
    SelectEmpty(records, ExactMatch(wanted));
    SelectEmpty(records, PartialMatch(wanted));
  }

  /** A reference resolves to one record of the project, with the grounds its method names, and only then
      may the caller mutate. */
  lemma ResolvedMeans(v: Resolver, records: seq<EntityRecord>, reference: string, contextual: Option<string>)
    requires ValidResolver(v) && DistinctIds(records, RecordId) && Resolve(v, records, reference, contextual).Success?
    ensures var answer := Resolve(v, records, reference, contextual).value;
            && (answer.canMutate <==> answer.status == Resolved)
            && (answer.status == Resolved <==> answer.entityId.Some?)
            && (answer.status == Resolved ==>
                  exists r | r in records ::
                    && answer.entityId == Some(r.id) && answer.displayName == Some(r.displayName)
                    && answer.matchMethod.Some?
                    && Grounds(v, records, reference, contextual, r, answer.matchMethod.value)
                    && |answer.candidates| == 1 && answer.candidates[0].id == r.id)
  {
    hide Decide, Grounds, ValidResolution, Choices;
    DecisionHasRecords(v, records, reference, contextual);
    OneHasGrounds(v, records, reference, contextual);
  }

  predicate NameFits(r: EntityRecord) {
    1 <= |r.displayName| <= 300
  }

  /** The decision can be put into words: the field limits of an answer, in terms of the decision. */
  predicate AnswerFits(v: Resolver, reference: string, d: Decision)
    requires ValidResolver(v) && (d.Several? ==> d.records != [])
  {
    && 1 <= |reference| <= 300
    && match d
       case One(r, _, _) => NameFits(r)
       case Several(records, _) =>
         SortLength(records);
         var ordered := Take(Sort(records, NameOrder), v.maxCandidates);
         (forall i | 0 <= i < |ordered| :: NameFits(ordered[i])) && |Question(v, ordered)| <= 500
       case Nobody => |Absence(v)| <= 500
  }

  /** A resolution fails exactly for a reference without content, or one whose answer breaks a field limit: a
      candidate's name of more than 300 characters, such as the description of an issue, or too long a question. */
  lemma ResolveFailsExactly(v: Resolver, records: seq<EntityRecord>, reference: string, contextual: Option<string>)
    requires ValidResolver(v)
    ensures var d := Decide(v, records, reference, contextual);
            && (d.Several? ==> d.records != [])
            && (Resolve(v, records, reference, contextual).Failure? <==>
                v.normalize(reference) == "" || !AnswerFits(v, reference, d))
  {
    hide Decide, Answer, AnswerFits, ValidResolution;
    DecisionHasRecords(v, records, reference, contextual);
    AnswerIsValid(v, reference, Decide(v, records, reference, contextual));
  }

  lemma AnswerIsValid(v: Resolver, reference: string, d: Decision)
    requires ValidResolver(v) && (d.Several? ==> d.records != [])
    ensures ValidResolution(Answer(v, reference, d)) <==> AnswerFits(v, reference, d)
  {
    hide NameOrder, Question, Absence;
    match d {
      case One(r, how, score) =>
        assert Answer(v, reference, d).candidates[0].displayName == r.displayName;
      case Several(records, score) =>
        SortLength(records);
        var ordered := Take(Sort(records, NameOrder), v.maxCandidates);
        var candidates := Answer(v, reference, d).candidates;
        assert forall i | 0 <= i < |ordered| :: candidates[i].displayName == ordered[i].displayName;
      case Nobody =>
    }
  }

  /** A record with too long a name cannot be resolved even by its own ID. */
  lemma LongNameFails(v: Resolver, records: seq<EntityRecord>, r: EntityRecord)
    requires ValidResolver(v) && DistinctIds(records, RecordId) && r in records && 300 < |r.displayName|
    ensures Resolve(v, records, r.id, None).Failure?
  {
    hide DecideByName, NameOrder;
    FindFinds(records, r.id);
    ResolveFailsExactly(v, records, r.id, None);
  }

  /** The ranking's choice stands first in it. */
  lemma RankedFirst(v: Resolver, records: seq<EntityRecord>, wanted: string)
    requires ValidResolver(v) && DistinctIds(records, RecordId)
    ensures var d := DecideByRank(v, records, wanted);
            d.One? ==> d.record in records && forall s | s in records :: RankOrder(v, wanted)(d.record, s)
  {
    hide Score, NameOrder;
    var ranked := Sort(records, RankOrder(v, wanted));
    RankOrderIsOrder(v, wanted);
    SortSorts(records, RankOrder(v, wanted));
    MembersOfMultiset(ranked, records);
    forall s | s in records && ranked != [] ensures RankOrder(v, wanted)(ranked[0], s) {
      var i :| 0 <= i < |ranked| && ranked[i] == s;
      NameOrderLaws(s, s, s);
    }
  }

  /** The record that leads and, among those that lead, stands first by score, name and ID. */
  ghost predicate LeadsFirst(v: Resolver, records: seq<EntityRecord>, wanted: string, r: EntityRecord) {
    Leads(v, records, wanted, r) && forall s | s in records :: RankOrder(v, wanted)(r, s)
  }

  lemma ChoiceLeadsFirst(v: Resolver, records: seq<EntityRecord>, wanted: string, r: EntityRecord)
    requires ValidResolver(v) && DistinctIds(records, RecordId)
    ensures var d := DecideByRank(v, records, wanted);
            LeadsFirst(v, records, wanted, r) <==> d.One? && d.record == r
  {
    hide DecideByRank, RankOrder;
    RankDecision(v, records, wanted);
    RankedFirst(v, records, wanted);
    var d := DecideByRank(v, records, wanted);
    NoRankTies(v, records, wanted);
    if LeadsFirst(v, records, wanted, r) && d.One? {
      assert RankOrder(v, wanted)(r, d.record) && RankOrder(v, wanted)(d.record, r);
    }
  }

  lemma RankDecides(v: Resolver, records: seq<EntityRecord>, reference: string, contextual: Option<string>)
    requires OnlyFuzzy(v, records, reference, contextual)
    ensures Decide(v, records, reference, contextual) == DecideByRank(v, records, v.normalize(reference))
  {
    hide Select, Find, MatchesExactly, MatchesPartly, DecideByRank;
    var wanted := v.normalize(reference);
    FindFinds(records, reference);
    if contextual.Some? { FindFinds(records, contextual.value); }
    SelectEmpty(records, ExactMatch(wanted));
    SelectEmpty(records, PartialMatch(wanted));
  }

  /** When only the ranking can decide, the reference resolves exactly when some record reaches the threshold
      and beats every other one by the margin, and the first such record's name and the reference fit an answer. */
  lemma FuzzyResolvesExactly(v: Resolver, records: seq<EntityRecord>, reference: string, contextual: Option<string>)
    requires ValidResolver(v) && DistinctIds(records, RecordId) && OnlyFuzzy(v, records, reference, contextual)
    ensures var answer := Resolve(v, records, reference, contextual);
            answer.Success? && answer.value.status == Resolved <==>
            && v.normalize(reference) != "" && 1 <= |reference| <= 300
            && exists r :: LeadsFirst(v, records, v.normalize(reference), r) && NameFits(r)
  {
    hide Decide, DecideByRank, OnlyFuzzy, LeadsFirst, ValidResolution, Question, Absence, NameOrder;
    var wanted := v.normalize(reference);
    RankDecides(v, records, reference, contextual);
    DecisionHasRecords(v, records, reference, contextual);
    ResolveFailsExactly(v, records, reference, contextual);
    var d := DecideByRank(v, records, wanted);
    forall r ensures LeadsFirst(v, records, wanted, r) <==> d.One? && d.record == r {
      ChoiceLeadsFirst(v, records, wanted, r);
    }
  }

  /** An ambiguous answer comes from at least two contenders; it lists the first of them by name and ID, as
      many as are allowed, each once. */
  lemma AmbiguousMeans(v: Resolver, records: seq<EntityRecord>, reference: string, contextual: Option<string>)
    requires ValidResolver(v) && DistinctIds(records, RecordId) && Resolve(v, records, reference, contextual).Success?
    requires Resolve(v, records, reference, contextual).value.status == Ambiguous
    ensures var answer := Resolve(v, records, reference, contextual).value;
            var contenders := Contenders(v, records, v.normalize(reference));
            var ordered := Sort(contenders, NameOrder);
            && 2 <= |contenders| && DistinctIds(contenders, RecordId) && (forall r | r in contenders :: r in records)
            && Sorted(ordered, NameOrder) && multiset(ordered) == multiset(contenders)
            && |answer.candidates| == (if |contenders| < v.maxCandidates then |contenders| else v.maxCandidates)
            && forall i | 0 <= i < |answer.candidates| ::
               answer.candidates[i].id == ordered[i].id && answer.candidates[i].displayName == ordered[i].displayName
  {
    hide Decide, Contenders, ValidResolution, Choices, Joined, NameOrder;
    DecisionHasRecords(v, records, reference, contextual);
    SeveralAreContenders(v, records, reference, contextual);
    NameOrderIsOrder();
    SortSorts(Contenders(v, records, v.normalize(reference)), NameOrder);
  }

  /** Nothing is found exactly when no name matches and every score is below the threshold. */
  lemma NotFoundMeans(v: Resolver, records: seq<EntityRecord>, reference: string, contextual: Option<string>)
    requires ValidResolver(v) && DistinctIds(records, RecordId) && Resolve(v, records, reference, contextual).Success?
    ensures Resolve(v, records, reference, contextual).value.status == NotFound <==>
            OnlyFuzzy(v, records, reference, contextual)
              && forall r | r in records :: Score(v, r, v.normalize(reference)) < v.threshold
  {
    hide Decide, ValidResolution, Choices, OnlyFuzzy, Score;
    DecisionHasRecords(v, records, reference, contextual);
    NobodyMeans(v, records, reference, contextual);
  }
}
