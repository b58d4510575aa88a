/** What an answer of the resolver says, by precedence: the context first, then an ID, an exact name, a partial
    name, and only then the ranking; and which score each candidate carries. */
module ResolverOutcomes {
  import opened Foundations
  import opened Ordering
  import opened Texts
  import opened EntityResolver

  /** `needle` stands somewhere in `text`. */
  ghost predicate Within(text: string, needle: string) {
    exists i, j :: 0 <= i <= j <= |text| && text[i..j] == needle
  }

  ghost function NamedBy(wanted: string): EntityRecord -> bool {
    (r: EntityRecord) => wanted in r.names
  }

  ghost function PartlyBy(wanted: string): EntityRecord -> bool {
    (r: EntityRecord) => PartlyNamed(r, wanted)
  }

  /** The records within the margin of the best score. */
  ghost function NearTop(v: Resolver, wanted: string, top: int): EntityRecord -> bool {
    (r: EntityRecord) => Close(v, wanted, top, r)
  }

  lemma ContainsIsWithin(text: string, needle: string)
    ensures Contains(text, needle) <==> Within(text, needle)
  {
    if Contains(text, needle) {
      var i :| 0 <= i <= |text| && StandsAt(text, needle, i);
      assert text[i..i + |needle|] == text[i..][..|needle|] == needle;
    }
    if Within(text, needle) {
      var i, j :| 0 <= i <= j <= |text| && text[i..j] == needle;
      assert text[i..][..j - i] == needle;
      assert StandsAt(text, needle, i);
    }
  }

  ghost predicate Named(r: EntityRecord, wanted: string) {
    wanted in r.names
  }

  ghost predicate PartlyNamed(r: EntityRecord, wanted: string) {
    exists name :: name in r.names && (Within(name, wanted) || Within(wanted, name))
  }

  lemma PartlyIs(r: EntityRecord, wanted: string)
    ensures MatchesPartly(r, wanted) <==> PartlyNamed(r, wanted)
    ensures MatchesExactly(r, wanted) <==> Named(r, wanted)
  {
    forall text, needle ensures Contains(text, needle) <==> Within(text, needle) {
      ContainsIsWithin(text, needle);
    }
  }

  /** The best similarity of any of the record's names. */
  ghost predicate HasScore(v: Resolver, r: EntityRecord, wanted: string, score: int) {
    && (exists name :: name in r.names && v.similarity(wanted, name) == score)
    && forall name | name in r.names :: v.similarity(wanted, name) <= score
  }

  lemma {:induction false} BestIsBest(v: Resolver, names: seq<string>, wanted: string)
    requires names != []
    ensures exists name :: name in names && v.similarity(wanted, name) == Best(v, names, wanted)
    ensures forall name | name in names :: v.similarity(wanted, name) <= Best(v, names, wanted)
    decreases |names|
  {
    var n := |names| - 1;
    assert names[n] in names && names == names[..n] + [names[n]];
    if n > 0 {
      BestIsBest(v, names[..n], wanted);
    }
  }

  lemma ScoreIsBest(v: Resolver, r: EntityRecord, wanted: string, score: int)
    requires r.names != []
    ensures HasScore(v, r, wanted, score) <==> score == Score(v, r, wanted)
  {
    BestIsBest(v, r.names, wanted);
  }

  /** The answer that names one record. */
  predicate IsAnswer(a: Resolution, reference: string, r: EntityRecord, how: MatchMethod, score: int) {
    a == Resolution(reference, Resolved, Some(r.id), Some(r.displayName), Some(how),
                    [Candidate(r.id, r.displayName, score)], None, true)
  }

  /** The answer that asks: candidates of that score, each the name and ID of one of these records. */
  ghost predicate Asks(a: Resolution, reference: string, records: seq<EntityRecord>, score: int,
                       among: EntityRecord -> bool) {
    && a.reference == reference && a.status == Ambiguous && a.entityId.None? && a.displayName.None?
    && a.matchMethod.None?
    && !a.canMutate && a.clarification.Some?
    && forall i | 0 <= i < |a.candidates| :: AsksFor(a.candidates[i], records, score, among)
  }

  ghost predicate AsksFor(c: Candidate, records: seq<EntityRecord>, score: int, among: EntityRecord -> bool) {
    c.score == score && exists r :: r in records && among(r) && c.id == r.id && c.displayName == r.displayName
  }

  lemma SeveralAsks(v: Resolver, reference: string, chosen: seq<EntityRecord>, records: seq<EntityRecord>, score: int,
                    among: EntityRecord -> bool)
    requires ValidResolver(v) && chosen != [] && forall r | r in chosen :: r in records && among(r)
    ensures Asks(Answer(v, reference, Several(chosen, score)), reference, records, score, among)
  {
    hide NameOrder, Question;
    SortLength(chosen);
    var sorted := Sort(chosen, NameOrder);
    var ordered := Take(sorted, v.maxCandidates);
    NameOrderIsOrder();
    SortSorts(chosen, NameOrder);
    MembersOfMultiset(sorted, chosen);
    forall i | 0 <= i < |ordered| ensures ordered[i] in chosen {
      assert ordered[i] == sorted[i] && sorted[i] in sorted;
    }
  }

  lemma OneAnswers(v: Resolver, reference: string, r: EntityRecord, how: MatchMethod, score: int)
    requires ValidResolver(v)
    ensures IsAnswer(Answer(v, reference, One(r, how, score)), reference, r, how, score)
  {
  }

  // ----- context and ID -----

  /** A contextual ID that names a record is answered with it, and otherwise a reference that is an ID with that
      record, whatever the names are. */
  lemma ContextThenId(v: Resolver, records: seq<EntityRecord>, reference: string, contextual: Option<string>,
                      r: EntityRecord)
    requires ValidResolver(v) && DistinctIds(records, RecordId) && Resolve(v, records, reference, contextual).Success?
    requires r in records
    ensures var a := Resolve(v, records, reference, contextual).value;
            && (contextual == Some(r.id) && r.id != "" ==> IsAnswer(a, reference, r, ByContext, 10_000))
            && (r.id == reference
                && (contextual.None? || contextual == Some("")
                    || forall s | s in records :: s.id != contextual.value) ==>
                  IsAnswer(a, reference, r, ById, 10_000))
  {
    hide DecideByName, Question, Absence;
    if contextual.Some? { FindFinds(records, contextual.value); }
    FindFinds(records, reference);
    SameId(records);
  }

  lemma SameId(records: seq<EntityRecord>)
    requires DistinctIds(records, RecordId)
    ensures forall r, s | r in records && s in records && r.id == s.id :: r == s
  {
    forall r, s | r in records && s in records && r.id == s.id ensures r == s {
      var i, j :| 0 <= i < |records| && records[i] == r && 0 <= j < |records| && records[j] == s;
      assert RecordId(records[i]) == r.id && RecordId(records[j]) == s.id;
    }
  }

  // ----- names and scores -----

  /** Neither the context nor the reference is the ID of a record. */
  ghost predicate NoId(records: seq<EntityRecord>, reference: string, contextual: Option<string>) {
    forall r | r in records :: r.id != reference
      && (contextual.Some? && contextual.value != "" ==> r.id != contextual.value)
  }

  lemma DecidedByName(v: Resolver, records: seq<EntityRecord>, reference: string, contextual: Option<string>)
    requires ValidResolver(v) && NoId(records, reference, contextual)
    requires Resolve(v, records, reference, contextual).Success?
    ensures var d := DecideByName(v, records, v.normalize(reference));
            && (d.Several? ==> d.records != [])
            && Resolve(v, records, reference, contextual) == Success(Answer(v, reference, d))
  {
    hide DecideByName, Answer, ValidResolution;
    if contextual.Some? { FindFinds(records, contextual.value); }
    FindFinds(records, reference);
    DecisionHasRecords(v, records, reference, contextual);
  }

  ghost predicate Any(records: seq<EntityRecord>, p: EntityRecord -> bool) {
    exists r :: r in records && p(r)
  }

  ghost predicate Two(records: seq<EntityRecord>, p: EntityRecord -> bool) {
    exists r, s :: r in records && s in records && r != s && p(r) && p(s)
  }

  /** What matching names come to: the only match is the answer, several are the candidates. */
  ghost predicate Settles(a: Resolution, reference: string, records: seq<EntityRecord>, p: EntityRecord -> bool,
                          how: MatchMethod, score: int) {
    if Two(records, p) then Asks(a, reference, records, score, p)
    else exists r :: r in records && p(r) && IsAnswer(a, reference, r, how, score)
  }

  lemma AmongSettles(v: Resolver, records: seq<EntityRecord>, reference: string, p: EntityRecord -> bool,
                     q: EntityRecord -> bool, how: MatchMethod, score: int)
    requires ValidResolver(v) && DistinctIds(records, RecordId) && forall r :: p(r) == q(r)
    ensures var d := DecideAmong(Select(records, p), how, score);
            && (d.Some? <==> Any(records, q))
            && (d.Some? && d.value.Several? ==> d.value.records != [])
            && (d.Some? ==> Settles(Answer(v, reference, d.value), reference, records, q, how, score))
  {
    hide Answer, IsAnswer, Asks, ValidResolver, Select;
    var chosen := Select(records, p);
    SelectMembers(records, p);
    SelectDistinct(records, p);
    SelectEmpty(records, p);
    if |chosen| == 1 {
      OnlyMember(records, p);
      OneAnswers(v, reference, chosen[0], how, score);
      assert q(chosen[0]);
    } else if chosen != [] {
      TwoChosen(records, chosen, q);
      SeveralAsks(v, reference, chosen, records, score, q);
    }
  }

  lemma TwoChosen(records: seq<EntityRecord>, chosen: seq<EntityRecord>, q: EntityRecord -> bool)
    requires 2 <= |chosen| && DistinctIds(chosen, RecordId) && forall r | r in chosen :: r in records && q(r)
    ensures Two(records, q)
  {
    assert chosen[0] in chosen && chosen[1] in chosen;
    assert RecordId(chosen[0]) != RecordId(chosen[1]);
  }

  /** One record has the very name: it is the answer.  Several have it: they are the candidates.  Both at full score. */
  lemma ExactNames(v: Resolver, records: seq<EntityRecord>, reference: string, contextual: Option<string>)
    requires ValidResolver(v) && DistinctIds(records, RecordId) && NoId(records, reference, contextual)
    requires Resolve(v, records, reference, contextual).Success?
    requires Any(records, NamedBy(v.normalize(reference)))
    ensures Settles(Resolve(v, records, reference, contextual).value, reference, records,
                    NamedBy(v.normalize(reference)), ByExactName, 10_000)
  {
    hide Answer, Resolve, Settles, Any, MatchesPartly, DecideByRank, ValidResolver, Select, DecideAmong;
    var wanted := v.normalize(reference);
    DecidedByName(v, records, reference, contextual);
    AmongSettles(v, records, reference, ExactMatch(wanted), NamedBy(wanted), ByExactName, 10_000);
  }

  /** The same for a name that the reference is a part of, or that is a part of it, when no name is exact. */
  lemma PartialNames(v: Resolver, records: seq<EntityRecord>, reference: string, contextual: Option<string>)
    requires ValidResolver(v) && DistinctIds(records, RecordId) && NoId(records, reference, contextual)
    requires Resolve(v, records, reference, contextual).Success?
    requires !Any(records, NamedBy(v.normalize(reference))) && Any(records, PartlyBy(v.normalize(reference)))
    ensures Settles(Resolve(v, records, reference, contextual).value, reference, records,
                    PartlyBy(v.normalize(reference)), ByPartialName, 9_500)
  {
    hide Answer, Resolve, Settles, Any, MatchesPartly, PartlyNamed, DecideByRank, ValidResolver, Select, DecideAmong;
    var wanted := v.normalize(reference);
    DecidedByName(v, records, reference, contextual);
    forall r ensures PartialMatch(wanted)(r) == PartlyBy(wanted)(r) { PartlyIs(r, wanted); }
    AmongSettles(v, records, reference, ExactMatch(wanted), NamedBy(wanted), ByExactName, 10_000);
    AmongSettles(v, records, reference, PartialMatch(wanted), PartlyBy(wanted), ByPartialName, 9_500);
  }

  /** The best score that any record reaches. */
  ghost predicate TopScore(v: Resolver, records: seq<EntityRecord>, wanted: string, top: int) {
    && (exists r :: r in records && HasScore(v, r, wanted, top))
    && forall r, score | r in records && HasScore(v, r, wanted, score) :: score <= top
  }

  /** Within the margin of the best score. */
  ghost predicate Close(v: Resolver, wanted: string, top: int, r: EntityRecord) {
    exists score :: HasScore(v, r, wanted, score) && top - score < v.margin
  }

  /** No name matches at all: the ranking decides.  A record is the answer with its own score; candidates carry the
      best score, which reaches the threshold, and are within the margin of it; otherwise nothing is found. */
  lemma Ranking(v: Resolver, records: seq<EntityRecord>, reference: string, contextual: Option<string>)
    requires ValidResolver(v) && DistinctIds(records, RecordId) && NoId(records, reference, contextual)
    requires Resolve(v, records, reference, contextual).Success? && forall r | r in records :: r.names != []
    requires !Any(records, NamedBy(v.normalize(reference))) && !Any(records, PartlyBy(v.normalize(reference)))
    ensures var a, wanted := Resolve(v, records, reference, contextual).value, v.normalize(reference);
            && (a.status == Resolved ==>
                  exists r, score ::
                    && r in records && HasScore(v, r, wanted, score) && TopScore(v, records, wanted, score)
                    && v.threshold <= score && IsAnswer(a, reference, r, ByFuzzyName, score)
                    && forall s, lower | s in records && s != r && HasScore(v, s, wanted, lower) ::
                         v.margin <= score - lower)
            && (a.status == Ambiguous ==>
                  exists top :: TopScore(v, records, wanted, top) && v.threshold <= top
                                && Asks(a, reference, records, top, NearTop(v, wanted, top)))
            && (a.status == NotFound ==>
                  a.candidates == [] && !a.canMutate
                  && forall r, score | r in records && HasScore(v, r, wanted, score) :: score < v.threshold)
  {
    hide Answer, Resolve, IsAnswer, Asks, MatchesPartly, PartlyNamed, HasScore, ValidResolver, Score, DecideByRank;
    var wanted := v.normalize(reference);
    DecidedByName(v, records, reference, contextual);
    forall r ensures MatchesPartly(r, wanted) <==> PartlyNamed(r, wanted) { PartlyIs(r, wanted); }
    SelectEmpty(records, ExactMatch(wanted));
    SelectEmpty(records, PartialMatch(wanted));
    forall r, score | r in records ensures HasScore(v, r, wanted, score) <==> score == Score(v, r, wanted) {
      ScoreIsBest(v, r, wanted, score);
    }
    RankDecision(v, records, wanted);
    var d := DecideByRank(v, records, wanted);
    RankAnswers(v, records, reference, d);
    RankTop(v, records, wanted);
    if d.One? || d.Several? {
      var r :| r in records && Score(v, r, wanted) == d.score;
      assert HasScore(v, r, wanted, d.score);
    }
    if d.One? {
      assert HasScore(v, d.record, wanted, d.score);
    }
    if d.Several? {
      assert TopScore(v, records, wanted, d.score);
      forall r | r in d.records ensures NearTop(v, wanted, d.score)(r) {
        assert HasScore(v, r, wanted, Score(v, r, wanted));
      }
      SeveralAsks(v, reference, d.records, records, d.score, NearTop(v, wanted, d.score));
    }
  }

  lemma RankAnswers(v: Resolver, records: seq<EntityRecord>, reference: string, d: Decision)
    requires ValidResolver(v) && (d.Several? ==> d.records != [])
    ensures var a := Answer(v, reference, d);
            && (a.status == Resolved <==> d.One?) && (a.status == Ambiguous <==> d.Several?)
            && (a.status == NotFound <==> d.Nobody?)
            && (d.One? ==> IsAnswer(a, reference, d.record, d.how, d.score))
            && (d.Nobody? ==> a.candidates == [] && !a.canMutate)
  {
    hide NameOrder, Question, Absence;
  }

  lemma RankTop(v: Resolver, records: seq<EntityRecord>, wanted: string)
    requires ValidResolver(v) && DistinctIds(records, RecordId)
    ensures var d := DecideByRank(v, records, wanted);
            && (d.One? ==> d.how == ByFuzzyName && d.record in records && d.score == Score(v, d.record, wanted))
            && (d.Several? ==> forall r | r in d.records :: r in records && CloseTo(v, wanted, d.score)(r))
            && (d.One? || d.Several? ==>
                  && (exists r :: r in records && Score(v, r, wanted) == d.score)
                  && forall r | r in records :: Score(v, r, wanted) <= d.score)
  {
    hide Score;
    var ranked := Sort(records, RankOrder(v, wanted));
    RankedRecords(v, records, wanted);
    if ranked != [] {
      var top := Score(v, ranked[0], wanted);
      SelectMembers(ranked, CloseTo(v, wanted, top));
      assert ranked[0] in ranked;
      forall r | r in records ensures Score(v, r, wanted) <= top {
        var i :| 0 <= i < |ranked| && ranked[i] == r;
      }
    }
  }

  /** By display name, without regard to case, then by ID. */
  predicate ListedBefore(r: EntityRecord, s: EntityRecord) {
    if r.sortName == s.sortName then TextLeq(r.id, s.id) else TextLeq(r.sortName, s.sortName)
  }

  /** The candidates of a question stand in that order, and those left out for want of room stand after them. */
  lemma CandidatesInOrder(v: Resolver, reference: string, chosen: seq<EntityRecord>, score: int)
    requires ValidResolver(v) && chosen != [] && DistinctIds(chosen, RecordId)
    ensures var candidates := Answer(v, reference, Several(chosen, score)).candidates;
            && |candidates| == (if |chosen| < v.maxCandidates then |chosen| else v.maxCandidates)
            && exists ordered: seq<EntityRecord> ::
                 && multiset(ordered) == multiset(chosen) && |candidates| <= |ordered|
                 && (forall i, j | 0 <= i < j < |ordered| :: ListedBefore(ordered[i], ordered[j]))
                 && forall i | 0 <= i < |candidates| ::
                      candidates[i] == Candidate(ordered[i].id, ordered[i].displayName, score)
  {
    hide Question, DistinctIds;
    SortLength(chosen);
    NameOrderIsOrder();
    SortSorts(chosen, NameOrder);
    var ordered := Sort(chosen, NameOrder);
    forall i, j | 0 <= i < j < |ordered| ensures ListedBefore(ordered[i], ordered[j]) {
      assert NameOrder(ordered[i], ordered[j]);
    }
  }

  /** How the choice is put into words. */
  lemma QuestionsRead(v: Resolver, a: EntityRecord, b: EntityRecord, c: EntityRecord)
    ensures Question(v, [a, b]) ==
            "Which " + v.kindName + " do you mean — " + a.displayName + " or " + b.displayName + "?"
    ensures Question(v, [a, b, c]) ==
            "Which " + v.kindName + " do you mean — " + a.displayName + ", " + b.displayName + ", or "
            + c.displayName + "?"
    ensures Absence(v) == "I couldn't find that " + v.kindName + " in this project."
  {
    assert NamesOf([a, b]) == [a.displayName, b.displayName];
    assert NamesOf([a, b, c]) == [a.displayName, b.displayName, c.displayName];
    var names := [a.displayName, b.displayName, c.displayName];
    assert names[..2] == [a.displayName, b.displayName];
    assert [a.displayName, b.displayName][1..] == [b.displayName];
    assert Joined([b.displayName]) == b.displayName;
    assert Joined([a.displayName, b.displayName]) == a.displayName + ", " + b.displayName;
  }
}
