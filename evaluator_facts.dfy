/** Properties of the per-department evaluator. */
module EvaluatorFacts {
  import opened Wrappers
  import opened JsNumbers
  import opened StableSort
  import opened Normalizer
  import opened Policy
  import opened Resolvers
  import opened Evaluator

  // ------------------------------------------------------------ dispatch

  /** A special-formula department scores exactly like the same department under the basic ratio. */
  lemma SpecialFormulaIsBasicRatio(dept: Department, configs: seq<ScoreConfig>, gradeRows: seq<GradeConversionRow>, userScores: ScoreSet)
    ensures DepartmentScore(dept.(calculationType := "특수공식"), configs, gradeRows, userScores)
         == DepartmentScore(dept.(calculationType := "기본비율"), configs, gradeRows, userScores)
  {
  }

  /** The two Korean history add modes give the same score. */
  lemma HistoryAddModesAgree(dept: Department, configs: seq<ScoreConfig>, gradeRows: seq<GradeConversionRow>, userScores: ScoreSet)
    ensures DepartmentScore(dept.(historyConversionType := "A_ADD"), configs, gradeRows, userScores)
         == DepartmentScore(dept.(historyConversionType := "B_ADD"), configs, gradeRows, userScores)
  {
  }

  // ------------------------------------------------------------ plain ratio mode

  /** A slot's share of the plain ratio sum: its stored score times its ratio, nothing when either is missing. */
  function WeightedScore(ratios: Ratios, subjectScores: SubjectScores, s: Slot): real {
    if s in subjectScores then subjectScores[s] * OrReal(RatioOf(ratios, s), 0.0) else 0.0
  }

  /**
   * The plain ratio score is the rounded sum over the four slots of each
   * stored score times its ratio; a slot without a stored score, or with a
   * null or zero ratio, contributes nothing. A_ADD and B_ADD add the Korean
   * history score before rounding; any other conversion type adds nothing.
   */
  lemma PlainRatioIsWeightedSum(dept: Department, subjectScores: SubjectScores, gradeMap: GradeMap, userScores: ScoreSet)
    ensures var sum := WeightedScore(dept.ratios, subjectScores, KoreanSlot) + WeightedScore(dept.ratios, subjectScores, MathSlot)
                     + WeightedScore(dept.ratios, subjectScores, InquirySlot) + WeightedScore(dept.ratios, subjectScores, EnglishSlot);
            PlainRatioScore(dept, subjectScores, gradeMap, userScores)
              == Round2(if dept.historyConversionType == "A_ADD" || dept.historyConversionType == "B_ADD"
                        then sum + GetHistoryScore(gradeMap, userScores) else sum)
  {
    RatioTermIsWeightedScore(dept.ratios, subjectScores, KoreanSlot);
    RatioTermIsWeightedScore(dept.ratios, subjectScores, MathSlot);
    RatioTermIsWeightedScore(dept.ratios, subjectScores, InquirySlot);
    RatioTermIsWeightedScore(dept.ratios, subjectScores, EnglishSlot);
    var total := PlainRatioTotal(dept.ratios, subjectScores);
    var sum := WeightedScore(dept.ratios, subjectScores, KoreanSlot) + WeightedScore(dept.ratios, subjectScores, MathSlot)
             + WeightedScore(dept.ratios, subjectScores, InquirySlot) + WeightedScore(dept.ratios, subjectScores, EnglishSlot);
    assert total == sum;
    var h := GetHistoryScore(gradeMap, userScores);
    assert ApplyHistory(total, dept.historyConversionType, h)
        == if dept.historyConversionType == "A_ADD" || dept.historyConversionType == "B_ADD" then sum + h else sum;
  }

  lemma RatioTermIsWeightedScore(ratios: Ratios, subjectScores: SubjectScores, s: Slot)
    ensures RatioTerm(ratios, subjectScores, s) == WeightedScore(ratios, subjectScores, s)
  {
  }

  lemma RatioTermMonotone(ratios: Ratios, s1: SubjectScores, s2: SubjectScores, s: Slot)
    requires RatioOf(ratios, s).Some? ==> RatioOf(ratios, s).value >= 0.0
    requires s in s1 <==> s in s2
    requires s in s1 ==> s1[s] <= s2[s]
    ensures RatioTerm(ratios, s1, s) <= RatioTerm(ratios, s2, s)
  {
    if Truthy(RatioOf(ratios, s)) && s in s1 {
      var r := RatioOf(ratios, s).value;
      assert s1[s] * r <= s2[s] * r by {
        assert (s2[s] - s1[s]) * r >= 0.0;
      }
    }
  }

  /** With non-negative ratios, raising stored scores never lowers the plain ratio score. */
  lemma PlainRatioMonotone(dept: Department, s1: SubjectScores, s2: SubjectScores, gradeMap: GradeMap, userScores: ScoreSet)
    requires forall s: Slot :: RatioOf(dept.ratios, s).Some? ==> RatioOf(dept.ratios, s).value >= 0.0
    requires forall s: Slot :: s in s1 <==> s in s2
    requires forall s: Slot :: s in s1 ==> s1[s] <= s2[s]
    ensures PlainRatioScore(dept, s1, gradeMap, userScores) <= PlainRatioScore(dept, s2, gradeMap, userScores)
  {
    RatioTermMonotone(dept.ratios, s1, s2, KoreanSlot);
    RatioTermMonotone(dept.ratios, s1, s2, MathSlot);
    RatioTermMonotone(dept.ratios, s1, s2, InquirySlot);
    RatioTermMonotone(dept.ratios, s1, s2, EnglishSlot);
    var h := GetHistoryScore(gradeMap, userScores);
    Round2Monotone(ApplyHistory(PlainRatioTotal(dept.ratios, s1), dept.historyConversionType, h),
                   ApplyHistory(PlainRatioTotal(dept.ratios, s2), dept.historyConversionType, h));
  }

  // ------------------------------------------------------------ grouping

  /** A config belongs to the group of its priority_group, a null group being group 0. */
  lemma {:induction false} MembersAreTheGroup(configs: seq<ScoreConfig>, g: int)
    ensures forall c :: c in Members(configs, g) <==> c in configs && GroupId(c) == g
    ensures |Members(configs, g)| <= |configs|
  {
    if configs != [] {
      var init := configs[..|configs| - 1];
      MembersAreTheGroup(init, g);
      assert configs == init + [configs[|configs| - 1]];
    }
  }

  /** The group keys are the groups that occur, each listed once. */
  lemma {:induction false} GroupKeysAreTheGroups(configs: seq<ScoreConfig>)
    ensures forall g :: g in GroupKeys(configs) <==> exists i :: 0 <= i < |configs| && GroupId(configs[i]) == g
    ensures forall i, j :: 0 <= i < j < |GroupKeys(configs)| ==> GroupKeys(configs)[i] != GroupKeys(configs)[j]
  {
    if configs != [] {
      var init := configs[..|configs| - 1];
      GroupKeysAreTheGroups(init);
      assert forall i :: 0 <= i < |init| ==> init[i] == configs[i];
      forall g | exists i :: 0 <= i < |configs| && GroupId(configs[i]) == g
        ensures g in GroupKeys(configs)
      {
        var i :| 0 <= i < |configs| && GroupId(configs[i]) == g;
        if i < |init| {
          assert GroupId(init[i]) == g;
        }
      }
    }
  }

  // ------------------------------------------------------------ selection groups

  /** Every candidate has a stored score and a positive ratio, and every eligible config gives one. */
  lemma {:induction false} CandidatesAreEligible(members: seq<ScoreConfig>, subjectScores: SubjectScores, ratios: Ratios)
    ensures forall x :: x in Candidates(members, subjectScores, ratios) ==>
      x.ratio > 0.0 && x.subject in subjectScores && x.score == subjectScores[x.subject] * x.ratio
      && x.ratio == OrReal(RatioOf(ratios, x.subject), 0.0)
    ensures forall i :: 0 <= i < |members| && CandidateOf(members[i], subjectScores, ratios).Some? ==>
      CandidateOf(members[i], subjectScores, ratios).value in Candidates(members, subjectScores, ratios)
    ensures |Candidates(members, subjectScores, ratios)| <= |members|
  {
    if members != [] {
      var init := members[..|members| - 1];
      CandidatesAreEligible(init, subjectScores, ratios);
      assert forall i :: 0 <= i < |init| ==> init[i] == members[i];
    }
  }

  /**
   * The selection is drawn from the candidates, and every selected candidate
   * scores at least as high as every candidate left out.
   */
  lemma SelectionIsTop(candidates: seq<Candidate>, group0RatioSum: real)
    ensures multiset(Selection(candidates, group0RatioSum)) <= multiset(candidates)
    ensures forall x, y ::
      (x in Selection(candidates, group0RatioSum) && y in multiset(candidates) - multiset(Selection(candidates, group0RatioSum)))
      ==> x.score >= y.score
  {
    var sorted := SortDesc(candidates, CandidateScore);
    var sel := Selection(candidates, group0RatioSum);
    SelectionIsSortedPrefix(candidates, group0RatioSum);
    var n := |sel|;
    SortedSplit(sorted, n);
    PrefixHoldsTop(sorted, CandidateScore, n);
    forall x, y | x in sel && y in multiset(candidates) - multiset(sel)
      ensures x.score >= y.score
    {
      assert CandidateScore(x) >= CandidateScore(y);
    }
  }

  /** The selection is a prefix of the ranked candidates. */
  lemma SelectionIsSortedPrefix(candidates: seq<Candidate>, group0RatioSum: real)
    ensures |Selection(candidates, group0RatioSum)| <= |candidates|
    ensures Selection(candidates, group0RatioSum) == SortDesc(candidates, CandidateScore)[..|Selection(candidates, group0RatioSum)|]
  {
  }

  lemma SortedSplit(s: seq<Candidate>, n: nat)
    requires n <= |s|
    ensures multiset(s) == multiset(s[..n]) + multiset(s[n..])
  {
    assert s == s[..n] + s[n..];
  }

  /** Candidates of equal score keep their declaration order in the ranking. */
  lemma TiesKeepDeclarationOrder(candidates: seq<Candidate>, v: real)
    ensures WithKey(SortDesc(candidates, CandidateScore), CandidateScore, v) == WithKey(candidates, CandidateScore, v)
  {
    SortDescIsStable(candidates, CandidateScore, v);
  }

  /**
   * The selection count divides the ratio left after group 0 by the ratio of
   * the best-scoring candidate; since candidates have positive ratios the
   * 0.333 fallback never applies.
   */
  lemma SelectionCountFromTopRatio(members: seq<ScoreConfig>, subjectScores: SubjectScores, ratios: Ratios, group0RatioSum: real)
    requires Candidates(members, subjectScores, ratios) != []
    ensures var candidates := Candidates(members, subjectScores, ratios);
            var top := SortDesc(candidates, CandidateScore)[0];
            && top in candidates
            && (forall y :: y in candidates ==> top.score >= y.score)
            && top.ratio > 0.0
            && SelectionCount(SortDesc(candidates, CandidateScore), group0RatioSum) == MathRound((1.0 - group0RatioSum) / top.ratio)
  {
    var candidates := Candidates(members, subjectScores, ratios);
    var sorted := SortDesc(candidates, CandidateScore);
    CandidatesAreEligible(members, subjectScores, ratios);
    assert sorted[0] in multiset(sorted);
    forall y | y in candidates
      ensures sorted[0].score >= y.score
    {
      assert y in multiset(sorted);
      var j :| 0 <= j < |sorted| && sorted[j] == y;
      if j > 0 {
        assert CandidateScore(sorted[0]) >= CandidateScore(sorted[j]);
      }
    }
  }

  /** Group 0 holding 0.6 of the ratio and a pool of two 0.2-ratio candidates: both are selected. */
  lemma TwoOfTwoSelected(a: real, b: real)
    ensures Sum(Selection([Candidate(InquirySlot, a, 0.2), Candidate(EnglishSlot, b, 0.2)], 0.6)) == a + b
  {
    var candidates := [Candidate(InquirySlot, a, 0.2), Candidate(EnglishSlot, b, 0.2)];
    var sorted := SortDesc(candidates, CandidateScore);
    MathRoundUnique(0.4 / 0.2, 2);
    assert SelectionCount(sorted, 0.6) == 2;
    assert Selection(candidates, 0.6) == sorted;
    assert candidates[1..] == [candidates[1]];
    assert SortDesc(candidates[1..], CandidateScore) == [candidates[1]];
    if a >= b {
      assert sorted == [candidates[0], candidates[1]];
      SumOfTwo(candidates[0], candidates[1]);
    } else {
      assert sorted == [candidates[1], candidates[0]];
      SumOfTwo(candidates[1], candidates[0]);
    }
  }

  lemma SumOfTwo(x: Candidate, y: Candidate)
    ensures Sum([x, y]) == x.score + y.score
  {
    assert [x, y][..1] == [x];
    assert [x][..0] == [];
    assert Sum([x]) == x.score;
  }
}
