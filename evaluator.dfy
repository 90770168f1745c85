/**
 * The per-department evaluator: calculateDepartmentScore collects one score
 * per subject slot, then calculateBasicRatio (plain ratio sum or
 * priority-group selection) or calculateSpecialFormula (which falls back to
 * it) turns them into the converted score, rounded to two decimals.
 */
module Evaluator {
  import opened Wrappers
  import opened JsNumbers
  import opened StableSort
  import opened Normalizer
  import opened Policy
  import opened Resolvers

  /** The `subjectScores` object: one stored score per slot. */
  type SubjectScores = map<Slot, real>

  // ------------------------------------------------------------ collection

  /**
   * The English branch of the collection loop: a non-zero ENGLISH
   * grade-conversion entry first; else, for `fixed_max_score` with a truthy
   * max, the default table (max × (21 − g)/20 for grades 1 to 9, 0 for a
   * missing or out-of-table grade); else the slot stays unset.
   */
  function EnglishScore(config: ScoreConfig, userScores: ScoreSet, gradeMap: GradeMap): (r: Option<real>)
    ensures var g := GradeOf(userScores, English);
            var converted := TruthyInt(g) && TruthyInt(Lookup(gradeMap, "ENGLISH", g.value));
            var byTable := config.scoreType == "fixed_max_score" && TruthyInt(config.maxScoreValue);
            && (converted ==> r == Some(Lookup(gradeMap, "ENGLISH", g.value).value as real))
            && (!converted && byTable ==>
                  r == Some(if TruthyInt(g) && 1 <= g.value <= 9
                            then config.maxScoreValue.value as real * (21 - g.value) as real / 20.0
                            else 0.0))
            && (!converted && !byTable ==> r == None)
  {
    var englishGrade := GradeOf(userScores, English);
    if TruthyInt(englishGrade) && TruthyInt(Lookup(gradeMap, "ENGLISH", englishGrade.value)) then
      Some(Lookup(gradeMap, "ENGLISH", englishGrade.value).value as real)
    else if config.scoreType == "fixed_max_score" && TruthyInt(config.maxScoreValue) then
      Some(GetDefaultEnglishScore(englishGrade, config.maxScoreValue.value as real))
    else None
  }

  /** What one config stores in `subjectScores`, or None when the loop skips it. */
  function ConfigScore(config: ScoreConfig, inquiryCount: int, userScores: ScoreSet, gradeMap: GradeMap): Option<real> {
    match SlotOf(config.subjectType)
    case None => None
    case Some(KoreanSlot) => GetSubjectScore(userScores, Korean, config.scoreType)
    case Some(MathSlot) => GetSubjectScore(userScores, Math, config.scoreType)
    case Some(InquirySlot) => GetInquiryScore(userScores, config.scoreType, inquiryCount)
    case Some(EnglishSlot) => EnglishScore(config, userScores, gradeMap)
  }

  /** Config c stores a score into slot s. */
  predicate Feeds(c: ScoreConfig, s: Slot, inquiryCount: int, userScores: ScoreSet, gradeMap: GradeMap) {
    SlotOf(c.subjectType) == Some(s) && ConfigScore(c, inquiryCount, userScores, gradeMap).Some?
  }

  /** `subjectScores` after the collection loop has run over the configs. */
  function Collect(configs: seq<ScoreConfig>, inquiryCount: int, userScores: ScoreSet, gradeMap: GradeMap): SubjectScores
    decreases |configs|
  {
    if configs == [] then map[]
    else
      var m := Collect(configs[..|configs| - 1], inquiryCount, userScores, gradeMap);
      var c := configs[|configs| - 1];
      var v := ConfigScore(c, inquiryCount, userScores, gradeMap);
      if SlotOf(c.subjectType).Some? && v.Some? then m[SlotOf(c.subjectType).value := v.value] else m
  }

  ghost predicate LastFeeder(configs: seq<ScoreConfig>, s: Slot, inquiryCount: int, userScores: ScoreSet, gradeMap: GradeMap, i: int) {
    && 0 <= i < |configs| && Feeds(configs[i], s, inquiryCount, userScores, gradeMap)
    && forall j :: i < j < |configs| ==> !Feeds(configs[j], s, inquiryCount, userScores, gradeMap)
  }

  /** A slot has a stored score exactly when some config feeds it. */
  lemma {:induction false} CollectHasFedSlots(configs: seq<ScoreConfig>, inquiryCount: int, userScores: ScoreSet, gradeMap: GradeMap, s: Slot)
    ensures s in Collect(configs, inquiryCount, userScores, gradeMap) <==>
      exists i :: 0 <= i < |configs| && Feeds(configs[i], s, inquiryCount, userScores, gradeMap)
  {
    if configs != [] {
      var init := configs[..|configs| - 1];
      CollectHasFedSlots(init, inquiryCount, userScores, gradeMap, s);
      CollectSlotStep(configs, inquiryCount, userScores, gradeMap, s);
      assert forall i :: 0 <= i < |init| ==> init[i] == configs[i];
    }
  }

  /**
   * A slot has a stored score exactly when some config feeds it, and the
   * stored score is the one of the last config that does; a config whose
   * score is null leaves an earlier score in place.
   */
  lemma {:induction false} CollectLastWins(configs: seq<ScoreConfig>, inquiryCount: int, userScores: ScoreSet, gradeMap: GradeMap, s: Slot)
    ensures s in Collect(configs, inquiryCount, userScores, gradeMap) <==>
      exists i :: 0 <= i < |configs| && Feeds(configs[i], s, inquiryCount, userScores, gradeMap)
    ensures s in Collect(configs, inquiryCount, userScores, gradeMap) ==>
      exists i :: LastFeeder(configs, s, inquiryCount, userScores, gradeMap, i)
        && Collect(configs, inquiryCount, userScores, gradeMap)[s] == ConfigScore(configs[i], inquiryCount, userScores, gradeMap).value
  {
    CollectHasFedSlots(configs, inquiryCount, userScores, gradeMap, s);
    if configs != [] && s in Collect(configs, inquiryCount, userScores, gradeMap) {
      var init := configs[..|configs| - 1];
      var c := configs[|configs| - 1];
      CollectSlotStep(configs, inquiryCount, userScores, gradeMap, s);
      if Feeds(c, s, inquiryCount, userScores, gradeMap) {
        assert LastFeeder(configs, s, inquiryCount, userScores, gradeMap, |configs| - 1)
          && Collect(configs, inquiryCount, userScores, gradeMap)[s] == ConfigScore(c, inquiryCount, userScores, gradeMap).value;
      } else {
        CollectLastWins(init, inquiryCount, userScores, gradeMap, s);
        var i :| LastFeeder(init, s, inquiryCount, userScores, gradeMap, i)
          && Collect(init, inquiryCount, userScores, gradeMap)[s] == ConfigScore(init[i], inquiryCount, userScores, gradeMap).value;
        assert configs[i] == init[i];
        assert forall j :: i < j < |init| ==> configs[j] == init[j];
        assert LastFeeder(configs, s, inquiryCount, userScores, gradeMap, i)
          && Collect(configs, inquiryCount, userScores, gradeMap)[s] == ConfigScore(configs[i], inquiryCount, userScores, gradeMap).value;
      }
    }
  }

  /** What the last config does to one slot of the collected map. */
  lemma CollectSlotStep(configs: seq<ScoreConfig>, inquiryCount: int, userScores: ScoreSet, gradeMap: GradeMap, s: Slot)
    requires configs != []
    ensures var init := configs[..|configs| - 1];
            var c := configs[|configs| - 1];
            var m := Collect(configs, inquiryCount, userScores, gradeMap);
            && (s in m <==> s in Collect(init, inquiryCount, userScores, gradeMap) || Feeds(c, s, inquiryCount, userScores, gradeMap))
            && (s in m ==> m[s] == if Feeds(c, s, inquiryCount, userScores, gradeMap)
                                   then ConfigScore(c, inquiryCount, userScores, gradeMap).value
                                   else Collect(init, inquiryCount, userScores, gradeMap)[s])
  {
  }

  // ------------------------------------------------------------ plain ratio mode

  /** One line of the plain ratio sum: the stored score times a truthy ratio, else nothing. */
  function RatioTerm(ratios: Ratios, subjectScores: SubjectScores, s: Slot): real {
    if Truthy(RatioOf(ratios, s)) && s in subjectScores then subjectScores[s] * RatioOf(ratios, s).value else 0.0
  }

  function PlainRatioTotal(ratios: Ratios, subjectScores: SubjectScores): real {
    RatioTerm(ratios, subjectScores, KoreanSlot) + RatioTerm(ratios, subjectScores, MathSlot)
    + RatioTerm(ratios, subjectScores, InquirySlot) + RatioTerm(ratios, subjectScores, EnglishSlot)
  }

  /** The Korean history bonus step: A_ADD and B_ADD both add the bonus, anything else adds nothing. */
  function ApplyHistory(total: real, conversionType: string, historyScore: real): real {
    if conversionType == "A_ADD" then total + historyScore
    else if conversionType == "B_ADD" then (total + historyScore)
    else total
  }

  /** `scoreConfigs.some(sc => sc.priority_group !== null)` */
  predicate HasPriorityGroup(configs: seq<ScoreConfig>) {
    exists i :: 0 <= i < |configs| && configs[i].priorityGroup.Some?
  }

  function PlainRatioScore(dept: Department, subjectScores: SubjectScores, gradeMap: GradeMap, userScores: ScoreSet): real {
    Round2(ApplyHistory(PlainRatioTotal(dept.ratios, subjectScores), dept.historyConversionType,
                        GetHistoryScore(gradeMap, userScores)))
  }

  // ------------------------------------------------------------ priority-group mode

  /** `config.priority_group || 0`: a null group is group 0. */
  function GroupId(c: ScoreConfig): int {
    OrInt(c.priorityGroup, 0)
  }

  /** `groups[g]`: the configs of group g, in order. */
  function Members(configs: seq<ScoreConfig>, g: int): seq<ScoreConfig>
    decreases |configs|
  {
    if configs == [] then []
    else
      var rest := Members(configs[..|configs| - 1], g);
      if GroupId(configs[|configs| - 1]) == g then rest + [configs[|configs| - 1]] else rest
  }

  /** The keys of `groups`, each once, in the order they were first added. */
  function GroupKeys(configs: seq<ScoreConfig>): seq<int>
    decreases |configs|
  {
    if configs == [] then []
    else
      var rest := GroupKeys(configs[..|configs| - 1]);
      var g := GroupId(configs[|configs| - 1]);
      if g in rest then rest else rest + [g]
  }

  /** `department.<subject>_ratio || 0` for the config's subject type (0 for any other type). */
  function RatioOrZero(ratios: Ratios, c: ScoreConfig): real {
    match SlotOf(c.subjectType)
    case None => 0.0
    case Some(s) => OrReal(RatioOf(ratios, s), 0.0)
  }

  /** getSubjectRatioScore */
  function SubjectRatioScore(c: ScoreConfig, subjectScores: SubjectScores, ratios: Ratios): (r: Option<real>)
    ensures r.Some? <==> SlotOf(c.subjectType).Some? && SlotOf(c.subjectType).value in subjectScores
    ensures r.Some? ==> r.value == subjectScores[SlotOf(c.subjectType).value] * RatioOrZero(ratios, c)
  {
    match SlotOf(c.subjectType)
    case None => None
    case Some(s) =>
      if s !in subjectScores then None
      else
        var ratio := OrReal(RatioOf(ratios, s), 0.0);
        Some(subjectScores[s] * ratio)
  }

  /** Group 0's total: the ratio scores of its configs that have a stored score. */
  function Group0Total(members: seq<ScoreConfig>, subjectScores: SubjectScores, ratios: Ratios): real
    decreases |members|
  {
    if members == [] then 0.0
    else
      var rest := Group0Total(members[..|members| - 1], subjectScores, ratios);
      var score := SubjectRatioScore(members[|members| - 1], subjectScores, ratios);
      if score.Some? then rest + score.value else rest
  }

  /** `group0RatioSum`: the ratios of the group-0 configs that have a stored score. */
  function Group0RatioSum(members: seq<ScoreConfig>, subjectScores: SubjectScores, ratios: Ratios): real
    decreases |members|
  {
    if members == [] then 0.0
    else
      var rest := Group0RatioSum(members[..|members| - 1], subjectScores, ratios);
      var c := members[|members| - 1];
      if SubjectRatioScore(c, subjectScores, ratios).Some? then rest + RatioOrZero(ratios, c) else rest
  }

  /** An entry of `candidateScores`. */
  datatype Candidate = Candidate(subject: Slot, score: real, ratio: real)

  function CandidateScore(c: Candidate): real { c.score }

  /** The candidate a config of a selection group gives: a stored score and a positive ratio. */
  function CandidateOf(c: ScoreConfig, subjectScores: SubjectScores, ratios: Ratios): Option<Candidate> {
    match SlotOf(c.subjectType)
    case None => None
    case Some(s) =>
      var ratio := OrReal(RatioOf(ratios, s), 0.0);
      if s in subjectScores && ratio > 0.0 then Some(Candidate(s, subjectScores[s] * ratio, ratio)) else None
  }

  /** `candidateScores` for a group, in config order. */
  function Candidates(members: seq<ScoreConfig>, subjectScores: SubjectScores, ratios: Ratios): seq<Candidate>
    decreases |members|
  {
    if members == [] then []
    else
      var rest := Candidates(members[..|members| - 1], subjectScores, ratios);
      var x := CandidateOf(members[|members| - 1], subjectScores, ratios);
      if x.Some? then rest + [x.value] else rest
  }

  /** `Math.round(remainingRatio / firstRatio)`, with firstRatio the top candidate's ratio `|| 0.333`. */
  function SelectionCount(sorted: seq<Candidate>, group0RatioSum: real): int
    requires sorted != []
  {
    var remainingRatio := 1.0 - group0RatioSum;
    var firstRatio := OrReal(Some(sorted[0].ratio), 0.333);
    MathRound(remainingRatio / firstRatio)
  }

  /** `selectedScores`: the sorted candidates sliced to the selection count. */
  function Selection(candidates: seq<Candidate>, group0RatioSum: real): seq<Candidate> {
    if candidates == [] then []
    else
      var sorted := SortDesc(candidates, CandidateScore);
      SliceTo(sorted, SelectionCount(sorted, group0RatioSum))
  }

  function Sum(s: seq<Candidate>): real
    decreases |s|
  {
    if s == [] then 0.0 else Sum(s[..|s| - 1]) + s[|s| - 1].score
  }

  /** What a non-zero group adds to the total. */
  function GroupTotal(configs: seq<ScoreConfig>, g: int, subjectScores: SubjectScores, ratios: Ratios, group0RatioSum: real): real {
    Sum(Selection(Candidates(Members(configs, g), subjectScores, ratios), group0RatioSum))
  }

  /** The totals of the groups in `keys`, group 0 skipped. */
  function OtherGroupsTotal(keys: seq<int>, configs: seq<ScoreConfig>, subjectScores: SubjectScores, ratios: Ratios, group0RatioSum: real): real
    decreases |keys|
  {
    if keys == [] then 0.0
    else
      var rest := OtherGroupsTotal(keys[..|keys| - 1], configs, subjectScores, ratios, group0RatioSum);
      var g := keys[|keys| - 1];
      if g == 0 then rest else rest + GroupTotal(configs, g, subjectScores, ratios, group0RatioSum)
  }

  lemma OtherGroupsStep(keys: seq<int>, k: int, configs: seq<ScoreConfig>, subjectScores: SubjectScores, ratios: Ratios, group0RatioSum: real)
    requires 0 <= k < |keys|
    ensures OtherGroupsTotal(keys[..k + 1], configs, subjectScores, ratios, group0RatioSum)
         == OtherGroupsTotal(keys[..k], configs, subjectScores, ratios, group0RatioSum)
            + (if keys[k] == 0 then 0.0 else GroupTotal(configs, keys[k], subjectScores, ratios, group0RatioSum))
  {
    assert keys[..k + 1][..k] == keys[..k];
  }

  /** The total before the Korean history bonus in priority-group mode. */
  function PriorityTotal(configs: seq<ScoreConfig>, subjectScores: SubjectScores, ratios: Ratios): real {
    var members0 := Members(configs, 0);
    Group0Total(members0, subjectScores, ratios)
      + OtherGroupsTotal(GroupKeys(configs), configs, subjectScores, ratios, Group0RatioSum(members0, subjectScores, ratios))
  }

  function PriorityGroupScore(dept: Department, subjectScores: SubjectScores, gradeMap: GradeMap, userScores: ScoreSet, configs: seq<ScoreConfig>): real {
    Round2(ApplyHistory(PriorityTotal(configs, subjectScores, dept.ratios), dept.historyConversionType,
                        GetHistoryScore(gradeMap, userScores)))
  }

  // ------------------------------------------------------------ department score

  function BasicRatioScore(dept: Department, subjectScores: SubjectScores, gradeMap: GradeMap, userScores: ScoreSet, configs: seq<ScoreConfig>): real {
    if HasPriorityGroup(configs) then PriorityGroupScore(dept, subjectScores, gradeMap, userScores, configs)
    else PlainRatioScore(dept, subjectScores, gradeMap, userScores)
  }

  /** calculateSpecialFormula: the formula text is never read; both paths use the basic ratio. */
  function SpecialFormulaScore(dept: Department, subjectScores: SubjectScores, gradeMap: GradeMap, userScores: ScoreSet, configs: seq<ScoreConfig>): real {
    if !TruthyString(dept.specialFormula) then BasicRatioScore(dept, subjectScores, gradeMap, userScores, configs)
    else BasicRatioScore(dept, subjectScores, gradeMap, userScores, configs)
  }

  /** `department.inquiry_subject_count || 1` */
  function InquiryCount(dept: Department): int {
    OrInt(dept.inquirySubjectCount, 1)
  }

  /** The converted score of calculateDepartmentScore: None for no configs or an unknown calculation type. */
  function DepartmentScore(dept: Department, configs: seq<ScoreConfig>, gradeRows: seq<GradeConversionRow>, userScores: ScoreSet): (r: Option<real>)
    ensures r.Some? <==> |configs| > 0 && (dept.calculationType == "기본비율" || dept.calculationType == "특수공식")
    ensures r.Some? ==> IsCents(r.value)
  {
    if |configs| == 0 then None
    else
      var gradeMap := GradeMapOf(gradeRows);
      var subjectScores := Collect(configs, InquiryCount(dept), userScores, gradeMap);
      if dept.calculationType == "기본비율" then Some(BasicRatioScore(dept, subjectScores, gradeMap, userScores, configs))
      else if dept.calculationType == "특수공식" then Some(SpecialFormulaScore(dept, subjectScores, gradeMap, userScores, configs))
      else None
  }

  // ------------------------------------------------------------ the source's procedures

  /** calculateDepartmentScore, with the department's configs and grade-conversion rows given. */
  method CalculateDepartmentScore(department: Department, scoreConfigs: seq<ScoreConfig>,
                                  gradeConversions: seq<GradeConversionRow>, userScores: ScoreSet)
    returns (result: Option<real>)
    ensures result == DepartmentScore(department, scoreConfigs, gradeConversions, userScores)
  {
    if |scoreConfigs| == 0 {
      return None;
    }

    var gradeMap := BuildGradeMap(gradeConversions);
    var subjectScores := CollectSubjectScores(department, scoreConfigs, userScores, gradeMap);

    if department.calculationType == "기본비율" {
      var score := CalculateBasicRatio(department, subjectScores, gradeMap, userScores, scoreConfigs);
      return Some(score);
    } else if department.calculationType == "특수공식" {
      var score := CalculateSpecialFormula(department, subjectScores, gradeMap, userScores, scoreConfigs);
      return Some(score);
    }
    return None;
  }

  /** The `gradeMap` loop of calculateDepartmentScore. */
  method BuildGradeMap(gradeConversions: seq<GradeConversionRow>) returns (gradeMap: GradeMap)
    ensures gradeMap == GradeMapOf(gradeConversions)
  {
    gradeMap := map[];
    for i := 0 to |gradeConversions|
      invariant gradeMap == GradeMapOf(gradeConversions[..i])
    {
      assert gradeConversions[..i + 1][..i] == gradeConversions[..i];
      var gc := gradeConversions[i];
      if gc.subjectCode !in gradeMap {
        gradeMap := gradeMap[gc.subjectCode := map[]];
      }
      gradeMap := gradeMap[gc.subjectCode := gradeMap[gc.subjectCode][gc.grade := gc.convertedScore]];
    }
    assert gradeConversions[..|gradeConversions|] == gradeConversions;
  }

  /** The `subjectScores` loop of calculateDepartmentScore. */
  method CollectSubjectScores(department: Department, scoreConfigs: seq<ScoreConfig>, userScores: ScoreSet, gradeMap: GradeMap)
    returns (subjectScores: SubjectScores)
    ensures subjectScores == Collect(scoreConfigs, InquiryCount(department), userScores, gradeMap)
  {
    subjectScores := map[];
    for i := 0 to |scoreConfigs|
      invariant subjectScores == Collect(scoreConfigs[..i], InquiryCount(department), userScores, gradeMap)
    {
      CollectStep(scoreConfigs, i, InquiryCount(department), userScores, gradeMap);
      var config := scoreConfigs[i];
      var subjectType := config.subjectType;
      var rawScore: Option<real> := None;
      if subjectType == "korean" {
        rawScore := GetSubjectScore(userScores, Korean, config.scoreType);
      } else if subjectType == "math" {
        rawScore := GetSubjectScore(userScores, Math, config.scoreType);
      } else if subjectType == "inquiry" {
        var inquiryCount := OrInt(department.inquirySubjectCount, 1);
        rawScore := GetInquiryScore(userScores, config.scoreType, inquiryCount);
      } else if subjectType == "english" {
        var englishGrade := GradeOf(userScores, English);
        if TruthyInt(englishGrade) && TruthyInt(Lookup(gradeMap, "ENGLISH", englishGrade.value)) {
          subjectScores := subjectScores[EnglishSlot := Lookup(gradeMap, "ENGLISH", englishGrade.value).value as real];
        } else if config.scoreType == "fixed_max_score" && TruthyInt(config.maxScoreValue) {
          subjectScores := subjectScores[EnglishSlot := GetDefaultEnglishScore(englishGrade, config.maxScoreValue.value as real)];
        }
        continue;
      }
      if rawScore.None? {
        continue;
      }
      subjectScores := subjectScores[SlotOf(subjectType).value := rawScore.value];
    }
    assert scoreConfigs[..|scoreConfigs|] == scoreConfigs;
  }

  lemma CollectStep(configs: seq<ScoreConfig>, i: int, inquiryCount: int, userScores: ScoreSet, gradeMap: GradeMap)
    requires 0 <= i < |configs|
    ensures var m := Collect(configs[..i], inquiryCount, userScores, gradeMap);
            var c := configs[i];
            var v := ConfigScore(c, inquiryCount, userScores, gradeMap);
            Collect(configs[..i + 1], inquiryCount, userScores, gradeMap)
              == if SlotOf(c.subjectType).Some? && v.Some? then m[SlotOf(c.subjectType).value := v.value] else m
  {
    assert configs[..i + 1][..i] == configs[..i];
  }

  /** calculateBasicRatio */
  method CalculateBasicRatio(department: Department, subjectScores: SubjectScores, gradeMap: GradeMap,
                             userScores: ScoreSet, scoreConfigs: seq<ScoreConfig>)
    returns (score: real)
    ensures score == BasicRatioScore(department, subjectScores, gradeMap, userScores, scoreConfigs)
  {
    if HasPriorityGroup(scoreConfigs) {
      score := CalculateWithPriorityGroup(department, subjectScores, gradeMap, userScores, scoreConfigs);
      return;
    }
    var ratios := department.ratios;
    var totalScore := 0.0;
    if Truthy(ratios.korean) && KoreanSlot in subjectScores {
      totalScore := totalScore + subjectScores[KoreanSlot] * ratios.korean.value;
    }
    assert totalScore == RatioTerm(ratios, subjectScores, KoreanSlot);
    if Truthy(ratios.math) && MathSlot in subjectScores {
      totalScore := totalScore + subjectScores[MathSlot] * ratios.math.value;
    }
    assert totalScore == RatioTerm(ratios, subjectScores, KoreanSlot) + RatioTerm(ratios, subjectScores, MathSlot);
    if Truthy(ratios.inquiry) && InquirySlot in subjectScores {
      totalScore := totalScore + subjectScores[InquirySlot] * ratios.inquiry.value;
    }
    if Truthy(ratios.english) && EnglishSlot in subjectScores {
      totalScore := totalScore + subjectScores[EnglishSlot] * ratios.english.value;
    }
    assert totalScore == PlainRatioTotal(ratios, subjectScores);
    ghost var ratioTotal := totalScore;
    var historyScore := GetHistoryScore(gradeMap, userScores);
    if department.historyConversionType == "A_ADD" {
      totalScore := totalScore + historyScore;
    } else if department.historyConversionType == "B_ADD" {
      totalScore := (totalScore + historyScore);
    }
    assert totalScore == ApplyHistory(ratioTotal, department.historyConversionType, historyScore);
    score := Round2(totalScore);
  }

  /** The grouping loop of calculateWithPriorityGroup: `groups`, with `keys` its key order. */
  method GroupConfigs(scoreConfigs: seq<ScoreConfig>) returns (groups: map<int, seq<ScoreConfig>>, keys: seq<int>)
    ensures keys == GroupKeys(scoreConfigs)
    ensures forall g :: g in groups <==> g in keys
    ensures forall g :: g in groups ==> groups[g] == Members(scoreConfigs, g)
    ensures forall g :: g !in groups ==> Members(scoreConfigs, g) == []
  {
    groups := map[];
    keys := [];
    for i := 0 to |scoreConfigs|
      invariant keys == GroupKeys(scoreConfigs[..i])
      invariant forall g :: g in groups <==> g in keys
      invariant forall g :: g in groups ==> groups[g] == Members(scoreConfigs[..i], g)
      invariant forall g :: g !in groups ==> Members(scoreConfigs[..i], g) == []
    {
      assert scoreConfigs[..i + 1][..i] == scoreConfigs[..i];
      var groupId := GroupId(scoreConfigs[i]);
      if groupId !in groups {
        groups := groups[groupId := []];
        keys := keys + [groupId];
      }
      groups := groups[groupId := groups[groupId] + [scoreConfigs[i]]];
    }
    assert scoreConfigs[..|scoreConfigs|] == scoreConfigs;
  }

  /** The group-0 loop: its total and its `group0RatioSum`. */
  method SumGroupZero(members: seq<ScoreConfig>, subjectScores: SubjectScores, ratios: Ratios)
    returns (total: real, ratioSum: real)
    ensures total == Group0Total(members, subjectScores, ratios)
    ensures ratioSum == Group0RatioSum(members, subjectScores, ratios)
  {
    total, ratioSum := 0.0, 0.0;
    for j := 0 to |members|
      invariant total == Group0Total(members[..j], subjectScores, ratios)
      invariant ratioSum == Group0RatioSum(members[..j], subjectScores, ratios)
    {
      assert members[..j + 1][..j] == members[..j];
      var s := SubjectRatioScore(members[j], subjectScores, ratios);
      if s.Some? {
        total := total + s.value;
        ratioSum := ratioSum + RatioOrZero(ratios, members[j]);
      }
    }
    assert members[..|members|] == members;
  }

  /** The `candidateScores` loop of one selection group. */
  method CollectCandidates(members: seq<ScoreConfig>, subjectScores: SubjectScores, ratios: Ratios)
    returns (candidateScores: seq<Candidate>)
    ensures candidateScores == Candidates(members, subjectScores, ratios)
  {
    candidateScores := [];
    for j := 0 to |members|
      invariant candidateScores == Candidates(members[..j], subjectScores, ratios)
    {
      assert members[..j + 1][..j] == members[..j];
      var candidate := CandidateOf(members[j], subjectScores, ratios);
      if candidate.Some? {
        candidateScores := candidateScores + [candidate.value];
      }
    }
    assert members[..|members|] == members;
  }

  /** The loop adding the selected candidates' scores. */
  method SumScores(selectedScores: seq<Candidate>) returns (total: real)
    ensures total == Sum(selectedScores)
  {
    total := 0.0;
    for j := 0 to |selectedScores|
      invariant total == Sum(selectedScores[..j])
    {
      assert selectedScores[..j + 1][..j] == selectedScores[..j];
      total := total + selectedScores[j].score;
    }
    assert selectedScores[..|selectedScores|] == selectedScores;
  }

  /** What one selection group adds: its candidates sorted by score and the top ones summed. */
  method SumSelectionGroup(members: seq<ScoreConfig>, subjectScores: SubjectScores, ratios: Ratios, group0RatioSum: real)
    returns (total: real)
    ensures total == Sum(Selection(Candidates(members, subjectScores, ratios), group0RatioSum))
  {
    var candidateScores := CollectCandidates(members, subjectScores, ratios);
    if candidateScores == [] {
      total := 0.0;
      return;
    }
    var sorted := SortDesc(candidateScores, CandidateScore);
    var selectionCount := SelectionCount(sorted, group0RatioSum);
    var selectedScores := SliceTo(sorted, selectionCount);
    total := SumScores(selectedScores);
  }

  /** The group loops of calculateWithPriorityGroup: the total before the Korean history bonus. */
  method SumPriorityGroups(subjectScores: SubjectScores, ratios: Ratios, scoreConfigs: seq<ScoreConfig>)
    returns (totalScore: real)
    ensures totalScore == PriorityTotal(scoreConfigs, subjectScores, ratios)
  {
    var groups, keys := GroupConfigs(scoreConfigs);

    totalScore := 0.0;
    var group0RatioSum := 0.0;
    if 0 in groups {
      totalScore, group0RatioSum := SumGroupZero(groups[0], subjectScores, ratios);
    }
    ghost var members0 := Members(scoreConfigs, 0);
    assert 0 !in groups ==> members0 == [];
    assert totalScore == Group0Total(members0, subjectScores, ratios);
    assert group0RatioSum == Group0RatioSum(members0, subjectScores, ratios);
    ghost var group0Total := totalScore;

    for k := 0 to |keys|
      invariant totalScore == group0Total + OtherGroupsTotal(keys[..k], scoreConfigs, subjectScores, ratios, group0RatioSum)
    {
      OtherGroupsStep(keys, k, scoreConfigs, subjectScores, ratios, group0RatioSum);
      var groupId := keys[k];
      if groupId == 0 {
        continue;
      }
      var groupTotal := SumSelectionGroup(groups[groupId], subjectScores, ratios, group0RatioSum);
      assert groupTotal == GroupTotal(scoreConfigs, groupId, subjectScores, ratios, group0RatioSum);
      totalScore := totalScore + groupTotal;
    }
    assert keys[..|keys|] == keys;
  }

  /** calculateWithPriorityGroup */
  method CalculateWithPriorityGroup(department: Department, subjectScores: SubjectScores, gradeMap: GradeMap,
                                    userScores: ScoreSet, scoreConfigs: seq<ScoreConfig>)
    returns (score: real)
    ensures score == PriorityGroupScore(department, subjectScores, gradeMap, userScores, scoreConfigs)
  {
    var totalScore := SumPriorityGroups(subjectScores, department.ratios, scoreConfigs);
    ghost var groupsTotal := totalScore;
    var historyScore := GetHistoryScore(gradeMap, userScores);
    if department.historyConversionType == "A_ADD" {
      totalScore := totalScore + historyScore;
    } else if department.historyConversionType == "B_ADD" {
      totalScore := (totalScore + historyScore);
    }
    assert totalScore == ApplyHistory(groupsTotal, department.historyConversionType, historyScore);
    score := Round2(totalScore);
  }

  /** calculateSpecialFormula */
  method CalculateSpecialFormula(department: Department, subjectScores: SubjectScores, gradeMap: GradeMap,
                                 userScores: ScoreSet, scoreConfigs: seq<ScoreConfig>)
    returns (score: real)
    ensures score == SpecialFormulaScore(department, subjectScores, gradeMap, userScores, scoreConfigs)
  {
    if !TruthyString(department.specialFormula) {
      score := CalculateBasicRatio(department, subjectScores, gradeMap, userScores, scoreConfigs);
      return;
    }
    score := CalculateBasicRatio(department, subjectScores, gradeMap, userScores, scoreConfigs);
  }
}
