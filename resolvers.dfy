/**
 * The score resolvers: getSubjectScore, getInquiryScore, getHistoryScore,
 * getDefaultEnglishScore and getMaxScore, with the grade-conversion and
 * max-score tables they look into.
 */
module Resolvers {
  import opened Wrappers
  import opened JsNumbers
  import opened Normalizer
  import opened Policy

  /** The score types a config may name. */
  predicate KnownScoreType(scoreType: string) {
    scoreType == "표준점수" || scoreType == "백분위" || scoreType == "변환표준점수"
  }

  /** The field of a subject score a score type names; None for any other score type. */
  function FieldFor(s: SubjectScore, scoreType: string): Option<real> {
    match scoreType
    case "표준점수" => s.standardScore
    case "백분위" => s.percentile
    case "변환표준점수" => s.convertedStandardScore
    case _ => None
  }

  /** getSubjectScore */
  function GetSubjectScore(userScores: ScoreSet, subject: Role, scoreType: string): (r: Option<real>)
    ensures r.Some? <==>
      IsSet(userScores, subject) && Truthy(FieldFor(userScores[subject].value, scoreType))
    ensures r.Some? ==> r == FieldFor(userScores[subject].value, scoreType) && r.value != 0.0
    ensures !KnownScoreType(scoreType) ==> r.None?
  {
    if !IsSet(userScores, subject) then None
    else
      var subjectData := userScores[subject].value;
      if scoreType == "표준점수" then OrNull(subjectData.standardScore)
      else if scoreType == "백분위" then OrNull(subjectData.percentile)
      else if scoreType == "변환표준점수" then OrNull(subjectData.convertedStandardScore)
      else None
  }

  /** `userScores[role]?.field`: undefined when the role is absent or null. */
  function InquiryField(userScores: ScoreSet, role: Role, scoreType: string): Option<real> {
    if IsSet(userScores, role) then FieldFor(userScores[role].value, scoreType) else None
  }

  function MaxReal(a: real, b: real): real { if a >= b then a else b }

  function MinReal(a: real, b: real): real { if a <= b then a else b }

  /** getInquiryScore */
  function GetInquiryScore(userScores: ScoreSet, scoreType: string, inquirySubjectCount: int): (r: Option<real>)
    ensures !IsSet(userScores, Inquiry1) ==> r.None?
    ensures r.Some? <==> InquiryField(userScores, Inquiry1, scoreType).Some?
    ensures r.Some? ==>
      var s1 := InquiryField(userScores, Inquiry1, scoreType).value;
      var s2 := InquiryField(userScores, Inquiry2, scoreType);
      && (inquirySubjectCount == 1 && s2.Some? ==> r.value == MaxReal(s1, s2.value))
      && (inquirySubjectCount == 2 && s2.Some? ==> r.value == (s1 + s2.value) / 2.0)
      && (s2.None? || (inquirySubjectCount != 1 && inquirySubjectCount != 2) ==> r.value == s1)
  {
    if !IsSet(userScores, Inquiry1) then None
    else
      var inquiry1 := userScores[Inquiry1].value;
      var score1 := FieldFor(inquiry1, scoreType);
      var score2 := InquiryField(userScores, Inquiry2, scoreType);
      if score1.None? then None
      else if inquirySubjectCount == 1 then
        if score2.Some? then Some(MaxReal(score1.value, score2.value)) else score1
      else if inquirySubjectCount == 2 then
        if score2.Some? then Some((score1.value + score2.value) / 2.0) else score1
      else score1
  }

  /** Whatever the count, the inquiry score lies between the two inquiry scores. */
  lemma InquiryScoreBetween(userScores: ScoreSet, scoreType: string, count: int)
    requires GetInquiryScore(userScores, scoreType, count).Some?
    requires InquiryField(userScores, Inquiry2, scoreType).Some?
    ensures var s1 := InquiryField(userScores, Inquiry1, scoreType).value;
      var s2 := InquiryField(userScores, Inquiry2, scoreType).value;
      var r := GetInquiryScore(userScores, scoreType, count).value;
      MinReal(s1, s2) <= r <= MaxReal(s1, s2)
  {
  }

  /** `gradeMap` as calculateDepartmentScore builds it from the department's GradeConversion rows. */
  function GradeMapOf(rows: seq<GradeConversionRow>): GradeMap
    decreases |rows|
  {
    if rows == [] then map[]
    else
      var m := GradeMapOf(rows[..|rows| - 1]);
      var gc := rows[|rows| - 1];
      var inner := if gc.subjectCode in m then m[gc.subjectCode] else map[];
      m[gc.subjectCode := inner[gc.grade := gc.convertedScore]]
  }

  /** `gradeMap[code][grade]`, undefined when either key is missing. */
  function Lookup(gradeMap: GradeMap, code: string, grade: int): Option<int> {
    if code in gradeMap && grade in gradeMap[code] then Some(gradeMap[code][grade]) else None
  }

  /** Row i is the last row for (code, grade). */
  ghost predicate LastRowFor(rows: seq<GradeConversionRow>, code: string, grade: int, i: int) {
    && 0 <= i < |rows| && rows[i].subjectCode == code && rows[i].grade == grade
    && forall j :: i < j < |rows| ==> !(rows[j].subjectCode == code && rows[j].grade == grade)
  }

  /** The grade map holds, for each (code, grade), the score of the last row for it, and nothing else. */
  lemma {:induction false} GradeMapLastWins(rows: seq<GradeConversionRow>, code: string, grade: int)
    ensures Lookup(GradeMapOf(rows), code, grade).Some? <==>
      exists i :: 0 <= i < |rows| && rows[i].subjectCode == code && rows[i].grade == grade
    ensures Lookup(GradeMapOf(rows), code, grade).Some? ==>
      exists i :: LastRowFor(rows, code, grade, i) && Lookup(GradeMapOf(rows), code, grade).value == rows[i].convertedScore
  {
    if rows != [] {
      var init := rows[..|rows| - 1];
      var gc := rows[|rows| - 1];
      GradeMapLastWins(init, code, grade);
      assert forall i :: 0 <= i < |init| ==> init[i] == rows[i];
      if gc.subjectCode == code && gc.grade == grade {
        assert LastRowFor(rows, code, grade, |rows| - 1);
      } else if Lookup(GradeMapOf(rows), code, grade).Some? {
        var i :| LastRowFor(init, code, grade, i) && Lookup(GradeMapOf(init), code, grade).value == init[i].convertedScore;
        assert LastRowFor(rows, code, grade, i);
      }
    }
  }

  /** With (subject_code, grade) unique, as the GradeConversion index enforces, every row is found. */
  lemma GradeMapFindsEveryRow(rows: seq<GradeConversionRow>, i: int)
    requires 0 <= i < |rows|
    requires forall a, b :: 0 <= a < b < |rows| ==>
      !(rows[a].subjectCode == rows[b].subjectCode && rows[a].grade == rows[b].grade)
    ensures Lookup(GradeMapOf(rows), rows[i].subjectCode, rows[i].grade) == Some(rows[i].convertedScore)
  {
    GradeMapLastWins(rows, rows[i].subjectCode, rows[i].grade);
    var k :| LastRowFor(rows, rows[i].subjectCode, rows[i].grade, k)
      && Lookup(GradeMapOf(rows), rows[i].subjectCode, rows[i].grade).value == rows[k].convertedScore;
    assert k == i;
  }

  /** `userScores[role]?.grade` */
  function GradeOf(userScores: ScoreSet, role: Role): Option<int> {
    if IsSet(userScores, role) then userScores[role].value.grade else None
  }

  /** The built-in Korean history bonus table. */
  const DefaultHistoryScores: map<int, int> :=
    map[1 := 10, 2 := 10, 3 := 10, 4 := 10, 5 := 10, 6 := 8, 7 := 6, 8 := 4, 9 := 2]

  /** getHistoryScore */
  function GetHistoryScore(gradeMap: GradeMap, userScores: ScoreSet): (r: real)
    ensures var g := GradeOf(userScores, KoreanHistory);
      && (!TruthyInt(g) ==> r == 0.0)
      && (TruthyInt(g) && TruthyInt(Lookup(gradeMap, "K_HISTORY", g.value)) ==>
            r == Lookup(gradeMap, "K_HISTORY", g.value).value as real)
      && (TruthyInt(g) && !TruthyInt(Lookup(gradeMap, "K_HISTORY", g.value)) ==>
            r == if 1 <= g.value <= 5 then 10.0
                 else if 6 <= g.value <= 9 then (20 - 2 * g.value) as real
                 else 0.0)
  {
    var historyGrade := GradeOf(userScores, KoreanHistory);
    if !TruthyInt(historyGrade) then 0.0
    else if TruthyInt(Lookup(gradeMap, "K_HISTORY", historyGrade.value)) then
      Lookup(gradeMap, "K_HISTORY", historyGrade.value).value as real
    else
      var g := historyGrade.value;
      (if g in DefaultHistoryScores then DefaultHistoryScores[g] else 0) as real
  }

  /** The built-in English grade-to-ratio table. */
  const EnglishGradeRatios: map<int, real> :=
    map[1 := 1.0, 2 := 0.95, 3 := 0.9, 4 := 0.85, 5 := 0.8, 6 := 0.75, 7 := 0.7, 8 := 0.65, 9 := 0.6]

  /** getDefaultEnglishScore: the max score scaled by 100% at grade 1 down to 60% at grade 9, in 5% steps. */
  function GetDefaultEnglishScore(grade: Option<int>, maxScore: real): (r: real)
    ensures !TruthyInt(grade) ==> r == 0.0
    ensures TruthyInt(grade) && 1 <= grade.value <= 9 ==> r == maxScore * (21 - grade.value) as real / 20.0
    ensures TruthyInt(grade) && !(1 <= grade.value <= 9) ==> r == 0.0
  {
    if !TruthyInt(grade) then 0.0
    else
      var ratio := if grade.value in EnglishGradeRatios then Some(EnglishGradeRatios[grade.value]) else None;
      OrReal(ratio, 0.0) * maxScore
  }

  /** With a positive max score, a better (smaller) grade never gets a smaller default English score. */
  lemma DefaultEnglishMonotone(g1: int, g2: int, maxScore: real)
    requires 1 <= g1 <= g2
    requires maxScore >= 0.0
    ensures GetDefaultEnglishScore(Some(g1), maxScore) >= GetDefaultEnglishScore(Some(g2), maxScore)
  {
    if g2 <= 9 {
      assert maxScore * (21 - g1) as real >= maxScore * (21 - g2) as real by {
        assert maxScore * (21 - g1) as real - maxScore * (21 - g2) as real == maxScore * (g2 - g1) as real;
      }
    }
  }

  /** The year's value for code if truthy, else the built-in fallback. */
  function YearOr(byCode: map<string, Option<int>>, code: string, fallback: int): Option<int> {
    if code in byCode && TruthyInt(byCode[code]) then byCode[code] else Some(fallback)
  }

  /**
   * `maxScoreMap` as the analysis handler builds it: the year's rows, then
   * 150/150/70 for KOR_MAX/MATH_MAX/INQUIRY_MAX wherever the year's value is
   * missing, null or 0; every other code keeps the year's value.
   */
  function MaxScoreTable(rows: seq<MaxScoreRow>): (m: map<string, Option<int>>)
    ensures "KOR_MAX" in m && "MATH_MAX" in m && "INQUIRY_MAX" in m
    ensures TruthyInt(m["KOR_MAX"]) && TruthyInt(m["MATH_MAX"]) && TruthyInt(m["INQUIRY_MAX"])
    ensures m["KOR_MAX"] == YearOr(RowsToMap(rows), "KOR_MAX", 150)
    ensures m["MATH_MAX"] == YearOr(RowsToMap(rows), "MATH_MAX", 150)
    ensures m["INQUIRY_MAX"] == YearOr(RowsToMap(rows), "INQUIRY_MAX", 70)
    ensures forall code :: code != "KOR_MAX" && code != "MATH_MAX" && code != "INQUIRY_MAX" ==>
      (code in m <==> code in RowsToMap(rows)) && (code in m ==> m[code] == RowsToMap(rows)[code])
    ensures forall code :: code in m && code != "KOR_MAX" && code != "MATH_MAX" && code != "INQUIRY_MAX" ==>
      exists i :: 0 <= i < |rows| && rows[i].subjectCode == code
  {
    var m0 := RowsToMap(rows);
    assert forall code :: code in m0 ==> exists i :: 0 <= i < |rows| && rows[i].subjectCode == code by {
      forall code | code in m0
        ensures exists i :: 0 <= i < |rows| && rows[i].subjectCode == code
      {
        RowsToMapKeys(rows, code);
      }
    }
    var m1 := if "KOR_MAX" in m0 && TruthyInt(m0["KOR_MAX"]) then m0 else m0["KOR_MAX" := Some(150)];
    var m2 := if "MATH_MAX" in m1 && TruthyInt(m1["MATH_MAX"]) then m1 else m1["MATH_MAX" := Some(150)];
    if "INQUIRY_MAX" in m2 && TruthyInt(m2["INQUIRY_MAX"]) then m2 else m2["INQUIRY_MAX" := Some(70)]
  }

  /** `maxScores.forEach(ms => maxScoreMap[ms.subject_code] = ms.max_standard_score)` */
  function RowsToMap(rows: seq<MaxScoreRow>): map<string, Option<int>>
    decreases |rows|
  {
    if rows == [] then map[]
    else RowsToMap(rows[..|rows| - 1])[rows[|rows| - 1].subjectCode := rows[|rows| - 1].maxStandardScore]
  }

  ghost predicate LastMaxRow(rows: seq<MaxScoreRow>, code: string, i: int) {
    && 0 <= i < |rows| && rows[i].subjectCode == code
    && forall j :: i < j < |rows| ==> rows[j].subjectCode != code
  }

  /** A code is a key of the map exactly when some row has it. */
  lemma {:induction false} RowsToMapKeys(rows: seq<MaxScoreRow>, code: string)
    ensures code in RowsToMap(rows) <==> exists i :: 0 <= i < |rows| && rows[i].subjectCode == code
  {
    if rows != [] {
      var init := rows[..|rows| - 1];
      RowsToMapKeys(init, code);
      RowsToMapStep(rows);
      if exists i :: 0 <= i < |rows| && rows[i].subjectCode == code {
        var i :| 0 <= i < |rows| && rows[i].subjectCode == code;
        if i < |init| {
          assert init[i] == rows[i];
        }
      }
      if exists i :: 0 <= i < |init| && init[i].subjectCode == code {
        var i :| 0 <= i < |init| && init[i].subjectCode == code;
        assert rows[i] == init[i];
      }
    }
  }

  /** Every row's code is a key of the map, holding the max_standard_score of the last row with that code. */
  lemma {:induction false} RowsToMapLastWins(rows: seq<MaxScoreRow>, code: string)
    ensures code in RowsToMap(rows) <==> exists i :: 0 <= i < |rows| && rows[i].subjectCode == code
    ensures code in RowsToMap(rows) ==>
      exists i :: LastMaxRow(rows, code, i) && RowsToMap(rows)[code] == rows[i].maxStandardScore
  {
    RowsToMapKeys(rows, code);
    if rows != [] && code in RowsToMap(rows) {
      var init := rows[..|rows| - 1];
      var last := rows[|rows| - 1];
      RowsToMapStep(rows);
      if last.subjectCode == code {
        assert LastMaxRow(rows, code, |rows| - 1) && RowsToMap(rows)[code] == last.maxStandardScore;
      } else {
        RowsToMapLastWins(init, code);
        var i :| LastMaxRow(init, code, i) && RowsToMap(init)[code] == init[i].maxStandardScore;
        assert rows[i] == init[i];
        forall j | i < j < |rows|
          ensures rows[j].subjectCode != code
        {
          if j < |init| {
            assert rows[j] == init[j];
          }
        }
        assert LastMaxRow(rows, code, i) && RowsToMap(rows)[code] == rows[i].maxStandardScore;
      }
    }
  }

  lemma RowsToMapStep(rows: seq<MaxScoreRow>)
    requires rows != []
    ensures RowsToMap(rows) == RowsToMap(rows[..|rows| - 1])[rows[|rows| - 1].subjectCode := rows[|rows| - 1].maxStandardScore]
  {
  }

  /** getMaxScore: never 0, and one of the fixed values, the year's maxima or the configured max. */
  function GetMaxScore(config: ScoreConfig, maxScoreMap: map<string, Option<int>>): (r: int)
    ensures r != 0
    ensures config.maxScoreMethod == Some("fixed_200") ==> r == 200
    ensures config.maxScoreMethod == Some("fixed_100") ==> r == 100
    ensures config.maxScoreMethod == Some("highest_of_year") && config.subjectType == "korean" ==>
      r == if "KOR_MAX" in maxScoreMap && TruthyInt(maxScoreMap["KOR_MAX"]) then maxScoreMap["KOR_MAX"].value else 150
    ensures config.maxScoreMethod == Some("highest_of_year") && config.subjectType == "inquiry" ==>
      r == if "INQUIRY_MAX" in maxScoreMap && TruthyInt(maxScoreMap["INQUIRY_MAX"]) then maxScoreMap["INQUIRY_MAX"].value else 70
    ensures config.maxScoreMethod == Some("highest_of_year") && config.subjectType == "math" ==>
      r == if "MATH_MAX" in maxScoreMap && TruthyInt(maxScoreMap["MATH_MAX"]) then maxScoreMap["MATH_MAX"].value else 150
    ensures config.maxScoreMethod == Some("highest_of_year") && SlotOf(config.subjectType) !in {Some(KoreanSlot), Some(MathSlot), Some(InquirySlot)} ==>
      r == 100
    ensures config.maxScoreMethod !in {Some("fixed_200"), Some("fixed_100"), Some("highest_of_year")} ==>
      r == OrInt(config.maxScoreValue, 100)
  {
    var scoreMethod := config.maxScoreMethod;
    if scoreMethod == Some("fixed_200") then 200
    else if scoreMethod == Some("fixed_100") then 100
    else if scoreMethod == Some("highest_of_year") then
      if config.subjectType == "korean" then YearMax(maxScoreMap, "KOR_MAX", 150)
      else if config.subjectType == "math" then YearMax(maxScoreMap, "MATH_MAX", 150)
      else if config.subjectType == "inquiry" then YearMax(maxScoreMap, "INQUIRY_MAX", 70)
      else 100
    else if TruthyInt(config.maxScoreValue) then config.maxScoreValue.value
    else if config.scoreType == "백분위" then 100
    else 100
  }

  /** `maxScoreMap[code] || fallback` */
  function YearMax(maxScoreMap: map<string, Option<int>>, code: string, fallback: int): int {
    OrInt(if code in maxScoreMap then maxScoreMap[code] else None, fallback)
  }
}
