/**
 * The analysis request handler (POST /): the request checks, the score
 * normalisation, one converted score per chosen department, and the result
 * list sorted by converted score.
 */
module Analysis {
  import opened Wrappers
  import opened JsNumbers
  import opened StableSort
  import opened Normalizer
  import opened Policy
  import opened Evaluator
  import opened Seqs

  /** A chosen department with the DepartmentScoreConfig and GradeConversion rows stored for it. */
  datatype DepartmentInput = DepartmentInput(dept: Department, configs: seq<ScoreConfig>, gradeRows: seq<GradeConversionRow>)

  /** One element of `results`; `percentage` is the number `toFixed(2)` prints. */
  datatype ResultEntry = ResultEntry(
    departmentId: int,
    schoolName: string,
    departmentName: string,
    division: Option<string>,
    region: Option<string>,
    convertedScore: real,
    totalScore: int,
    percentage: real,
    cutlineScore: Option<real>,
    isPassed: Option<bool>)

  /** Which of the handler's failure messages a response carries. */
  datatype Reason =
    | MissingFields       // userId or mode missing
    | NoScoreEntered      // no ExamScore row, or one with no subjects
    | ConversionFailed    // no subject survived normalisation
    | NoChoices           // the user chose no department
    | NothingComputable   // no chosen department produced a score

  datatype Response = Response(success: bool, message: Option<Reason>, count: int, results: seq<ResultEntry>)

  function Fail(reason: Reason): Response {
    Response(false, Some(reason), 0, [])
  }

  /** The result entry for a department and its converted score. */
  function MakeEntry(dept: Department, schoolName: string, convertedScore: real): (e: ResultEntry)
    ensures e.departmentId == dept.id && e.schoolName == schoolName && e.convertedScore == convertedScore
    ensures e.departmentName == dept.name && e.division == dept.division && e.region == dept.region
    ensures e.totalScore != 0
    ensures TruthyInt(dept.totalScore) ==> e.totalScore == dept.totalScore.value
    ensures !TruthyInt(dept.totalScore) ==> e.totalScore == 1000
    ensures IsCents(e.percentage)
    ensures e.percentage - 0.005 <= convertedScore / e.totalScore as real * 100.0 <= e.percentage + 0.005
    ensures e.cutlineScore.Some? <==> Truthy(dept.cutlineScore)
    ensures Truthy(dept.cutlineScore) ==> e.cutlineScore == dept.cutlineScore
    ensures e.isPassed.Some? <==> Truthy(dept.cutlineScore)
    ensures e.isPassed == Some(true) <==> Truthy(dept.cutlineScore) && convertedScore >= dept.cutlineScore.value
  {
    var totalScore := OrInt(dept.totalScore, 1000);
    ResultEntry(
      dept.id, schoolName, dept.name, dept.division, dept.region,
      convertedScore,
      totalScore,
      ToFixed2(convertedScore / totalScore as real * 100.0),
      OrNull(dept.cutlineScore),
      if Truthy(dept.cutlineScore) then Some(convertedScore >= dept.cutlineScore.value) else None)
  }

  /**
   * A department contributes a result when it has a converted score and a
   * School; without the School the entry cannot be built and the department
   * is skipped.
   */
  predicate Listed(d: DepartmentInput, userScores: ScoreSet) {
    DepartmentScore(d.dept, d.configs, d.gradeRows, userScores).Some? && d.dept.schoolName.Some?
  }

  function EntryFor(d: DepartmentInput, userScores: ScoreSet): ResultEntry
    requires Listed(d, userScores)
  {
    MakeEntry(d.dept, d.dept.schoolName.value, DepartmentScore(d.dept, d.configs, d.gradeRows, userScores).value)
  }

  /** The entry a department contributes, if any. */
  function EntryOf(d: DepartmentInput, userScores: ScoreSet): (r: Option<ResultEntry>)
    ensures r.Some? <==> Listed(d, userScores)
    ensures r.Some? ==> r.value == EntryFor(d, userScores)
  {
    if Listed(d, userScores) then Some(EntryFor(d, userScores)) else None
  }

  /** EntryOf for the given exam scores, as the function the handler's loop applies to every department. */
  function EntryOfWith(userScores: ScoreSet): DepartmentInput -> Option<ResultEntry> {
    (d: DepartmentInput) => EntryOf(d, userScores)
  }

  /** `results` before sorting: one entry per listed department, in choice order. */
  function Collected(departments: seq<DepartmentInput>, userScores: ScoreSet): seq<ResultEntry> {
    FilterMap(departments, EntryOfWith(userScores))
  }

  function EntryScore(e: ResultEntry): real { e.convertedScore }

  /** `results` after `sort((a, b) => b.convertedScore - a.convertedScore)`. */
  function Ranked(departments: seq<DepartmentInput>, userScores: ScoreSet): seq<ResultEntry> {
    SortDesc(Collected(departments, userScores), EntryScore)
  }

  /**
   * The handler's response. `rawScores` is the `scores` of the user's
   * ExamScore row for the mode (None when there is none), `subjectMap` the
   * Subject table, and `departments` the departments of the user's choices.
   */
  function Analysis(userId: Option<int>, mode: Option<string>, rawScores: Option<seq<RawEntry>>,
                    subjectMap: map<int, string>, departments: seq<DepartmentInput>): (r: Response)
    ensures r.count == |r.results|
    ensures r.success <==> r.results != []
    ensures r.success <==> r.message.None?
    ensures (!TruthyInt(userId) || !TruthyString(mode)) ==> r == Fail(MissingFields)
    ensures departments == [] ==> !r.success
    // each later check, in the handler's order, fails with its own message
    ensures TruthyInt(userId) && TruthyString(mode) && (rawScores.None? || |rawScores.value| == 0)
            ==> r == Fail(NoScoreEntered)
    ensures TruthyInt(userId) && TruthyString(mode) && rawScores.Some? && |rawScores.value| > 0
            && |Normalized(rawScores.value, subjectMap)| == 0
            ==> r == Fail(ConversionFailed)
    ensures TruthyInt(userId) && TruthyString(mode) && rawScores.Some? && |rawScores.value| > 0
            && |Normalized(rawScores.value, subjectMap)| > 0 && departments == []
            ==> r == Fail(NoChoices)
    // a request that passes every check answers with the ranking, or with
    // NothingComputable when no department yields an entry
    ensures TruthyInt(userId) && TruthyString(mode) && rawScores.Some? && |rawScores.value| > 0
            && |Normalized(rawScores.value, subjectMap)| > 0 && departments != []
            ==> && r.results == Ranked(departments, Normalized(rawScores.value, subjectMap))
                && (r.results == [] ==> r == Fail(NothingComputable))
  {
    if !TruthyInt(userId) || !TruthyString(mode) then Fail(MissingFields)
    else if rawScores.None? || |rawScores.value| == 0 then Fail(NoScoreEntered)
    else
      var userScores := Normalized(rawScores.value, subjectMap);
      if |userScores| == 0 then Fail(ConversionFailed)
      else if |departments| == 0 then Fail(NoChoices)
      else
        var results := Ranked(departments, userScores);
        if |results| == 0 then Fail(NothingComputable)
        else Response(true, None, |results|, results)
  }

  /** The POST / handler once its database lookups have been made. */
  method Analyze(userId: Option<int>, mode: Option<string>, rawScores: Option<seq<RawEntry>>,
                 subjectMap: map<int, string>, departments: seq<DepartmentInput>)
    returns (response: Response)
    ensures response == Analysis(userId, mode, rawScores, subjectMap, departments)
  {
    if !TruthyInt(userId) || !TruthyString(mode) {
      return Fail(MissingFields);
    }
    if rawScores.None? || |rawScores.value| == 0 {
      return Fail(NoScoreEntered);
    }
    var userScores := ConvertScoresToStandardFormat(rawScores.value, subjectMap);
    if |userScores| == 0 {
      return Fail(ConversionFailed);
    }
    if |departments| == 0 {
      return Fail(NoChoices);
    }

    var results: seq<ResultEntry> := [];
    for i := 0 to |departments|
      invariant results == Collected(departments[..i], userScores)
    {
      FilterMapSnoc(departments, i, EntryOfWith(userScores));
      var d := departments[i];
      var convertedScore := CalculateDepartmentScore(d.dept, d.configs, d.gradeRows, userScores);
      if convertedScore.Some? && d.dept.schoolName.Some? {
        results := results + [MakeEntry(d.dept, d.dept.schoolName.value, convertedScore.value)];
      }
    }
    assert departments[..|departments|] == departments;

    results := SortDesc(results, EntryScore);
    if |results| == 0 {
      return Fail(NothingComputable);
    }
    response := Response(true, None, |results|, results);
  }

  // ------------------------------------------------------------ properties

  /**
   * The collected entries are those of the listed departments, one for each,
   * in choice order: through idx, the increasing positions of exactly the
   * departments EntryOf gives an entry for (the listed ones), each entry is
   * that department's EntryFor.
   */
  lemma CollectedAreTheListed(departments: seq<DepartmentInput>, userScores: ScoreSet)
    ensures exists idx :: ImageAt(departments, EntryOfWith(userScores), Collected(departments, userScores), idx)
    ensures forall e :: e in Collected(departments, userScores) ==>
      exists i :: 0 <= i < |departments| && Listed(departments[i], userScores) && e == EntryFor(departments[i], userScores)
    ensures forall i :: 0 <= i < |departments| && Listed(departments[i], userScores) ==>
      EntryFor(departments[i], userScores) in Collected(departments, userScores)
    ensures |Collected(departments, userScores)| <= |departments|
  {
    var f := EntryOfWith(userScores);
    var collected := Collected(departments, userScores);
    FilterMapElements(departments, f);
    FilterMapImage(departments, f);
    forall e | e in collected
      ensures exists i :: 0 <= i < |departments| && Listed(departments[i], userScores) && e == EntryFor(departments[i], userScores)
    {
      var i :| 0 <= i < |departments| && f(departments[i]) == Some(e);
      assert EntryOf(departments[i], userScores) == Some(e);
    }
    forall i | 0 <= i < |departments| && Listed(departments[i], userScores)
      ensures EntryFor(departments[i], userScores) in collected
    {
      assert f(departments[i]) == Some(EntryFor(departments[i], userScores));
    }
  }

  /** A department with no score configs is never in the results. */
  lemma UnconfiguredDepartmentOmitted(departments: seq<DepartmentInput>, userScores: ScoreSet, e: ResultEntry)
    requires e in Ranked(departments, userScores)
    ensures exists i :: 0 <= i < |departments| && departments[i].configs != []
              && departments[i].dept.id == e.departmentId
  {
    var collected := Collected(departments, userScores);
    assert e in multiset(Ranked(departments, userScores));
    assert e in collected;
    CollectedAreTheListed(departments, userScores);
    var i :| 0 <= i < |departments| && Listed(departments[i], userScores) && e == EntryFor(departments[i], userScores);
    var d := departments[i];
    assert DepartmentScore(d.dept, d.configs, d.gradeRows, userScores).Some?;
  }

  /**
   * The results are sorted by converted score, highest first, hold exactly
   * the collected entries, and entries of equal score keep choice order.
   */
  lemma RankedIsSortedPermutation(departments: seq<DepartmentInput>, userScores: ScoreSet, v: real)
    ensures SortedDesc(Ranked(departments, userScores), EntryScore)
    ensures multiset(Ranked(departments, userScores)) == multiset(Collected(departments, userScores))
    ensures WithKey(Ranked(departments, userScores), EntryScore, v) == WithKey(Collected(departments, userScores), EntryScore, v)
  {
    SortDescIsStable(Collected(departments, userScores), EntryScore, v);
  }

  /**
   * A successful response is exactly a request that passes every check and
   * whose ranking is not empty; it carries that ranking, sorted.
   */
  lemma SuccessCarriesRanking(userId: Option<int>, mode: Option<string>, rawScores: Option<seq<RawEntry>>,
                              subjectMap: map<int, string>, departments: seq<DepartmentInput>)
    ensures Analysis(userId, mode, rawScores, subjectMap, departments).success
        <==> && TruthyInt(userId) && TruthyString(mode) && rawScores.Some? && |rawScores.value| > 0
             && |Normalized(rawScores.value, subjectMap)| > 0 && departments != []
             && Ranked(departments, Normalized(rawScores.value, subjectMap)) != []
    ensures Analysis(userId, mode, rawScores, subjectMap, departments).success
        ==> && rawScores.Some?
            && Analysis(userId, mode, rawScores, subjectMap, departments).results
               == Ranked(departments, Normalized(rawScores.value, subjectMap))
            && SortedDesc(Analysis(userId, mode, rawScores, subjectMap, departments).results, EntryScore)
  {
  }
}
