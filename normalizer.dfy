/**
 * The score normalizer: maps a stored payload keyed by subject id onto the
 * canonical roles korean, math, english, korean_history, inquiry1 and
 * inquiry2 (convertScoresToStandardFormat and convertScoreData).
 */
module Normalizer {
  import opened Wrappers
  import opened JsNumbers

  /** The keys of the canonical score object. */
  datatype Role = Korean | Math | English | KoreanHistory | Inquiry1 | Inquiry2

  /**
   * One sub-record of a stored payload with its fields already read as
   * numbers (what parseFloat gives); None stands for absent or NaN.
   */
  datatype RawRecord = RawRecord(
    standardScore: Option<real>,
    percentile: Option<real>,
    convertedStandardScore: Option<real>,
    grade: Option<real>,
    rawScore: Option<real>)

  /** The payload stored for one subject id: its `default`, `탐구1` and `탐구2` sub-records. */
  datatype Payload = Payload(
    defaultRecord: Option<RawRecord>,
    inquiry1Record: Option<RawRecord>,
    inquiry2Record: Option<RawRecord>)

  /** One `[subjectId, scoreData]` pair of `Object.entries(rawScores)`, in enumeration order. */
  datatype RawEntry = RawEntry(subjectId: int, payload: Payload)

  /** A canonical subject score; a None field is null. */
  datatype SubjectScore = SubjectScore(
    standardScore: Option<real>,
    percentile: Option<real>,
    convertedStandardScore: Option<real>,
    grade: Option<int>,
    rawScore: Option<real>)

  /**
   * The converted score object: a role is a key when it was assigned, and its
   * value is None when convertScoreData returned null for it.
   */
  type ScoreSet = map<Role, Option<SubjectScore>>

  /** `converted[r]` is truthy. */
  predicate IsSet(c: ScoreSet, r: Role) {
    r in c && c[r].Some?
  }

  /** parseInt applied to a number: the integer part, truncated towards zero. */
  function TruncateToInt(x: real): int {
    if x >= 0.0 then x.Floor else -((-x).Floor)
  }

  /** The field coercion `parseFloat(v) || null`: y is x unless x is missing or 0, then null. */
  ghost predicate CoercedReal(x: Option<real>, y: Option<real>) {
    (y.None? <==> !Truthy(x)) && (y.Some? ==> y == x)
  }

  /** No field of s holds 0: every falsy value has become null. */
  ghost predicate NoZeroFields(s: SubjectScore) {
    && !(s.standardScore == Some(0.0))
    && !(s.percentile == Some(0.0))
    && !(s.convertedStandardScore == Some(0.0))
    && !(s.grade == Some(0))
    && !(s.rawScore == Some(0.0))
  }

  /** convertScoreData */
  function ConvertScoreData(data: Option<RawRecord>): (r: Option<SubjectScore>)
    ensures r.None? <==> data.None?
    ensures r.Some? ==> NoZeroFields(r.value)
    ensures r.Some? ==>
      && CoercedReal(data.value.standardScore, r.value.standardScore)
      && CoercedReal(data.value.percentile, r.value.percentile)
      && CoercedReal(data.value.convertedStandardScore, r.value.convertedStandardScore)
      && CoercedReal(data.value.rawScore, r.value.rawScore)
    ensures r.Some? ==>
      (r.value.grade.None? <==> (data.value.grade.None? || -1.0 < data.value.grade.value < 1.0))
    ensures r.Some? && r.value.grade.Some? ==>
      var x, g := data.value.grade.value, r.value.grade.value as real;
      && (x >= 0.0 ==> g <= x < g + 1.0)
      && (x < 0.0 ==> g - 1.0 < x <= g)
  {
    match data
    case None => None
    case Some(d) =>
      var g := if d.grade.Some? then TruncateToInt(d.grade.value) else 0;
      Some(SubjectScore(
        OrNull(d.standardScore),
        OrNull(d.percentile),
        OrNull(d.convertedStandardScore),
        if g != 0 then Some(g) else None,
        OrNull(d.rawScore)))
  }

  /** The subject kinds a subject name is sorted into. */
  datatype Kind = KoreanKind | MathKind | EnglishKind | HistoryKind | InquiryKind

  /** `toLowerCase` on ASCII letters; other characters are kept. */
  function LowerChar(c: char): char {
    if 'A' <= c <= 'Z' then (c as int + 32) as char else c
  }

  function Lower(s: string): (r: string)
    ensures |r| == |s|
  {
    if s == [] then [] else [LowerChar(s[0])] + Lower(s[1..])
  }

  predicate StartsWith(s: string, prefix: string) {
    |prefix| <= |s| && s[..|prefix|] == prefix
  }

  /** `s.includes(sub)` */
  predicate Includes(s: string, sub: string) {
    StartsWith(s, sub) || (s != [] && Includes(s[1..], sub))
  }

  /** The if-chain on the lower-cased subject name, first match wins. */
  function Classify(name: string): Option<Kind> {
    var n := Lower(name);
    if Includes(n, "국어") || n == "korean" then Some(KoreanKind)
    else if Includes(n, "수학") || n == "math" then Some(MathKind)
    else if Includes(n, "영어") || n == "english" then Some(EnglishKind)
    else if Includes(n, "한국사") || n == "korean history" || n == "history" then Some(HistoryKind)
    else if Includes(n, "탐구") || n == "inquiry" || Includes(n, "사회") || Includes(n, "과학") then Some(InquiryKind)
    else None
  }

  /** `subjectMap[subjectId]` is a truthy name. */
  predicate Known(e: RawEntry, names: map<int, string>) {
    e.subjectId in names && names[e.subjectId] != ""
  }

  function KindOf(e: RawEntry, names: map<int, string>): Option<Kind> {
    if Known(e, names) then Classify(names[e.subjectId]) else None
  }

  /** The inquiry branch: 탐구1 fills inquiry1, 탐구2 fills inquiry2, default fills a still unset inquiry1. */
  function InquiryStep(c: ScoreSet, p: Payload): ScoreSet {
    var c1 := if p.inquiry1Record.Some? then c[Inquiry1 := ConvertScoreData(p.inquiry1Record)] else c;
    var c2 := if p.inquiry2Record.Some? then c1[Inquiry2 := ConvertScoreData(p.inquiry2Record)] else c1;
    if p.defaultRecord.Some? && !IsSet(c2, Inquiry1) then c2[Inquiry1 := ConvertScoreData(p.defaultRecord)] else c2
  }

  /** What one loop iteration does to `converted`. */
  function Step(c: ScoreSet, e: RawEntry, names: map<int, string>): ScoreSet {
    match KindOf(e, names)
    case None => c
    case Some(KoreanKind) => c[Korean := ConvertScoreData(e.payload.defaultRecord)]
    case Some(MathKind) => c[Math := ConvertScoreData(e.payload.defaultRecord)]
    case Some(EnglishKind) => c[English := ConvertScoreData(e.payload.defaultRecord)]
    case Some(HistoryKind) => c[KoreanHistory := ConvertScoreData(e.payload.defaultRecord)]
    case Some(InquiryKind) => InquiryStep(c, e.payload)
  }

  /** The converted object after processing the entries in order. */
  function Normalized(entries: seq<RawEntry>, names: map<int, string>): ScoreSet
    decreases |entries|
  {
    if entries == [] then map[]
    else Step(Normalized(entries[..|entries| - 1], names), entries[|entries| - 1], names)
  }

  /** convertScoresToStandardFormat, with the Subject table given as the id-to-name map. */
  method ConvertScoresToStandardFormat(rawScores: seq<RawEntry>, subjectMap: map<int, string>)
    returns (converted: ScoreSet)
    ensures converted == Normalized(rawScores, subjectMap)
  {
    converted := map[];
    for i := 0 to |rawScores|
      invariant converted == Normalized(rawScores[..i], subjectMap)
    {
      assert rawScores[..i + 1][..i] == rawScores[..i];
      var entry := rawScores[i];
      if entry.subjectId !in subjectMap || subjectMap[entry.subjectId] == "" {
        continue;
      }
      var kind := Classify(subjectMap[entry.subjectId]);
      var data := entry.payload;
      if kind == Some(KoreanKind) {
        converted := converted[Korean := ConvertScoreData(data.defaultRecord)];
      } else if kind == Some(MathKind) {
        converted := converted[Math := ConvertScoreData(data.defaultRecord)];
      } else if kind == Some(EnglishKind) {
        converted := converted[English := ConvertScoreData(data.defaultRecord)];
      } else if kind == Some(HistoryKind) {
        converted := converted[KoreanHistory := ConvertScoreData(data.defaultRecord)];
      } else if kind == Some(InquiryKind) {
        if data.inquiry1Record.Some? {
          converted := converted[Inquiry1 := ConvertScoreData(data.inquiry1Record)];
        }
        if data.inquiry2Record.Some? {
          converted := converted[Inquiry2 := ConvertScoreData(data.inquiry2Record)];
        }
        if data.defaultRecord.Some? && !IsSet(converted, Inquiry1) {
          converted := converted[Inquiry1 := ConvertScoreData(data.defaultRecord)];
        }
      }
    }
    assert rawScores[..|rawScores|] == rawScores;
  }

  // ---------------------------------------------------------------- properties

  /** The entries whose subject id the Subject table resolves, in order. */
  function KnownEntries(entries: seq<RawEntry>, names: map<int, string>): seq<RawEntry>
    decreases |entries|
  {
    if entries == [] then []
    else
      var rest := KnownEntries(entries[..|entries| - 1], names);
      if Known(entries[|entries| - 1], names) then rest + [entries[|entries| - 1]] else rest
  }

  /** Ids missing from the subject map are skipped: dropping them changes nothing. */
  lemma {:induction false} UnknownIdsSkipped(entries: seq<RawEntry>, names: map<int, string>)
    ensures Normalized(KnownEntries(entries, names), names) == Normalized(entries, names)
  {
    if entries != [] {
      var init := entries[..|entries| - 1];
      var last := entries[|entries| - 1];
      UnknownIdsSkipped(init, names);
      var k := KnownEntries(init, names);
      NormalizedSnoc(init, last, names);
      if Known(last, names) {
        NormalizedSnoc(k, last, names);
      } else {
        StepUnknown(Normalized(init, names), last, names);
      }
    }
  }

  lemma NormalizedSnoc(entries: seq<RawEntry>, e: RawEntry, names: map<int, string>)
    ensures Normalized(entries + [e], names) == Step(Normalized(entries, names), e, names)
  {
    assert (entries + [e])[..|entries|] == entries;
  }

  lemma StepUnknown(c: ScoreSet, e: RawEntry, names: map<int, string>)
    requires !Known(e, names)
    ensures Step(c, e, names) == c
  {
  }

  /** Every score the normalizer stores has its zero fields turned into null. */
  lemma {:induction false} NormalizedHasNoZeroFields(entries: seq<RawEntry>, names: map<int, string>)
    ensures forall r :: IsSet(Normalized(entries, names), r) ==>
      NoZeroFields(Normalized(entries, names)[r].value)
  {
    if entries != [] {
      var init := entries[..|entries| - 1];
      NormalizedHasNoZeroFields(init, names);
      assert entries == init + [entries[|entries| - 1]];
      NormalizedSnoc(init, entries[|entries| - 1], names);
    }
  }

  /** The roles one entry assigns, whatever was converted before it. */
  predicate Assigns(e: RawEntry, names: map<int, string>, r: Role) {
    match KindOf(e, names)
    case None => false
    case Some(KoreanKind) => r == Korean
    case Some(MathKind) => r == Math
    case Some(EnglishKind) => r == English
    case Some(HistoryKind) => r == KoreanHistory
    case Some(InquiryKind) =>
      (r == Inquiry1 && (e.payload.inquiry1Record.Some? || e.payload.defaultRecord.Some?))
      || (r == Inquiry2 && e.payload.inquiry2Record.Some?)
  }

  /** One step adds exactly the roles its entry assigns to the keys. */
  lemma StepKeys(c: ScoreSet, e: RawEntry, names: map<int, string>, r: Role)
    ensures r in Step(c, e, names) <==> r in c || Assigns(e, names, r)
  {
    match KindOf(e, names)
    case None =>
    case Some(KoreanKind) =>
    case Some(MathKind) =>
    case Some(EnglishKind) =>
    case Some(HistoryKind) =>
    case Some(InquiryKind) =>
  }

  /** A role is a key of the result exactly when some entry assigns it. */
  lemma {:induction false} NormalizedKeys(entries: seq<RawEntry>, names: map<int, string>, r: Role)
    ensures r in Normalized(entries, names) <==>
      exists i :: 0 <= i < |entries| && Assigns(entries[i], names, r)
  {
    if entries != [] {
      var init := entries[..|entries| - 1];
      var last := entries[|entries| - 1];
      NormalizedKeys(init, names, r);
      StepKeys(Normalized(init, names), last, names, r);
      assert forall i :: 0 <= i < |init| ==> init[i] == entries[i];
    }
  }

  /** The role a main-subject kind fills from its `default` sub-record. */
  function MainRole(k: Kind): Option<Role> {
    match k
    case KoreanKind => Some(Korean)
    case MathKind => Some(Math)
    case EnglishKind => Some(English)
    case HistoryKind => Some(KoreanHistory)
    case InquiryKind => None
  }

  /** A main-subject step overwrites its own role and leaves the other main roles alone. */
  lemma MainStep(c: ScoreSet, e: RawEntry, names: map<int, string>, k: Kind)
    requires MainRole(k).Some?
    ensures var c' := Step(c, e, names); var r := MainRole(k).value;
      && (KindOf(e, names) == Some(k) ==> r in c' && c'[r] == ConvertScoreData(e.payload.defaultRecord))
      && (KindOf(e, names) != Some(k) ==> (r in c' <==> r in c) && (r in c ==> c'[r] == c[r]))
  {
    match KindOf(e, names)
    case None =>
    case Some(KoreanKind) =>
    case Some(MathKind) =>
    case Some(EnglishKind) =>
    case Some(HistoryKind) =>
    case Some(InquiryKind) =>
  }

  /** Entry i is the last entry of kind k, and v is what its `default` sub-record converts to. */
  ghost predicate LastOfKind(entries: seq<RawEntry>, names: map<int, string>, k: Kind, i: int, v: Option<SubjectScore>) {
    && 0 <= i < |entries| && KindOf(entries[i], names) == Some(k)
    && v == ConvertScoreData(entries[i].payload.defaultRecord)
    && forall j :: i < j < |entries| ==> KindOf(entries[j], names) != Some(k)
  }

  /** Appending an entry of another kind keeps the last entry of kind k. */
  lemma LastOfKindExtends(init: seq<RawEntry>, last: RawEntry, names: map<int, string>, k: Kind, i: int, v: Option<SubjectScore>)
    requires LastOfKind(init, names, k, i, v)
    requires KindOf(last, names) != Some(k)
    ensures LastOfKind(init + [last], names, k, i, v)
  {
    var entries := init + [last];
    forall j | i < j < |entries|
      ensures KindOf(entries[j], names) != Some(k)
    {
      if j < |init| {
        assert entries[j] == init[j];
      }
    }
  }

  /**
   * korean, math, english and korean_history hold the conversion of the
   * `default` sub-record of the last entry of that kind.
   */
  lemma {:induction false} MainRoleLastWins(entries: seq<RawEntry>, names: map<int, string>, k: Kind)
    requires MainRole(k).Some?
    ensures MainRole(k).value in Normalized(entries, names) ==>
      exists i :: LastOfKind(entries, names, k, i, Normalized(entries, names)[MainRole(k).value])
  {
    if entries != [] {
      var init := entries[..|entries| - 1];
      var last := entries[|entries| - 1];
      var r := MainRole(k).value;
      var before := Normalized(init, names);
      var after := Normalized(entries, names);
      assert entries == init + [last];
      NormalizedSnoc(init, last, names);
      MainStep(before, last, names, k);
      if KindOf(last, names) == Some(k) {
        assert LastOfKind(entries, names, k, |entries| - 1, after[r]);
      } else if r in after {
        assert r in before && after[r] == before[r];
        MainRoleLastWins(init, names, k);
        var i :| LastOfKind(init, names, k, i, before[r]);
        LastOfKindExtends(init, last, names, k, i, before[r]);
      }
    }
  }

  /**
   * One inquiry entry: 탐구1 fills inquiry1, 탐구2 fills inquiry2, and
   * `default` fills inquiry1 only while it is still unset; the other roles
   * are untouched.
   */
  lemma InquiryEntryRules(c: ScoreSet, e: RawEntry, names: map<int, string>)
    requires KindOf(e, names) == Some(InquiryKind)
    ensures var c' := Step(c, e, names);
      && (e.payload.inquiry1Record.Some? ==> c'[Inquiry1] == ConvertScoreData(e.payload.inquiry1Record))
      && (e.payload.inquiry2Record.Some? ==> c'[Inquiry2] == ConvertScoreData(e.payload.inquiry2Record))
      && (e.payload.inquiry2Record.None? ==> (Inquiry2 in c' <==> Inquiry2 in c) && (Inquiry2 in c ==> c'[Inquiry2] == c[Inquiry2]))
      && (e.payload.inquiry1Record.None? && e.payload.defaultRecord.Some? && !IsSet(c, Inquiry1) ==>
            c'[Inquiry1] == ConvertScoreData(e.payload.defaultRecord))
      && (e.payload.inquiry1Record.None? && IsSet(c, Inquiry1) ==> c'[Inquiry1] == c[Inquiry1])
      && (forall r :: r != Inquiry1 && r != Inquiry2 ==> (r in c' <==> r in c) && (r in c ==> c'[r] == c[r]))
  {
  }
}
