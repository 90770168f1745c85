/**
 * The department records the engine reads once the database lookups have
 * been made: a Department row with its School name, its
 * DepartmentScoreConfig rows and its GradeConversion rows.
 */
module Policy {
  import opened Wrappers

  /** The four department ratio columns (korean_ratio, math_ratio, inquiry_ratio, english_ratio). */
  datatype Ratios = Ratios(korean: Option<real>, math: Option<real>, inquiry: Option<real>, english: Option<real>)

  /** A Department row; `schoolName` is None when the School association is missing. */
  datatype Department = Department(
    id: int,
    name: string,
    schoolName: Option<string>,
    division: Option<string>,
    region: Option<string>,
    totalScore: Option<int>,
    calculationType: string,
    ratios: Ratios,
    inquirySubjectCount: Option<int>,
    historyConversionType: string,
    specialFormula: Option<string>,
    cutlineScore: Option<real>)

  /** A DepartmentScoreConfig row of the department. */
  datatype ScoreConfig = ScoreConfig(
    subjectType: string,
    scoreType: string,
    maxScoreMethod: Option<string>,
    maxScoreValue: Option<int>,
    priorityGroup: Option<int>)

  /** A GradeConversion row of the department. */
  datatype GradeConversionRow = GradeConversionRow(subjectCode: string, grade: int, convertedScore: int)

  /** A CollegeMaxScore row of the year. */
  datatype MaxScoreRow = MaxScoreRow(subjectCode: string, maxStandardScore: Option<int>)

  /** `gradeMap[subject_code][grade]` */
  type GradeMap = map<string, map<int, int>>

  /** The four subject slots that carry a ratio. */
  datatype Slot = KoreanSlot | MathSlot | InquirySlot | EnglishSlot

  /** The `subject_type` strings the evaluator recognises. */
  function SlotOf(subjectType: string): Option<Slot> {
    if subjectType == "korean" then Some(KoreanSlot)
    else if subjectType == "math" then Some(MathSlot)
    else if subjectType == "inquiry" then Some(InquirySlot)
    else if subjectType == "english" then Some(EnglishSlot)
    else None
  }

  function RatioOf(ratios: Ratios, s: Slot): Option<real> {
    match s
    case KoreanSlot => ratios.korean
    case MathSlot => ratios.math
    case InquirySlot => ratios.inquiry
    case EnglishSlot => ratios.english
  }
}
