/** The lesson server actions: searching the sample lessons and starting one.
    The lesson list is a constant; the user id of `startLesson` only appears in
    a log line and does not affect the result. */
module Lessons {
  import opened Js
  import opened Seqs

  datatype Lesson = Lesson(
    id: int,
    title: string,
    description: string,
    category: string,
    difficulty: string,
    gradeLevel: string,
    estimatedTime: string,
    emoji: string)

  /** The optional search parameters; an absent or empty one does not filter. */
  datatype SearchParams = SearchParams(
    query: Option<string>,
    category: Option<string>,
    gradeLevel: Option<string>,
    difficulty: Option<string>)

  const SampleLessons: seq<Lesson> := [
    Lesson(1, "Addition & Subtraction Adventures",
           "Learn to add and subtract numbers in a fun space adventure!",
           "math", "beginner", "1-2", "15 minutes", "\U{1F680}"),
    Lesson(2, "Dinosaur Discovery",
           "Explore the world of dinosaurs and learn amazing facts!",
           "science", "beginner", "1-3", "20 minutes", "\U{1F995}")
  ]

  // ----- Number() on integer numerals -----

  predicate AllDigits(s: string) {
    forall k :: 0 <= k < |s| ==> IsDigit(s[k])
  }

  function DigitValue(c: char): nat
    requires IsDigit(c)
  {
    c as int - '0' as int
  }

  /** The value of a string of decimal digits, read from the left. */
  function DigitsValue(s: string): nat
    requires AllDigits(s)
  {
    if s == [] then 0 else DigitsValue(s[..|s| - 1]) * 10 + DigitValue(s[|s| - 1])
  }

  /** `Number(s)` on an optionally signed decimal integer; the empty string is
      0 and any other string is not a number (`None`). */
  function ParseNumber(s: string): (n: Option<int>)
    ensures s == "" ==> n == Some(0)
    ensures n.Some? && s != "" && IsDigit(s[0]) ==> n.value >= 0
  {
    if s == "" then Some(0)
    else if AllDigits(s) then Some(DigitsValue(s))
    else if |s| > 1 && (s[0] == '+' || s[0] == '-') && AllDigits(s[1..]) then
      Some(if s[0] == '-' then -(DigitsValue(s[1..]) as int) else DigitsValue(s[1..]))
    else None
  }

  function DigitChar(d: nat): (c: char)
    requires d < 10
    ensures IsDigit(c) && DigitValue(c) == d
  {
    ('0' as int + d) as char
  }

  /** `String(n)` for a natural number. */
  function Decimal(n: nat): (s: string)
    ensures s != [] && AllDigits(s)
  {
    if n < 10 then [DigitChar(n)] else Decimal(n / 10) + [DigitChar(n % 10)]
  }

  /** Reading back the decimal form of a number gives the number. */
  lemma {:induction false} ParseDecimal(n: nat)
    ensures DigitsValue(Decimal(n)) == n
    ensures ParseNumber(Decimal(n)) == Some(n)
  {
    var s := Decimal(n);
    if n >= 10 {
      ParseDecimal(n / 10);
      assert s[..|s| - 1] == Decimal(n / 10);
    }
  }

  // ----- Search -----

  /** The query filter: the lower-cased query occurs in the lower-cased title,
      description or category. */
  predicate MatchesQuery(l: Lesson, query: string) {
    var q := Lower(query);
    Includes(Lower(l.title), q) || Includes(Lower(l.description), q) || Includes(Lower(l.category), q)
  }

  /** The category filter runs only for a value other than the literal "all". */
  predicate FiltersCategory(params: SearchParams) {
    Truthy(params.category) && params.category.value != "all"
  }

  predicate SameIgnoringCase(a: string, b: string) {
    Lower(a) == Lower(b)
  }

  /** The grade filter: the grade lies between the two numbers of the lesson's
      "min-max" range; a part that is not a number, or a missing upper bound,
      makes the comparison false. */
  predicate InGradeRange(l: Lesson, grade: string)
    ensures InGradeRange(l, grade) ==> '-' in l.gradeLevel && ParseNumber(grade).Some?
  {
    var pieces := Split(l.gradeLevel, '-');
    var g := ParseNumber(grade);
    var lo := ParseNumber(pieces[0]);
    var hi := if |pieces| >= 2 then ParseNumber(pieces[1]) else None;
    g.Some? && lo.Some? && hi.Some? && lo.value <= g.value <= hi.value
  }

  function QueryKeep(params: SearchParams): Lesson -> bool {
    (l: Lesson) => !Truthy(params.query) || MatchesQuery(l, params.query.value)
  }

  function CategoryKeep(params: SearchParams): Lesson -> bool {
    (l: Lesson) => !FiltersCategory(params) || SameIgnoringCase(l.category, params.category.value)
  }

  function GradeKeep(params: SearchParams): Lesson -> bool {
    (l: Lesson) => !Truthy(params.gradeLevel) || InGradeRange(l, params.gradeLevel.value)
  }

  function DifficultyKeep(params: SearchParams): Lesson -> bool {
    (l: Lesson) => !Truthy(params.difficulty) || SameIgnoringCase(l.difficulty, params.difficulty.value)
  }

  /** All four filters at once: the reference the search is measured against. */
  predicate Matches(params: SearchParams, l: Lesson) {
    QueryKeep(params)(l) && CategoryKeep(params)(l) && GradeKeep(params)(l) && DifficultyKeep(params)(l)
  }

  function MatchesAll(params: SearchParams): Lesson -> bool {
    (l: Lesson) => Matches(params, l)
  }

  /** `searchLessons` over a list of lessons: each filter that applies, in turn. */
  function SearchIn(lessons: seq<Lesson>, params: SearchParams): (r: seq<Lesson>)
    ensures |r| <= |lessons|
    ensures forall l :: l in r ==> l in lessons
    ensures (!Truthy(params.query) && !FiltersCategory(params) && !Truthy(params.gradeLevel)
             && !Truthy(params.difficulty)) ==> r == lessons
  {
    var r0 := lessons;
    var r1 := if Truthy(params.query) then Filter(r0, QueryKeep(params)) else r0;
    var r2 := if FiltersCategory(params) then Filter(r1, CategoryKeep(params)) else r1;
    var r3 := if Truthy(params.gradeLevel) then Filter(r2, GradeKeep(params)) else r2;
    if Truthy(params.difficulty) then Filter(r3, DifficultyKeep(params)) else r3
  }

  function SearchLessons(params: SearchParams): (r: seq<Lesson>)
    ensures |r| <= |SampleLessons|
    ensures forall l :: l in r ==> l in SampleLessons
  {
    SearchIn(SampleLessons, params)
  }

  /** Applying a filter only when it is active is the same as applying its
      keep-predicate, which holds everywhere when it is inactive. */
  lemma StepIsFilter(s: seq<Lesson>, active: bool, keep: Lesson -> bool)
    requires !active ==> forall l :: keep(l)
    ensures (if active then Filter(s, keep) else s) == Filter(s, keep)
  {
    if !active {
      FilterAll(s, keep);
    }
  }

  /** The search keeps exactly the lessons that satisfy every active filter,
      in their original order. */
  lemma {:induction false} SearchIsFilter(lessons: seq<Lesson>, params: SearchParams)
    ensures SearchIn(lessons, params) == Filter(lessons, MatchesAll(params))
    ensures IsSubsequence(SearchIn(lessons, params), lessons)
    ensures forall l :: l in SearchIn(lessons, params) <==> l in lessons && Matches(params, l)
  {
    var q, c, g, d := QueryKeep(params), CategoryKeep(params), GradeKeep(params), DifficultyKeep(params);
    StepIsFilter(lessons, Truthy(params.query), q);
    var r1 := Filter(lessons, q);
    StepIsFilter(r1, FiltersCategory(params), c);
    var qc := (l: Lesson) => q(l) && c(l);
    FilterThen(lessons, q, c, qc);
    var r2 := Filter(lessons, qc);
    StepIsFilter(r2, Truthy(params.gradeLevel), g);
    var qcg := (l: Lesson) => q(l) && c(l) && g(l);
    FilterThen(lessons, qc, g, qcg);
    var r3 := Filter(lessons, qcg);
    StepIsFilter(r3, Truthy(params.difficulty), d);
    FilterThen(lessons, qcg, d, MatchesAll(params));
    FilterIsSubsequence(lessons, MatchesAll(params));
  }

  /** Without parameters every sample lesson is returned. */
  lemma NoParamsReturnsAll()
    ensures SearchLessons(SearchParams(None, None, None, None)) == SampleLessons
  {
  }

  /** A one-digit range "a-b" splits into its two bounds. */
  lemma RangeSplit(a: char, b: char)
    requires IsDigit(a) && IsDigit(b)
    ensures Split([a, '-', b], '-') == [[a], [b]]
  {
    var s := [a, '-', b];
    var empty: string := [];
    assert Split(empty, '-') == [""];
    assert [b][1..] == empty && [b][0] == b && [b] + "" == [b];
    assert Split([b], '-') == [[b]];
    assert s[1..] == ['-', b] && ['-', b][1..] == [b];
    assert Split(['-', b], '-') == [""] + [[b]];
    assert [a] + "" == [a];
  }

  /** The grade filter on the sample lessons: grade 3 is only within "1-3",
      grade 1 within both ranges. */
  lemma GradeFilterExamples()
    ensures SearchLessons(SearchParams(None, None, Some("3"), None)) == [SampleLessons[1]]
    ensures SearchLessons(SearchParams(None, None, Some("1"), None)) == SampleLessons
  {
    RangeSplit('1', '2');
    RangeSplit('1', '3');
    assert DigitsValue("1") == 1 && DigitsValue("2") == 2 && DigitsValue("3") == 3;
    assert !InGradeRange(SampleLessons[0], "3");
    assert InGradeRange(SampleLessons[1], "3");
    assert InGradeRange(SampleLessons[0], "1");
    assert InGradeRange(SampleLessons[1], "1");
  }

  /** For every grade string, the two sample lessons keep it exactly when it
      reads as a number within 1 to 2, and within 1 to 3. */
  lemma SampleGradeRanges(grade: string)
    ensures InGradeRange(SampleLessons[0], grade) <==>
      ParseNumber(grade).Some? && 1 <= ParseNumber(grade).value <= 2
    ensures InGradeRange(SampleLessons[1], grade) <==>
      ParseNumber(grade).Some? && 1 <= ParseNumber(grade).value <= 3
  {
    RangeSplit('1', '2');
    RangeSplit('1', '3');
    assert DigitsValue("1") == 1 && DigitsValue("2") == 2 && DigitsValue("3") == 3;
  }

  /** Only the exact lower-case "all" switches the category filter off: "ALL"
      is compared with every lesson's category and keeps none of them. */
  lemma UpperCaseAllKeepsNothing()
    ensures SearchLessons(SearchParams(None, Some("ALL"), None, None)) == []
  {
    assert Lower("ALL") == "all";
    assert Lower("math") != "all" && Lower("science") != "all";
    SearchIsFilter(SampleLessons, SearchParams(None, Some("ALL"), None, None));
  }

  // ----- Starting a lesson -----

  datatype StartResult = Started(lesson: Lesson) | Failed(error: string)

  const StartFailedMessage: string := "Failed to start lesson"

  function LessonIdIs(id: int): Lesson -> bool {
    (l: Lesson) => l.id == id
  }

  /** `startLesson`: the sample lesson with that id, or the failure message. */
  function StartLesson(lessonId: int, userId: string): (r: StartResult)
    ensures r.Started? <==> exists l :: l in SampleLessons && l.id == lessonId
    ensures r.Started? ==> r.lesson in SampleLessons && r.lesson.id == lessonId
    ensures r.Failed? ==> r.error == StartFailedMessage
  {
    match FirstWhere(SampleLessons, LessonIdIs(lessonId))
    case Some(l) => Started(l)
    case None => Failed(StartFailedMessage)
  }

  /** The sample ids are distinct, so the lesson started is the one with that id. */
  lemma StartLessonFindsIt(i: nat, userId: string)
    requires i < |SampleLessons|
    ensures StartLesson(SampleLessons[i].id, userId) == Started(SampleLessons[i])
    ensures StartLesson(3, userId) == Failed(StartFailedMessage)
  {
    assert Unique(SampleLessons, (l: Lesson) => l.id);
    if i == 1 {
      FirstWhereIsFirst(SampleLessons, LessonIdIs(2), 1);
    }
  }
}
