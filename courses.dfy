/**
 * The course catalog: the category/search filter of the course listing, lookup by id, and
 * enrollment, whose table holds at most one row per (user, course) pair.
 *
 * The search filter is SQL `ILIKE` with the search text placed between two `%` wildcards;
 * the text's own `%`, `_` and backslash keep their pattern meaning.
 */
module Courses {
  import opened Wrappers
  import opened Text

  /** A row of the courses table, with the columns the core reads. */
  datatype Course = Course(id: int, name: string, category: string, description: Option<string>)

  // ---------------------------------------------------------------------------
  // ILIKE

  /** One element of a LIKE pattern. */
  datatype PatternItem = AnyRun | AnyChar | Literal(c: char)

  /** Reading a LIKE pattern: `%` matches any run, `_` any one character, and a backslash
      makes the character after it literal. */
  function ParsePattern(p: string): seq<PatternItem>
    decreases |p|
  {
    if p == [] then []
    else if p[0] == '\\' && |p| >= 2 then [Literal(p[1])] + ParsePattern(p[2..])
    else if p[0] == '%' then [AnyRun] + ParsePattern(p[1..])
    else if p[0] == '_' then [AnyChar] + ParsePattern(p[1..])
    else [Literal(p[0])] + ParsePattern(p[1..])
  }

  /** The whole of `t` matches the pattern. */
  function MatchItems(t: string, items: seq<PatternItem>): bool
    decreases |items|, |t|
  {
    if items == [] then t == []
    else
      match items[0]
      case AnyRun => MatchItems(t, items[1..]) || (t != [] && MatchItems(t[1..], items))
      case AnyChar => t != [] && MatchItems(t[1..], items[1..])
      case Literal(c) => t != [] && t[0] == c && MatchItems(t[1..], items[1..])
  }

  /** `text ILIKE pattern`, with case folded on ASCII letters. */
  function ILike(text: string, pattern: string): bool {
    MatchItems(LowerAscii(text), ParsePattern(LowerAscii(pattern)))
  }

  /** `%{search}%`. */
  function SearchPattern(search: string): string {
    "%" + search + "%"
  }

  predicate WildcardFree(w: string) {
    forall i :: 0 <= i < |w| ==> w[i] != '%' && w[i] != '_' && w[i] != '\\'
  }

  function Literals(w: string): (items: seq<PatternItem>)
    ensures |items| == |w| && forall i :: 0 <= i < |w| ==> items[i] == Literal(w[i])
  {
    if w == [] then [] else [Literal(w[0])] + Literals(w[1..])
  }

  /** A character that is not a wildcard is read as itself. */
  lemma ParseLiteralStep(w: string, rest: string)
    requires w != [] && w[0] != '%' && w[0] != '_' && w[0] != '\\'
    ensures ParsePattern(w + rest) == [Literal(w[0])] + ParsePattern(w[1..] + rest)
  {
    assert (w + rest)[0] == w[0] && (w + rest)[1..] == w[1..] + rest;
  }

  lemma WildcardFreeTail(w: string)
    requires w != [] && WildcardFree(w)
    ensures WildcardFree(w[1..])
  {
    forall i | 0 <= i < |w| - 1 ensures w[1..][i] != '%' && w[1..][i] != '_' && w[1..][i] != '\\' {
      assert w[1..][i] == w[i + 1];
    }
  }

  lemma {:induction false} ParseLiteralsThen(w: string, rest: string)
    requires WildcardFree(w)
    ensures ParsePattern(w + rest) == Literals(w) + ParsePattern(rest)
    decreases |w|
  {
    if w == [] {
      assert w + rest == rest;
    } else {
      ParseLiteralStep(w, rest);
      WildcardFreeTail(w);
      ParseLiteralsThen(w[1..], rest);
      var tail := Literals(w[1..]);
      assert [Literal(w[0])] + (tail + ParsePattern(rest)) == ([Literal(w[0])] + tail) + ParsePattern(rest);
    }
  }

  lemma {:induction false} AnyRunMatchesAll(t: string)
    ensures MatchItems(t, [AnyRun])
    decreases |t|
  {
    assert [AnyRun][1..] == [];
    if t != [] {
      AnyRunMatchesAll(t[1..]);
    }
  }

  lemma StartsWithCons(t: string, w: string)
    requires t != [] && w != []
    ensures StartsWith(t, w) <==> t[0] == w[0] && StartsWith(t[1..], w[1..])
  {
    if |w| <= |t| {
      assert t[..|w|] == [t[0]] + t[1..][..|w| - 1];
      assert w == [w[0]] + w[1..];
    }
  }

  lemma {:induction false} LiteralsThenAnyRun(t: string, w: string)
    ensures MatchItems(t, Literals(w) + [AnyRun]) <==> StartsWith(t, w)
    decreases |w|
  {
    var items := Literals(w) + [AnyRun];
    if w == [] {
      assert items == [AnyRun];
      AnyRunMatchesAll(t);
    } else {
      assert items[0] == Literal(w[0]) && items[1..] == Literals(w[1..]) + [AnyRun];
      if t != [] {
        LiteralsThenAnyRun(t[1..], w[1..]);
        StartsWithCons(t, w);
      }
    }
  }

  lemma {:induction false} AnyRunThen(t: string, items: seq<PatternItem>)
    ensures MatchItems(t, [AnyRun] + items) <==> exists k :: 0 <= k <= |t| && MatchItems(t[k..], items)
    decreases |t|
  {
    var run := [AnyRun] + items;
    assert run[0] == AnyRun && run[1..] == items;
    assert t[0..] == t;
    if t != [] {
      AnyRunThen(t[1..], items);
      if exists k :: 0 <= k <= |t| && MatchItems(t[k..], items) {
        var k :| 0 <= k <= |t| && MatchItems(t[k..], items);
        if k > 0 {
          assert t[1..][k - 1..] == t[k..];
        }
      }
      if exists k :: 0 <= k <= |t| - 1 && MatchItems(t[1..][k..], items) {
        var k :| 0 <= k <= |t| - 1 && MatchItems(t[1..][k..], items);
        assert t[1..][k..] == t[k + 1..];
      }
    }
  }

  lemma LowerKeepsWildcardFree(w: string)
    requires WildcardFree(w)
    ensures WildcardFree(LowerAscii(w))
  {
  }

  /** For a search text without pattern characters, the filter is the plain
      case-insensitive substring test. */
  lemma SearchIsSubstring(text: string, search: string)
    requires WildcardFree(search)
    ensures ILike(text, SearchPattern(search)) <==> Contains(LowerAscii(text), LowerAscii(search))
  {
    var w := LowerAscii(search);
    LowerKeepsWildcardFree(search);
    assert LowerAscii(SearchPattern(search)) == "%" + w + "%";
    assert ("%" + w + "%")[0] == '%' && ("%" + w + "%")[1..] == w + "%";
    ParseLiteralsThen(w, "%");
    assert ParsePattern("%") == [AnyRun];
    var items := Literals(w) + [AnyRun];
    assert ParsePattern("%" + w + "%") == [AnyRun] + items;
    var t := LowerAscii(text);
    AnyRunThen(t, items);
    forall k | 0 <= k <= |t| ensures MatchItems(t[k..], items) <==> StartsWith(t[k..], w) {
      LiteralsThenAnyRun(t[k..], w);
    }
  }

  /** A search for `_` matches every non-empty text: the underscore is a wildcard. */
  lemma UnderscoreMatchesAnyNonEmpty(text: string)
    requires text != []
    ensures ILike(text, SearchPattern("_"))
  {
    var t := LowerAscii(text);
    assert LowerAscii(SearchPattern("_")) == "%_%";
    assert ParsePattern("%_%") == [AnyRun] + [AnyChar, AnyRun];
    AnyRunThen(t, [AnyChar, AnyRun]);
    assert [AnyChar, AnyRun][1..] == [AnyRun];
    AnyRunMatchesAll(t[1..]);
    assert t[0..] == t;
  }

  // ---------------------------------------------------------------------------
  // the course listing

  /** The listing's filters: an empty or missing filter is off; the two combine with AND;
      the search matches the name or, when there is one, the description. */
  predicate Selected(c: Course, category: Option<string>, search: Option<string>) {
    && (Falsy(category) || c.category == category.value)
    && (Falsy(search)
        || ILike(c.name, SearchPattern(search.value))
        || (c.description.Some? && ILike(c.description.value, SearchPattern(search.value))))
  }

  /** `get_all_courses`: the courses the filters select, in table order. */
  function GetAllCourses(courses: seq<Course>, category: Option<string>, search: Option<string>): (r: seq<Course>)
    ensures |r| <= |courses|
    ensures forall c :: c in r <==> c in courses && Selected(c, category, search)
    ensures Falsy(category) && Falsy(search) ==> r == courses
    ensures !Falsy(category) ==> forall i :: 0 <= i < |r| ==> r[i].category == category.value
  {
    if courses == [] then []
    else
      var rest := GetAllCourses(courses[1..], category, search);
      assert courses == [courses[0]] + courses[1..];
      if Selected(courses[0], category, search) then [courses[0]] + rest else rest
  }

  /** The two filters compose: filtering by category and then by search is filtering by
      both. */
  lemma {:induction false} FiltersCompose(courses: seq<Course>, category: Option<string>, search: Option<string>)
    ensures GetAllCourses(GetAllCourses(courses, category, None), None, search) == GetAllCourses(courses, category, search)
  {
    if courses != [] {
      FiltersCompose(courses[1..], category, search);
      var byCategory := GetAllCourses(courses, category, None);
      if Selected(courses[0], category, None) {
        assert byCategory[0] == courses[0] && byCategory[1..] == GetAllCourses(courses[1..], category, None);
      }
    }
  }

  /** A course without a description can only be found by its name. */
  lemma NoDescriptionMatchesByName(c: Course, search: string)
    requires c.description.None? && search != ""
    ensures Selected(c, None, Some(search)) <==> ILike(c.name, SearchPattern(search))
  {
  }

  // ---------------------------------------------------------------------------
  // lookup by id

  /** The first course with the id. */
  function FindCourse(courses: seq<Course>, id: int): (r: Option<nat>)
    ensures r.Some? ==>
      && r.value < |courses| && courses[r.value].id == id
      && forall j :: 0 <= j < r.value ==> courses[j].id != id
    ensures r.None? <==> forall j :: 0 <= j < |courses| ==> courses[j].id != id
  {
    if courses == [] then None
    else if courses[0].id == id then Some(0)
    else
      match FindCourse(courses[1..], id)
      case None =>
        assert forall j :: 0 < j < |courses| ==> courses[j] == courses[1..][j - 1];
        None
      case Some(i) =>
        assert forall j :: 0 < j < i + 1 ==> courses[j] == courses[1..][j - 1];
        Some(i + 1)
  }

  /** `get_course_by_id`: the course with the id, or 404 when there is none. */
  function GetCourseById(courses: seq<Course>, id: int): (r: Result<Course, HttpError>)
    ensures r.Failure? <==> forall j :: 0 <= j < |courses| ==> courses[j].id != id
    ensures r.Failure? ==> r.error == HttpError(404, "Course not found")
    ensures r.Success? ==> r.value in courses && r.value.id == id
  {
    match FindCourse(courses, id)
    case None => Failure(HttpError(404, "Course not found"))
    case Some(i) => Success(courses[i])
  }

  // ---------------------------------------------------------------------------
  // enrollment

  /** A row of the enrollments table. The table's key is its own `id` column, which the model
      leaves out; that each (user, course) pair occurs once is an invariant the enrolling
      handler keeps by checking before it inserts. */
  datatype Enrollment = Enrollment(userId: string, courseId: int)

  ghost predicate UniquePairs(rows: seq<Enrollment>) {
    forall i, j :: 0 <= i < j < |rows| ==> rows[i] != rows[j]
  }

  class EnrollmentTable {
    var rows: seq<Enrollment>

    /** At most one enrollment per (user, course). */
    ghost predicate Valid()
      reads this
    {
      UniquePairs(rows)
    }

    constructor ()
      ensures Valid() && rows == []
    {
      rows := [];
    }

    /** `enroll_course`: unknown course is a 404 and an existing enrollment a 400, both
        without writes; otherwise exactly the pair is added. */
    method EnrollCourse(courses: seq<Course>, userId: string, courseId: int) returns (r: Result<string, HttpError>)
      requires Valid()
      modifies this
      ensures Valid()
      ensures GetCourseById(courses, courseId).Failure? ==>
        r == Failure(HttpError(404, "Course not found")) && rows == old(rows)
      ensures GetCourseById(courses, courseId).Success? && Enrollment(userId, courseId) in old(rows) ==>
        r == Failure(HttpError(400, "Already enrolled in this course")) && rows == old(rows)
      ensures GetCourseById(courses, courseId).Success? && Enrollment(userId, courseId) !in old(rows) ==>
        && rows == old(rows) + [Enrollment(userId, courseId)]
        && r == Success("Enrolled in course " + GetCourseById(courses, courseId).value.name + " successfully")
    {
      var course := GetCourseById(courses, courseId);
      if course.Failure? {
        return Failure(course.error);
      }
      if Enrollment(userId, courseId) in rows {
        return Failure(HttpError(400, "Already enrolled in this course"));
      }
      rows := rows + [Enrollment(userId, courseId)];
      r := Success("Enrolled in course " + course.value.name + " successfully");
    }
  }
}
