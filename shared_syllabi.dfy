/** The shared-syllabi page's search: courses whose name or code contains the
    query, compared after lower-casing both sides. */
module SharedSyllabi {
  import opened JsStrings
  import opened JsArrays
  import opened CourseContext

  /** The search test for one course: the empty query matches every course,
      and a match needs the query to be no longer than the name or the code. */
  predicate Matches(c: Course, query: string)
    ensures query == "" ==> Matches(c, query)
    ensures Matches(c, query) ==> |query| <= |c.name| || |query| <= |c.code|
  {
    Contains(Lower(c.name), Lower(query)) || Contains(Lower(c.code), Lower(query))
  }

  /** `filteredCourses`, a function of the store's list, which it only reads:
      a course is listed iff its lower-cased name or code contains the
      lower-cased query. */
  function FilteredCourses(courses: seq<Course>, query: string): (r: seq<Course>)
    ensures |r| <= |courses|
    ensures forall c :: c in r <==> c in courses && Matches(c, query)
  {
    Filter(courses, (c: Course) => Matches(c, query))
  }

  /** Whether the page shows "No syllabi found" instead of the list: exactly
      when no course matches. */
  predicate ShowsNoResults(courses: seq<Course>, query: string)
    ensures ShowsNoResults(courses, query) <==> forall c :: c in courses ==> !Matches(c, query)
  {
    var listed := FilteredCourses(courses, query);
    assert |listed| > 0 ==> listed[0] in listed;
    |listed| == 0
  }

  /** Matching courses keep their multiplicity and their order. */
  lemma SearchKeepsMatches(courses: seq<Course>, query: string)
    ensures forall c :: Matches(c, query) ==> multiset(FilteredCourses(courses, query))[c] == multiset(courses)[c]
    ensures IsSubsequence(FilteredCourses(courses, query), courses)
  {
    var keep := (c: Course) => Matches(c, query);
    forall c | Matches(c, query) ensures multiset(FilteredCourses(courses, query))[c] == multiset(courses)[c] {
      FilterCount(courses, keep, c);
    }
    FilterIsSubsequence(courses, keep);
  }

  /** Queries that differ only in the case of their letters list the same courses. */
  lemma SearchCaseInsensitive(courses: seq<Course>, q1: string, q2: string)
    requires SameIgnoringCase(q1, q2)
    ensures FilteredCourses(courses, q1) == FilteredCourses(courses, q2)
  {
    LowerOfSameIgnoringCase(q1, q2);
    FilterCongruent(courses, (c: Course) => Matches(c, q1), (c: Course) => Matches(c, q2));
  }

  /** Lower-casing the query first makes no difference. */
  lemma SearchLowerQuery(courses: seq<Course>, query: string)
    ensures FilteredCourses(courses, Lower(query)) == FilteredCourses(courses, query)
  {
    LowerIdempotent(query);
    FilterCongruent(courses, (c: Course) => Matches(c, Lower(query)), (c: Course) => Matches(c, query));
  }

  /** The empty query lists every course. */
  lemma EmptyQueryKeepsAll(courses: seq<Course>)
    ensures FilteredCourses(courses, "") == courses
  {
    FilterKeepsAll(courses, (c: Course) => Matches(c, ""));
  }
}
