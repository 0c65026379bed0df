/** The application's course store: an ordered list of courses held by the
    provider, which `addCourse` extends at the end and `deleteCourse` filters. */
module CourseContext {
  import opened Wrappers
  import opened JsArrays

  /** A browser `File` handle; `handle` stands for the object's identity. */
  datatype File = File(handle: nat, name: string)

  datatype Course = Course(id: string, code: string, name: string, pdf: Option<File>)

  /** The list that `deleteCourse(id)` installs: `prev.filter(c => c.id !== id)`,
      whose members are exactly the old entries with another id. */
  function Without(courses: seq<Course>, id: string): (r: seq<Course>)
    ensures |r| <= |courses|
    ensures forall c :: c in r <==> c in courses && c.id != id
  {
    Filter(courses, (c: Course) => c.id != id)
  }

  /** Number of entries carrying `id`. */
  function CountId(courses: seq<Course>, id: string): (n: nat)
    ensures n <= |courses|
    ensures n == 0 <==> forall c :: c in courses ==> c.id != id
  {
    if courses == [] then 0
    else (if courses[0].id == id then 1 else 0) + CountId(courses[1..], id)
  }

  /** The provider's state: one list of courses, replaced wholesale by each update. */
  class CourseProvider {
    var courses: seq<Course>

    constructor ()
      ensures courses == []
    {
      courses := [];
    }

    method AddCourse(course: Course)
      modifies this
      ensures courses == old(courses) + [course]
    {
      courses := courses + [course];
    }

    method DeleteCourse(id: string)
      modifies this
      ensures courses == Without(old(courses), id)
    {
      courses := Without(courses, id);
    }
  }

  /** Appending puts the course last, leaves every earlier entry in place, and
      adds one more entry with its id, duplicate or not. */
  lemma {:induction false} AddAppends(courses: seq<Course>, course: Course)
    ensures |courses + [course]| == |courses| + 1 && (courses + [course])[|courses|] == course
    ensures forall i :: 0 <= i < |courses| ==> (courses + [course])[i] == courses[i]
    ensures CountId(courses + [course], course.id) == CountId(courses, course.id) + 1
  {
    if courses != [] {
      AddAppends(courses[1..], course);
      assert (courses + [course])[1..] == courses[1..] + [course];
    }
  }

  /** After `deleteCourse(id)` no entry with that id is left. */
  lemma DeleteRemovesAll(courses: seq<Course>, id: string)
    ensures forall c :: c in Without(courses, id) ==> c.id != id
    ensures CountId(Without(courses, id), id) == 0
  {
  }

  /** `deleteCourse(id)` keeps every entry with another id, as many times as it
      occurred, in the original relative order. */
  lemma DeleteKeepsOthers(courses: seq<Course>, id: string)
    ensures IsSubsequence(Without(courses, id), courses)
    ensures forall c: Course :: c.id != id ==> multiset(Without(courses, id))[c] == multiset(courses)[c]
  {
    FilterIsSubsequence(courses, (c: Course) => c.id != id);
    forall c: Course | c.id != id ensures multiset(Without(courses, id))[c] == multiset(courses)[c] {
      FilterCount(courses, (c: Course) => c.id != id, c);
    }
  }

  /** Deleting an id that is not present changes nothing. */
  lemma DeleteAbsent(courses: seq<Course>, id: string)
    requires CountId(courses, id) == 0
    ensures Without(courses, id) == courses
  {
    FilterKeepsAll(courses, (c: Course) => c.id != id);
  }

  /** Deleting the same id twice is deleting it once. */
  lemma DeleteTwice(courses: seq<Course>, id: string)
    ensures Without(Without(courses, id), id) == Without(courses, id)
  {
    FilterIdempotent(courses, (c: Course) => c.id != id);
  }

  /** Adding a course with a fresh id and then deleting that id gives back the
      list as it was. */
  lemma AddThenDelete(courses: seq<Course>, course: Course)
    requires CountId(courses, course.id) == 0
    ensures Without(courses + [course], course.id) == courses
  {
    FilterAppend(courses, [course], (c: Course) => c.id != course.id);
    DeleteAbsent(courses, course.id);
    assert Without([course], course.id) == [];
  }
}
