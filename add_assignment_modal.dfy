/** The "Add Assignment" modal: three form fields, a reset when the modal is
    shown, and a submit handler that validates the fields and reports the new
    assignment to its parent through callbacks. */
module AssignmentModal {
  import opened Wrappers
  import opened JsStrings

  datatype Assignment = Assignment(id: string, title: string, dueDate: string, courseId: string)

  /** The modal's own view of a course (no file). `handle` stands for the
      object's identity, which is what React compares effect dependencies by. */
  datatype ModalCourse = ModalCourse(handle: nat, id: string, code: string, name: string)

  /** The identity of an optional course prop; the absent prop is always `null`. */
  function Identity(course: Option<ModalCourse>): Option<nat> {
    if course.Some? then Some(course.value.handle) else None
  }

  /** A call the modal makes into its parent. */
  datatype Callback = AddAssignment(assignment: Assignment) | Close

  const FillAllFieldsAlert := "Fill all fields!"

  /** `initialCourse?.id || ""`. */
  function InitialCourseId(initialCourse: Option<ModalCourse>): (id: string)
    ensures initialCourse.Some? ==> id == initialCourse.value.id
    ensures initialCourse.None? ==> id == ""
  {
    if initialCourse.Some? then initialCourse.value.id else ""
  }

  /** The submit check and the record it builds: an assignment exactly when
      none of the three raw strings is empty (nothing is trimmed, and the
      course id is not looked up), carrying them unchanged. */
  function NewAssignment(id: string, title: string, dueDateTime: string, courseId: string): (r: Option<Assignment>)
    ensures r.Some? <==> title != "" && dueDateTime != "" && courseId != ""
    ensures r.Some? ==> r.value.id == id && r.value.title == title
                        && r.value.dueDate == dueDateTime && r.value.courseId == courseId
  {
    if title == "" || dueDateTime == "" || courseId == "" then None
    else Some(Assignment(id, title, dueDateTime, courseId))
  }

  /** A non-empty title made only of whitespace passes the check, since it is
      not trimmed. */
  lemma BlankTitleAccepted(id: string, title: string, dueDateTime: string, courseId: string)
    requires title != "" && IsBlank(title) && dueDateTime != "" && courseId != ""
    ensures NewAssignment(id, title, dueDateTime, courseId) == Some(Assignment(id, title, dueDateTime, courseId))
  {
  }

  class AddAssignmentModal {
    // props
    var show: bool
    var courses: seq<ModalCourse>
    var initialCourse: Option<ModalCourse>
    // form state
    var title: string
    var dueDateTime: string
    var courseId: string
    /** Calls made into the parent, oldest first. */
    ghost var calls: seq<Callback>
    /** Messages passed to `alert`, oldest first. */
    ghost var alerts: seq<string>

    /** Mounting: the initial state, which the mount-time effect (when `show`
        holds) sets to the same values. */
    constructor (show: bool, courses: seq<ModalCourse>, initialCourse: Option<ModalCourse>)
      ensures this.show == show && this.courses == courses && this.initialCourse == initialCourse
      ensures title == "" && dueDateTime == "" && courseId == InitialCourseId(initialCourse)
      ensures calls == [] && alerts == []
    {
      this.show, this.courses, this.initialCourse := show, courses, initialCourse;
      title, dueDateTime, courseId := "", "", InitialCourseId(initialCourse);
      calls, alerts := [], [];
      new;
      if show {
        ResetFields();
      }
    }

    /** The body of the effect. */
    method ResetFields()
      modifies this`title, this`dueDateTime, this`courseId
      ensures title == "" && dueDateTime == "" && courseId == InitialCourseId(initialCourse)
    {
      title := "";
      dueDateTime := "";
      courseId := InitialCourseId(initialCourse);
    }

    /** New props from the parent. The effect depends on `show` and
        `initialCourse`: it runs when one of them changed (the course prop by
        object identity, not by contents), and resets the fields when the
        modal is shown. */
    method Rerender(newShow: bool, newCourses: seq<ModalCourse>, newInitialCourse: Option<ModalCourse>)
      modifies this
      ensures show == newShow && courses == newCourses && initialCourse == newInitialCourse
      ensures calls == old(calls) && alerts == old(alerts)
      ensures if newShow && (newShow != old(show) || Identity(newInitialCourse) != Identity(old(initialCourse)))
              then title == "" && dueDateTime == "" && courseId == InitialCourseId(newInitialCourse)
              else title == old(title) && dueDateTime == old(dueDateTime) && courseId == old(courseId)
    {
      var depsChanged := newShow != show || Identity(newInitialCourse) != Identity(initialCourse);
      show, courses, initialCourse := newShow, newCourses, newInitialCourse;
      if depsChanged && show {
        ResetFields();
      }
    }

    method EditTitle(value: string)
      modifies this`title
      ensures title == value
    {
      title := value;
    }

    method EditDueDateTime(value: string)
      modifies this`dueDateTime
      ensures dueDateTime == value
    {
      dueDateTime := value;
    }

    method SelectCourse(value: string)
      modifies this`courseId
      ensures courseId == value
    {
      courseId := value;
    }

    /** Submitting the form; `id` is the string of the current clock reading.
        On an empty field only an alert is raised; otherwise the parent gets
        the assignment and then a close request, once each. */
    method HandleSubmit(id: string)
      modifies this`calls, this`alerts
      ensures title == "" || dueDateTime == "" || courseId == "" ==>
        calls == old(calls) && alerts == old(alerts) + [FillAllFieldsAlert]
      ensures title != "" && dueDateTime != "" && courseId != "" ==>
        calls == old(calls) + [AddAssignment(Assignment(id, title, dueDateTime, courseId)), Close]
        && alerts == old(alerts)
    {
      var assignment := NewAssignment(id, title, dueDateTime, courseId);
      if assignment.None? {
        alerts := alerts + [FillAllFieldsAlert];
        return;
      }
      calls := calls + [AddAssignment(assignment.value)];
      calls := calls + [Close];
    }

    /** The header's close button, the backdrop and the "Cancel" button. */
    method Cancel()
      modifies this`calls
      ensures calls == old(calls) + [Close]
    {
      calls := calls + [Close];
    }
  }
}
