/** The dashboard page: its "Add Course" form (course code, course name, PDF
    file, modal visibility) and the quick-action buttons. */
module DashboardPage {
  import opened Wrappers
  import opened CourseContext

  /** The three quick-action buttons, by their ids "add", "plan" and "publish". */
  datatype QuickAction = Add | Plan | Publish

  function ActionId(a: QuickAction): string {
    match a
    case Add => "add"
    case Plan => "plan"
    case Publish => "publish"
  }

  const MissingFileAlert := "Please select a PDF!"

  function AddedAlert(name: string): string {
    "Course \"" + name + "\" added successfully!"
  }

  /** The file the picker's change handler keeps: the first of the selected
      files, or none when the selection is missing or empty. */
  function FirstFile(files: Option<seq<File>>): (f: Option<File>)
    ensures f.Some? <==> files.Some? && files.value != []
    ensures f.Some? ==> f.value == files.value[0]
  {
    if files.Some? && files.value != [] then Some(files.value[0]) else None
  }

  class Dashboard {
    const store: CourseProvider
    var showModal: bool
    var code: string
    var name: string
    var file: Option<File>
    /** The messages passed to `alert`, oldest first. */
    ghost var alerts: seq<string>

    constructor (store: CourseProvider)
      ensures this.store == store
      ensures !showModal && code == "" && name == "" && file == None && alerts == []
    {
      this.store := store;
      showModal, code, name, file := false, "", "", None;
      alerts := [];
    }

    /** Only the "add" button has a click handler, and it opens the modal. */
    method ClickQuickAction(a: QuickAction)
      modifies this
      ensures showModal == (ActionId(a) == "add" || old(showModal))
      ensures code == old(code) && name == old(name) && file == old(file) && alerts == old(alerts)
    {
      if ActionId(a) == "add" {
        showModal := true;
      }
    }

    /** The modal's close button, backdrop and "Cancel" button. */
    method HideModal()
      modifies this
      ensures !showModal
      ensures code == old(code) && name == old(name) && file == old(file) && alerts == old(alerts)
    {
      showModal := false;
    }

    method EditCode(value: string)
      modifies this
      ensures code == value
      ensures showModal == old(showModal) && name == old(name) && file == old(file) && alerts == old(alerts)
    {
      code := value;
    }

    method EditName(value: string)
      modifies this
      ensures name == value
      ensures showModal == old(showModal) && code == old(code) && file == old(file) && alerts == old(alerts)
    {
      name := value;
    }

    method ChooseFile(files: Option<seq<File>>)
      modifies this
      ensures file == FirstFile(files)
      ensures showModal == old(showModal) && code == old(code) && name == old(name) && alerts == old(alerts)
    {
      file := FirstFile(files);
    }

    /** Submitting the form. `id` is the string of the current clock reading.
        Without a file only an alert is raised; with one, exactly one course is
        appended carrying the current code, name and file (neither code nor name
        is checked here), the form is cleared and the modal closed. */
    method HandleSubmit(id: string)
      modifies this, store
      ensures old(file).None? ==>
        store.courses == old(store.courses) && showModal == old(showModal)
        && code == old(code) && name == old(name) && file == None
        && alerts == old(alerts) + [MissingFileAlert]
      ensures old(file).Some? ==>
        store.courses == old(store.courses) + [Course(id, old(code), old(name), old(file))]
        && !showModal && code == "" && name == "" && file == None
        && alerts == old(alerts) + [AddedAlert(old(name))]
    {
      if file.None? {
        alerts := alerts + [MissingFileAlert];
        return;
      }
      var submittedName := name;
      store.AddCourse(Course(id, code, name, file));
      code := "";
      name := "";
      file := None;
      showModal := false;
      alerts := alerts + [AddedAlert(submittedName)];
    }
  }
}
