/**
  * The Employees page (`src/pages/Employees.jsx`) without its markup: the
  * state its hooks hold, the handlers that change it and what the page shows.
  * `formData` is a JavaScript object, modelled as a map from field name to value.
  * The `error` slot holds a string or, after a failed validation on the
  * server, the list FastAPI sent as `detail`.
  */
module Employees {
  import opened Wrappers
  import opened Records
  import Api
  import Backend

  const FETCH_FAILED := "Failed to fetch employees"
  const ADD_FAILED := "Failed to add employee"
  const ADDED := "Employee added successfully!"
  const DELETE_FAILED := "Failed to delete employee"
  const DELETED := "Employee deleted successfully!"

  /** The empty form: all four fields "". */
  function EmptyForm(): map<string, string>
  {
    map["employee_id" := "", "full_name" := "", "email" := "", "department" := ""]
  }

  datatype Table = EmptyState | Rows(employees: seq<Employee>)

  /** What the page renders; `Crashed` is React throwing while rendering the error slot. */
  datatype View =
    | Spinner
    | Crashed
    | Page(errorBanner: Option<string>, successBanner: Option<string>, formShown: bool, table: Table)

  class EmployeesPage {
    var employees: seq<Employee>
    var loading: bool
    var error: Api.Detail
    var success: string
    var showForm: bool
    var formData: map<string, string>

    /** The initial values of the `useState` hooks. */
    constructor ()
      ensures employees == [] && loading && error == Api.NO_ERROR && success == "" && !showForm
      ensures formData == EmptyForm()
    {
      employees, loading, error, success := [], true, Api.NO_ERROR, "";
      showForm, formData := false, EmptyForm();
    }

    /** The part of `fetchEmployees` before its await: the spinner goes on; the list is requested. */
    method BeginFetch() returns (requests: seq<Api.Request>)
      modifies this
      ensures loading
      ensures requests == [Api.GetEmployees()]
      ensures employees == old(employees) && error == old(error) && success == old(success)
      ensures showForm == old(showForm) && formData == old(formData)
    {
      loading := true;
      requests := [Api.GetEmployees()];
    }

    /**
      * The rest of `fetchEmployees`, once the call settles: on success the list
      * is replaced and the error cleared, on failure the list is kept and the
      * error set. The spinner goes off either way.
      */
    method CompleteFetch(res: Api.Outcome<seq<Employee>>)
      modifies this
      ensures !loading
      ensures res.Success? ==> employees == res.data && error == Api.NO_ERROR
      ensures res.Failure? ==> employees == old(employees) && error == Api.Text(FETCH_FAILED)
      ensures success == old(success) && showForm == old(showForm) && formData == old(formData)
    {
      if res.Success? {
        employees := res.data;
        error := Api.NO_ERROR;
      } else {
        error := Api.Text(FETCH_FAILED);
      }
      loading := false;
    }

    /** `fetchEmployees` run to its end, given the outcome of its call. */
    method FetchEmployees(res: Api.Outcome<seq<Employee>>) returns (requests: seq<Api.Request>)
      modifies this
      ensures requests == [Api.GetEmployees()]
      ensures !loading
      ensures res.Success? ==> employees == res.data && error == Api.NO_ERROR
      ensures res.Failure? ==> employees == old(employees) && error == Api.Text(FETCH_FAILED)
      ensures success == old(success) && showForm == old(showForm) && formData == old(formData)
    {
      requests := BeginFetch();
      CompleteFetch(res);
    }

    /** `handleInputChange`: the named field takes the new value; every other field keeps its value. */
    method HandleInputChange(name: string, value: string)
      modifies this
      ensures formData == old(formData)[name := value]
      ensures name in formData && formData[name] == value
      ensures forall k :: k in old(formData) && k != name ==> k in formData && formData[k] == old(formData)[k]
      ensures employees == old(employees) && loading == old(loading)
      ensures error == old(error) && success == old(success) && showForm == old(showForm)
    {
      formData := formData[name := value];
    }

    /**
      * `handleSubmit`, given the outcome of the POST. On success: the success
      * message, the four fields reset to "", the form hidden, and a refetch
      * started (not awaited, so only its first step has run). On failure: the
      * server's detail or the fallback message; the form is kept.
      */
    method HandleSubmit(res: Api.Outcome<()>) returns (requests: seq<Api.Request>)
      modifies this
      ensures res.Success? ==>
                && requests == [Api.CreateEmployee(old(formData)), Api.GetEmployees()]
                && success == ADDED && formData == EmptyForm() && !showForm && loading
                && error == old(error)
      ensures res.Failure? ==>
                && requests == [Api.CreateEmployee(old(formData))]
                && error == Api.DetailOr(res.detail, ADD_FAILED) && error != Api.NO_ERROR
                && formData == old(formData) && showForm == old(showForm)
                && success == old(success) && loading == old(loading)
      ensures employees == old(employees)
    {
      requests := [Api.CreateEmployee(formData)];
      if res.Success? {
        success := ADDED;
        formData := EmptyForm();
        showForm := false;
        var refetch := BeginFetch();
        requests := requests + refetch;
      } else {
        error := Api.DetailOr(res.detail, ADD_FAILED);
      }
    }

    /**
      * `handleDelete`, given the answer to the confirmation dialog and the
      * outcome the DELETE would have. Without confirmation nothing is sent and
      * nothing changes. Otherwise: on success the message and a refetch
      * started; on failure the server's detail or the fallback message.
      */
    method HandleDelete(employeeId: string, confirmed: bool, res: Api.Outcome<()>) returns (requests: seq<Api.Request>)
      modifies this
      ensures !confirmed ==> requests == [] && unchanged(this)
      ensures confirmed && res.Success? ==>
                && requests == [Api.DeleteEmployee(employeeId), Api.GetEmployees()]
                && success == DELETED && loading && error == old(error)
      ensures confirmed && res.Failure? ==>
                && requests == [Api.DeleteEmployee(employeeId)]
                && error == Api.DetailOr(res.detail, DELETE_FAILED) && error != Api.NO_ERROR
                && success == old(success) && loading == old(loading)
      ensures employees == old(employees) && showForm == old(showForm) && formData == old(formData)
    {
      if !confirmed {
        return [];
      }
      requests := [Api.DeleteEmployee(employeeId)];
      if res.Success? {
        success := DELETED;
        var refetch := BeginFetch();
        requests := requests + refetch;
      } else {
        error := Api.DetailOr(res.detail, DELETE_FAILED);
      }
    }

    /** The "Add Employee" / "Cancel" button. */
    method ToggleForm()
      modifies this`showForm
      ensures showForm == !old(showForm)
    {
      showForm := !showForm;
    }

    /** The timer that hides the success banner, as an explicit event. */
    method ClearSuccess()
      modifies this`success
      ensures success == ""
    {
      success := "";
    }

    /** The timer that hides the error banner, as an explicit event. */
    method ClearError()
      modifies this`error
      ensures error == Api.NO_ERROR
    {
      error := Api.NO_ERROR;
    }

    /**
      * The rendered page: the spinner while loading; a render failure when the
      * error slot holds a list of error objects; otherwise a banner for each
      * non-empty message, the form when shown, and the empty state exactly
      * when there are no employees.
      */
    function View(): (v: View)
      reads this
      ensures loading <==> v == Spinner
      ensures v == Crashed <==> !loading && !Api.Renderable(error)
      ensures v.Page? ==>
                && (v.errorBanner.Some? <==> error != Api.NO_ERROR)
                && (v.errorBanner.Some? && error.Text? ==> v.errorBanner.value == error.text)
                && (v.successBanner.Some? <==> success != "") && (v.successBanner.Some? ==> v.successBanner.value == success)
                && v.formShown == showForm
                && (v.table == EmptyState <==> employees == [])
                && (v.table.Rows? ==> v.table.employees == employees)
    {
      if loading then Spinner
      else if !Api.Renderable(error) then Crashed
      else
        Page(Api.Banner(error),
             if success != "" then Some(success) else None,
             showForm,
             if employees == [] then EmptyState else Rows(employees))
    }
  }

  /**
    * Adding an employee: the form clears, the success banner shows, the list
    * is refetched, and once the refetch completes the new list is shown; the
    * banner disappears when its timer fires.
    */
  method AddScenario(before: seq<Employee>, added: Employee)
  {
    var page := new EmployeesPage();
    var requests := page.FetchEmployees(Api.Success(before));
    page.HandleInputChange("employee_id", added.employee_id);
    requests := page.HandleSubmit(Api.Success(()));
    assert requests[1] == Api.GetEmployees();
    assert page.formData == EmptyForm() && page.success == ADDED && page.loading;
    page.CompleteFetch(Api.Success(before + [added]));
    var v := page.View();
    assert v.Page? && v.successBanner == Some(ADDED) && v.table == Rows(before + [added]);
    page.ClearSuccess();
    v := page.View();
    assert v.Page? && v.successBanner == None;
  }

  /** The value of a form field, `''` when the form has no such field. */
  function FieldOf(form: map<string, string>, name: string): string
  {
    if name in form then form[name] else ""
  }

  /** The `Employee` body the server parses from a posted form. */
  function FormBody(form: map<string, string>): (body: Employee)
    ensures "employee_id" in form ==> body.employee_id == form["employee_id"]
    ensures "full_name" in form ==> body.full_name == form["full_name"]
    ensures "email" in form ==> body.email == form["email"]
    ensures "department" in form ==> body.department == form["department"]
  {
    Employee(FieldOf(form, "employee_id"), FieldOf(form, "full_name"), FieldOf(form, "email"), FieldOf(form, "department"))
  }

  /**
    * The form is filled in with a full name of spaces and submitted. The body
    * it posts goes to the backend, which refuses it with a 422 whose `detail`
    * is a list; the page stores that list as its error and then cannot render it.
    */
  method BlankNameScenario(id: string, email: string, department: string)
  {
    var db := new Backend.Database();
    var page := new EmployeesPage();
    var requests := page.FetchEmployees(Api.Success([]));
    page.HandleInputChange("employee_id", id);
    page.HandleInputChange("full_name", " ");
    page.HandleInputChange("email", email);
    page.HandleInputChange("department", department);
    var posted := page.formData;
    var body := FormBody(posted);
    assert body.full_name == " ";
    assert Backend.Blank(body.full_name) by { assert Backend.IsSpace(body.full_name[0]); }
    var resp := db.CreateEmployee(body);
    assert resp.Invalid? && resp.errors != [];
    requests := page.HandleSubmit(Api.OutcomeOf(resp));
    assert requests == [Api.CreateEmployee(posted)];
    assert page.error.Items? && page.error.items != [];
    var v := page.View();
    assert v == Crashed;
    assert db.employees == [];
  }
}
