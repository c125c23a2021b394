/**
  * The Attendance page (`src/pages/Attendance.jsx`) without its markup: the
  * state its hooks hold, the handlers that change it, the date filter and
  * what the page shows. `formData` is a JavaScript object, modelled as a map
  * from field name to value. The `error` slot holds a string or, after a
  * failed validation on the server, the list FastAPI sent as `detail`.
  */
module Attendance {
  import opened Wrappers
  import opened Records
  import Api
  import Seqs

  const FETCH_FAILED := "Failed to fetch data"
  const MARK_FAILED := "Failed to mark attendance"
  const MARKED := "Attendance marked successfully!"

  /** The empty form: no employee chosen, today's date (UTC, `YYYY-MM-DD`), status Present. */
  function InitialForm(today: string): map<string, string>
  {
    map["employee_id" := "", "attendance_date" := today, "status" := "Present"]
  }

  /** `record => record.attendance_date === filterDate`. */
  function OnDate(filterDate: string): JoinedRecord -> bool
  {
    (record: JoinedRecord) => record.attendance_date == filterDate
  }

  /** `filteredRecords`: every record when the filter is empty, else those on the filter date. */
  function FilterByDate(records: seq<JoinedRecord>, filterDate: string): (r: seq<JoinedRecord>)
    ensures filterDate == "" ==> r == records
    ensures filterDate != "" ==> forall i :: 0 <= i < |r| ==> r[i].attendance_date == filterDate && r[i] in records
    ensures filterDate != "" ==>
              forall i :: 0 <= i < |records| && records[i].attendance_date == filterDate ==> records[i] in r
    ensures filterDate != "" ==> (r == [] <==> forall i :: 0 <= i < |records| ==> records[i].attendance_date != filterDate)
  {
    if filterDate == "" then records
    else
      var r := Seqs.Filter(OnDate(filterDate), records);
      assert r != [] ==> r[0] in records && OnDate(filterDate)(r[0]);
      r
  }

  /**
    * The filter is exact: its result is a subsequence of the records (order
    * kept) holding every copy of each record on the filter date and nothing else.
    */
  lemma FilterByDateExact(records: seq<JoinedRecord>, filterDate: string, x: JoinedRecord)
    ensures Seqs.IsSubseq(FilterByDate(records, filterDate), records)
    ensures multiset(FilterByDate(records, filterDate))[x] ==
              if filterDate == "" || x.attendance_date == filterDate then multiset(records)[x] else 0
  {
    if filterDate == "" {
      Seqs.FilterAll((r: JoinedRecord) => true, records);
      Seqs.FilterIsSubseq((r: JoinedRecord) => true, records);
    } else {
      Seqs.FilterIsSubseq(OnDate(filterDate), records);
      Seqs.FilterMultiplicity(OnDate(filterDate), records, x);
    }
  }

  /** The records part of the page. */
  datatype Table = EmptyState | Rows(records: seq<JoinedRecord>)

  /** What the page renders; `Crashed` is React throwing while rendering the error slot. */
  datatype View =
    | Spinner
    | Crashed
    | Page(errorBanner: Option<string>, successBanner: Option<string>, formShown: bool, table: Table)

  class AttendancePage {
    var employees: seq<Employee>
    var attendanceRecords: seq<JoinedRecord>
    var loading: bool
    var error: Api.Detail
    var success: string
    var showForm: bool
    var formData: map<string, string>
    var filterDate: string

    /** The initial values of the `useState` hooks, with `today` the current UTC date. */
    constructor (today: string)
      ensures employees == [] && attendanceRecords == []
      ensures loading && error == Api.NO_ERROR && success == "" && !showForm
      ensures formData == InitialForm(today) && filterDate == ""
    {
      employees, attendanceRecords := [], [];
      loading, error, success, showForm := true, Api.NO_ERROR, "", false;
      formData, filterDate := InitialForm(today), "";
    }

    /** The part of `fetchData` before its await: the spinner goes on; the two calls are issued. */
    method BeginFetch() returns (requests: seq<Api.Request>)
      modifies this
      ensures loading
      ensures requests == [Api.GetEmployees(), Api.GetAllAttendance()]
      ensures employees == old(employees) && attendanceRecords == old(attendanceRecords)
      ensures error == old(error) && success == old(success) && showForm == old(showForm)
      ensures formData == old(formData) && filterDate == old(filterDate)
    {
      loading := true;
      requests := [Api.GetEmployees(), Api.GetAllAttendance()];
    }

    /**
      * The rest of `fetchData`, once `Promise.all` settles: both lists are
      * replaced and the error cleared when both calls succeeded; otherwise
      * neither list changes and the error is set. The spinner goes off either way.
      */
    method CompleteFetch(employeesRes: Api.Outcome<seq<Employee>>, attendanceRes: Api.Outcome<seq<JoinedRecord>>)
      modifies this
      ensures !loading
      ensures employeesRes.Success? && attendanceRes.Success? ==>
                employees == employeesRes.data && attendanceRecords == attendanceRes.data && error == Api.NO_ERROR
      ensures !(employeesRes.Success? && attendanceRes.Success?) ==>
                employees == old(employees) && attendanceRecords == old(attendanceRecords) && error == Api.Text(FETCH_FAILED)
      ensures success == old(success) && showForm == old(showForm)
      ensures formData == old(formData) && filterDate == old(filterDate)
    {
      if employeesRes.Success? && attendanceRes.Success? {
        employees := employeesRes.data;
        attendanceRecords := attendanceRes.data;
        error := Api.NO_ERROR;
      } else {
        error := Api.Text(FETCH_FAILED);
      }
      loading := false;
    }

    /** `fetchData` run to its end, given the outcome of each call. */
    method FetchData(employeesRes: Api.Outcome<seq<Employee>>, attendanceRes: Api.Outcome<seq<JoinedRecord>>)
      returns (requests: seq<Api.Request>)
      modifies this
      ensures requests == [Api.GetEmployees(), Api.GetAllAttendance()]
      ensures !loading
      ensures employeesRes.Success? && attendanceRes.Success? ==>
                employees == employeesRes.data && attendanceRecords == attendanceRes.data && error == Api.NO_ERROR
      ensures !(employeesRes.Success? && attendanceRes.Success?) ==>
                employees == old(employees) && attendanceRecords == old(attendanceRecords) && error == Api.Text(FETCH_FAILED)
      ensures success == old(success) && showForm == old(showForm)
      ensures formData == old(formData) && filterDate == old(filterDate)
    {
      requests := BeginFetch();
      CompleteFetch(employeesRes, attendanceRes);
    }

    /** `handleInputChange`: the named field takes the new value; every other field keeps its value. */
    method HandleInputChange(name: string, value: string)
      modifies this
      ensures formData == old(formData)[name := value]
      ensures name in formData && formData[name] == value
      ensures forall k :: k in old(formData) && k != name ==> k in formData && formData[k] == old(formData)[k]
      ensures employees == old(employees) && attendanceRecords == old(attendanceRecords)
      ensures loading == old(loading) && error == old(error) && success == old(success)
      ensures showForm == old(showForm) && filterDate == old(filterDate)
    {
      formData := formData[name := value];
    }

    /**
      * `handleSubmit`, given the outcome of the POST. On success: the success
      * message, the form reset to today's defaults, the form hidden, and a
      * refetch started (it is not awaited, so only its first step has run).
      * On failure: the server's detail or the fallback message; the form and
      * its visibility are kept.
      */
    method HandleSubmit(res: Api.Outcome<()>, today: string) returns (requests: seq<Api.Request>)
      modifies this
      ensures res.Success? ==>
                && requests == [Api.MarkAttendance(old(formData)), Api.GetEmployees(), Api.GetAllAttendance()]
                && success == MARKED && formData == InitialForm(today) && !showForm && loading
                && error == old(error)
      ensures res.Failure? ==>
                && requests == [Api.MarkAttendance(old(formData))]
                && error == Api.DetailOr(res.detail, MARK_FAILED) && error != Api.NO_ERROR
                && formData == old(formData) && showForm == old(showForm)
                && success == old(success) && loading == old(loading)
      ensures employees == old(employees) && attendanceRecords == old(attendanceRecords)
      ensures filterDate == old(filterDate)
    {
      requests := [Api.MarkAttendance(formData)];
      if res.Success? {
        success := MARKED;
        formData := InitialForm(today);
        showForm := false;
        var refetch := BeginFetch();
        requests := requests + refetch;
      } else {
        error := Api.DetailOr(res.detail, MARK_FAILED);
      }
    }

    /** The "Mark Attendance" / "Cancel" button. */
    method ToggleForm()
      modifies this`showForm
      ensures showForm == !old(showForm)
    {
      showForm := !showForm;
    }

    /** The date input of the filter; the "Clear Filter" button sets it to "". No call is made. */
    method SetFilterDate(date: string)
      modifies this`filterDate
      ensures filterDate == date
    {
      filterDate := date;
    }

    /** The timer that hides the success banner, as an explicit event. */
    method ClearSuccess()
      modifies this`success
      ensures success == ""
    {
      success := "";
    }

    /** The timer that hides the error banner, as an explicit event. */
    method ClearError()
      modifies this`error
      ensures error == Api.NO_ERROR
    {
      error := Api.NO_ERROR;
    }

    function FilteredRecords(): (r: seq<JoinedRecord>)
      reads this
      ensures filterDate == "" ==> r == attendanceRecords
      ensures forall i :: 0 <= i < |r| ==> r[i] in attendanceRecords
    {
      FilterByDate(attendanceRecords, filterDate)
    }

    /**
      * The rendered page: the spinner while loading; a render failure when the
      * error slot holds a list of error objects; otherwise a banner for each
      * non-empty message, the form when shown, and the empty state exactly
      * when the filtered records are empty.
      */
    function View(): (v: View)
      reads this
      ensures loading <==> v == Spinner
      ensures v == Crashed <==> !loading && !Api.Renderable(error)
      ensures v.Page? ==>
                && (v.errorBanner.Some? <==> error != Api.NO_ERROR)
                && (v.errorBanner.Some? && error.Text? ==> v.errorBanner.value == error.text)
                && (v.successBanner.Some? <==> success != "") && (v.successBanner.Some? ==> v.successBanner.value == success)
                && v.formShown == showForm
                && (v.table == EmptyState <==> FilteredRecords() == [])
                && (v.table.Rows? ==> v.table.records == FilteredRecords())
    {
      if loading then Spinner
      else if !Api.Renderable(error) then Crashed
      else
        var rows := FilteredRecords();
        Page(Api.Banner(error),
             if success != "" then Some(success) else None,
             showForm,
             if rows == [] then EmptyState else Rows(rows))
    }
  }

  /**
    * A filter date no record has gives the empty state; clearing the filter
    * shows every record again, with no new call.
    */
  method FilterScenario(records: seq<JoinedRecord>, date: string)
    requires records != [] && date != ""
    requires forall i :: 0 <= i < |records| ==> records[i].attendance_date != date
  {
    var page := new AttendancePage("2024-01-01");
    var requests := page.FetchData(Api.Success([]), Api.Success(records));
    page.SetFilterDate(date);
    var v := page.View();
    assert v.Page? && v.table == EmptyState;
    page.SetFilterDate("");
    v := page.View();
    assert v.Page? && v.table == Rows(records);
  }
}
