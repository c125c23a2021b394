/**
  * The Dashboard page (`src/pages/Dashboard.jsx`) without its markup: the
  * state slots its hooks hold, the loader that fills them, and what the page
  * shows for a given state. The loader awaits its three calls one after the
  * other; the first failure ends it, so later calls are never made.
  */
module Dashboard {
  import opened Wrappers
  import opened Records
  import Api
  import Seqs

  const LOAD_FAILED := "Failed to load dashboard data"
  const RECENT_EMPLOYEES: nat := 5
  const RECENT_ATTENDANCE: nat := 10

  /** The body of `GET /api/stats` as the page reads it; a field may be missing. */
  datatype StatsData = StatsData(total_employees: Option<int>, present_today: Option<int>, total_records: Option<int>)

  datatype StatField = TotalEmployees | PresentToday | TotalRecords

  function FieldValue(s: StatsData, f: StatField): Option<int>
  {
    match f
    case TotalEmployees => s.total_employees
    case PresentToday => s.present_today
    case TotalRecords => s.total_records
  }

  /**
    * `stats?.<field> || 0`: the number shown on a stat card. Missing stats, a
    * missing field and a zero all show as 0; any other value shows as itself.
    */
  function StatShown(stats: Option<StatsData>, f: StatField): (n: int)
    ensures n == 0 <==> stats.None? || FieldValue(stats.value, f).None? || FieldValue(stats.value, f) == Some(0)
    ensures n != 0 ==> stats.Some? && FieldValue(stats.value, f) == Some(n)
  {
    if stats.None? then 0
    else match FieldValue(stats.value, f)
      case None => 0
      case Some(v) => v
  }

  /** What the page renders. */
  datatype View =
    | Spinner
    | ErrorOnly(message: string)
    | Overview(totalEmployees: int, presentToday: int, totalRecords: int,
               employees: seq<Employee>, attendance: seq<JoinedRecord>)

  class DashboardPage {
    var stats: Option<StatsData>
    var loading: bool
    var error: string
    var recentEmployees: seq<Employee>
    var recentAttendance: seq<JoinedRecord>

    /** The initial values of the `useState` hooks. */
    constructor ()
      ensures stats == None && loading && error == ""
      ensures recentEmployees == [] && recentAttendance == []
    {
      stats, loading, error := None, true, "";
      recentEmployees, recentAttendance := [], [];
    }

    /** The loader's first two steps, before any call is made: the spinner is on and the error is cleared. */
    method BeginLoad()
      modifies this
      ensures loading && error == ""
      ensures stats == old(stats) && recentEmployees == old(recentEmployees) && recentAttendance == old(recentAttendance)
    {
      loading := true;
      error := "";
    }

    /**
      * `fetchDashboardData`, given the outcome each call would have. The calls
      * are made in order and each only after the previous one succeeded; a
      * slot is written only once its call succeeded; any failure sets the one
      * error message; `loading` ends false on every path.
      */
    method FetchDashboardData(
      statsRes: Api.Outcome<StatsData>,
      employeesRes: Api.Outcome<seq<Employee>>,
      attendanceRes: Api.Outcome<seq<JoinedRecord>>)
      returns (requests: seq<Api.Request>)
      modifies this
      ensures !loading
      ensures requests ==
                [Api.GetStats()]
                + (if statsRes.Success? then [Api.GetEmployees()] else [])
                + (if statsRes.Success? && employeesRes.Success? then [Api.GetAllAttendance()] else [])
      ensures error == if statsRes.Success? && employeesRes.Success? && attendanceRes.Success? then "" else LOAD_FAILED
      ensures stats == if statsRes.Success? then Some(statsRes.data) else old(stats)
      ensures recentEmployees ==
                if statsRes.Success? && employeesRes.Success? then Seqs.Take(employeesRes.data, RECENT_EMPLOYEES)
                else old(recentEmployees)
      ensures recentAttendance ==
                if statsRes.Success? && employeesRes.Success? && attendanceRes.Success?
                then Seqs.Take(attendanceRes.data, RECENT_ATTENDANCE)
                else old(recentAttendance)
    {
      BeginLoad();
      requests := [Api.GetStats()];
      if statsRes.Failure? {
        error := LOAD_FAILED;
        loading := false;
        return;
      }
      stats := Some(statsRes.data);

      requests := requests + [Api.GetEmployees()];
      if employeesRes.Failure? {
        error := LOAD_FAILED;
        loading := false;
        return;
      }
      recentEmployees := Seqs.Take(employeesRes.data, RECENT_EMPLOYEES);

      requests := requests + [Api.GetAllAttendance()];
      if attendanceRes.Failure? {
        error := LOAD_FAILED;
        loading := false;
        return;
      }
      recentAttendance := Seqs.Take(attendanceRes.data, RECENT_ATTENDANCE);
      loading := false;
    }

    /**
      * The rendered page: the spinner while loading; otherwise a non-empty
      * error replaces everything else; otherwise the three stat cards (with
      * the `|| 0` defaults) and the two recent lists.
      */
    function View(): (v: View)
      reads this
      ensures loading <==> v == Spinner
      ensures !loading && error != "" ==> v == ErrorOnly(error)
      ensures v.ErrorOnly? <==> !loading && error != ""
      ensures !loading && error == "" ==> v.Overview?
      ensures v.Overview? ==>
                && !loading && error == ""
                && v.totalEmployees == StatShown(stats, TotalEmployees)
                && v.presentToday == StatShown(stats, PresentToday)
                && v.totalRecords == StatShown(stats, TotalRecords)
                && v.employees == recentEmployees && v.attendance == recentAttendance
    {
      if loading then Spinner
      else if error != "" then ErrorOnly(error)
      else Overview(StatShown(stats, TotalEmployees), StatShown(stats, PresentToday), StatShown(stats, TotalRecords),
                    recentEmployees, recentAttendance)
    }
  }

  /**
    * Loaded successfully, the page shows the server's counts, at most 5
    * employees and at most 10 attendance rows, each list a prefix of the
    * server's list.
    */
  method LoadedScenario(s: StatsData, emps: seq<Employee>, rows: seq<JoinedRecord>)
    requires s.total_employees.Some? && s.total_employees.value != 0
  {
    var page := new DashboardPage();
    var requests := page.FetchDashboardData(Api.Success(s), Api.Success(emps), Api.Success(rows));
    var v := page.View();
    assert |requests| == 3;
    assert v.Overview? && v.totalEmployees == s.total_employees.value;
    assert |v.employees| <= 5 && |v.attendance| <= 10;
    assert forall i :: 0 <= i < |v.employees| ==> v.employees[i] == emps[i];
  }

  /**
    * When the stats call fails, the page shows the error alone, the other two
    * calls are never made and no list is filled, whatever the server holds.
    */
  method StatsFailureScenario(emps: seq<Employee>, rows: seq<JoinedRecord>)
  {
    var page := new DashboardPage();
    var requests := page.FetchDashboardData(Api.Failure(None), Api.Success(emps), Api.Success(rows));
    var v := page.View();
    assert requests == [Api.GetStats()];
    assert v == ErrorOnly(LOAD_FAILED);
    assert page.recentEmployees == [] && page.recentAttendance == [];
  }
}
