/**
  * The API client of the frontend (`src/utils/api.js`): the base URL and the
  * request each exported function issues. The HTTP transport is not modelled;
  * a call is the `Request` it would send, and what comes back is an
  * `Outcome` handed to the page that made the call.
  */
module Api {
  import opened Wrappers
  import Backend
  import Records

  const DEFAULT_API_URL := "http://localhost:8000"
  const EMPLOYEES := "/api/employees"
  const ATTENDANCE := "/api/attendance"
  const STATS := "/api/stats"
  const HEALTH := "/api/health"

  /** A request: its verb, its path relative to the base URL and, for a POST, its JSON body. */
  datatype Request =
    | Get(path: string)
    | Post(path: string, body: map<string, string>)
    | Delete(path: string)

  /** One entry of FastAPI's validation-error list: where the error is (`loc`) and its message (`msg`). */
  datatype ErrorItem = ErrorItem(loc: seq<string>, msg: string)

  /**
    * The `detail` field of an error response: a message (an `HTTPException`),
    * or the list of validation errors of a 422.
    */
  datatype Detail = Text(text: string) | Items(items: seq<ErrorItem>)

  /** The value an error slot of a page holds when there is no error: `''`. */
  const NO_ERROR: Detail := Text("")

  /**
    * What an awaited call yields to its caller: the response data, or a rejection
    * carrying the server's `detail` field when the response had one.
    */
  datatype Outcome<+T> = Success(data: T) | Failure(detail: Option<Detail>)

  /** JavaScript truthiness of a value that is a string, `null` or `undefined`. */
  predicate Truthy(v: Option<string>) { v.Some? && v.value != "" }

  /** JavaScript truthiness of a `detail`: a non-empty string, or any array (even an empty one). */
  predicate DetailTruthy(d: Option<Detail>) { d.Some? && (d.value.Text? ==> d.value.text != "") }

  /**
    * What a page stores for a failed call: `err.response?.data?.detail || fallback`.
    * A truthy detail is stored as it is, a list included; otherwise the fallback.
    * With a non-empty fallback the stored value is never the empty string.
    */
  function DetailOr(detail: Option<Detail>, fallback: string): (shown: Detail)
    ensures DetailTruthy(detail) ==> shown == detail.value
    ensures !DetailTruthy(detail) ==> shown == Text(fallback)
    ensures shown.Items? <==> detail.Some? && detail.value.Items?
    ensures fallback != "" ==> shown != NO_ERROR
  {
    if DetailTruthy(detail) then detail.value else Text(fallback)
  }

  /**
    * Whether React can render the slot as a child of the error banner: a
    * string can; an array of error objects cannot (rendering it throws), and
    * only an empty array renders as nothing.
    */
  predicate Renderable(error: Detail) { error.Text? || error.items == [] }

  /**
    * The text of `{error && <div className="error">{error}</div>}` for a
    * renderable slot: no banner for `''`, otherwise the banner with the
    * message (an empty array gives an empty banner).
    */
  function Banner(error: Detail): (b: Option<string>)
    ensures b.None? <==> error == NO_ERROR
    ensures error.Text? && b.Some? ==> b.value == error.text
    ensures error.Items? ==> b == Some("")
  {
    match error
    case Text(t) => if t == "" then None else Some(t)
    case Items(_) => Some("")
  }

  /**
    * The error body FastAPI sends for a handler's response, as the client
    * receives it. A message is success; an `HTTPException` carries its
    * `detail` string; a failed request validation (422) carries one entry per
    * field error, at `["body", field]`, with pydantic's "Value error, " prefix
    * on the validator's message.
    */
  function OutcomeOf(resp: Backend.Response): (r: Outcome<()>)
    ensures r.Success? <==> resp.Done?
    ensures resp.Rejected? ==> r == Outcome.Failure(Some(Text(resp.detail)))
    ensures resp.Invalid? ==>
              && r.Failure? && r.detail.Some? && r.detail.value.Items?
              && |r.detail.value.items| == |resp.errors|
              && forall i :: 0 <= i < |resp.errors| ==>
                   r.detail.value.items[i] == ErrorItem(["body", Backend.FieldName(resp.errors[i].field)], "Value error, " + resp.errors[i].message)
    ensures resp.Invalid? && resp.errors != [] ==> r.Failure? && r.detail.Some? && !Renderable(r.detail.value)
    ensures resp.Rejected? && resp.detail != "" ==> r.Failure? && DetailTruthy(r.detail)
  {
    match resp
    case Done(_) => Outcome.Success(())
    case Rejected(_, detail) => Outcome.Failure(Some(Text(detail)))
    case Invalid(errors) =>
      Outcome.Failure(Some(Items(seq(|errors|, i requires 0 <= i < |errors| =>
        ErrorItem(["body", Backend.FieldName(errors[i].field)], "Value error, " + errors[i].message)))))
  }

  /** `import.meta.env.VITE_API_URL || 'http://localhost:8000'`. */
  function ApiUrl(viteApiUrl: Option<string>): (url: string)
    ensures url != ""
    ensures Truthy(viteApiUrl) ==> url == viteApiUrl.value
    ensures !Truthy(viteApiUrl) ==> url == DEFAULT_API_URL
  {
    if Truthy(viteApiUrl) then viteApiUrl.value else DEFAULT_API_URL
  }

  function GetEmployees(): Request { Get(EMPLOYEES) }

  /** `/api/employees/${id}`: the id is pasted into the path as it is, without escaping. */
  function EmployeePath(id: string): (path: string)
    ensures |path| == |EMPLOYEES| + 1 + |id|
    ensures path[..|EMPLOYEES| + 1] == EMPLOYEES + "/" && path[|EMPLOYEES| + 1..] == id
  {
    EMPLOYEES + "/" + id
  }

  function GetEmployee(id: string): Request { Get(EmployeePath(id)) }

  function CreateEmployee(data: map<string, string>): Request { Post(EMPLOYEES, data) }

  function DeleteEmployee(id: string): Request { Delete(EmployeePath(id)) }

  function GetAllAttendance(): Request { Get(ATTENDANCE) }

  /** `/api/attendance/${employeeId}`, followed by `?date=${date}` only when `date` is truthy. */
  function GetEmployeeAttendance(employeeId: string, date: Option<string>): (r: Request)
    ensures r.Get?
    ensures Truthy(date) ==> r.path == ATTENDANCE + "/" + employeeId + "?date=" + date.value
    ensures !Truthy(date) ==> r.path == ATTENDANCE + "/" + employeeId
  {
    var base := ATTENDANCE + "/" + employeeId;
    Get(if Truthy(date) then base + "?date=" + date.value else base)
  }

  function MarkAttendance(data: map<string, string>): Request { Post(ATTENDANCE, data) }

  function GetStats(): Request { Get(STATS) }

  function HealthCheck(): Request { Get(HEALTH) }

  // ---------------------------------------------------------------------
  // Reading a request target back: the path ends at the first '?' or '#',
  // the query runs from that '?' to the next '#'. A route parameter such as
  // `{employee_id}` is one non-empty path segment (no '/').
  // ---------------------------------------------------------------------

  /** The longest prefix of `s` that contains no character of `stops`. */
  function PrefixBefore(s: string, stops: set<char>): (r: string)
    ensures r <= s
    ensures forall i :: 0 <= i < |r| ==> r[i] !in stops
    ensures |r| < |s| ==> s[|r|] in stops
  {
    if s == [] || s[0] in stops then [] else [s[0]] + PrefixBefore(s[1..], stops)
  }

  function PathOf(target: string): string { PrefixBefore(target, {'?', '#'}) }

  function QueryOf(target: string): Option<string>
  {
    var rest := target[|PathOf(target)|..];
    if rest != [] && rest[0] == '?' then Some(PrefixBefore(rest[1..], {'#'})) else None
  }

  /** The route parameter of `path` when it is `prefix` followed by a single non-empty segment. */
  function SegmentAfter(prefix: string, path: string): Option<string>
  {
    if prefix <= path && |path| > |prefix| && '/' !in path[|prefix|..] then Some(path[|prefix|..]) else None
  }

  /**
    * An id that this reader gets back from a path it was pasted into:
    * non-empty, and free of '/', '?' and '#'. The URL normalisation a browser
    * applies before sending (dropping `.` and `..` segments, reading a backslash as '/') is not part of this reader.
    */
  predicate SafeSegment(id: string)
  {
    id != "" && forall i :: 0 <= i < |id| ==> id[i] != '/' && id[i] != '?' && id[i] != '#'
  }

  lemma PrefixBeforeWhole(s: string, stops: set<char>)
    requires forall i :: 0 <= i < |s| ==> s[i] !in stops
    ensures PrefixBefore(s, stops) == s
  {
  }

  lemma PrefixBeforeStop(a: string, c: char, b: string, stops: set<char>)
    requires forall i :: 0 <= i < |a| ==> a[i] !in stops
    requires c in stops
    ensures PrefixBefore(a + [c] + b, stops) == a
  {
    var s := a + [c] + b;
    assert s[|a|] == c;
  }

  /**
    * `getEmployee` and `deleteEmployee` address the same path, and the id can be
    * read back from it as the route parameter exactly when it is a safe segment:
    * an id holding '/', '?' or '#' (or an empty one) reaches the server as a
    * different path, because it is not escaped.
    */
  lemma {:induction false} EmployeePathRoundTrip(id: string)
    ensures GetEmployee(id).path == DeleteEmployee(id).path
    ensures SegmentAfter(EMPLOYEES + "/", PathOf(EmployeePath(id))) == Some(id) <==> SafeSegment(id)
    ensures SafeSegment(id) ==> QueryOf(EmployeePath(id)) == None
  {
    var prefix := EMPLOYEES + "/";
    var path := EmployeePath(id);
    var p := PathOf(path);
    assert path == prefix + id;
    assert forall i :: 0 <= i < |prefix| ==> prefix[i] !in {'?', '#'};
    if SafeSegment(id) {
      PrefixBeforeWhole(path, {'?', '#'});
      assert p[|prefix|..] == id;
    } else if SegmentAfter(prefix, p) == Some(id) {
      assert |p| == |path|;
      assert p == path;
      assert forall i :: 0 <= i < |id| ==> id[i] == p[|prefix| + i];
      assert false;
    }
  }

  /**
    * The date argument of `getEmployeeAttendance` becomes the `date` query
    * parameter when it is truthy and is dropped otherwise; the employee id is
    * the route parameter either way.
    */
  lemma {:induction false} AttendancePathRoundTrip(employeeId: string, date: Option<string>)
    requires SafeSegment(employeeId)
    requires date.Some? ==> forall i :: 0 <= i < |date.value| ==> date.value[i] != '#'
    ensures SegmentAfter(ATTENDANCE + "/", PathOf(GetEmployeeAttendance(employeeId, date).path)) == Some(employeeId)
    ensures QueryOf(GetEmployeeAttendance(employeeId, date).path)
            == if Truthy(date) then Some("date=" + date.value) else None
  {
    var prefix := ATTENDANCE + "/";
    var base := prefix + employeeId;
    var target := GetEmployeeAttendance(employeeId, date).path;
    assert forall i :: 0 <= i < |prefix| ==> prefix[i] !in {'?', '#'};
    assert forall i :: 0 <= i < |base| ==> base[i] !in {'?', '#'} by {
      forall i | 0 <= i < |base| ensures base[i] !in {'?', '#'} {
        if i >= |prefix| { assert base[i] == employeeId[i - |prefix|]; }
      }
    }
    if Truthy(date) {
      var q := "date=" + date.value;
      assert target == base + ['?'] + q;
      PrefixBeforeStop(base, '?', q, {'?', '#'});
      assert target[|base|..] == ['?'] + q;
      assert forall i :: 0 <= i < |q| ==> q[i] !in {'#'} by {
        forall i | 0 <= i < |q| ensures q[i] !in {'#'} {
          if i >= 5 { assert q[i] == date.value[i - 5]; }
        }
      }
      PrefixBeforeWhole(q, {'#'});
      assert (['?'] + q)[1..] == q;
    } else {
      assert target == base;
      PrefixBeforeWhole(base, {'?', '#'});
    }
    assert base[|prefix|..] == employeeId;
  }

  /**
    * The list, create, mark, stats and health calls use fixed paths: the data
    * passed to a POST goes into its body and never into its path, and none of
    * these paths carries a query.
    */
  lemma FixedPaths(a: map<string, string>, b: map<string, string>)
    ensures CreateEmployee(a).path == CreateEmployee(b).path == GetEmployees().path
    ensures MarkAttendance(a).path == MarkAttendance(b).path == GetAllAttendance().path
    ensures CreateEmployee(a).body == a && MarkAttendance(a).body == a
    ensures forall p :: p in {EMPLOYEES, ATTENDANCE, STATS, HEALTH} ==> PathOf(p) == p && QueryOf(p) == None
  {
    forall p | p in {EMPLOYEES, ATTENDANCE, STATS, HEALTH} ensures PathOf(p) == p && QueryOf(p) == None {
      assert forall i :: 0 <= i < |p| ==> p[i] !in {'?', '#'};
      PrefixBeforeWhole(p, {'?', '#'});
    }
  }

  /**
    * A refused request validation always reaches the page as a list it cannot
    * render: whatever the fallback, `detail || fallback` keeps the list.
    */
  lemma InvalidIsUnrenderable(resp: Backend.Response, fallback: string)
    requires resp.Invalid? && resp.errors != []
    ensures OutcomeOf(resp).Failure?
    ensures !Renderable(DetailOr(OutcomeOf(resp).detail, fallback))
  {
    var items := OutcomeOf(resp).detail.value.items;
    assert items[0] == ErrorItem(["body", Backend.FieldName(resp.errors[0].field)], "Value error, " + resp.errors[0].message);
  }

  /**
    * Every employee body the server's validation refuses (a blank id, name or
    * department) leaves the page holding a list it cannot render.
    */
  lemma {:induction false} RefusedBodyIsUnrenderable(body: Records.Employee, fallback: string)
    requires Backend.ValidateEmployee(body).Failure?
    ensures var r := OutcomeOf(Backend.Invalid(Backend.ValidateEmployee(body).error));
            r.Failure? && !Renderable(DetailOr(r.detail, fallback))
  {
    InvalidIsUnrenderable(Backend.Invalid(Backend.ValidateEmployee(body).error), fallback);
  }

  /**
    * An `HTTPException` (an id or e-mail already taken) reaches the page as
    * its message: the banner shows the server's text, not the fallback.
    */
  lemma RejectedShowsDetail(status: nat, detail: string, fallback: string)
    requires detail != ""
    ensures DetailOr(OutcomeOf(Backend.Rejected(status, detail)).detail, fallback) == Text(detail)
    ensures Banner(DetailOr(OutcomeOf(Backend.Rejected(status, detail)).detail, fallback)) == Some(detail)
  {
  }
}
