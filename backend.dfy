/**
  * The REST backend (`Backend/app.py`): the request validators and the
  * handlers that read and change the `employees` and `attendance` tables.
  * The tables are the two sequence fields of `Database`; each SQL statement
  * is given its standard meaning over them. "Today" is a parameter.
  */
module Backend {
  import opened Wrappers
  import opened Records
  import Seqs

  const EMPTY_FIELD := "Field cannot be empty"
  const BAD_STATUS := "Status must be Present or Absent"
  const ID_EXISTS := "Employee ID already exists"
  const EMAIL_EXISTS := "Email already exists"
  const EMPLOYEE_CREATED := "Employee created"
  const EMPLOYEE_DELETED := "Employee deleted"
  const ATTENDANCE_MARKED := "Attendance marked"
  const PRESENT := "Present"
  const ABSENT := "Absent"

  /** The request-body fields that carry a validator, in declaration order. */
  datatype Field = EmployeeIdField | FullNameField | DepartmentField | StatusField

  /** The field's name in the JSON body. */
  function FieldName(f: Field): string
  {
    match f
    case EmployeeIdField => "employee_id"
    case FullNameField => "full_name"
    case DepartmentField => "department"
    case StatusField => "status"
  }

  /** The position of the field in its model class; pydantic reports errors in this order. */
  function Position(f: Field): nat
  {
    match f
    case EmployeeIdField => 0
    case FullNameField => 1
    case DepartmentField => 3
    case StatusField => 2
  }

  /** A field that failed validation, with the validator's message. */
  datatype FieldError = FieldError(field: Field, message: string)

  /** What a handler sends back: a message, an `HTTPException`, or the 422 of request validation. */
  datatype Response =
    | Done(message: string)
    | Rejected(status: nat, detail: string)
    | Invalid(errors: seq<FieldError>)

  datatype Stats = Stats(total_employees: nat, present_today: nat, total_records: nat)

  // ---------------------------------------------------------------------
  // Field validators
  // ---------------------------------------------------------------------

  /** The characters for which Python's `str.isspace()` holds, i.e. those `str.strip()` removes. */
  predicate IsSpace(c: char)
  {
    ('\t' <= c <= '\r') || ('\U{1C}' <= c <= '\U{1F}') || c == ' ' || c == '\U{85}' || c == '\U{A0}'
    || c == '\U{1680}' || ('\U{2000}' <= c <= '\U{200A}') || c == '\U{2028}' || c == '\U{2029}'
    || c == '\U{202F}' || c == '\U{205F}' || c == '\U{3000}'
  }

  predicate Blank(s: string)
  {
    forall i :: 0 <= i < |s| ==> IsSpace(s[i])
  }

  /** `s` without its leading whitespace. */
  function StripLeft(s: string): (r: string)
    ensures |r| <= |s| && r == s[|s| - |r|..]
    ensures forall i :: 0 <= i < |s| - |r| ==> IsSpace(s[i])
    ensures r != [] ==> !IsSpace(r[0])
  {
    if s != [] && IsSpace(s[0]) then StripLeft(s[1..]) else s
  }

  /** `s` without its trailing whitespace. */
  function StripRight(s: string): (r: string)
    ensures |r| <= |s| && r == s[..|r|]
    ensures forall i :: |r| <= i < |s| ==> IsSpace(s[i])
    ensures r != [] ==> !IsSpace(r[|r| - 1])
  {
    if s != [] && IsSpace(s[|s| - 1]) then StripRight(s[..|s| - 1]) else s
  }

  /** `r` is `s` with the first `k` characters and everything after `r`'s end, all whitespace, cut off. */
  predicate TrimmedAt(r: string, s: string, k: int)
  {
    0 <= k <= |s| - |r| && r == s[k..k + |r|] && Blank(s[..k]) && Blank(s[k + |r|..])
  }

  /** `r` is what is left of `s` once some run of whitespace is cut from each end. */
  predicate TrimmedFrom(r: string, s: string)
  {
    exists k :: 0 <= k <= |s| && TrimmedAt(r, s, k)
  }

  /**
    * Python's `str.strip()` with no argument: the part of `s` left once the
    * whitespace at both ends is removed.
    */
  function Strip(s: string): (r: string)
    ensures |r| <= |s|
    ensures r == "" <==> Blank(s)
    ensures r != "" ==> !IsSpace(r[0]) && !IsSpace(r[|r| - 1])
  {
    var l := StripLeft(s);
    var r := StripRight(l);
    assert r != [] ==> r[0] == l[0];
    r
  }

  /** What `StripLeft` cuts off is whitespace. */
  lemma StripLeftCutIsBlank(s: string)
    ensures Blank(s[..|s| - |StripLeft(s)|])
  {
    var lead := s[..|s| - |StripLeft(s)|];
    forall i | 0 <= i < |lead| ensures IsSpace(lead[i]) {
      assert lead[i] == s[i];
    }
  }

  /** What `StripRight` cuts off is whitespace. */
  lemma StripRightCutIsBlank(s: string)
    ensures Blank(s[|StripRight(s)|..])
  {
    var rest := s[|StripRight(s)|..];
    forall i | 0 <= i < |rest| ensures IsSpace(rest[i]) {
      assert rest[i] == s[|StripRight(s)| + i];
    }
  }

  /** The stripped value is the part of the input left once the whitespace at both ends is cut off. */
  lemma StripKeepsMiddle(s: string)
    ensures TrimmedFrom(Strip(s), s)
  {
    var l := StripLeft(s);
    var r := StripRight(l);
    var k := |s| - |l|;
    StripLeftCutIsBlank(s);
    StripRightCutIsBlank(l);
    assert s[k + |r|..] == l[|r|..];
    assert r == s[k..k + |r|];
    assert TrimmedAt(r, s, k);
  }

  /** Stripping is idempotent: a value `not_empty` returns passes it again unchanged. */
  lemma StripIdempotent(s: string)
    ensures Strip(Strip(s)) == Strip(s)
  {
    var t := Strip(s);
    if t != [] {
      assert StripLeft(t) == t;
      assert StripRight(t) == t;
    }
  }

  /**
    * `Employee.not_empty`: an empty or all-whitespace value is refused;
    * any other value is accepted with its surrounding whitespace removed.
    */
  function NotEmpty(v: string): (r: Result<string, string>)
    ensures r.Failure? <==> Blank(v)
    ensures r.Failure? ==> r.error == EMPTY_FIELD
    ensures r.Success? ==> r.value == Strip(v) && r.value != ""
    ensures r.Success? ==> !IsSpace(r.value[0]) && !IsSpace(r.value[|r.value| - 1])
  {
    if v == "" || Strip(v) == "" then Failure(EMPTY_FIELD) else Success(Strip(v))
  }

  /** `Attendance.validate_status`: exactly "Present" and "Absent" pass, unchanged. */
  function ValidateStatus(v: string): (r: Result<string, string>)
    ensures r.Success? <==> v == PRESENT || v == ABSENT
    ensures r.Success? ==> r.value == v
    ensures r.Failure? ==> r.error == BAD_STATUS
  {
    if v in [PRESENT, ABSENT] then Success(v) else Failure(BAD_STATUS)
  }

  /** Whether `f` is one of the fields `not_empty` checks and its value in `body` is blank. */
  predicate BlankIn(body: Employee, f: Field)
  {
    match f
    case EmployeeIdField => Blank(body.employee_id)
    case FullNameField => Blank(body.full_name)
    case DepartmentField => Blank(body.department)
    case StatusField => false
  }

  /**
    * One error per blank field among employee_id, full_name and department:
    * every entry names a blank field, every blank field has an entry, and the
    * entries follow the field order (so no field is reported twice).
    */
  function BlankFields(body: Employee): (errors: seq<FieldError>)
    ensures forall i :: 0 <= i < |errors| ==> errors[i].message == EMPTY_FIELD && BlankIn(body, errors[i].field)
    ensures forall i, j :: 0 <= i < j < |errors| ==> Position(errors[i].field) < Position(errors[j].field)
    ensures FieldError(EmployeeIdField, EMPTY_FIELD) in errors <==> Blank(body.employee_id)
    ensures FieldError(FullNameField, EMPTY_FIELD) in errors <==> Blank(body.full_name)
    ensures FieldError(DepartmentField, EMPTY_FIELD) in errors <==> Blank(body.department)
    ensures errors == [] <==> !Blank(body.employee_id) && !Blank(body.full_name) && !Blank(body.department)
  {
    (if Blank(body.employee_id) then [FieldError(EmployeeIdField, EMPTY_FIELD)] else [])
    + (if Blank(body.full_name) then [FieldError(FullNameField, EMPTY_FIELD)] else [])
    + (if Blank(body.department) then [FieldError(DepartmentField, EMPTY_FIELD)] else [])
  }

  /**
    * Validation of an `Employee` request body: `not_empty` runs on
    * employee_id, full_name and department and every failing field is
    * reported; the accepted body carries the stripped values. (The e-mail
    * format check is not part of this model.)
    */
  function ValidateEmployee(body: Employee): (r: Result<Employee, seq<FieldError>>)
    ensures r.Success? <==> !Blank(body.employee_id) && !Blank(body.full_name) && !Blank(body.department)
    ensures r.Success? ==> r.value == Employee(Strip(body.employee_id), Strip(body.full_name), body.email, Strip(body.department))
    ensures r.Failure? ==> r.error == BlankFields(body) && r.error != []
  {
    if Blank(body.employee_id) || Blank(body.full_name) || Blank(body.department) then Failure(BlankFields(body))
    else
      var id := NotEmpty(body.employee_id);
      var name := NotEmpty(body.full_name);
      var dept := NotEmpty(body.department);
      Success(Employee(id.value, name.value, body.email, dept.value))
  }

  // ---------------------------------------------------------------------
  // Queries over the tables
  // ---------------------------------------------------------------------

  /** `SELECT employee_id FROM employees WHERE employee_id=%s` returns a row. */
  predicate IdTaken(employees: seq<Employee>, id: string)
  {
    exists i :: 0 <= i < |employees| && employees[i].employee_id == id
  }

  /** `SELECT email FROM employees WHERE email=%s` returns a row. */
  predicate EmailTaken(employees: seq<Employee>, email: string)
  {
    exists i :: 0 <= i < |employees| && employees[i].email == email
  }

  /** The employee row with the given id, if there is one. */
  function FindEmployee(employees: seq<Employee>, id: string): (r: Option<Employee>)
    ensures r.Some? <==> IdTaken(employees, id)
    ensures r.Some? ==> r.value in employees && r.value.employee_id == id
  {
    if employees == [] then None
    else if employees[0].employee_id == id then Some(employees[0])
    else FindEmployee(employees[1..], id)
  }

  /** The attendance columns of each joined row, in order. */
  function RowsOf(r: seq<JoinedRecord>): (rows: seq<AttendanceRow>)
    ensures |rows| == |r|
    ensures forall j :: 0 <= j < |r| ==> rows[j] == RowOf(r[j])
  {
    if r == [] then [] else [RowOf(r[0])] + RowsOf(r[1..])
  }

  /** The joined row carries the name and department of an employee with its id. */
  ghost predicate Describes(employees: seq<Employee>, j: JoinedRecord)
  {
    exists e :: e in employees && e.employee_id == j.employee_id && e.full_name == j.full_name && e.department == j.department
  }

  /**
    * `SELECT a.*, e.full_name, e.department FROM attendance a JOIN employees e
    * ON a.employee_id = e.employee_id`, with employee ids unique: one joined
    * row per attendance row whose employee exists, none for the others.
    */
  function Join(rows: seq<AttendanceRow>, employees: seq<Employee>): (r: seq<JoinedRecord>)
    ensures |r| <= |rows|
    ensures forall j :: 0 <= j < |r| ==> RowOf(r[j]) in rows && Describes(employees, r[j])
  {
    if rows == [] then []
    else
      var a := rows[0];
      var head := match FindEmployee(employees, a.employee_id)
        case Some(e) => [JoinedRecord(a.employee_id, a.attendance_date, a.status, e.full_name, e.department)]
        case None => [];
      head + Join(rows[1..], employees)
  }

  lemma RowsOfAppend(r: seq<JoinedRecord>, t: seq<JoinedRecord>)
    ensures RowsOf(r + t) == RowsOf(r) + RowsOf(t)
  {
  }

  /** One step of the join: the first attendance row is kept exactly when its employee exists. */
  lemma JoinCons(rows: seq<AttendanceRow>, employees: seq<Employee>)
    requires rows != []
    ensures RowsOf(Join(rows, employees)) ==
              (if IdTaken(employees, rows[0].employee_id) then [rows[0]] else []) + RowsOf(Join(rows[1..], employees))
  {
    var b := rows[0];
    var joinedTail := Join(rows[1..], employees);
    match FindEmployee(employees, b.employee_id)
    case None =>
      assert Join(rows, employees) == joinedTail;
    case Some(e) =>
      var j := JoinedRecord(b.employee_id, b.attendance_date, b.status, e.full_name, e.department);
      assert Join(rows, employees) == [j] + joinedTail;
      RowsOfAppend([j], joinedTail);
  }

  /**
    * The join returns each attendance row of an existing employee as many
    * times as the table holds it (once, under the unique key), and no other row.
    */
  lemma {:induction false} JoinMultiplicity(rows: seq<AttendanceRow>, employees: seq<Employee>, a: AttendanceRow)
    ensures multiset(RowsOf(Join(rows, employees)))[a] ==
              if IdTaken(employees, a.employee_id) then multiset(rows)[a] else 0
  {
    if rows != [] {
      JoinCons(rows, employees);
      JoinMultiplicity(rows[1..], employees, a);
      JoinStepCount(rows, RowsOf(Join(rows[1..], employees)), RowsOf(Join(rows, employees)),
                    IdTaken(employees, rows[0].employee_id), IdTaken(employees, a.employee_id), a);
    }
  }

  /**
    * One step of the count: if the joined rows are `rows[0]` (when kept) before
    * the joined tail, and the tail's count is right, so is the count for `rows`.
    */
  lemma JoinStepCount(rows: seq<AttendanceRow>, joined: seq<AttendanceRow>, whole: seq<AttendanceRow>,
                      keep: bool, taken: bool, a: AttendanceRow)
    requires rows != []
    requires whole == (if keep then [rows[0]] else []) + joined
    requires multiset(joined)[a] == if taken then multiset(rows[1..])[a] else 0
    requires a == rows[0] ==> keep == taken
    ensures multiset(whole)[a] == if taken then multiset(rows)[a] else 0
  {
    assert rows == [rows[0]] + rows[1..];
    Seqs.CountCons(rows[0], rows[1..], a);
    if keep {
      Seqs.CountCons(rows[0], joined, a);
    } else {
      assert whole == joined;
    }
  }



  /** An attendance row appears in the join exactly when its employee exists. */
  lemma {:induction false} JoinListsExactly(rows: seq<AttendanceRow>, employees: seq<Employee>, a: AttendanceRow)
    requires a in rows
    ensures a in RowsOf(Join(rows, employees)) <==> IdTaken(employees, a.employee_id)
  {
    var b := rows[0];
    var head := match FindEmployee(employees, b.employee_id)
      case Some(e) => [JoinedRecord(b.employee_id, b.attendance_date, b.status, e.full_name, e.department)]
      case None => [];
    var tail := Join(rows[1..], employees);
    assert Join(rows, employees) == head + tail;
    RowsOfAppend(head, tail);
    if a in rows[1..] {
      JoinListsExactly(rows[1..], employees, a);
    }
    if a != b {
      assert a in rows[1..];
    }
  }

  /** The `WHERE attendance_date = CURDATE() AND status='Present'` condition, with `today` for `CURDATE()`. */
  function PresentOnDay(today: string): AttendanceRow -> bool
  {
    (a: AttendanceRow) => a.attendance_date == today && a.status == PRESENT
  }

  /** `SELECT COUNT(*) FROM attendance WHERE attendance_date = CURDATE() AND status='Present'`. */
  function PresentOn(rows: seq<AttendanceRow>, today: string): (n: nat)
    ensures n == |Seqs.Filter(PresentOnDay(today), rows)|
    ensures n <= |rows|
    ensures n == 0 <==> forall i :: 0 <= i < |rows| ==> !PresentOnDay(today)(rows[i])
    ensures n == |rows| <==> forall i :: 0 <= i < |rows| ==> PresentOnDay(today)(rows[i])
  {
    if rows == [] then 0
    else
      var n := PresentOn(rows[1..], today);
      Seqs.FilterCount(PresentOnDay(today), rows);
      (if PresentOnDay(today)(rows[0]) then 1 else 0) + n
  }

  /** Whether some row of `rows` has the key `k`. */
  predicate HasKey(rows: seq<AttendanceRow>, k: (string, string))
  {
    exists i :: 0 <= i < |rows| && KeyOf(rows[i]) == k
  }

  /**
    * `INSERT INTO attendance ... ON DUPLICATE KEY UPDATE status=%s` on the key
    * (employee_id, attendance_date): the row with that key gets the new status,
    * or the new row is added when there is none.
    */
  function Upsert(rows: seq<AttendanceRow>, row: AttendanceRow): (r: seq<AttendanceRow>)
    ensures HasKey(rows, KeyOf(row)) ==> |r| == |rows|
    ensures !HasKey(rows, KeyOf(row)) ==> r == rows + [row]
    ensures row in r
    ensures forall i :: 0 <= i < |rows| && KeyOf(rows[i]) != KeyOf(row) ==> rows[i] in r
    ensures forall i :: 0 <= i < |r| ==> r[i] == row || r[i] in rows
  {
    if rows == [] then [row]
    else if KeyOf(rows[0]) == KeyOf(row) then [rows[0].(status := row.status)] + rows[1..]
    else
      var tail := Upsert(rows[1..], row);
      assert forall i :: 1 <= i < |rows| ==> rows[i] == rows[1..][i - 1];
      assert HasKey(rows, KeyOf(row)) ==> HasKey(rows[1..], KeyOf(row));
      [rows[0]] + tail
  }

  /** When the key is present (and keys are unique), the upsert replaces only that row's status, in place. */
  lemma {:induction false} UpsertInPlace(rows: seq<AttendanceRow>, row: AttendanceRow, i: nat)
    requires Seqs.Distinct(rows, KeyOf)
    requires i < |rows| && KeyOf(rows[i]) == KeyOf(row)
    ensures Upsert(rows, row) == rows[i := rows[i].(status := row.status)]
  {
    if i > 0 {
      assert KeyOf(rows[0]) != KeyOf(rows[i]);
      var tail := rows[1..];
      assert Seqs.Distinct(tail, KeyOf) by {
        forall p, q | 0 <= p < q < |tail| ensures KeyOf(tail[p]) != KeyOf(tail[q]) {
          assert tail[p] == rows[p + 1] && tail[q] == rows[q + 1];
        }
      }
      UpsertInPlace(tail, row, i - 1);
      assert rows[i := rows[i].(status := row.status)] == [rows[0]] + tail[i - 1 := tail[i - 1].(status := row.status)];
    }
  }

  /** After the upsert there is still at most one row per (employee_id, attendance_date). */
  lemma {:induction false} UpsertKeepsKeysUnique(rows: seq<AttendanceRow>, row: AttendanceRow)
    requires Seqs.Distinct(rows, KeyOf)
    ensures Seqs.Distinct(Upsert(rows, row), KeyOf)
  {
    if HasKey(rows, KeyOf(row)) {
      var i :| 0 <= i < |rows| && KeyOf(rows[i]) == KeyOf(row);
      UpsertInPlace(rows, row, i);
      var r := Upsert(rows, row);
      forall p, q | 0 <= p < q < |r| ensures KeyOf(r[p]) != KeyOf(r[q]) {
        assert KeyOf(r[p]) == KeyOf(rows[p]) && KeyOf(r[q]) == KeyOf(rows[q]);
      }
    } else {
      Seqs.DistinctAppend(rows, KeyOf, row);
    }
  }

  /** The `WHERE employee_id != %s` condition of the cascade on `attendance`. */
  function NotOfEmployee(id: string): AttendanceRow -> bool
  {
    (a: AttendanceRow) => a.employee_id != id
  }

  /** The `WHERE employee_id != %s` condition of the delete on `employees`. */
  function NotEmployee(id: string): Employee -> bool
  {
    (e: Employee) => e.employee_id != id
  }

  /**
    * Deleting an employee's attendance rows removes exactly those rows, keeps
    * the order of the others and keeps the (employee_id, date) key unique.
    */
  lemma DeleteRowsOf(rows: seq<AttendanceRow>, id: string)
    requires Seqs.Distinct(rows, KeyOf)
    ensures var r := Seqs.Filter(NotOfEmployee(id), rows);
      && Seqs.Distinct(r, KeyOf)
      && Seqs.IsSubseq(r, rows)
      && (forall i :: 0 <= i < |r| ==> r[i].employee_id != id && r[i] in rows)
      && (forall i :: 0 <= i < |rows| && rows[i].employee_id != id ==> rows[i] in r)
      && ((forall i :: 0 <= i < |rows| ==> rows[i].employee_id != id) ==> r == rows)
  {
    var keep := NotOfEmployee(id);
    Seqs.FilterIsSubseq(keep, rows);
    Seqs.DistinctFilter(rows, KeyOf, keep);
    if forall i :: 0 <= i < |rows| ==> keep(rows[i]) {
      Seqs.FilterAll(keep, rows);
    }
  }

  /**
    * Deleting an employee removes exactly the employees with that id, keeps the
    * order of the others and keeps ids and emails unique.
    */
  lemma DeleteEmployeeRow(employees: seq<Employee>, id: string)
    requires Seqs.Distinct(employees, IdOf) && Seqs.Distinct(employees, EmailOf)
    ensures var r := Seqs.Filter(NotEmployee(id), employees);
      && Seqs.Distinct(r, IdOf) && Seqs.Distinct(r, EmailOf)
      && Seqs.IsSubseq(r, employees)
      && !IdTaken(r, id)
      && (forall i :: 0 <= i < |r| ==> r[i] in employees)
      && (forall i :: 0 <= i < |employees| && employees[i].employee_id != id ==> employees[i] in r)
      && (!IdTaken(employees, id) ==> r == employees)
  {
    var keep := NotEmployee(id);
    Seqs.FilterIsSubseq(keep, employees);
    Seqs.DistinctFilter(employees, IdOf, keep);
    Seqs.DistinctFilter(employees, EmailOf, keep);
    if !IdTaken(employees, id) {
      Seqs.FilterAll(keep, employees);
    }
  }

  // ---------------------------------------------------------------------
  // The tables and the handlers that change them
  // ---------------------------------------------------------------------

  class Database {
    var employees: seq<Employee>
    var attendance: seq<AttendanceRow>

    /** Employee ids and e-mails are unique, and so is the attendance key. */
    ghost predicate Valid()
      reads this
    {
      Seqs.Distinct(employees, IdOf) && Seqs.Distinct(employees, EmailOf) && Seqs.Distinct(attendance, KeyOf)
    }

    constructor ()
      ensures Valid() && employees == [] && attendance == []
    {
      employees, attendance := [], [];
    }

    /**
      * `POST /api/employees`: the body is validated; then an existing id is
      * refused, then an existing e-mail, and otherwise the employee is inserted.
      */
    method CreateEmployee(body: Employee) returns (resp: Response)
      requires Valid()
      modifies this
      ensures Valid()
      ensures attendance == old(attendance)
      ensures ValidateEmployee(body).Failure? ==>
                resp == Invalid(ValidateEmployee(body).error) && employees == old(employees)
      ensures ValidateEmployee(body).Success? ==>
                var e := ValidateEmployee(body).value;
                (IdTaken(old(employees), e.employee_id) ==>
                   resp == Rejected(400, ID_EXISTS) && employees == old(employees))
                && (!IdTaken(old(employees), e.employee_id) && EmailTaken(old(employees), e.email) ==>
                   resp == Rejected(400, EMAIL_EXISTS) && employees == old(employees))
                && (!IdTaken(old(employees), e.employee_id) && !EmailTaken(old(employees), e.email) ==>
                   resp == Done(EMPLOYEE_CREATED) && employees == old(employees) + [e])
    {
      var valid := ValidateEmployee(body);
      if valid.Failure? {
        return Invalid(valid.error);
      }
      var employee := valid.value;
      if IdTaken(employees, employee.employee_id) {
        return Rejected(400, ID_EXISTS);
      }
      if EmailTaken(employees, employee.email) {
        return Rejected(400, EMAIL_EXISTS);
      }
      Seqs.DistinctAppend(employees, IdOf, employee);
      Seqs.DistinctAppend(employees, EmailOf, employee);
      employees := employees + [employee];
      resp := Done(EMPLOYEE_CREATED);
    }

    /**
      * `DELETE /api/employees/{employee_id}`: the employee's attendance rows are
      * deleted, then the employee. An unknown id deletes nothing and still succeeds.
      */
    method DeleteEmployee(employeeId: string) returns (resp: Response)
      requires Valid()
      modifies this
      ensures Valid()
      ensures resp == Done(EMPLOYEE_DELETED)
      ensures forall i :: 0 <= i < |attendance| ==> attendance[i].employee_id != employeeId
      ensures forall i :: 0 <= i < |attendance| ==> attendance[i] in old(attendance)
      ensures forall i :: 0 <= i < |old(attendance)| && old(attendance)[i].employee_id != employeeId
                ==> old(attendance)[i] in attendance
      ensures Seqs.IsSubseq(attendance, old(attendance))
      ensures !IdTaken(employees, employeeId)
      ensures forall i :: 0 <= i < |employees| ==> employees[i] in old(employees)
      ensures forall i :: 0 <= i < |old(employees)| && old(employees)[i].employee_id != employeeId
                ==> old(employees)[i] in employees
      ensures Seqs.IsSubseq(employees, old(employees))
      ensures !IdTaken(old(employees), employeeId) ==> employees == old(employees)
      ensures (forall i :: 0 <= i < |old(attendance)| ==> old(attendance)[i].employee_id != employeeId)
                ==> attendance == old(attendance)
    {
      DeleteRowsOf(attendance, employeeId);
      attendance := Seqs.Filter(NotOfEmployee(employeeId), attendance);
      DeleteEmployeeRow(employees, employeeId);
      employees := Seqs.Filter(NotEmployee(employeeId), employees);
      resp := Done(EMPLOYEE_DELETED);
    }

    /**
      * `POST /api/attendance`: the status is validated, then the row is
      * upserted on (employee_id, attendance_date). No check that the employee
      * exists is made here.
      */
    method MarkAttendance(body: AttendanceRow) returns (resp: Response)
      requires Valid()
      modifies this
      ensures Valid()
      ensures employees == old(employees)
      ensures ValidateStatus(body.status).Failure? ==>
                resp == Invalid([FieldError(StatusField, BAD_STATUS)]) && attendance == old(attendance)
      ensures ValidateStatus(body.status).Success? ==>
                resp == Done(ATTENDANCE_MARKED) && attendance == Upsert(old(attendance), body)
    {
      var status := ValidateStatus(body.status);
      if status.Failure? {
        return Invalid([FieldError(StatusField, status.error)]);
      }
      UpsertKeepsKeysUnique(attendance, body);
      attendance := Upsert(attendance, body);
      resp := Done(ATTENDANCE_MARKED);
    }

    /** `GET /api/attendance`: each attendance row of an existing employee, with that employee's name and department. */
    function AllAttendance(): (r: seq<JoinedRecord>)
      reads this
      ensures forall j :: 0 <= j < |r| ==> RowOf(r[j]) in attendance && Describes(employees, r[j])
      ensures forall a :: a in attendance ==> (a in RowsOf(r) <==> IdTaken(employees, a.employee_id))
      ensures forall a :: multiset(RowsOf(r))[a] == if IdTaken(employees, a.employee_id) then multiset(attendance)[a] else 0
    {
      var r := Join(attendance, employees);
      assert forall a :: a in attendance ==> (a in RowsOf(r) <==> IdTaken(employees, a.employee_id)) by {
        forall a | a in attendance ensures a in RowsOf(r) <==> IdTaken(employees, a.employee_id) {
          JoinListsExactly(attendance, employees, a);
        }
      }
      assert forall a :: multiset(RowsOf(r))[a] == if IdTaken(employees, a.employee_id) then multiset(attendance)[a] else 0 by {
        forall a ensures multiset(RowsOf(r))[a] == if IdTaken(employees, a.employee_id) then multiset(attendance)[a] else 0 {
          JoinMultiplicity(attendance, employees, a);
        }
      }
      r
    }

    /** `GET /api/stats` on the day `today`. */
    function GetStats(today: string): (s: Stats)
      reads this
      ensures s.total_employees == |employees|
      ensures s.total_records == |attendance|
      ensures s.present_today == |Seqs.Filter(PresentOnDay(today), attendance)|
      ensures s.present_today <= s.total_records
      ensures s.present_today == 0 <==>
                forall i :: 0 <= i < |attendance| ==> !PresentOnDay(today)(attendance[i])
    {
      Stats(|employees|, PresentOn(attendance, today), |attendance|)
    }
  }
}
