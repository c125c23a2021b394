/**
  * The rows the application stores and exchanges: the columns of the
  * `employees` and `attendance` tables that the handlers touch, and the
  * joined attendance row the list endpoint returns. Dates are the
  * `YYYY-MM-DD` text the server sends; they are compared as strings.
  */
module Records {

  datatype Employee = Employee(employee_id: string, full_name: string, email: string, department: string)

  datatype AttendanceRow = AttendanceRow(employee_id: string, attendance_date: string, status: string)

  /** An attendance row with the name and department of its employee (`SELECT a.*, e.full_name, e.department`). */
  datatype JoinedRecord = JoinedRecord(
    employee_id: string,
    attendance_date: string,
    status: string,
    full_name: string,
    department: string)

  function IdOf(e: Employee): string { e.employee_id }

  function EmailOf(e: Employee): string { e.email }

  /**
    * The key of the attendance table. The schema is not part of this model;
    * `ON DUPLICATE KEY UPDATE` in the insert is read as a unique key on
    * (employee_id, attendance_date).
    */
  function KeyOf(a: AttendanceRow): (string, string) { (a.employee_id, a.attendance_date) }

  /** The attendance columns of a joined row. */
  function RowOf(j: JoinedRecord): AttendanceRow { AttendanceRow(j.employee_id, j.attendance_date, j.status) }
}
