/**
 * The fixed lists of academic departments and administrative units shared by the user
 * records, the notice and event records and the registration form.
 */
module Departments {

  /** The 14 departments a student's branch may name. */
  const Branches: seq<string> := [
    "Computer Science", "Information Technology", "Electronics & Communication", "Civil",
    "Mechanical", "Electrical", "Chemical", "Aerospace", "Marine", "Architecture",
    "Physics", "Chemistry", "Mathematics", "Statistics"
  ]

  /** The 8 administrative units a faculty member may belong to besides the departments. */
  const AdminUnits: seq<string> := [
    "Exam Cell", "Administrative Office", "Library", "Hostel Office", "Placement Cell",
    "Research & Development", "International Relations", "Student Affairs"
  ]

  /** A faculty member's division: a department or an administrative unit. */
  const Divisions: seq<string> := Branches + AdminUnits

  const AllDepartments: string := "All Departments"

  /** The departments a notice or an event may be addressed to. */
  const ContentDepartments: seq<string> := Divisions + [AllDepartments]

  /**
   * Every branch is a division. A student's branch thus always serves as a faculty
   * division, which the conversions to faculty rely on
   * (`AdminController.ToFacultySchemaValid`, `AdminRoutes.StudentConversionAccepted`).
   */
  lemma ListShapes()
    ensures forall b :: b in Branches ==> b in Divisions
  {
  }
}
