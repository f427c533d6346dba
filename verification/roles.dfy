/**
 * Role rules of hrm/employees.php: the level-table permission check (the
 * table is a parameter, so the same check serves the employees page and
 * the leave page), the employee_type to user-role mapping, the defaults
 * applied when an employee is added, and the filter-clause builder.
 */
module Roles {

  /** A role-name to level table; a role missing from it has level 0. */
  type LevelTable = map<string, int>

  /** The table of hrm/employees.php. */
  const EmployeesPageLevels: LevelTable :=
    map["section_head" := 4, "super_admin" := 3, "hr_manager" := 2, "dept_head" := 1, "employee" := 0]

  /** The table of hrm/leave_management.php. */
  const LeavePageLevels: LevelTable :=
    map["super_admin" := 5, "hr_manager" := 4, "dept_head" := 3, "section_head" := 2,
        "manager" := 1, "employee" := 0]

  function Level(table: LevelTable, role: string): int {
    if role in table then table[role] else 0
  }

  /** `hasPermission`: the user's level is at least the required role's level. */
  function HasPermission(table: LevelTable, userRole: string, requiredRole: string): (granted: bool)
    ensures granted <==> Level(table, userRole) >= Level(table, requiredRole)
  {
    Level(table, userRole) >= Level(table, requiredRole)
  }

  predicate NonNegativeLevels(table: LevelTable) {
    forall r :: r in table ==> table[r] >= 0
  }

  /** A required role absent from a non-negative table is granted to every user. */
  lemma UnknownRequiredRoleGrantedToAll(table: LevelTable, userRole: string, requiredRole: string)
    requires NonNegativeLevels(table) && requiredRole !in table
    ensures HasPermission(table, userRole, requiredRole)
  {
  }

  /** The check is a total preorder: reflexive, transitive and total. */
  lemma PermissionIsTotalPreorder(table: LevelTable, a: string, b: string, c: string)
    ensures HasPermission(table, a, a)
    ensures HasPermission(table, a, b) && HasPermission(table, b, c) ==> HasPermission(table, a, c)
    ensures HasPermission(table, a, b) || HasPermission(table, b, a)
  {
  }

  /**
   * On the employees page a section head outranks a super admin, and the
   * 'officer' role asked for by the navigation menu is granted to everyone,
   * including a session with no role ('guest').
   */
  lemma EmployeesPageQuirks()
    ensures HasPermission(EmployeesPageLevels, "section_head", "super_admin")
    ensures !HasPermission(EmployeesPageLevels, "super_admin", "section_head")
    ensures forall role :: HasPermission(EmployeesPageLevels, role, "officer")
  {
    assert NonNegativeLevels(EmployeesPageLevels);
    forall role ensures HasPermission(EmployeesPageLevels, role, "officer") {
      UnknownRequiredRoleGrantedToAll(EmployeesPageLevels, role, "officer");
    }
  }

  /** On the leave page only super_admin and hr_manager pass the 'hr_manager' check. */
  lemma LeavePageHrManagerCheck(role: string)
    ensures HasPermission(LeavePageLevels, role, "hr_manager") <==> role == "super_admin" || role == "hr_manager"
  {
  }

  /** The employee_type switch shared by the add and the edit path. */
  function RoleForEmployeeType(employeeType: string): (role: string)
    ensures role in EmployeesPageLevels && role in LeavePageLevels
    ensures role == "super_admin" <==> employeeType == "managing_director" || employeeType == "bod_chairman"
    ensures role == "hr_manager" <==> employeeType == "manager"
    ensures role == "dept_head" <==> employeeType == "dept_head"
    ensures role == "section_head" <==> employeeType == "section_head"
    ensures role == "employee" <==>
              employeeType !in {"managing_director", "bod_chairman", "dept_head", "manager", "section_head"}
  {
    match employeeType
    case "managing_director" => "super_admin"
    case "bod_chairman" => "super_admin"
    case "dept_head" => "dept_head"
    case "manager" => "hr_manager"
    case "section_head" => "section_head"
    case _ => "employee"
  }

  /** PHP's `?:`: "" and "0" are falsy and are replaced by the default. */
  function OrDefault(value: string, default: string): (r: string)
    ensures (value == "" || value == "0") ==> r == default
    ensures !(value == "" || value == "0") ==> r == value
  {
    if value == "" || value == "0" then default else value
  }

  /** The designation and employment type stored by the add path. */
  function AddEmployeeDefaults(designation: string, employmentType: string): (r: (string, string))
    ensures (designation == "" || designation == "0") ==> r.0 == "Employee"
    ensures (employmentType == "" || employmentType == "0") ==> r.1 == "permanent"
    ensures designation != "" && designation != "0" ==> r.0 == designation
    ensures employmentType != "" && employmentType != "0" ==> r.1 == employmentType
  {
    (OrDefault(designation, "Employee"), OrDefault(employmentType, "permanent"))
  }

  // The filter builder of the employee listing.

  datatype EmployeeFilters = EmployeeFilters(search: string, department: string, section: string,
                                             employeeType: string, status: string)

  datatype FilterKind = Search | Department | Section | EmployeeType | Status

  /** PHP's `empty()` on a string. */
  predicate IsEmptyText(s: string) {
    s == "" || s == "0"
  }

  function FilterValue(f: EmployeeFilters, k: FilterKind): string {
    match k
    case Search => f.search
    case Department => f.department
    case Section => f.section
    case EmployeeType => f.employeeType
    case Status => f.status
  }

  const FilterOrder: seq<FilterKind> := [Search, Department, Section, EmployeeType, Status]

  /** The set filters among the first `n` of the fixed order. */
  function ActiveAmongFirst(f: EmployeeFilters, n: nat): (ks: seq<FilterKind>)
    requires n <= |FilterOrder|
    ensures |ks| <= n
  {
    if n == 0 then []
    else
      var k := FilterOrder[n - 1];
      ActiveAmongFirst(f, n - 1) + (if IsEmptyText(FilterValue(f, k)) then [] else [k])
  }

  /** The filters that are set, in the fixed order the builder tests them. */
  function ActiveFilters(f: EmployeeFilters): (ks: seq<FilterKind>)
    ensures |ks| <= 5
  {
    ActiveAmongFirst(f, 5)
  }

  lemma {:induction false} ActiveAmongFirstMembers(f: EmployeeFilters, n: nat, k: FilterKind)
    requires n <= |FilterOrder|
    ensures k in ActiveAmongFirst(f, n) <==> k in FilterOrder[..n] && !IsEmptyText(FilterValue(f, k))
  {
    if n > 0 {
      ActiveAmongFirstMembers(f, n - 1, k);
      PrefixGrowsByOne(FilterOrder, n, k);
    }
  }

  lemma PrefixGrowsByOne(order: seq<FilterKind>, n: nat, k: FilterKind)
    requires 0 < n <= |order|
    ensures k in order[..n] <==> k in order[..n - 1] || k == order[n - 1]
  {
    assert order[..n] == order[..n - 1] + [order[n - 1]];
  }

  /** A filter takes part exactly when it is set; none takes part exactly when none is set. */
  lemma ActiveFiltersAreTheSetOnes(f: EmployeeFilters)
    ensures forall k :: k in ActiveFilters(f) <==> !IsEmptyText(FilterValue(f, k))
    ensures ActiveFilters(f) == [] <==> forall k :: IsEmptyText(FilterValue(f, k))
  {
    forall k ensures k in ActiveFilters(f) <==> !IsEmptyText(FilterValue(f, k)) {
      ActiveAmongFirstMembers(f, 5, k);
      assert FilterOrder[..5] == FilterOrder;
      match k
      case Search => assert k == FilterOrder[0];
      case Department => assert k == FilterOrder[1];
      case Section => assert k == FilterOrder[2];
      case EmployeeType => assert k == FilterOrder[3];
      case Status => assert k == FilterOrder[4];
    }
    if ActiveFilters(f) != [] {
      var k := ActiveFilters(f)[0];
      assert !IsEmptyText(FilterValue(f, k));
    }
  }

  function Condition(k: FilterKind): string {
    match k
    case Search => "(e.first_name LIKE ? OR e.last_name LIKE ? OR e.employee_id LIKE ? OR e.email LIKE ?)"
    case Department => "e.department_id = ?"
    case Section => "e.section_id = ?"
    case EmployeeType => "e.employee_type = ?"
    case Status => "e.employee_status = ?"
  }

  /** The bound parameters one filter adds. */
  function ParamsOf(f: EmployeeFilters, k: FilterKind): seq<string> {
    match k
    case Search => var like := "%" + f.search + "%"; [like, like, like, like]
    case _ => [FilterValue(f, k)]
  }

  /** The bind_param type letters one filter adds. */
  function TypesOf(k: FilterKind): string {
    match k
    case Search => "ssss"
    case Department => "i"
    case Section => "i"
    case _ => "s"
  }

  function Conditions(ks: seq<FilterKind>): (cs: seq<string>)
    ensures |cs| == |ks|
    ensures forall i :: 0 <= i < |ks| ==> cs[i] == Condition(ks[i])
  {
    if ks == [] then [] else Conditions(ks[..|ks| - 1]) + [Condition(ks[|ks| - 1])]
  }

  function AllParams(f: EmployeeFilters, ks: seq<FilterKind>): seq<string> {
    if ks == [] then [] else AllParams(f, ks[..|ks| - 1]) + ParamsOf(f, ks[|ks| - 1])
  }

  function AllTypes(ks: seq<FilterKind>): string {
    if ks == [] then [] else AllTypes(ks[..|ks| - 1]) + TypesOf(ks[|ks| - 1])
  }

  /** The type string always has one letter per bound parameter. */
  lemma {:induction false} TypesMatchParams(f: EmployeeFilters, ks: seq<FilterKind>)
    ensures |AllTypes(ks)| == |AllParams(f, ks)|
  {
    if ks != [] {
      TypesMatchParams(f, ks[..|ks| - 1]);
    }
  }

  /** `implode(sep, xs)`. */
  function Join(xs: seq<string>, sep: string): string {
    if xs == [] then ""
    else if |xs| == 1 then xs[0]
    else Join(xs[..|xs| - 1], sep) + sep + xs[|xs| - 1]
  }

  /** Appending one filter extends each of the three lists by that filter's part. */
  lemma AppendFilter(f: EmployeeFilters, ks: seq<FilterKind>, k: FilterKind)
    ensures Conditions(ks + [k]) == Conditions(ks) + [Condition(k)]
    ensures AllParams(f, ks + [k]) == AllParams(f, ks) + ParamsOf(f, k)
    ensures AllTypes(ks + [k]) == AllTypes(ks) + TypesOf(k)
  {
    assert (ks + [k])[..|ks|] == ks;
  }

  /**
   * One `if (!empty($filter)) { ... }` block of the filter builder: when the
   * `n`-th filter is set, append its condition, its parameters and its type
   * letters.
   */
  method AppendIfSet(f: EmployeeFilters, n: nat,
                     conditions: seq<string>, params: seq<string>, types: string)
    returns (conditions': seq<string>, params': seq<string>, types': string)
    requires n < |FilterOrder|
    requires conditions == Conditions(ActiveAmongFirst(f, n))
    requires params == AllParams(f, ActiveAmongFirst(f, n)) && types == AllTypes(ActiveAmongFirst(f, n))
    ensures conditions' == Conditions(ActiveAmongFirst(f, n + 1))
    ensures params' == AllParams(f, ActiveAmongFirst(f, n + 1)) && types' == AllTypes(ActiveAmongFirst(f, n + 1))
  {
    var k := FilterOrder[n];
    conditions', params', types' := conditions, params, types;
    if IsEmptyText(FilterValue(f, k)) {
      assert ActiveAmongFirst(f, n + 1) == ActiveAmongFirst(f, n) + [];
      assert ActiveAmongFirst(f, n) + [] == ActiveAmongFirst(f, n);
    }
    if !IsEmptyText(FilterValue(f, k)) {
      AppendFilter(f, ActiveAmongFirst(f, n), k);
      conditions' := conditions + [Condition(k)];
      params' := params + ParamsOf(f, k);
      types' := types + TypesOf(k);
    }
  }

  /**
   * The filter block of hrm/employees.php: tests search, department,
   * section, type and status in that order, appending one condition, its
   * parameters and its type letters per set filter, then joins the
   * conditions with " AND " behind "WHERE ".
   */
  method BuildEmployeeFilter(f: EmployeeFilters)
    returns (conditions: seq<string>, params: seq<string>, types: string, whereClause: string)
    ensures conditions == Conditions(ActiveFilters(f))
    ensures params == AllParams(f, ActiveFilters(f)) && types == AllTypes(ActiveFilters(f))
    ensures |types| == |params|
    ensures whereClause == if conditions == [] then "" else "WHERE " + Join(conditions, " AND ")
    ensures whereClause == "" <==> forall k :: IsEmptyText(FilterValue(f, k))
  {
    conditions, params, types := [], [], "";
    conditions, params, types := AppendIfSet(f, 0, conditions, params, types);  // search
    conditions, params, types := AppendIfSet(f, 1, conditions, params, types);  // department
    conditions, params, types := AppendIfSet(f, 2, conditions, params, types);  // section
    conditions, params, types := AppendIfSet(f, 3, conditions, params, types);  // type
    conditions, params, types := AppendIfSet(f, 4, conditions, params, types);  // status
    TypesMatchParams(f, ActiveFilters(f));
    ActiveFiltersAreTheSetOnes(f);
    whereClause := if conditions != [] then "WHERE " + Join(conditions, " AND ") else "";
  }
}
