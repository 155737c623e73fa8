/**
 * The summary dashboard (components/views/Dashboard.tsx): the monthly IT
 * cost, the alert count, staff per role, staff per clinic and the
 * full-time / part-time split.
 */
module Dashboard {
  import opened Types
  import opened Lists
  import Strings
  import CostAnalysis

  /**
   * `monthlyTotal`: a left-to-right reduce over the systems, adding each
   * system's base fee plus per-user price times its head count.
   */
  function MonthlyTotal(systems: seq<SystemTool>, employees: seq<Employee>): (total: int)
    ensures CostAnalysis.NonNegativePrices(systems) ==> total >= 0
  {
    if systems == [] then 0
    else
      var init, last := systems[..|systems| - 1], systems[|systems| - 1];
      assert forall s :: s in init ==> s in systems;
      assert CostAnalysis.NonNegativePrices(systems) ==> CostAnalysis.SystemCost(last, employees) >= 0 by {
        if CostAnalysis.NonNegativePrices(systems) {
          CostAnalysis.CostIsNonNegative(last, employees);
        }
      }
      MonthlyTotal(init, employees) + CostAnalysis.SystemCost(last, employees)
  }

  lemma {:induction false} TotalAppendRow(rows: seq<CostAnalysis.CostRow>, row: CostAnalysis.CostRow)
    ensures CostAnalysis.Total(rows + [row]) == CostAnalysis.Total(rows) + row.value
  {
    if rows != [] {
      assert (rows + [row])[1..] == rows[1..] + [row];
      TotalAppendRow(rows[1..], row);
    }
  }

  lemma {:induction false} RowsAppend(systems: seq<SystemTool>, s: SystemTool, employees: seq<Employee>)
    ensures CostAnalysis.Rows(systems + [s], employees) == CostAnalysis.Rows(systems, employees) + [CostAnalysis.Row(s, employees)]
  {
    if systems != [] {
      assert (systems + [s])[1..] == systems[1..] + [s];
      RowsAppend(systems[1..], s, employees);
    }
  }

  lemma {:induction false} MonthlyTotalIsRowTotal(systems: seq<SystemTool>, employees: seq<Employee>)
    ensures MonthlyTotal(systems, employees) == CostAnalysis.Total(CostAnalysis.Rows(systems, employees))
    decreases |systems|
  {
    if systems != [] {
      var n := |systems| - 1;
      var init := systems[..n];
      MonthlyTotalIsRowTotal(init, employees);
      RowsAppend(init, systems[n], employees);
      assert init + [systems[n]] == systems;
      TotalAppendRow(CostAnalysis.Rows(init, employees), CostAnalysis.Row(systems[n], employees));
    }
  }

  /** The dashboard's total is the same amount as the cost view's total for the same data. */
  lemma MonthlyTotalMatchesCostView(systems: seq<SystemTool>, employees: seq<Employee>)
    ensures MonthlyTotal(systems, employees) == CostAnalysis.TotalMonthlyCost(systems, employees)
  {
    MonthlyTotalIsRowTotal(systems, employees);
  }

  /** A system under review, or one with open issues, raises an alert. */
  predicate NeedsAttention(system: SystemTool) {
    system.status == SystemStatus.Review || |system.issues| > 0
  }

  /** `activeAlerts`: the number of systems that need attention. */
  function ActiveAlerts(systems: seq<SystemTool>): (n: nat)
    ensures n <= |systems|
    ensures n == 0 <==> forall s :: s in systems ==> !NeedsAttention(s)
    ensures n == |systems| <==> forall s :: s in systems ==> NeedsAttention(s)
  {
    if systems == [] then 0
    else
      assert forall s :: s in systems <==> s == systems[0] || s in systems[1..];
      (if NeedsAttention(systems[0]) then 1 else 0) + ActiveAlerts(systems[1..])
  }

  /** The number of employees with the given role. */
  function RoleCount(employees: seq<Employee>, role: string): (n: nat)
    ensures n <= |employees|
    ensures n == 0 <==> forall i :: 0 <= i < |employees| ==> employees[i].role != role
  {
    if employees == [] then 0
    else
      var init := employees[..|employees| - 1];
      var n := RoleCount(init, role) + (if employees[|employees| - 1].role == role then 1 else 0);
      assert forall i :: 0 <= i < |init| ==> init[i] == employees[i];
      n
  }

  /**
   * The roles in the order JavaScript's `Object.keys` lists them for the
   * `roles` dictionary: each role once, in order of first appearance.
   */
  function DistinctRoles(employees: seq<Employee>): (roles: seq<string>)
    ensures NoDuplicates(roles)
  {
    if employees == [] then []
    else
      var prior := DistinctRoles(employees[..|employees| - 1]);
      var role := employees[|employees| - 1].role;
      if role in prior then prior else prior + [role]
  }

  /** A role is among the distinct roles exactly when some employee has it. */
  lemma {:induction false} DistinctRolesMembers(employees: seq<Employee>, role: string)
    ensures role in DistinctRoles(employees) <==> RoleCount(employees, role) > 0
  {
    if employees != [] {
      DistinctRolesMembers(employees[..|employees| - 1], role);
    }
  }

  /** One bar of the staff-by-role chart: the role's first word and its head count. */
  datatype RoleBar = RoleBar(name: string, count: nat)

  function BarTotal(bars: seq<RoleBar>): int {
    if bars == [] then 0 else bars[0].count + BarTotal(bars[1..])
  }

  /** What one more employee adds to the distinct roles and to the role counts. */
  lemma CountStep(employees: seq<Employee>, i: nat)
    requires i < |employees|
    ensures var prior := DistinctRoles(employees[..i]);
      DistinctRoles(employees[..i + 1]) == if employees[i].role in prior then prior else prior + [employees[i].role]
    ensures forall k {:trigger RoleCount(employees[..i + 1], k)} ::
      RoleCount(employees[..i + 1], k) == RoleCount(employees[..i], k) + (if employees[i].role == k then 1 else 0)
  {
    assert employees[..i + 1][..i] == employees[..i];
  }

  /**
   * The `roles` dictionary of `roleData`, filled one employee at a time,
   * together with its keys in the order `Object.keys` returns them.
   */
  method CountRoles(employees: seq<Employee>) returns (roles: map<string, nat>, keys: seq<string>)
    ensures keys == DistinctRoles(employees)
    ensures forall k :: k in roles <==> k in keys
    ensures forall k :: k in roles ==> roles[k] == RoleCount(employees, k)
  {
    roles, keys := map[], [];
    for i := 0 to |employees|
      invariant keys == DistinctRoles(employees[..i])
      invariant forall k :: k in roles <==> k in keys
      invariant forall k :: k in roles ==> roles[k] == RoleCount(employees[..i], k)
    {
      var role := employees[i].role;
      CountStep(employees, i);
      DistinctRolesMembers(employees[..i], role);
      if role in roles {
        roles := roles[role := roles[role] + 1];
      } else {
        roles := roles[role := 1];
        keys := keys + [role];
      }
    }
    assert employees[..|employees|] == employees;
  }

  /** The bar of the given role: its first word and its head count. */
  ghost predicate IsRoleBar(bar: RoleBar, employees: seq<Employee>, role: string) {
    bar == RoleBar(Strings.FirstWord(role), RoleCount(employees, role))
  }

  /**
   * `roleData`: one bar per role, named by the role's first word. Every role
   * that occurs gets exactly one bar, in order of first appearance, every
   * bar counts at least one employee, and the bars add up to the number of
   * employees.
   */
  method RoleData(employees: seq<Employee>) returns (bars: seq<RoleBar>)
    ensures |bars| == |DistinctRoles(employees)|
    ensures forall i :: 0 <= i < |bars| ==>
      bars[i] == RoleBar(Strings.FirstWord(DistinctRoles(employees)[i]), RoleCount(employees, DistinctRoles(employees)[i]))
    ensures forall i :: 0 <= i < |bars| ==> bars[i].count >= 1
    ensures BarTotal(bars) == |employees|
  {
    var roles, keys := CountRoles(employees);
    bars := [];
    for j := 0 to |keys|
      invariant |bars| == j
      invariant forall t :: 0 <= t < j ==> IsRoleBar(bars[t], employees, keys[t])
    {
      assert keys[j] in roles;
      bars := bars + [RoleBar(Strings.FirstWord(keys[j]), roles[keys[j]])];
    }
    forall i | 0 <= i < |bars|
      ensures bars[i] == RoleBar(Strings.FirstWord(keys[i]), RoleCount(employees, keys[i]))
    {
      assert IsRoleBar(bars[i], employees, keys[i]);
    }
    RoleBarFacts(employees, bars);
  }

  /** Bars built from the distinct roles each count someone and together count everyone. */
  lemma RoleBarFacts(employees: seq<Employee>, bars: seq<RoleBar>)
    requires |bars| == |DistinctRoles(employees)|
    requires forall i :: 0 <= i < |bars| ==> bars[i].count == RoleCount(employees, DistinctRoles(employees)[i])
    ensures forall i :: 0 <= i < |bars| ==> bars[i].count >= 1
    ensures BarTotal(bars) == |employees|
  {
    var keys := DistinctRoles(employees);
    RoleCountsCoverStaff(employees);
    forall i | 0 <= i < |bars| ensures bars[i].count >= 1 {
      DistinctRolesMembers(employees, keys[i]);
    }
    BarTotalIsRoleTotal(employees, bars, keys);
  }

  /** The sum of the head counts of the given roles. */
  function RoleTotal(employees: seq<Employee>, roles: seq<string>): int {
    if roles == [] then 0 else RoleCount(employees, roles[0]) + RoleTotal(employees, roles[1..])
  }

  lemma {:induction false} BarTotalIsRoleTotal(employees: seq<Employee>, bars: seq<RoleBar>, roles: seq<string>)
    requires |bars| == |roles|
    requires forall i :: 0 <= i < |bars| ==> bars[i].count == RoleCount(employees, roles[i])
    ensures BarTotal(bars) == RoleTotal(employees, roles)
  {
    if bars != [] {
      BarTotalIsRoleTotal(employees, bars[1..], roles[1..]);
    }
  }

  lemma {:induction false} RoleTotalAddEmployee(employees: seq<Employee>, e: Employee, roles: seq<string>)
    requires NoDuplicates(roles)
    ensures RoleTotal(employees + [e], roles) == RoleTotal(employees, roles) + (if e.role in roles then 1 else 0)
  {
    if roles != [] {
      assert (employees + [e])[..|employees|] == employees;
      RoleTotalAddEmployee(employees, e, roles[1..]);
      assert e.role in roles <==> e.role == roles[0] || e.role in roles[1..];
    }
  }

  lemma {:induction false} RoleTotalAddRole(employees: seq<Employee>, roles: seq<string>, role: string)
    ensures RoleTotal(employees, roles + [role]) == RoleTotal(employees, roles) + RoleCount(employees, role)
  {
    if roles != [] {
      assert (roles + [role])[1..] == roles[1..] + [role];
      RoleTotalAddRole(employees, roles[1..], role);
    }
  }

  /** The per-role counts of the distinct roles add up to the number of employees. */
  lemma {:induction false} RoleCountsCoverStaff(employees: seq<Employee>)
    ensures RoleTotal(employees, DistinctRoles(employees)) == |employees|
    decreases |employees|
  {
    if employees != [] {
      var init := employees[..|employees| - 1];
      var e := employees[|employees| - 1];
      assert employees == init + [e];
      var prior := DistinctRoles(init);
      RoleCountsCoverStaff(init);
      RoleTotalAddEmployee(init, e, prior);
      if e.role !in prior {
        DistinctRolesMembers(init, e.role);
        RoleTotalAddRole(employees, prior, e.role);
        RoleTotalAddEmployee(init, e, [e.role]);
      }
    }
  }

  /** One slice of the staff-by-clinic chart. */
  datatype ClinicBar = ClinicBar(name: string, count: nat)

  /** The employees whose clinic is `clinicId`. */
  function StaffAt(employees: seq<Employee>, clinicId: string): (n: nat)
    ensures n <= |employees|
  {
    if employees == [] then 0
    else (if employees[0].clinicId == clinicId then 1 else 0) + StaffAt(employees[1..], clinicId)
  }

  const GroupPrefix := "ホワイトデンタル "
  const ClinicWord := "クリニック"

  /**
   * The chart label: the first occurrence of the group prefix and then the
   * first occurrence of the word "clinic" taken out of the clinic's name.
   * The label is never longer than the name, and a name containing neither
   * is used as it is.
   */
  function ClinicLabel(name: string): (shown: string)
    ensures |shown| <= |name|
    ensures !Strings.Occurs(GroupPrefix, name) && !Strings.Occurs(ClinicWord, name) ==> shown == name
  {
    Strings.ReplaceFirst(Strings.ReplaceFirst(name, GroupPrefix, ""), ClinicWord, "")
  }

  /** `clinicData`: one slice per clinic, in clinic order. */
  function ClinicData(clinics: seq<Clinic>, employees: seq<Employee>): (bars: seq<ClinicBar>)
    ensures |bars| == |clinics|
    ensures forall i :: 0 <= i < |clinics| ==>
      bars[i] == ClinicBar(ClinicLabel(clinics[i].name), StaffAt(employees, clinics[i].id))
  {
    if clinics == [] then []
    else [ClinicBar(ClinicLabel(clinics[0].name), StaffAt(employees, clinics[0].id))] + ClinicData(clinics[1..], employees)
  }

  function ClinicTotal(bars: seq<ClinicBar>): int {
    if bars == [] then 0 else bars[0].count + ClinicTotal(bars[1..])
  }

  ghost predicate DistinctClinicIds(clinics: seq<Clinic>) {
    forall i, j :: 0 <= i < j < |clinics| ==> clinics[i].id != clinics[j].id
  }

  /** The ids of the given clinics. */
  function ClinicIds(clinics: seq<Clinic>): (ids: set<string>)
    ensures forall id :: id in ids <==> exists j :: 0 <= j < |clinics| && clinics[j].id == id
  {
    if clinics == [] then {}
    else
      var rest := ClinicIds(clinics[1..]);
      assert forall j :: 0 < j < |clinics| ==> clinics[j] == clinics[1..][j - 1];
      {clinics[0].id} + rest
  }

  /** The employees whose clinic is any of `ids`. */
  function StaffAtAny(employees: seq<Employee>, ids: set<string>): (n: nat)
    ensures n <= |employees|
    ensures (forall e :: e in employees ==> e.clinicId in ids) ==> n == |employees|
  {
    if employees == [] then 0
    else
      assert forall e :: e in employees[1..] ==> e in employees;
      (if employees[0].clinicId in ids then 1 else 0) + StaffAtAny(employees[1..], ids)
  }

  lemma {:induction false} StaffAtAnyAddId(employees: seq<Employee>, ids: set<string>, id: string)
    requires id !in ids
    ensures StaffAtAny(employees, ids + {id}) == StaffAtAny(employees, ids) + StaffAt(employees, id)
  {
    if employees != [] {
      StaffAtAnyAddId(employees[1..], ids, id);
    }
  }

  /**
   * When clinic ids are distinct, the chart's counts add up to the number of
   * employees assigned to one of the clinics, hence to at most the number of
   * employees, and to exactly that when every employee's clinic is listed.
   */
  lemma {:induction false} ClinicCountsSum(clinics: seq<Clinic>, employees: seq<Employee>)
    requires DistinctClinicIds(clinics)
    ensures ClinicTotal(ClinicData(clinics, employees)) == StaffAtAny(employees, ClinicIds(clinics))
    ensures ClinicTotal(ClinicData(clinics, employees)) <= |employees|
    ensures (forall e :: e in employees ==> e.clinicId in ClinicIds(clinics)) ==>
      ClinicTotal(ClinicData(clinics, employees)) == |employees|
  {
    if clinics == [] {
      assert ClinicIds(clinics) == {};
      StaffAtAnyEmpty(employees);
    } else {
      var rest := clinics[1..];
      ClinicCountsSum(rest, employees);
      assert ClinicData(clinics, employees)[1..] == ClinicData(rest, employees);
      assert ClinicIds(clinics) == ClinicIds(rest) + {clinics[0].id};
      FirstClinicIdIsNew(clinics);
      StaffAtAnyAddId(employees, ClinicIds(rest), clinics[0].id);
    }
  }

  /** With distinct ids, the first clinic's id is not among the ids of the others. */
  lemma FirstClinicIdIsNew(clinics: seq<Clinic>)
    requires clinics != [] && DistinctClinicIds(clinics)
    ensures clinics[0].id !in ClinicIds(clinics[1..])
  {
    var rest := clinics[1..];
    forall j | 0 <= j < |rest| ensures rest[j].id != clinics[0].id {
      assert rest[j] == clinics[j + 1];
    }
  }

  lemma {:induction false} StaffAtAnyEmpty(employees: seq<Employee>)
    ensures StaffAtAny(employees, {}) == 0
  {
    if employees != [] {
      StaffAtAnyEmpty(employees[1..]);
    }
  }

  /** The number of employees with the given employment type. */
  function EmploymentCount(employees: seq<Employee>, kind: EmploymentType): (n: nat)
    ensures n <= |employees|
  {
    if employees == [] then 0
    else (if employees[0].employmentType == kind then 1 else 0) + EmploymentCount(employees[1..], kind)
  }

  /**
   * The "full-time / part-time" breakdown under the staff total covers the
   * whole staff: there are only those two employment types.
   */
  lemma {:induction false} StaffBreakdown(employees: seq<Employee>)
    ensures EmploymentCount(employees, FullTime) + EmploymentCount(employees, PartTime) == |employees|
  {
    if employees != [] {
      StaffBreakdown(employees[1..]);
    }
  }
}
