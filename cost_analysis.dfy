/**
 * The cost view (components/views/CostAnalysis.tsx): one row per system
 * with its monthly cost, base fee plus a per-user price times the number of
 * employees assigned to the system; the rows sorted by cost, most
 * expensive first; their total; and the three-entry legend.
 */
module CostAnalysis {
  import opened Types

  /** A row of the cost table: system name, monthly cost in yen, head count. */
  datatype CostRow = CostRow(name: string, value: int, userCount: nat)

  /** The number of employees whose assigned systems include `systemId`. */
  function UserCount(employees: seq<Employee>, systemId: string): (n: nat)
    ensures n <= |employees|
    ensures n == 0 <==> forall e :: e in employees ==> systemId !in e.assignedSystems
    ensures n == |employees| <==> forall e :: e in employees ==> systemId in e.assignedSystems
  {
    if employees == [] then 0
    else
      var rest := UserCount(employees[1..], systemId);
      assert forall e :: e in employees <==> e == employees[0] || e in employees[1..];
      (if systemId in employees[0].assignedSystems then 1 else 0) + rest
  }

  /** What one system costs per month: its base fee plus per-user price times head count. */
  function SystemCost(system: SystemTool, employees: seq<Employee>): int {
    system.baseMonthlyCost + system.monthlyCostPerUser * UserCount(employees, system.id)
  }

  function Row(system: SystemTool, employees: seq<Employee>): CostRow {
    CostRow(system.name, SystemCost(system, employees), UserCount(employees, system.id))
  }

  /** The rows before sorting: one per system, in catalogue order. */
  function Rows(systems: seq<SystemTool>, employees: seq<Employee>): (rows: seq<CostRow>)
    ensures |rows| == |systems|
    ensures forall i :: 0 <= i < |systems| ==> rows[i] == Row(systems[i], employees)
  {
    if systems == [] then [] else [Row(systems[0], employees)] + Rows(systems[1..], employees)
  }

  /** Row costs never increase from one row to any later one. */
  ghost predicate NonIncreasing(rows: seq<CostRow>) {
    forall i, j :: 0 <= i < j < |rows| ==> rows[i].value >= rows[j].value
  }

  /** The sum of the row costs, as the table footer shows it. */
  function Total(rows: seq<CostRow>): int {
    if rows == [] then 0 else rows[0].value + Total(rows[1..])
  }

  /**
   * Places `row` in front of the first row that costs no more than it does.
   * A row that arrives earlier thus stays ahead of later rows of equal cost,
   * as JavaScript's stable sort keeps them.
   */
  function Insert(row: CostRow, sorted: seq<CostRow>): (r: seq<CostRow>)
    ensures multiset(r) == multiset(sorted) + multiset{row}
    ensures Total(r) == Total(sorted) + row.value
  {
    if sorted == [] || sorted[0].value <= row.value then
      var r := [row] + sorted;
      assert r[1..] == sorted;
      r
    else
      var r := [sorted[0]] + Insert(row, sorted[1..]);
      assert r[1..] == Insert(row, sorted[1..]);
      assert sorted == [sorted[0]] + sorted[1..];
      r
  }

  /** A row placed in front of rows that cost no more than it keeps the order. */
  lemma ConsKeepsOrder(row: CostRow, rest: seq<CostRow>)
    requires NonIncreasing(rest)
    requires forall k :: 0 <= k < |rest| ==> rest[k].value <= row.value
    ensures NonIncreasing([row] + rest)
  {
    var r := [row] + rest;
    forall i, j | 0 <= i < j < |r|
      ensures r[i].value >= r[j].value
    {
      assert r[j] == rest[j - 1];
      if i > 0 {
        assert r[i] == rest[i - 1];
      }
    }
  }

  /** Inserting into a list ordered most expensive first keeps it so ordered. */
  lemma {:induction false} InsertKeepsOrder(row: CostRow, sorted: seq<CostRow>)
    requires NonIncreasing(sorted)
    ensures NonIncreasing(Insert(row, sorted))
  {
    if sorted == [] || sorted[0].value <= row.value {
      ConsKeepsOrder(row, sorted);
    } else {
      var tail := Insert(row, sorted[1..]);
      InsertKeepsOrder(row, sorted[1..]);
      forall k | 0 <= k < |tail|
        ensures tail[k].value <= sorted[0].value
      {
        var x := tail[k];
        assert x in multiset(tail);
        if x != row {
          assert x in multiset(sorted[1..]);
          var m :| 0 <= m < |sorted[1..]| && sorted[1..][m] == x;
          assert x == sorted[m + 1];
        }
      }
      ConsKeepsOrder(sorted[0], tail);
    }
  }

  /** `sort((a, b) => b.value - a.value)`: the same rows, most expensive first. */
  function SortByCost(rows: seq<CostRow>): (r: seq<CostRow>)
    ensures NonIncreasing(r)
    ensures multiset(r) == multiset(rows)
    ensures |r| == |rows|
    ensures Total(r) == Total(rows)
  {
    if rows == [] then []
    else
      var r := Insert(rows[0], SortByCost(rows[1..]));
      InsertKeepsOrder(rows[0], SortByCost(rows[1..]));
      assert rows == [rows[0]] + rows[1..];
      assert multiset(rows) == multiset{rows[0]} + multiset(rows[1..]);
      assert |r| == |multiset(r)|;
      r
  }

  /**
   * `systemCosts`: the rows of the table in display order. The table holds
   * exactly one row per system: it is a rearrangement of the per-system
   * rows, ordered most expensive first.
   */
  function SystemCosts(systems: seq<SystemTool>, employees: seq<Employee>): (rows: seq<CostRow>)
    ensures |rows| == |systems|
    ensures multiset(rows) == multiset(Rows(systems, employees))
    ensures NonIncreasing(rows)
  {
    SortByCost(Rows(systems, employees))
  }

  /**
   * `totalMonthlyCost`: the sum of the per-system costs, whatever order the
   * rows are displayed in.
   */
  function TotalMonthlyCost(systems: seq<SystemTool>, employees: seq<Employee>): (total: int)
    ensures total == Total(Rows(systems, employees))
  {
    Total(SystemCosts(systems, employees))
  }

  /** `systemCosts.slice(0, 3)`: the legend under the pie chart, a prefix of at most three rows. */
  function Legend(rows: seq<CostRow>): (legend: seq<CostRow>)
    ensures |legend| == if |rows| < 3 then |rows| else 3
    ensures legend <= rows
  {
    if |rows| <= 3 then rows else rows[..3]
  }

  /**
   * The row shows the given system: its name, its head count, and its base
   * fee plus per-user price times that head count.
   */
  ghost predicate ShowsSystem(row: CostRow, s: SystemTool, employees: seq<Employee>) {
    && row.name == s.name
    && row.userCount == UserCount(employees, s.id)
    && row.value == s.baseMonthlyCost + s.monthlyCostPerUser * row.userCount
  }

  /**
   * Each displayed row belongs to some system of the catalogue, and its
   * head count lies between 0 and the number of employees.
   */
  lemma {:induction false} RowFacts(systems: seq<SystemTool>, employees: seq<Employee>, k: nat)
    requires k < |SystemCosts(systems, employees)|
    ensures SystemCosts(systems, employees)[k].userCount <= |employees|
    ensures exists s :: s in systems && ShowsSystem(SystemCosts(systems, employees)[k], s, employees)
  {
    var rows := Rows(systems, employees);
    var sorted := SystemCosts(systems, employees);
    var row := sorted[k];
    assert row in multiset(sorted);
    assert row in multiset(rows);
    var i :| 0 <= i < |rows| && rows[i] == row;
    var s := systems[i];
    assert s in systems && ShowsSystem(row, s, employees);
  }

  /** Every system's base fee and per-user price is non-negative. */
  ghost predicate NonNegativePrices(systems: seq<SystemTool>) {
    forall s :: s in systems ==> s.baseMonthlyCost >= 0 && s.monthlyCostPerUser >= 0
  }

  lemma CostIsNonNegative(system: SystemTool, employees: seq<Employee>)
    requires system.baseMonthlyCost >= 0 && system.monthlyCostPerUser >= 0
    ensures SystemCost(system, employees) >= 0
  {
    var n := UserCount(employees, system.id);
    assert system.monthlyCostPerUser * n >= 0;
  }

  lemma {:induction false} TotalBoundsNonNegativeRows(rows: seq<CostRow>)
    requires forall r :: r in rows ==> r.value >= 0
    ensures Total(rows) >= 0
    ensures forall r :: r in rows ==> r.value <= Total(rows)
  {
    if rows != [] {
      TotalBoundsNonNegativeRows(rows[1..]);
      assert forall r :: r in rows ==> r == rows[0] || r in rows[1..];
    }
  }

  /** With non-negative prices the total is non-negative and at least any single row's cost. */
  lemma TotalBounds(systems: seq<SystemTool>, employees: seq<Employee>)
    requires NonNegativePrices(systems)
    ensures TotalMonthlyCost(systems, employees) >= 0
    ensures forall r :: r in SystemCosts(systems, employees) ==> 0 <= r.value <= TotalMonthlyCost(systems, employees)
  {
    var rows := Rows(systems, employees);
    var sorted := SystemCosts(systems, employees);
    forall r | r in sorted ensures r.value >= 0 {
      assert r in multiset(sorted);
      assert r in multiset(rows);
      var i :| 0 <= i < |rows| && rows[i] == r;
      assert systems[i] in systems;
      CostIsNonNegative(systems[i], employees);
    }
    TotalBoundsNonNegativeRows(sorted);
  }

  /**
   * The legend shows the first min(3, |systems|) rows of the table, and no
   * row left out of it costs more than a row in it.
   */
  lemma LegendIsMostExpensive(systems: seq<SystemTool>, employees: seq<Employee>)
    ensures var rows := SystemCosts(systems, employees);
      && |Legend(rows)| == (if |systems| < 3 then |systems| else 3)
      && Legend(rows) <= rows
      && forall i, j :: 0 <= i < |Legend(rows)| <= j < |rows| ==> rows[j].value <= Legend(rows)[i].value
  {
  }
}
