/**
 * The operator's dashboard over all tenants
 * (components/views/SuperAdminDashboard.tsx): monthly recurring revenue by
 * plan, the total number of users, and one chart entry per tenant.
 */
module SuperAdminDashboard {
  import opened Types

  /** The monthly fee a plan contributes, in yen: Pro 30000, Enterprise 100000, Free nothing. */
  function PlanFee(plan: Plan): (amount: int)
    ensures 0 <= amount <= 100000
    ensures amount == 0 <==> plan == Free
  {
    match plan
    case Pro => 30000
    case Enterprise => 100000
    case Free => 0
  }

  /** `totalMRR`: the plan fees of all tenants added up. */
  function TotalMRR(tenants: seq<Tenant>): (total: int)
    ensures 0 <= total <= 100000 * |tenants|
  {
    if tenants == [] then 0 else PlanFee(tenants[0].plan) + TotalMRR(tenants[1..])
  }

  /** The number of tenants on the given plan. */
  function PlanCount(tenants: seq<Tenant>, plan: Plan): (n: nat)
    ensures n <= |tenants|
  {
    if tenants == [] then 0 else (if tenants[0].plan == plan then 1 else 0) + PlanCount(tenants[1..], plan)
  }

  /** Revenue is 30000 per Pro tenant plus 100000 per Enterprise tenant. */
  lemma {:induction false} MRRByPlan(tenants: seq<Tenant>)
    ensures TotalMRR(tenants) == 30000 * PlanCount(tenants, Pro) + 100000 * PlanCount(tenants, Enterprise)
  {
    if tenants != [] {
      MRRByPlan(tenants[1..]);
    }
  }

  /** The revenue of two tenant lists put together is the sum of their revenues. */
  lemma {:induction false} MRRAdditive(a: seq<Tenant>, b: seq<Tenant>)
    ensures TotalMRR(a + b) == TotalMRR(a) + TotalMRR(b)
  {
    if a != [] {
      assert (a + b)[1..] == a[1..] + b;
      MRRAdditive(a[1..], b);
    } else {
      assert a + b == b;
    }
  }

  /** The revenue does not depend on the order of the tenants. */
  lemma {:induction false} MRROrderIndependent(a: seq<Tenant>, b: seq<Tenant>)
    requires multiset(a) == multiset(b)
    ensures TotalMRR(a) == TotalMRR(b)
    decreases |a|
  {
    if a != [] {
      var t := a[0];
      assert t in multiset(b);
      var k :| 0 <= k < |b| && b[k] == t;
      var rest := b[..k] + b[k + 1..];
      assert b == b[..k] + ([t] + b[k + 1..]);
      assert a == [t] + a[1..];
      assert multiset(b) == multiset(b[..k]) + multiset{t} + multiset(b[k + 1..]);
      assert multiset(a) == multiset{t} + multiset(a[1..]);
      assert multiset(rest) == multiset(b[..k]) + multiset(b[k + 1..]);
      assert multiset(rest) == multiset(b) - multiset{t};
      assert multiset(a[1..]) == multiset(a) - multiset{t};
      MRROrderIndependent(a[1..], rest);
      MRRAdditive(b[..k], [t] + b[k + 1..]);
      MRRAdditive([t], b[k + 1..]);
      MRRAdditive(b[..k], b[k + 1..]);
    } else {
      assert |b| == |multiset(b)| == 0;
    }
  }

  /** `totalUsers`: the employee counts of all tenants added up; no tenant has more users than that. */
  function TotalUsers(tenants: seq<Tenant>): (total: nat)
    ensures forall t :: t in tenants ==> |t.employees| <= total
  {
    if tenants == [] then 0
    else
      assert forall t :: t in tenants ==> t == tenants[0] || t in tenants[1..];
      |tenants[0].employees| + TotalUsers(tenants[1..])
  }

  /** One bar group of the per-tenant chart. */
  datatype ChartEntry = ChartEntry(name: string, users: nat, systems: nat)

  /** `chartData`: one entry per tenant, in tenant order, with its head count and system count. */
  function ChartData(tenants: seq<Tenant>): (entries: seq<ChartEntry>)
    ensures |entries| == |tenants|
    ensures forall i :: 0 <= i < |tenants| ==>
      entries[i] == ChartEntry(tenants[i].name, |tenants[i].employees|, |tenants[i].systems|)
  {
    if tenants == [] then []
    else [ChartEntry(tenants[0].name, |tenants[0].employees|, |tenants[0].systems|)] + ChartData(tenants[1..])
  }

  function ChartUsers(entries: seq<ChartEntry>): int {
    if entries == [] then 0 else entries[0].users + ChartUsers(entries[1..])
  }

  /** The chart's user bars add up to the user total shown on the card above it. */
  lemma {:induction false} ChartMatchesTotalUsers(tenants: seq<Tenant>)
    ensures ChartUsers(ChartData(tenants)) == TotalUsers(tenants)
  {
    if tenants != [] {
      assert ChartData(tenants)[1..] == ChartData(tenants[1..]);
      ChartMatchesTotalUsers(tenants[1..]);
    }
  }
}
