/**
 * The tenant data store (services/db.ts). The whole tenant list is kept as
 * one value in two places: the browser's local storage under the key
 * `dental_it_manager_data`, and the row `dental_data_v1` of the remote
 * `json_storage` table. Loading prefers the remote row, then the local
 * copy, then the built-in demo tenants, and fills in a missing governance
 * configuration; saving writes the local copy first and the remote row
 * second; resetting clears the local copy and saves the demo tenants.
 *
 * The two stores are fields of a `Store` object, the outcome of each remote
 * call and local write is a parameter, and `log` records the successful
 * writes in the order they happen.
 */
module TenantStore {
  import opened Types
  import SuperAdminDashboard

  /**
   * The constant data the demo tenants are built from (the clinic, system,
   * employee and governance constants of the application).
   */
  datatype DemoData = DemoData(
    clinics: seq<Clinic>,
    systems: seq<SystemTool>,
    employees: seq<Employee>,
    governance: GovernanceConfig)

  const DemoTenantId := "tenant_demo_001"
  const SampleTenantId := "tenant_sample_002"

  /**
   * `INITIAL_TENANTS`: the demo clinic group on the Pro plan with all the
   * constant data, and a sample orthodontic practice on the Enterprise plan
   * with one clinic, the first system and the first two employees. The
   * source indexes the constant lists directly, so it relies on at least one
   * system and two employees being defined.
   */
  function InitialTenants(d: DemoData): (ts: seq<Tenant>)
    requires |d.systems| >= 1 && |d.employees| >= 2
    ensures |ts| == 2 && ts[0].id != ts[1].id
    ensures forall t :: t in ts ==> t.governance == Some(d.governance)
  {
    [ Tenant(DemoTenantId, "ホワイトデンタルクリニック", Pro, TenantStatus.Active, "2023-04-01",
             "demo@whitedental.jp", d.clinics, d.systems, d.employees, Some(d.governance)),
      Tenant(SampleTenantId, "スマイル矯正歯科", Enterprise, TenantStatus.Active, "2024-01-15",
             "admin@smile-ortho.jp",
             [Clinic("c_s_1", "スマイル矯正歯科 渋谷", HQ, "東京都渋谷区", 12, "03-9999-8888")],
             [d.systems[0]], [d.employees[0], d.employees[1]], Some(d.governance)) ]
  }

  /** The demo tenants bring in 130000 yen a month: one Pro and one Enterprise plan. */
  lemma InitialRevenue(d: DemoData)
    requires |d.systems| >= 1 && |d.employees| >= 2
    ensures SuperAdminDashboard.TotalMRR(InitialTenants(d)) == 130000
    ensures SuperAdminDashboard.TotalUsers(InitialTenants(d)) == |d.employees| + 2
  {
    var ts := InitialTenants(d);
    assert ts[1..][1..] == [];
    assert SuperAdminDashboard.TotalUsers(ts[1..]) == 2;
  }

  /** Every tenant of the list has a governance configuration. */
  predicate AllGoverned(ts: seq<Tenant>) {
    forall t :: t in ts ==> t.governance.Some?
  }

  /**
   * `{ ...t, governance: t.governance || GOVERNANCE_RULES }`: a tenant that
   * has a governance configuration keeps it, one without gets the default,
   * and no other field changes.
   */
  function Migrate(t: Tenant, default: GovernanceConfig): (m: Tenant)
    ensures m.governance.Some?
    ensures t.governance.Some? ==> m.governance == t.governance
    ensures t.governance.None? ==> m.governance == Some(default)
    ensures m.(governance := t.governance) == t
  {
    if t.governance.Some? then t else t.(governance := Some(default))
  }

  /** The migration applied to every tenant of the list. */
  function MigrateAll(ts: seq<Tenant>, default: GovernanceConfig): (ms: seq<Tenant>)
    ensures |ms| == |ts|
    ensures forall i :: 0 <= i < |ts| ==> ms[i] == Migrate(ts[i], default)
    ensures AllGoverned(ms)
  {
    if ts == [] then [] else [Migrate(ts[0], default)] + MigrateAll(ts[1..], default)
  }

  /** A list whose tenants all have governance is left exactly as it is. */
  lemma MigrateAllGoverned(ts: seq<Tenant>, default: GovernanceConfig)
    requires AllGoverned(ts)
    ensures MigrateAll(ts, default) == ts
  {
    var ms := MigrateAll(ts, default);
    forall i | 0 <= i < |ts| ensures ms[i] == ts[i] {
      assert ts[i] in ts;
    }
  }

  /** Migrating twice is the same as migrating once. */
  lemma MigrateAllIdempotent(ts: seq<Tenant>, default: GovernanceConfig)
    ensures MigrateAll(MigrateAll(ts, default), default) == MigrateAll(ts, default)
  {
    MigrateAllGoverned(MigrateAll(ts, default), default);
  }

  /**
   * What the remote query produced: a reply whose `data` holds the row's
   * value (`None` when the row is missing or the reply carried an error), or
   * an exception.
   */
  datatype RemoteReply = Replied(data: Option<seq<Tenant>>) | Threw

  /**
   * The local storage item: absent (or the empty string, which the source
   * treats the same way), a stored tenant list, or text that is not valid
   * JSON, on which parsing throws.
   */
  datatype LocalItem = Missing | Stored(tenants: seq<Tenant>) | Corrupt

  /**
   * `getTenants`: the remote value when the reply carries one, otherwise
   * the local copy when there is one, otherwise the demo tenants; the first
   * two are migrated. The remote query and the local parse share one
   * `try`, so an exception from either skips straight to the demo tenants.
   * Loading never fails, and every loaded tenant has governance.
   */
  function LoadTenants(reply: RemoteReply, local: LocalItem, d: DemoData): (ts: seq<Tenant>)
    requires |d.systems| >= 1 && |d.employees| >= 2
    ensures AllGoverned(ts)
    ensures reply.Replied? && reply.data.Some? ==> ts == MigrateAll(reply.data.value, d.governance)
    ensures reply.Replied? && reply.data.None? && local.Stored? ==> ts == MigrateAll(local.tenants, d.governance)
    ensures reply.Threw? || (reply.data.None? && !local.Stored?) ==> ts == InitialTenants(d)
  {
    match reply
    case Threw => InitialTenants(d)
    case Replied(Some(remote)) => MigrateAll(remote, d.governance)
    case Replied(None) =>
      match local
      case Stored(saved) => MigrateAll(saved, d.governance)
      case Missing => InitialTenants(d)
      case Corrupt => InitialTenants(d)
  }

  /**
   * The remote value wins over the local copy whenever the reply carries
   * it: after a save whose remote write failed, a later load that reaches
   * the remote row returns the older remote list, not the newer local one.
   */
  lemma RemoteTakesPriority(remote: seq<Tenant>, saved: seq<Tenant>, d: DemoData)
    requires |d.systems| >= 1 && |d.employees| >= 2
    requires AllGoverned(remote)
    ensures LoadTenants(Replied(Some(remote)), Stored(saved), d) == remote
  {
    MigrateAllGoverned(remote, d.governance);
  }

  /** How a remote read turned out. */
  datatype FetchOutcome = Delivered | ErrorReply | Exception

  /** The reply a read of the remote row produces. */
  function ReplyFor(outcome: FetchOutcome, row: Option<seq<Tenant>>): (reply: RemoteReply)
    ensures reply.Threw? <==> outcome == Exception
    ensures reply.Replied? ==> reply.data == if outcome == Delivered then row else None
  {
    match outcome
    case Delivered => Replied(row)
    case ErrorReply => Replied(None)
    case Exception => Threw
  }

  /**
   * Once a list of governed tenants has been saved to both places, every
   * load that does not throw returns exactly that list, whether it reads
   * the remote row or falls back to the local copy.
   */
  lemma LoadAfterSave(ts: seq<Tenant>, outcome: FetchOutcome, d: DemoData)
    requires |d.systems| >= 1 && |d.employees| >= 2
    requires AllGoverned(ts)
    requires outcome != Exception
    ensures LoadTenants(ReplyFor(outcome, Some(ts)), Stored(ts), d) == ts
  {
    MigrateAllGoverned(ts, d.governance);
  }

  /** The writes the store performs, as they happen. */
  datatype Write = LocalSet(tenants: seq<Tenant>) | LocalRemove | RemoteUpsert(tenants: seq<Tenant>)

  /** The two copies of the tenant list. */
  class Store {
    /** `localStorage['dental_it_manager_data']`. */
    var local: LocalItem
    /** The value of the remote row `dental_data_v1`, `None` while the row does not exist. */
    var remote: Option<seq<Tenant>>
    /** The successful writes, oldest first. */
    var log: seq<Write>

    constructor (local: LocalItem, remote: Option<seq<Tenant>>)
      ensures this.local == local && this.remote == remote && log == []
    {
      this.local := local;
      this.remote := remote;
      log := [];
    }

    /** `getTenants`: reads both copies and changes neither. */
    method GetTenants(outcome: FetchOutcome, d: DemoData) returns (ts: seq<Tenant>)
      requires |d.systems| >= 1 && |d.employees| >= 2
      ensures ts == LoadTenants(ReplyFor(outcome, remote), local, d)
    {
      var reply := ReplyFor(outcome, remote);
      if reply.Replied? && reply.data.Some? {
        ts := MigrateAll(reply.data.value, d.governance);
        return;
      }
      if reply.Replied? && local.Stored? {
        ts := MigrateAll(local.tenants, d.governance);
        return;
      }
      ts := InitialTenants(d);
    }

    /**
     * `saveTenants`: the local copy is written first, then the remote row.
     * When the local write throws, the remote write is never attempted;
     * when the remote write fails, the local copy stays written. No error
     * leaves the method.
     */
    method SaveTenants(ts: seq<Tenant>, localThrows: bool, remoteFails: bool)
      modifies this
      ensures localThrows ==> local == old(local) && remote == old(remote) && log == old(log)
      ensures !localThrows && remoteFails ==>
        local == Stored(ts) && remote == old(remote) && log == old(log) + [LocalSet(ts)]
      ensures !localThrows && !remoteFails ==>
        local == Stored(ts) && remote == Some(ts) && log == old(log) + [LocalSet(ts), RemoteUpsert(ts)]
    {
      if localThrows {
        return;
      }
      local := Stored(ts);
      log := log + [LocalSet(ts)];
      if !remoteFails {
        remote := Some(ts);
        log := log + [RemoteUpsert(ts)];
      }
    }

    /**
     * `reset`: the local copy is removed, the demo tenants are saved, and
     * the demo tenants are returned whatever the save did. The removal is
     * not guarded: when it throws, nothing is saved and the call rejects
     * (`None`) without returning the demo tenants.
     */
    method Reset(d: DemoData, removeThrows: bool, localThrows: bool, remoteFails: bool)
      returns (r: Option<seq<Tenant>>)
      requires |d.systems| >= 1 && |d.employees| >= 2
      modifies this
      ensures removeThrows ==>
        r.None? && local == old(local) && remote == old(remote) && log == old(log)
      ensures !removeThrows ==> r == Some(InitialTenants(d))
      ensures !removeThrows ==> local == if localThrows then Missing else Stored(InitialTenants(d))
      ensures !removeThrows ==> remote == if localThrows || remoteFails then old(remote) else Some(InitialTenants(d))
      ensures !removeThrows ==>
        log == old(log) + [LocalRemove]
               + (if localThrows then [] else [LocalSet(InitialTenants(d))])
               + (if localThrows || remoteFails then [] else [RemoteUpsert(InitialTenants(d))])
    {
      if removeThrows {
        return None;
      }
      local := Missing;
      log := log + [LocalRemove];
      SaveTenants(InitialTenants(d), localThrows, remoteFails);
      r := Some(InitialTenants(d));
    }
  }

  /**
   * After a reset whose writes succeeded, every load that does not throw
   * returns the demo tenants.
   */
  lemma LoadAfterReset(d: DemoData, outcome: FetchOutcome)
    requires |d.systems| >= 1 && |d.employees| >= 2
    requires outcome != Exception
    ensures LoadTenants(ReplyFor(outcome, Some(InitialTenants(d))), Stored(InitialTenants(d)), d) == InitialTenants(d)
  {
    LoadAfterSave(InitialTenants(d), outcome, d);
  }
}
