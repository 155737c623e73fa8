/**
 * The first-run wizard (components/OnboardingWizard.tsx): the operator
 * picks the systems the clinic already uses, and finishing the wizard
 * registers one system record per picked preset, one write at a time.
 *
 * The preset catalogue, the generated system ids and the renewal date
 * (computed from the clock in the source) are parameters. The remote write
 * `db.upsertSystem` is recorded in the wizard's `upserted` log, and whether
 * and where it throws is the parameter `failAt`.
 */
module OnboardingWizard {
  import opened Types
  import opened Lists
  import opened NotificationContext

  /** `prev.filter(n => n !== name)`: the other names, in their order and multiplicity. */
  function RemoveName(names: seq<string>, name: string): (rest: seq<string>)
    ensures name !in rest
    ensures forall x: string :: x != name ==> multiset(rest)[x] == multiset(names)[x]
    ensures IsSubsequence(rest, names)
  {
    if names == [] then []
    else
      var tail := RemoveName(names[1..], name);
      assert names == [names[0]] + names[1..];
      if names[0] == name then
        tail
      else
        var rest := [names[0]] + tail;
        assert rest[1..] == tail;
        rest
  }

  /**
   * `toggleSystem`: a name not yet selected is appended at the end; a
   * selected one is removed, every occurrence of it, and the others keep
   * their order.
   */
  function Toggle(selected: seq<string>, name: string): (r: seq<string>)
    ensures name !in selected ==> r == selected + [name]
    ensures name in selected ==>
      && name !in r
      && (forall x: string :: x != name ==> multiset(r)[x] == multiset(selected)[x])
      && IsSubsequence(r, selected)
  {
    if name in selected then RemoveName(selected, name) else selected + [name]
  }

  /** A selection without duplicates stays without duplicates. */
  lemma ToggleKeepsNoDuplicates(selected: seq<string>, name: string)
    requires NoDuplicates(selected)
    ensures NoDuplicates(Toggle(selected, name))
  {
    if name in selected {
      SubsequenceNoDuplicates(Toggle(selected, name), selected);
    } else {
      var r := Toggle(selected, name);
      forall i, j | 0 <= i < j < |r| ensures r[i] != r[j] {
        if j == |selected| {
          assert r[i] == selected[i];
        }
      }
    }
  }

  lemma {:induction false} RemoveAppendedName(selected: seq<string>, name: string)
    requires name !in selected
    ensures RemoveName(selected + [name], name) == selected
  {
    if selected == [] {
      assert [] + [name] == [name];
    } else {
      assert (selected + [name])[1..] == selected[1..] + [name];
      RemoveAppendedName(selected[1..], name);
      assert selected == [selected[0]] + selected[1..];
    }
  }

  /** Toggling a name that is not selected twice gives back the original selection. */
  lemma ToggleTwiceRestores(selected: seq<string>, name: string)
    requires name !in selected
    ensures Toggle(Toggle(selected, name), name) == selected
  {
    RemoveAppendedName(selected, name);
  }

  /** An entry of the preset catalogue. */
  datatype SystemPreset = SystemPreset(
    name: string,
    category: string,
    url: string,
    monthlyCostPerUser: int,
    baseMonthlyCost: int)

  /** Preset `k` is the first one in the catalogue with the given name. */
  ghost predicate IsFirstPreset(presets: seq<SystemPreset>, name: string, k: int) {
    0 <= k < |presets| && presets[k].name == name && forall j :: 0 <= j < k ==> presets[j].name != name
  }

  /** `SYSTEM_PRESETS.find(p => p.name === presetName)`. */
  function FindPreset(presets: seq<SystemPreset>, name: string): (k: Option<nat>)
    ensures k.None? ==> forall j :: 0 <= j < |presets| ==> presets[j].name != name
    ensures k.Some? ==> IsFirstPreset(presets, name, k.value)
  {
    if presets == [] then None
    else if presets[0].name == name then Some(0)
    else
      match FindPreset(presets[1..], name)
      case None => None
      case Some(k) => Some(k + 1)
  }

  const DefaultOwner := "管理者"


  /**
   * System `w` copies the preset's name, category, url and both prices, and
   * starts active, without issues or contract link, owned by the
   * administrator, with no vendor contact and the given renewal date.
   */
  ghost predicate CopiedFrom(w: SystemTool, preset: SystemPreset, renewalDate: string) {
    && w.name == preset.name
    && w.category == preset.category
    && w.url == preset.url
    && w.monthlyCostPerUser == preset.monthlyCostPerUser
    && w.baseMonthlyCost == preset.baseMonthlyCost
    && w.renewalDate == renewalDate
    && w.adminOwner == DefaultOwner
    && w.vendorContact == ""
    && w.status == SystemStatus.Active
    && w.issues == []
    && w.contractUrl == None
  }

  /** The system record built from a preset, with the given id. */
  function NewSystem(preset: SystemPreset, id: string, renewalDate: string): (system: SystemTool)
    ensures system.id == id && CopiedFrom(system, preset, renewalDate)
  {
    SystemTool(id, preset.name, preset.category, preset.url, preset.monthlyCostPerUser,
               preset.baseMonthlyCost, renewalDate, DefaultOwner, "", SystemStatus.Active, [], None)
  }

  /** The names of some systems, in order. */
  function Names(systems: seq<SystemTool>): (names: seq<string>)
    ensures |names| == |systems|
    ensures forall i :: 0 <= i < |systems| ==> names[i] == systems[i].name
  {
    if systems == [] then [] else [systems[0].name] + Names(systems[1..])
  }

  /** The selected names for which the catalogue has a preset, in selection order. */
  function Matched(selected: seq<string>, presets: seq<SystemPreset>): (names: seq<string>)
    ensures forall x :: x in names <==> x in selected && FindPreset(presets, x).Some?
    ensures forall x: string :: multiset(names)[x] == if FindPreset(presets, x).Some? then multiset(selected)[x] else 0
    ensures IsSubsequence(names, selected)
  {
    if selected == [] then []
    else
      var tail := Matched(selected[1..], presets);
      assert selected == [selected[0]] + selected[1..];
      if FindPreset(presets, selected[0]).Some? then
        var names := [selected[0]] + tail;
        assert names[1..] == tail;
        names
      else
        tail
  }

  /** What one iteration of the loop writes: nothing when the name has no preset. */
  function WriteFor(presets: seq<SystemPreset>, name: string, id: string, renewalDate: string): seq<SystemTool> {
    match FindPreset(presets, name)
    case None => []
    case Some(k) => [NewSystem(presets[k], id, renewalDate)]
  }

  /**
   * The systems `handleFinish` writes when no write fails, in write order.
   * The `i`-th selected name is given the id `ids[i]`. Their names are the
   * selected names that have a preset, in selection order, so names without
   * a preset are skipped; each system is copied from the first preset with
   * its name.
   */
  function Planned(selected: seq<string>, presets: seq<SystemPreset>, ids: seq<string>, renewalDate: string): (plan: seq<SystemTool>)
    requires |ids| == |selected|
    ensures |plan| <= |selected|
  {
    if selected == [] then []
    else WriteFor(presets, selected[0], ids[0], renewalDate) + Planned(selected[1..], presets, ids[1..], renewalDate)
  }

  /**
   * The planned systems carry the selected names that have a preset, in
   * selection order: names without a preset are skipped.
   */
  lemma {:induction false} PlannedNames(selected: seq<string>, presets: seq<SystemPreset>, ids: seq<string>,
                                        renewalDate: string)
    requires |ids| == |selected|
    ensures Names(Planned(selected, presets, ids, renewalDate)) == Matched(selected, presets)
  {
    if selected != [] {
      var head := WriteFor(presets, selected[0], ids[0], renewalDate);
      var tail := Planned(selected[1..], presets, ids[1..], renewalDate);
      PlannedNames(selected[1..], presets, ids[1..], renewalDate);
      assert Names(head + tail) == Names(head) + Names(tail);
    }
  }

  /** Each planned system is copied from the first preset with its name. */
  lemma {:induction false} PlannedCopiesPresets(selected: seq<string>, presets: seq<SystemPreset>, ids: seq<string>,
                                                renewalDate: string)
    requires |ids| == |selected|
    ensures forall w :: w in Planned(selected, presets, ids, renewalDate) ==>
      FindPreset(presets, w.name).Some? && CopiedFrom(w, presets[FindPreset(presets, w.name).value], renewalDate)
  {
    if selected != [] {
      PlannedCopiesPresets(selected[1..], presets, ids[1..], renewalDate);
    }
  }

  /** Planning a selection in two parts gives the two plans one after the other. */
  lemma {:induction false} PlannedAppend(a: seq<string>, b: seq<string>, idsA: seq<string>, idsB: seq<string>,
                                         presets: seq<SystemPreset>, renewalDate: string)
    requires |idsA| == |a| && |idsB| == |b|
    ensures Planned(a + b, presets, idsA + idsB, renewalDate)
         == Planned(a, presets, idsA, renewalDate) + Planned(b, presets, idsB, renewalDate)
  {
    if a == [] {
      assert a + b == b && idsA + idsB == idsB;
    } else {
      assert (a + b)[1..] == a[1..] + b && (idsA + idsB)[1..] == idsA[1..] + idsB;
      PlannedAppend(a[1..], b, idsA[1..], idsB, presets, renewalDate);
    }
  }

  /** With a duplicate-free selection, at most one system is written per name. */
  lemma AtMostOneSystemPerName(selected: seq<string>, presets: seq<SystemPreset>, ids: seq<string>, renewalDate: string)
    requires |ids| == |selected|
    requires NoDuplicates(selected)
    ensures NoDuplicates(Names(Planned(selected, presets, ids, renewalDate)))
  {
    PlannedNames(selected, presets, ids, renewalDate);
    SubsequenceNoDuplicates(Matched(selected, presets), selected);
  }

  /** The plan for the first `i + 1` names extends the plan for the first `i` by one step. */
  lemma PlannedStep(selected: seq<string>, presets: seq<SystemPreset>, ids: seq<string>, renewalDate: string, i: nat)
    requires |ids| == |selected| && i < |selected|
    ensures Planned(selected[..i + 1], presets, ids[..i + 1], renewalDate)
         == Planned(selected[..i], presets, ids[..i], renewalDate) + WriteFor(presets, selected[i], ids[i], renewalDate)
  {
    assert selected[..i + 1] == selected[..i] + [selected[i]];
    assert ids[..i + 1] == ids[..i] + [ids[i]];
    PlannedAppend(selected[..i], [selected[i]], ids[..i], [ids[i]], presets, renewalDate);
    assert [selected[i]][1..] == [] && [ids[i]][1..] == [];
    assert Planned([selected[i]], presets, [ids[i]], renewalDate) == WriteFor(presets, selected[i], ids[i], renewalDate) + [];
  }

  /**
   * When the write for the `i`-th name is the one that fails, everything
   * planned before it has been written: it is a proper prefix of the plan.
   */
  lemma FailedWriteIsPlanned(selected: seq<string>, presets: seq<SystemPreset>, ids: seq<string>, renewalDate: string, i: nat)
    requires |ids| == |selected| && i < |selected|
    requires FindPreset(presets, selected[i]).Some?
    ensures var done := Planned(selected[..i], presets, ids[..i], renewalDate);
      var plan := Planned(selected, presets, ids, renewalDate);
      |done| < |plan| && plan[..|done|] == done
  {
    assert selected == selected[..i] + selected[i..];
    assert ids == ids[..i] + ids[i..];
    PlannedAppend(selected[..i], selected[i..], ids[..i], ids[i..], presets, renewalDate);
    assert selected[i..][0] == selected[i];
  }

  const SetupDoneMessage := "初期セットアップが完了しました！"
  const SetupFailedMessage := "セットアップ中にエラーが発生しました"

  /** The wizard's state and the effects it has on the outside world. */
  class Wizard {
    const tenantId: string
    const notifier: NotificationCenter
    var selectedSystems: seq<string>
    var isSubmitting: bool
    /** The systems passed to `db.upsertSystem(tenantId, …)`, in call order. */
    var upserted: seq<SystemTool>
    /** How many times `onComplete` has been called. */
    var completions: nat

    constructor (tenantId: string, notifier: NotificationCenter)
      ensures this.tenantId == tenantId && this.notifier == notifier
      ensures selectedSystems == [] && !isSubmitting && upserted == [] && completions == 0
    {
      this.tenantId := tenantId;
      this.notifier := notifier;
      selectedSystems := [];
      isSubmitting := false;
      upserted := [];
      completions := 0;
    }

    /** `toggleSystem`: only the selection changes. */
    method ToggleSystem(name: string)
      modifies this
      ensures selectedSystems == Toggle(old(selectedSystems), name)
      ensures isSubmitting == old(isSubmitting) && upserted == old(upserted) && completions == old(completions)
    {
      selectedSystems := Toggle(selectedSystems, name);
    }

    /**
     * The loop of `handleFinish`: one `db.upsertSystem` call per selected
     * name that has a preset, in selection order. When the write with index
     * `failAt` (counting this call's writes from 0) throws, the loop stops
     * there and the systems before it stay written.
     */
    method WriteSelectedSystems(presets: seq<SystemPreset>, ids: seq<string>, renewalDate: string,
                                failAt: Option<nat>) returns (failed: bool)
      requires |ids| == |selectedSystems|
      modifies this`upserted
      ensures var plan := Planned(selectedSystems, presets, ids, renewalDate);
        && failed == (failAt.Some? && failAt.value < |plan|)
        && upserted == old(upserted) + if failed then plan[..failAt.value] else plan
    {
      failed := false;
      var count := 0;
      ghost var done := [];
      var i := 0;
      while i < |selectedSystems|
        invariant 0 <= i <= |selectedSystems| && !failed
        invariant done == Planned(selectedSystems[..i], presets, ids[..i], renewalDate)
        invariant upserted == old(upserted) + done && count == |done|
        invariant failAt.None? || failAt.value >= count
      {
        PlannedStep(selectedSystems, presets, ids, renewalDate, i);
        var k := FindPreset(presets, selectedSystems[i]);
        if k.Some? {
          var system := NewSystem(presets[k.value], ids[i], renewalDate);
          assert WriteFor(presets, selectedSystems[i], ids[i], renewalDate) == [system];
          if failAt.Some? && failAt.value == count {
            FailedWriteIsPlanned(selectedSystems, presets, ids, renewalDate, i);
            failed := true;
            break;
          }
          upserted := upserted + [system];
          done := done + [system];
          count := count + 1;
        }
        i := i + 1;
      }
      if !failed {
        assert selectedSystems[..i] == selectedSystems && ids[..i] == ids;
      }
    }

    /**
     * `handleFinish`. Without a failure every planned system is written,
     * success is announced and `onComplete` runs once. When a write throws,
     * the systems before it stay written, an error is announced and
     * `onComplete` does not run. `onComplete` runs inside the same `try`, so
     * when it throws the error is announced right after the success. Either
     * way the wizard is no longer submitting afterwards. The two toasts draw
     * their own ids, `successId` and `errorId`.
     */
    method HandleFinish(presets: seq<SystemPreset>, ids: seq<string>, renewalDate: string,
                        successId: string, errorId: string, failAt: Option<nat>, completeThrows: bool)
      requires |ids| == |selectedSystems|
      modifies this, notifier
      ensures !isSubmitting
      ensures selectedSystems == old(selectedSystems)
      ensures var plan := Planned(old(selectedSystems), presets, ids, renewalDate);
        if failAt.Some? && failAt.value < |plan| then
          && upserted == old(upserted) + plan[..failAt.value]
          && completions == old(completions)
          && notifier.notifications == old(notifier.notifications) + [Notification(errorId, Error, SetupFailedMessage)]
        else
          && upserted == old(upserted) + plan
          && completions == old(completions) + 1
          && notifier.notifications
             == old(notifier.notifications) + [Notification(successId, NotificationType.Success, SetupDoneMessage)]
                + if completeThrows then [Notification(errorId, Error, SetupFailedMessage)] else []
    {
      isSubmitting := true;
      var failed := WriteSelectedSystems(presets, ids, renewalDate, failAt);
      if failed {
        notifier.Notify(Error, SetupFailedMessage, errorId);
      } else {
        notifier.Notify(NotificationType.Success, SetupDoneMessage, successId);
        completions := completions + 1;
        if completeThrows {
          notifier.Notify(Error, SetupFailedMessage, errorId);
        }
      }
      isSubmitting := false;
    }
  }
}
