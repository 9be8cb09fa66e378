/** No VM is lost: the inductive invariant over every interleaving of starts,
    stops, failed commits, VM deaths and restarts. */
module EnvironmentSafety {
  import opened Wrappers
  import opened Environments

  predicate Holds(p: Phase, vm: nat) {
    !p.Booting? && p.vm == vm
  }

  /** The start request that booted this VM is still in flight and holds it. */
  predicate Held(s: State, vm: nat) {
    && vm < |s.bootedFor|
    && s.bootedFor[vm] in s.starts
    && Holds(s.starts[s.bootedFor[vm]].phase, vm)
  }

  /** The row this VM was booted for leads to it. */
  predicate Kept(s: State, vm: nat) {
    vm < |s.bootedFor| && Covered(s, s.bootedFor[vm], vm)
  }

  predicate RowOk(s: State, i: nat)
    requires i < |s.rows|
  {
    var r := s.rows[i];
    && (r.vm.Some? ==> r.vm.value < |s.bootedFor| && s.bootedFor[r.vm.value] == i)
    && (r.status == Running ==> r.vm.Some? && i !in s.starts)
  }

  predicate StartOk(s: State, i: nat)
    requires i in s.starts
  {
    var phase := s.starts[i].phase;
    && i < |s.rows|
    && (phase.Booting? ==> s.rows[i].vm == None)
    && (!phase.Booting? ==>
        && phase.vm < |s.bootedFor| && s.bootedFor[phase.vm] == i
        && (s.rows[i].vm == None || s.rows[i].vm == Some(phase.vm)))
    && (phase.Booted? ==> s.rows[i].vm == None)
    && (phase.Recorded? ==> s.rows[i].vm != None)
  }

  predicate StopperOk(s: State, t: nat)
    requires t in s.stoppers
  {
    var Stopper(env, seen) := s.stoppers[t];
    && env < |s.rows|
    && !Claimable(s.rows[env])
    && (seen.Some? ==> seen == s.rows[env].vm && s.rows[env].status == Stopping)
  }

  predicate VmOk(s: State, vm: nat) {
    vm < |s.bootedFor| && (vm in s.leaked || Held(s, vm) || Kept(s, vm))
  }

  ghost predicate Inv(s: State) {
    && (forall i :: 0 <= i < |s.rows| ==> RowOk(s, i))
    && (forall i :: i in s.starts ==> StartOk(s, i))
    && (forall t :: t in s.stoppers ==> StopperOk(s, t))
    && (forall t, u :: t in s.stoppers && u in s.stoppers && t != u ==> s.stoppers[t].env != s.stoppers[u].env)
    && (forall vm :: vm in s.vms ==> VmOk(s, vm))
  }

  // ---- every step keeps it, one kind of entry at a time ----

  predicate StartEvent(e: Event) {
    e.BootFails? || e.Boot? || e.Record? || e.Reread? || e.AbortStop? || e.CommitFails?
  }

  lemma RowKeptByStart(c: Config, s: State, e: Event, i: nat)
    requires StartEvent(e) && i < |s.rows| && RowOk(s, i) && (i in s.starts ==> StartOk(s, i))
    ensures |Step(c, s, e).rows| == |s.rows| && RowOk(Step(c, s, e), i)
  {
    if e.Reread? {
      RowKeptByReread(s, e.env, i);
    } else {
      match e { case BootFails(_) => case Boot(_) => case Record(_) => case AbortStop(_) => case CommitFails(_) => }
    }
  }

  lemma RowKeptByReread(s: State, env: nat, i: nat)
    requires i < |s.rows| && RowOk(s, i) && (i in s.starts ==> StartOk(s, i))
    ensures |RereadStep(s, env).rows| == |s.rows| && RowOk(RereadStep(s, env), i)
  {
  }

  lemma RowKept(c: Config, s: State, e: Event, i: nat)
    requires Inv(s) && !e.Reserve? && i < |Step(c, s, e).rows|
    ensures RowOk(Step(c, s, e), i)
  {
    assert |Step(c, s, e).rows| == |s.rows|;
    assert RowOk(s, i);
    if StartEvent(e) {
      if i in s.starts { assert StartOk(s, i); }
      RowKeptByStart(c, s, e, i);
    } else {
      match e {
        case Claim(_, _, _) => case Destroy(_) => case GiveUp(_) => case Extend(_, _, _, _) =>
        case VmDies(_) => case Tick(_) => case Restart(_) =>
      }
    }
  }

  /** Start requests leave the rows that stoppers hold claimed, vm_id included. */
  lemma StopperKeptByStart(c: Config, s: State, e: Event, t: nat)
    requires Inv(s) && StartEvent(e) && t in s.stoppers
    ensures Step(c, s, e).stoppers == s.stoppers
    ensures StopperOk(Step(c, s, e), t)
  {
    assert StopperOk(s, t);
    var env := s.stoppers[t].env;
    if env in s.starts { assert StartOk(s, env); }
    if e.Reread? { assert Step(c, s, e).rows[env] == s.rows[env]; }
    else if e.Record? { assert Step(c, s, e).rows[env].status == s.rows[env].status; }
  }

  lemma StopperKeptByOthers(c: Config, s: State, e: Event, t: nat)
    requires !StartEvent(e) && !e.Reserve? && t in Step(c, s, e).stoppers
    requires t in s.stoppers ==> StopperOk(s, t)
    requires forall u :: t in s.stoppers && u in s.stoppers && u != t ==> s.stoppers[u].env != s.stoppers[t].env
    ensures t in s.stoppers ==> Step(c, s, e).stoppers[t] == s.stoppers[t]
    ensures t !in s.stoppers ==>
            Step(c, s, e).stoppers[t].env < |s.rows| && Claimable(s.rows[Step(c, s, e).stoppers[t].env])
    ensures StopperOk(Step(c, s, e), t)
  {
    match e {
      case Claim(_, _, _) => case Destroy(_) => case GiveUp(_) => case Extend(_, _, _, _) =>
      case VmDies(_) => case Tick(_) => case Restart(_) =>
    }
  }

  lemma StopperKept(c: Config, s: State, e: Event, t: nat)
    requires Inv(s) && !e.Reserve? && t in Step(c, s, e).stoppers
    ensures t in s.stoppers ==> Step(c, s, e).stoppers[t] == s.stoppers[t]
    ensures t !in s.stoppers ==>
            Step(c, s, e).stoppers[t].env < |s.rows| && Claimable(s.rows[Step(c, s, e).stoppers[t].env])
    ensures StopperOk(Step(c, s, e), t)
  {
    if StartEvent(e) {
      assert Step(c, s, e).stoppers == s.stoppers;
      StopperKeptByStart(c, s, e, t);
    } else {
      StopperKeptByOthers(c, s, e, t);
    }
  }

  lemma StartKept(c: Config, s: State, e: Event, i: nat)
    requires Inv(s) && !e.Reserve? && i in Step(c, s, e).starts
    ensures StartOk(Step(c, s, e), i)
  {
    if e.Reread? {
      StartKeptByReread(s, e.env, i);
    } else if e.CommitFails? {
      StartKeptByCommitFails(s, e.env, i);
    } else if StartEvent(e) {
      assert i in s.starts && StartOk(s, i);
      StartKeptByBoot(c, s, e, i);
    } else {
      assert StartOk(s, i);
      match e {
        case Claim(_, _, _) => case Destroy(_) => case GiveUp(_) => case Extend(_, _, _, _) =>
        case VmDies(_) => case Tick(_) => case Restart(_) =>
      }
    }
  }

  lemma StartKeptByBoot(c: Config, s: State, e: Event, i: nat)
    requires (e.BootFails? || e.Boot? || e.Record? || e.AbortStop?) && i in Step(c, s, e).starts
    requires i in s.starts && StartOk(s, i)
    ensures StartOk(Step(c, s, e), i)
  {
    match e { case BootFails(_) => case Boot(_) => case Record(_) => case AbortStop(_) => }
  }

  lemma StartKeptByReread(s: State, env: nat, i: nat)
    requires Inv(s) && i in RereadStep(s, env).starts
    ensures StartOk(RereadStep(s, env), i)
  {
    assert StartOk(s, i);
  }

  lemma StartKeptByCommitFails(s: State, env: nat, i: nat)
    requires Inv(s) && i in CommitFailsStep(s, env).starts
    ensures StartOk(CommitFailsStep(s, env), i)
  {
    assert StartOk(s, i);
  }

  lemma VmFacts(s: State, vm: nat)
    requires Inv(s) && vm in s.vms
    ensures VmOk(s, vm)
    ensures var env := s.bootedFor[vm];
            && (env in s.starts ==> StartOk(s, env))
            && (env < |s.rows| ==> RowOk(s, env))
  {
  }

  lemma VmKeptByReread(s: State, env: nat, vm: nat)
    requires Inv(s) && vm in RereadStep(s, env).vms
    ensures VmOk(RereadStep(s, env), vm)
  {
    VmFacts(s, vm);
    assert forall t :: t in s.stoppers ==> StopperOk(s, t);
  }

  lemma VmKeptByCommitFails(s: State, env: nat, vm: nat)
    requires Inv(s) && vm in CommitFailsStep(s, env).vms
    ensures VmOk(CommitFailsStep(s, env), vm)
  {
    VmFacts(s, vm);
  }

  lemma VmKeptByStops(c: Config, s: State, e: Event, vm: nat)
    requires Inv(s) && (e.Claim? || e.Destroy? || e.GiveUp? || e.Restart?) && vm in Step(c, s, e).vms
    ensures VmOk(Step(c, s, e), vm)
  {
    VmFacts(s, vm);
    match e {
      case Destroy(t) => if t in s.stoppers { assert StopperOk(s, t); }
      case Claim(_, _, _) => case GiveUp(_) => case Restart(_) =>
    }
  }

  lemma VmKeptByBoot(c: Config, s: State, e: Event, vm: nat)
    requires Inv(s) && (e.BootFails? || e.Boot? || e.Record? || e.AbortStop?) && vm in Step(c, s, e).vms
    ensures VmOk(Step(c, s, e), vm)
  {
    hide StopperOk;
    if vm in s.vms { VmFacts(s, vm); }
    match e { case BootFails(_) => case Boot(_) => case Record(_) => case AbortStop(_) => }
  }

  lemma VmKept(c: Config, s: State, e: Event, vm: nat)
    requires Inv(s) && !e.Reserve? && vm in Step(c, s, e).vms
    ensures VmOk(Step(c, s, e), vm)
  {
    if e.Reread? {
      VmKeptByReread(s, e.env, vm);
    } else if e.CommitFails? {
      VmKeptByCommitFails(s, e.env, vm);
    } else if e.Claim? || e.Destroy? || e.GiveUp? || e.Restart? {
      VmKeptByStops(c, s, e, vm);
    } else if StartEvent(e) {
      VmKeptByBoot(c, s, e, vm);
    } else {
      VmFacts(s, vm);
      match e { case Extend(_, _, _, _) => case VmDies(_) => case Tick(_) => }
    }
  }

  lemma ReserveKeeps(c: Config, s: State, e: Event)
    requires Inv(s) && e.Reserve?
    ensures Inv(Step(c, s, e))
  {
    var s' := Step(c, s, e);
    if Admission(c, s, e).Ok? {
      forall i | 0 <= i < |s'.rows| ensures RowOk(s', i) { if i < |s.rows| { assert RowOk(s, i); } }
      forall i | i in s'.starts ensures StartOk(s', i) { if i != |s.rows| { assert StartOk(s, i); } }
      forall t | t in s'.stoppers ensures StopperOk(s', t) { assert StopperOk(s, t); }
      forall vm | vm in s'.vms ensures VmOk(s', vm) { VmFacts(s, vm); }
    }
  }

  lemma StepKeeps(c: Config, s: State, e: Event)
    requires Inv(s)
    ensures Inv(Step(c, s, e))
  {
    if e.Reserve? {
      ReserveKeeps(c, s, e);
      return;
    }
    var s' := Step(c, s, e);
    forall i | 0 <= i < |s'.rows| ensures RowOk(s', i) { RowKept(c, s, e, i); }
    forall i | i in s'.starts ensures StartOk(s', i) { StartKept(c, s, e, i); }
    forall t | t in s'.stoppers ensures StopperOk(s', t) { StopperKept(c, s, e, t); }
    forall t, u | t in s'.stoppers && u in s'.stoppers && t != u ensures s'.stoppers[t].env != s'.stoppers[u].env {
      StopperKept(c, s, e, t);
      StopperKept(c, s, e, u);
      if t in s.stoppers { assert StopperOk(s, t); }
      if u in s.stoppers { assert StopperOk(s, u); }
    }
    forall vm | vm in s'.vms ensures VmOk(s', vm) { VmKept(c, s, e, vm); }
  }

  /** The invariant holds in every reachable state. */
  lemma {:induction false} RunKeeps(c: Config, es: seq<Event>)
    ensures Inv(Exec(c, Init, es))
  {
    if es != [] {
      RunKeeps(c, es[..|es| - 1]);
      StepKeeps(c, Exec(c, Init, es[..|es| - 1]), es[|es| - 1]);
    }
  }

  // ---- no VM is lost ----

  /** Row i is not stopped and records this VM. */
  predicate Names(s: State, i: nat, vm: nat) {
    i < |s.rows| && Live(s.rows[i]) && s.rows[i].vm == Some(vm)
  }

  /** In every reachable state each live VM, unless its holder was dropped by a
      crash or a failed commit, is held by the start request that booted it or
      is named by exactly one row that is not stopped. */
  lemma NoVmIsLost(c: Config, es: seq<Event>, vm: nat)
    requires vm in Exec(c, Init, es).vms && vm !in Exec(c, Init, es).leaked
    ensures var s := Exec(c, Init, es);
            Held(s, vm) || exists i :: Names(s, i, vm) && forall j :: Names(s, j, vm) ==> j == i
  {
    RunKeeps(c, es);
    var s := Exec(c, Init, es);
    assert VmOk(s, vm);
    if !Held(s, vm) {
      var env := s.bootedFor[vm];
      assert Names(s, env, vm);
      forall j | Names(s, j, vm) ensures j == env { assert RowOk(s, j); }
    }
  }

  /** The only steps that drop the holder of a VM are a crash, for VMs of start
      requests in flight, and a failed commit of the Attack Machine route, for a VM
      that no row covers. */
  lemma LeaksComeFrom(c: Config, es: seq<Event>, e: Event, vm: nat)
    requires var s := Exec(c, Init, es); vm in Step(c, s, e).leaked && vm !in s.leaked
    ensures var s := Exec(c, Init, es);
            || (e.Restart? && Held(s, vm))
            || (e.CommitFails? && e.env in s.starts && s.starts[e.env].route == AttackMachine
                && Holds(s.starts[e.env].phase, vm) && !Covered(s, e.env, vm))
  {
    hide Exec;
    RunKeeps(c, es);
    var s := Exec(c, Init, es);
    if e.Restart? {
      VmFacts(s, vm);
      assert forall i: nat :: i < |s.rows| && Live(s.rows[i]) && s.rows[i].vm == Some(vm) ==> vm in RecordedVms(s.rows);
    }
  }

  /** The step drops a VM: a crash that some unrecorded VM survives, or a failed commit
      of the Attack Machine route whose row does not cover the VM. */
  predicate Drops(s: State, e: Event) {
    match e
    case Restart(survivors) => s.vms * survivors - RecordedVms(s.rows) != {}
    case CommitFails(env) =>
      && env in s.starts && (s.starts[env].phase.Booted? || s.starts[env].phase.Recorded?)
      && s.starts[env].route == AttackMachine && !Covered(s, env, s.starts[env].phase.vm)
    case _ => false
  }

  predicate NothingDropped(c: Config, es: seq<Event>) {
    es == [] || (NothingDropped(c, es[..|es| - 1]) && !Drops(Exec(c, Init, es[..|es| - 1]), es[|es| - 1]))
  }

  lemma StepLeaks(c: Config, s: State, e: Event)
    ensures s.leaked <= Step(c, s, e).leaked
    ensures s.leaked == {} ==> (Step(c, s, e).leaked == {} <==> !Drops(s, e))
  {
    match e {
      case Reserve(_, _, _, _) => case BootFails(_) => case Boot(_) => case Record(_) =>
      case Reread(_) => case AbortStop(_) => case CommitFails(_) => case Claim(_, _, _) =>
      case Destroy(_) => case GiveUp(_) => case Extend(_, _, _, _) => case VmDies(_) =>
      case Tick(_) => case Restart(_) =>
    }
  }

  /** No VM has lost its holder exactly if no step of the run dropped one. */
  lemma {:induction false} LeaksExactly(c: Config, es: seq<Event>)
    ensures Exec(c, Init, es).leaked == {} <==> NothingDropped(c, es)
  {
    if es != [] {
      hide Step, Drops;
      var before := es[..|es| - 1];
      LeaksExactly(c, before);
      StepLeaks(c, Exec(c, Init, before), es[|es| - 1]);
    }
  }

  // ---- counting live VMs ----

  /** With no request in flight, live VMs inject into live rows. */
  lemma QuietVmsAreCovered(c: Config, es: seq<Event>)
    requires Exec(c, Init, es).starts == map[]
    ensures var s := Exec(c, Init, es); |s.vms - s.leaked| <= |LiveIds(s.rows)|
  {
    RunKeeps(c, es);
    var s := Exec(c, Init, es);
    forall vm | vm in s.vms - s.leaked ensures Kept(s, vm) { assert VmOk(s, vm); }
    InjectionBound(s, s.vms - s.leaked, LiveIds(s.rows));
  }

  lemma {:induction false} InjectionBound(s: State, vms: set<nat>, envs: set<nat>)
    requires forall vm :: vm in vms ==> Kept(s, vm) && s.bootedFor[vm] in envs
    ensures |vms| <= |envs|
  {
    if vms != {} {
      var vm :| vm in vms;
      var env := s.bootedFor[vm];
      forall v | v in vms - {vm} ensures s.bootedFor[v] in envs - {env} {
        assert Kept(s, v) && Kept(s, vm);
      }
      InjectionBound(s, vms - {vm}, envs - {env});
    }
  }

  function StoppableRows(s: State): set<nat> {
    set i: nat | i < |s.rows| && (s.rows[i].status == Running || s.rows[i].status == Stopping)
  }

  predicate CommitsSucceed(es: seq<Event>) {
    forall k :: 0 <= k < |es| ==> !es[k].CommitFails?
  }

  predicate InFlight(s: State, i: nat)
    requires i < |s.rows|
  {
    s.rows[i].status == Starting ==> i in s.starts && !s.starts[i].phase.Aborting?
  }

  lemma StepKeepsInFlight(c: Config, s: State, e: Event, i: nat)
    requires !e.CommitFails? && i < |Step(c, s, e).rows| && (i < |s.rows| ==> InFlight(s, i))
    ensures InFlight(Step(c, s, e), i)
  {
    if StartEvent(e) {
      match e { case BootFails(_) => case Boot(_) => case Record(_) => case Reread(_) => case AbortStop(_) => }
    } else {
      match e {
        case Reserve(_, _, _, _) => case Claim(_, _, _) => case Destroy(_) => case GiveUp(_) =>
        case Extend(_, _, _, _) => case VmDies(_) => case Tick(_) => case Restart(_) =>
      }
    }
  }

  /** When commits succeed, a `starting` row has its start request in flight. */
  lemma {:induction false} StartingRowsAreInFlight(c: Config, es: seq<Event>, i: nat)
    requires CommitsSucceed(es) && i < |Exec(c, Init, es).rows|
    ensures InFlight(Exec(c, Init, es), i)
  {
    if es != [] {
      hide Step, InFlight;
      var before := es[..|es| - 1];
      assert forall k :: 0 <= k < |before| ==> before[k] == es[k];
      if i < |Exec(c, Init, before).rows| { StartingRowsAreInFlight(c, before, i); }
      StepKeepsInFlight(c, Exec(c, Init, before), es[|es| - 1], i);
    }
  }

  /** So, with no request in flight, live VMs inject into `running` and `stopping` rows. */
  lemma QuietVmsAreStoppable(c: Config, es: seq<Event>)
    requires CommitsSucceed(es) && Exec(c, Init, es).starts == map[]
    ensures var s := Exec(c, Init, es); |s.vms - s.leaked| <= |StoppableRows(s)|
  {
    var s := Exec(c, Init, es);
    forall i: nat | i < |s.rows| ensures s.rows[i].status != Starting { StartingRowsAreInFlight(c, es, i); }
    assert LiveIds(s.rows) == StoppableRows(s);
    QuietVmsAreCovered(c, es);
  }

  /** After a restart no row is live, and a surviving VM belonged to a start
      request in flight at the crash or had already lost its holder. */
  lemma RestartSweeps(c: Config, es: seq<Event>, survivors: set<nat>)
    ensures var s := Exec(c, Init, es);
            var s' := Step(c, s, Restart(survivors));
            && |s'.rows| == |s.rows| && LiveIds(s'.rows) == {}
            && s'.starts == map[] && s'.stoppers == map[]
            && forall vm :: vm in s'.vms ==> vm in survivors && (vm in s.leaked || Held(s, vm))
  {
    var s := Exec(c, Init, es);
    var s' := Step(c, s, Restart(survivors));
    forall vm | vm in s'.vms ensures vm in s.leaked || Held(s, vm) {
      if vm !in s.leaked { LeaksComeFrom(c, es, Restart(survivors), vm); }
    }
  }

  // ---- commits that fail after boot ----

  /** No row that will be looked at again, and nothing in flight, leads to this live VM. */
  ghost predicate Orphaned(s: State, vm: nat) {
    && vm in s.vms && vm < |s.bootedFor|
    && (forall i :: 0 <= i < |s.rows| && Live(s.rows[i]) ==> s.rows[i].vm != Some(vm))
    && (forall i :: i in s.starts ==> !Holds(s.starts[i].phase, vm))
    && (forall t :: t in s.stoppers ==> s.stoppers[t].seen != Some(vm))
  }

  /** The event does not itself end the VM. */
  predicate Spares(e: Event, vm: nat) {
    && (e.VmDies? ==> e.vm != vm)
    && (e.Restart? ==> vm in e.survivors)
  }

  lemma OrphanStays(c: Config, s: State, e: Event, vm: nat)
    requires Orphaned(s, vm) && Spares(e, vm)
    ensures Orphaned(Step(c, s, e), vm)
  {
    if StartEvent(e) { OrphanStaysByStart(c, s, e, vm); }
    else {
      match e {
        case Reserve(_, _, _, _) => case Claim(_, _, _) => case Destroy(_) => case GiveUp(_) =>
        case Extend(_, _, _, _) => case VmDies(_) => case Tick(_) => case Restart(_) =>
      }
    }
  }

  lemma OrphanStaysByStart(c: Config, s: State, e: Event, vm: nat)
    requires Orphaned(s, vm) && StartEvent(e)
    ensures Orphaned(Step(c, s, e), vm)
  {
    match e {
      case BootFails(_) => case Boot(_) => case Record(_) => case Reread(_) => case AbortStop(_) =>
      case CommitFails(_) =>
    }
  }

  /** An orphaned VM stays one through every later run, restarts included, unless it
      ends by itself. */
  lemma {:induction false} OrphanForever(c: Config, s: State, vm: nat, later: seq<Event>)
    requires Orphaned(s, vm) && forall k :: 0 <= k < |later| ==> Spares(later[k], vm)
    ensures Orphaned(Exec(c, s, later), vm)
  {
    if later != [] {
      hide Orphaned, Step;
      OrphanForever(c, s, vm, later[..|later| - 1]);
      OrphanStays(c, Exec(c, s, later[..|later| - 1]), later[|later| - 1], vm);
    }
  }

  /** The two ways in which a dropped VM is out of reach: at once, or as soon as the
      stopper that did not see it is done. */
  ghost predicate OutOfReach(c: Config, s: State, env: nat, vm: nat) {
    || Orphaned(s, vm)
    || exists t :: t in s.stoppers && s.stoppers[t].env == env && Orphaned(Step(c, s, Destroy(t)), vm)
  }

  /** A commit that fails after boot, in either place. The project route stops its VM.
      The Attack Machine route leaves it to the row exactly if the row covers it;
      otherwise the VM is lost. */
  lemma FailedCommit(c: Config, es: seq<Event>, env: nat, vm: nat)
    requires var s := Exec(c, Init, es);
             env in s.starts && (s.starts[env].phase == Booted(vm) || s.starts[env].phase == Recorded(vm)) &&
               vm in s.vms
    ensures var s := Exec(c, Init, es);
            var s' := Step(c, s, CommitFails(env));
            if s.starts[env].route != AttackMachine then vm !in Step(c, s', AbortStop(env)).vms
            else if Covered(s, env, vm) then Kept(s', vm) && s'.leaked == s.leaked
            else vm in s'.leaked && OutOfReach(c, s', env, vm)
  {
    RunKeeps(c, es);
    var s := Exec(c, Init, es);
    assert StartOk(s, env);
    if s.starts[env].route == AttackMachine && !Covered(s, env, vm) {
      if s.rows[env].vm == Some(vm) && Live(s.rows[env]) {
        var t :| t in s.stoppers && s.stoppers[t].env == env && s.stoppers[t].seen != Some(vm);
        LostToStopper(c, s, env, vm, t);
      } else {
        LostAtOnce(c, s, env, vm);
      }
    }
  }

  lemma LostAtOnce(c: Config, s: State, env: nat, vm: nat)
    requires Inv(s) && vm in s.vms && env in s.starts && s.starts[env].route == AttackMachine
    requires s.starts[env].phase == Booted(vm) || s.starts[env].phase == Recorded(vm)
    requires s.rows[env].vm != Some(vm) || !Live(s.rows[env])
    ensures Orphaned(Step(c, s, CommitFails(env)), vm)
  {
    var s' := Step(c, s, CommitFails(env));
    assert StartOk(s, env);
    forall i | 0 <= i < |s.rows| && Live(s.rows[i]) ensures s.rows[i].vm != Some(vm) { assert RowOk(s, i); }
    forall i | i in s'.starts ensures !Holds(s'.starts[i].phase, vm) { assert StartOk(s, i); }
    forall t | t in s.stoppers ensures s.stoppers[t].seen != Some(vm) {
      assert StopperOk(s, t) && RowOk(s, s.stoppers[t].env);
    }
  }

  lemma LostToStopper(c: Config, s: State, env: nat, vm: nat, t: nat)
    requires Inv(s) && vm in s.vms && env in s.starts && s.starts[env].route == AttackMachine
    requires s.starts[env].phase == Booted(vm) || s.starts[env].phase == Recorded(vm)
    requires t in s.stoppers && s.stoppers[t].env == env && s.stoppers[t].seen != Some(vm) && s.rows[env].vm == Some(vm)
    ensures var s' := Step(c, s, CommitFails(env)); t in s'.stoppers && Orphaned(Step(c, s', Destroy(t)), vm)
  {
    var s' := Step(c, s, CommitFails(env));
    assert StartOk(s, env) && StopperOk(s, t) && s'.stoppers == s.stoppers;
    var s2 := Step(c, s', Destroy(t));
    forall i | 0 <= i < |s2.rows| && Live(s2.rows[i]) ensures s2.rows[i].vm != Some(vm) { assert RowOk(s, i); }
    forall i | i in s2.starts ensures !Holds(s2.starts[i].phase, vm) { assert StartOk(s, i); }
    forall u | u in s2.stoppers ensures s2.stoppers[u].seen != Some(vm) {
      assert StopperOk(s, u) && RowOk(s, s.stoppers[u].env);
    }
  }

  /** A run that loses a VM: an Attack Machine comes up and the commit of its vm_id fails. */
  function DroppedStart(user: nat): seq<Event> {
    [Reserve(user, AttackMachine, None, {}), Boot(0), CommitFails(0)]
  }

  lemma DroppedStartLosesVm(c: Config, user: nat)
    requires c.poolStart <= c.poolEnd && user in c.admins
    ensures var s := Exec(c, Init, DroppedStart(user)); 0 in s.leaked && Orphaned(s, 0)
  {
    var es := DroppedStart(user);
    var pool := c.Pool();
    assert UsedAddresses([]) + {} == {} && pool[0] !in {};
    assert LiveOf([], user, Some(c.attackImage)) == {};
    var s1 := Step(c, Init, es[0]);
    assert |s1.rows| == 1 && s1.rows[0].vm == None && s1.bootedFor == [];
    assert 0 in s1.starts && s1.starts[0].phase == Booting && s1.starts[0].route == AttackMachine;
    assert es[..2][..1] == es[..1] && es[..1][..0] == [] && es[..3] == es;
    assert Exec(c, Init, []) == Init && Exec(c, Init, es[..1]) == s1;
    assert Exec(c, Init, es[..2]) == Step(c, s1, Boot(0));
    assert Exec(c, Init, es) == Step(c, Step(c, s1, Boot(0)), CommitFails(0));
  }
}
