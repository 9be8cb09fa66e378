/** The request handlers, the watchdog and the startup cleanup as the code runs
    them: methods that update the table and the set of live VMs in place. Each
    is proved to be a step of the transition system, so every invariant of that
    system holds of the object. */
module Orchestrators {
  import opened Wrappers
  import Network
  import opened Environments
  import opened EnvironmentEffects
  import opened EnvironmentSafety

  const STARTING_TIMEOUT := 5 * 60
  const CRASH_GRACE := 20

  // ---- which rows a watchdog pass reaps ----

  predicate Expired(r: Row, now: int) {
    r.status == Running && !r.unlimited && r.expiresAt <= now
  }

  predicate Stuck(r: Row, now: int) {
    r.status == Starting && r.startedAt <= now - STARTING_TIMEOUT
  }

  predicate Watched(r: Row, now: int) {
    r.status == Running && r.startedAt <= now - CRASH_GRACE
  }

  predicate Crashed(r: Row, vms: set<nat>, now: int) {
    Watched(r, now) && r.vm.Some? && r.vm.value !in vms
  }

  predicate Due(r: Row, vms: set<nat>, now: int) {
    Expired(r, now) || Stuck(r, now) || Crashed(r, vms, now)
  }

  function IdSet(ids: seq<nat>): (s: set<nat>)
    ensures forall i :: i in s <==> i in ids
  {
    set i | i in ids
  }

  function VmsOf(rows: seq<Row>, ids: set<nat>): set<nat> {
    set i | i in ids && i < |rows| && rows[i].vm.Some? :: rows[i].vm.value
  }

  /** `rows` and `vms` are `rows0` and `vms0` with exactly the rows `ids` stopped. */
  ghost predicate StoppedExactly(rows0: seq<Row>, vms0: set<nat>, rows: seq<Row>, vms: set<nat>, ids: set<nat>) {
    && |rows| == |rows0|
    && (forall i :: 0 <= i < |rows| ==> rows[i] == if i in ids then rows0[i].(status := Stopped) else rows0[i])
    && vms == vms0 - VmsOf(rows0, ids)
  }

  lemma ReapStops(c: Config, s: State, watchdog: nat, env: nat)
    requires watchdog !in s.stoppers && env < |s.rows| && Claimable(s.rows[env])
    ensures var s' := Step(c, Step(c, s, Claim(watchdog, env, None)), Destroy(watchdog));
            && s' == s.(rows := s'.rows, vms := s'.vms)
            && StoppedExactly(s.rows, s.vms, s'.rows, s'.vms, {env})
  {
    var s1 := Step(c, s, Claim(watchdog, env, None));
    assert s1.stoppers[watchdog] == Stopper(env, s.rows[env].vm);
    var s' := Step(c, s1, Destroy(watchdog));
    assert s'.stoppers == s.stoppers;
    assert VmsOf(s.rows, {env}) == if s.rows[env].vm.Some? then {s.rows[env].vm.value} else {};
  }

  /** Claiming a row and destroying it, with nothing in between. */
  lemma ReapEffect(c: Config, s: State, watchdog: nat, env: nat)
    requires Inv(s) && watchdog !in s.stoppers && env < |s.rows| && Claimable(s.rows[env])
    ensures var s' := Step(c, Step(c, s, Claim(watchdog, env, None)), Destroy(watchdog));
            && Inv(s')
            && s' == s.(rows := s'.rows, vms := s'.vms)
            && StoppedExactly(s.rows, s.vms, s'.rows, s'.vms, {env})
  {
    hide Inv, Step, StoppedExactly;
    StepKeeps(c, s, Claim(watchdog, env, None));
    StepKeeps(c, Step(c, s, Claim(watchdog, env, None)), Destroy(watchdog));
    ReapStops(c, s, watchdog, env);
  }

  /** Stopping rows `a` and then rows `b` is stopping both. */
  lemma StoppedTwice(rows0: seq<Row>, vms0: set<nat>, rows1: seq<Row>, vms1: set<nat>,
                     rows2: seq<Row>, vms2: set<nat>, a: set<nat>, b: set<nat>)
    requires StoppedExactly(rows0, vms0, rows1, vms1, a) && StoppedExactly(rows1, vms1, rows2, vms2, b)
    ensures StoppedExactly(rows0, vms0, rows2, vms2, a + b)
  {
    assert forall i :: 0 <= i < |rows0| ==> rows1[i].vm == rows0[i].vm;
    assert VmsOf(rows1, b) == VmsOf(rows0, b);
    assert VmsOf(rows0, a + b) == VmsOf(rows0, a) + VmsOf(rows0, b);
  }

  /** One more row of a list: it is stopped now, or had been stopped before. */
  lemma AlreadyStopped(rows0: seq<Row>, vms0: set<nat>, rows1: seq<Row>, vms1: set<nat>,
                       rows2: seq<Row>, vms2: set<nat>, done: set<nat>, env: nat)
    requires StoppedExactly(rows0, vms0, rows1, vms1, done)
    requires env < |rows0| && Claimable(rows0[env])
    requires StoppedExactly(rows1, vms1, rows2, vms2, if Claimable(rows1[env]) then {env} else {})
    ensures StoppedExactly(rows0, vms0, rows2, vms2, done + {env})
  {
    if Claimable(rows1[env]) {
      StoppedTwice(rows0, vms0, rows1, vms1, rows2, vms2, done, {env});
    } else {
      StoppedTwice(rows0, vms0, rows1, vms1, rows2, vms2, done, {});
      assert env in done;
      assert done + {env} == done == done + {};
    }
  }

  /** vm_ids are distinct across rows, so stopping other rows leaves this VM alone. */
  lemma OtherVmUntouched(s: State, ids: set<nat>, i: nat)
    requires Inv(s) && i < |s.rows| && i !in ids && s.rows[i].vm.Some?
    ensures s.rows[i].vm.value !in VmsOf(s.rows, ids)
  {
    assert RowOk(s, i);
    forall j | j in ids && j < |s.rows| && s.rows[j].vm.Some? ensures s.rows[j].vm != s.rows[i].vm {
      assert RowOk(s, j);
    }
  }

  function DueIds(rows: seq<Row>, vms: set<nat>, now: int): set<nat> {
    set i: nat | i < |rows| && Due(rows[i], vms, now)
  }

  function DeadIds(rows: seq<Row>, vms: set<nat>, ids: set<nat>): set<nat> {
    set i | i in ids && i < |rows| && rows[i].vm.Some? && rows[i].vm.value !in vms
  }

  /** The three phases, each reading the table the one before left, together stop
      what was due at the start. */
  lemma PhasesCompose(s: State, t: int, rows1: seq<Row>, vms1: set<nat>, rows2: seq<Row>, vms2: set<nat>,
                      rows3: seq<Row>, vms3: set<nat>, expired: set<nat>, stuck: set<nat>, watched: set<nat>)
    requires Inv(s)
    requires forall i :: i in expired <==> 0 <= i < |s.rows| && Expired(s.rows[i], t)
    requires StoppedExactly(s.rows, s.vms, rows1, vms1, expired)
    requires forall i :: i in stuck <==> 0 <= i < |rows1| && Stuck(rows1[i], t)
    requires StoppedExactly(rows1, vms1, rows2, vms2, stuck)
    requires forall i :: i in watched <==> 0 <= i < |rows2| && Watched(rows2[i], t)
    requires StoppedExactly(rows2, vms2, rows3, vms3, DeadIds(rows2, vms2, watched))
    ensures StoppedExactly(s.rows, s.vms, rows3, vms3, DueIds(s.rows, s.vms, t))
  {
    var dead := DeadIds(rows2, vms2, watched);
    StoppedTwice(s.rows, s.vms, rows1, vms1, rows2, vms2, expired, stuck);
    StoppedTwice(s.rows, s.vms, rows2, vms2, rows3, vms3, expired + stuck, dead);
    forall i: nat | i < |s.rows|
      ensures Due(s.rows[i], s.vms, t) <==> i in expired + stuck + dead
    {
      if i !in expired + stuck && s.rows[i].vm.Some? {
        OtherVmUntouched(s, expired + stuck, i);
      }
    }
    assert DueIds(s.rows, s.vms, t) == expired + stuck + dead;
  }

  /** After a pass nothing is due any more: no finite row that is still running has
      expired, and no VM that was alive has been taken from another row. */
  lemma NothingDueAfter(s: State, t: int, rows: seq<Row>, vms: set<nat>, i: nat)
    requires Inv(s) && StoppedExactly(s.rows, s.vms, rows, vms, DueIds(s.rows, s.vms, t)) && i < |rows|
    ensures !Due(rows[i], vms, t)
    ensures rows[i].status == Running && !rows[i].unlimited ==> t < rows[i].expiresAt
  {
    var due := DueIds(s.rows, s.vms, t);
    if i !in due && s.rows[i].vm.Some? { OtherVmUntouched(s, due, i); }
  }

  /** What a pass stops and what it must leave, in the columns of the rows: a running row
      whose time is up; a starting row after 300 seconds; a running row from 20 seconds
      after its reservation on, if its VM is dead. */
  predicate PassStops(r: Row, vms: set<nat>, now: int) {
    || (r.status == Running && !r.unlimited && now >= r.expiresAt)
    || (r.status == Starting && now >= r.startedAt + 300)
    || (r.status == Running && now >= r.startedAt + 20 && r.vm.Some? && r.vm.value !in vms)
  }

  /** The rows and VMs after a pass at this time. */
  ghost predicate Passed(rows0: seq<Row>, vms0: set<nat>, rows: seq<Row>, vms: set<nat>, now: int) {
    && |rows| == |rows0|
    && (forall i :: 0 <= i < |rows| ==>
          rows[i] == if PassStops(rows0[i], vms0, now) then rows0[i].(status := Stopped) else rows0[i])
    && (forall i :: 0 <= i < |rows| && rows0[i].vm.Some? && rows0[i].vm.value in vms0 ==>
          (rows0[i].vm.value in vms <==> !PassStops(rows0[i], vms0, now)))
    && vms <= vms0
  }

  lemma PassInColumns(s: State, t: int, rows: seq<Row>, vms: set<nat>)
    requires Inv(s) && StoppedExactly(s.rows, s.vms, rows, vms, DueIds(s.rows, s.vms, t))
    ensures Passed(s.rows, s.vms, rows, vms, t)
  {
    hide Inv;
    var due := DueIds(s.rows, s.vms, t);
    forall i | 0 <= i < |rows| ensures i in due <==> PassStops(s.rows[i], s.vms, t) {}
    forall i | 0 <= i < |rows| && s.rows[i].vm.Some? && s.rows[i].vm.value in s.vms
      ensures s.rows[i].vm.value in vms <==> !PassStops(s.rows[i], s.vms, t)
    {
      if i in due {
        assert s.rows[i].vm.value in VmsOf(s.rows, due);
      } else {
        OtherVmUntouched(s, due, i);
      }
    }
  }

  /** A running row that is unlimited or not yet due keeps its row and its VM. */
  lemma PassSpares(s: State, t: int, rows: seq<Row>, vms: set<nat>, i: nat)
    requires Inv(s) && Passed(s.rows, s.vms, rows, vms, t) && i < |s.rows|
    ensures var r := s.rows[i];
            r.status == Running && (r.unlimited || t < r.expiresAt) && r.vm.Some? && r.vm.value in s.vms ==>
              rows[i] == r && r.vm.value in vms
    ensures s.rows[i].status == Starting && t < s.rows[i].startedAt + 300 ==> rows[i] == s.rows[i]
    ensures var r := s.rows[i];
            r.status == Running && (r.unlimited || t < r.expiresAt) && t < r.startedAt + 20 ==> rows[i] == r
    ensures s.rows[i].status == Stopping || s.rows[i].status == Stopped ==> rows[i] == s.rows[i]
  {
  }

  /** A pass d seconds after a start stops the environment exactly if it has a timeout
      and that is over. */
  lemma PassAfterStart(c: Config, user: nat, image: nat, minutes: nat, d: nat, rows: seq<Row>, vms: set<nat>)
    requires c.poolStart <= c.poolEnd && user in c.admins
    requires var s := Exec(c, Init, TimedStart(user, image, minutes, d)); Passed(s.rows, s.vms, rows, vms, s.now)
    ensures |rows| == 1
    ensures minutes != 0 && d >= 60 * minutes ==> rows[0].status == Stopped && vms == {}
    ensures minutes == 0 || d < 60 * minutes ==> rows[0].status == Running && vms == {0}
  {
    hide Exec;
    TimedStartRuns(c, user, image, minutes, d);
    var s := Exec(c, Init, TimedStart(user, image, minutes, d));
    assert s.rows[0].vm == Some(0) && 0 in s.vms;
    assert 0 in vms || vms == {};
  }

  datatype ExtendError = NoSuchEnvironment | NotOwner | NoExtensionsLeft | IsUnlimited

  /** The checks of the two extend routes, in their order. */
  function RefuseExtend(c: Config, rows: seq<Row>, env: nat, user: nat, route: Route): Option<ExtendError> {
    if env >= |rows| || !Claimable(rows[env]) then Some(NoSuchEnvironment)
    else if route == AttackMachine &&
      (rows[env].user != user || rows[env].image != c.attackImage) then Some(NoSuchEnvironment)
    else if rows[env].user != user && user !in c.admins then Some(NotOwner)
    else if user !in c.admins && rows[env].extended >= |c.Pool()| then Some(NoExtensionsLeft)
    else if rows[env].unlimited then Some(IsUnlimited)
    else None
  }

  /** Each refusal of an extension, by what holds of the row and the user. */
  predicate ExtensionRefused(c: Config, rows: seq<Row>, env: nat, user: nat, route: Route, why: Option<ExtendError>) {
    var found := env < |rows| && (rows[env].status == Starting || rows[env].status == Running) &&
                 (route == AttackMachine ==> rows[env].user == user && rows[env].image == c.attackImage);
    var own := found && (rows[env].user == user || user in c.admins);
    var left := own && (user in c.admins || rows[env].extended < |c.Pool()|);
    && (why == Some(NoSuchEnvironment) <==> !found)
    && (why == Some(NotOwner) <==> found && !own)
    && (why == Some(NoExtensionsLeft) <==> own && !left)
    && (why == Some(IsUnlimited) <==> left && rows[env].unlimited)
    && (why == None <==> left && !rows[env].unlimited)
  }

  lemma RefusalMeans(c: Config, rows: seq<Row>, env: nat, user: nat, route: Route)
    ensures ExtensionRefused(c, rows, env, user, route, RefuseExtend(c, rows, env, user, route))
  {
  }

  // ---- what recording and destroying do to the other rows and VMs ----

  predicate OnlyRow(rows0: seq<Row>, rows: seq<Row>, env: nat) {
    |rows| == |rows0| && forall i :: 0 <= i < |rows| && i != env ==> rows[i] == rows0[i]
  }

  /** The row had no vm_id and now has this one, which the request still holds and no
      other row has; everything else is as it was. */
  predicate VmRecorded(s: State, s': State, env: nat, vm: nat) {
    && OnlyRow(s.rows, s'.rows, env) && env < |s.rows|
    && s.rows[env].vm == None && s'.rows[env] == s.rows[env].(vm := Some(vm))
    && Held(s', vm) && s'.vms == s.vms && s'.stoppers == s.stoppers
    && forall i :: 0 <= i < |s'.rows| && s'.rows[i].vm == Some(vm) ==> i == env
  }

  lemma RecordEffect(c: Config, s: State, env: nat)
    requires Inv(s) && env in s.starts && s.starts[env].phase.Booted?
    ensures var s' := Step(c, s, Record(env)); Inv(s') && VmRecorded(s, s', env, s.starts[env].phase.vm)
  {
    hide Inv;
    StepKeeps(c, s, Record(env));
    HolderIsAlone(s, env);
  }

  lemma HolderIsAlone(s: State, env: nat)
    requires Inv(s) && env in s.starts && s.starts[env].phase.Booted?
    ensures StartOk(s, env) && forall i :: 0 <= i < |s.rows| && i != env ==>
            s.rows[i].vm != Some(s.starts[env].phase.vm)
  {
    assert StartOk(s, env);
    forall i | 0 <= i < |s.rows| && i != env ensures s.rows[i].vm != Some(s.starts[env].phase.vm) {
      assert RowOk(s, i);
    }
  }

  /** The row is `stopped` and otherwise as it was; the VM read at the claim, which is
      the row's own, is gone, and no VM that another row records is touched. */
  predicate Destroyed(s: State, s': State, env: nat, seen: Option<nat>) {
    && OnlyRow(s.rows, s'.rows, env) && env < |s.rows|
    && s'.rows[env] == s.rows[env].(status := Stopped)
    && (seen.Some? ==> seen == s.rows[env].vm && seen.value !in s'.vms)
    && s'.vms <= s.vms && (forall vm :: vm in s.vms && vm !in s'.vms ==> seen == Some(vm))
    && (forall i :: 0 <= i < |s.rows| && i != env && s.rows[i].vm.Some? ==>
          (s.rows[i].vm.value in s'.vms <==> s.rows[i].vm.value in s.vms))
  }

  lemma DestroyEffect(c: Config, s: State, stopper: nat)
    requires Inv(s) && stopper in s.stoppers
    ensures var s' := Step(c, s, Destroy(stopper));
            && Inv(s') && s.stoppers[stopper].env < |s.rows|
            && Destroyed(s, s', s.stoppers[stopper].env, s.stoppers[stopper].seen)
  {
    hide Inv;
    StepKeeps(c, s, Destroy(stopper));
    SeenIsItsOwn(s, stopper);
  }

  lemma SeenIsItsOwn(s: State, stopper: nat)
    requires Inv(s) && stopper in s.stoppers
    ensures StopperOk(s, stopper)
    ensures var Stopper(env, seen) := s.stoppers[stopper];
            seen.Some? ==> forall i :: 0 <= i < |s.rows| && i != env ==> s.rows[i].vm != seen
  {
    assert StopperOk(s, stopper);
    var Stopper(env, seen) := s.stoppers[stopper];
    assert RowOk(s, env);
    forall i | 0 <= i < |s.rows| && i != env && seen.Some? ensures s.rows[i].vm != seen { assert RowOk(s, i); }
  }

  // ---- the crash grace ----

  /** The grace is counted from the reservation: at the moment a row becomes running
      it can already be reaped as crashed exactly if its start took the whole grace. */
  lemma GraceCountsFromReservation(c: Config, s: State, env: nat)
    requires Inv(s) && HandsOverNow(s, env)
    ensures var s' := Step(c, s, Reread(env));
            var dead := Step(c, s', VmDies(s.starts[env].phase.vm));
            && s'.rows[env].status == Running && s'.wentLive[env] == s'.now
            && (Crashed(dead.rows[env], dead.vms, dead.now) <==> s.now - s.rows[env].startedAt >= CRASH_GRACE)
  {
    assert StartOk(s, env);
  }

  predicate HandsOverNow(s: State, env: nat) {
    env in s.starts && s.starts[env].phase.Recorded? && env < |s.rows| && s.rows[env].status == Starting
  }

  /** The run of a start that takes 20 seconds and whose VM dies at once. */
  function SlowStart(user: nat, route: Route): seq<Event> {
    [Reserve(user, route, None, {}), Boot(0), Record(0), Tick(20), Reread(0), VmDies(0)]
  }

  /** Its row is reaped as crashed after running for no time at all. */
  lemma SlowStartIsReaped(c: Config, user: nat, route: Route)
    requires c.poolStart <= c.poolEnd && user in c.admins
    ensures var s := Exec(c, Init, SlowStart(user, route));
            && |s.rows| == 1 && s.rows[0].status == Running && 0 in s.wentLive && s.wentLive[0] == s.now
            && Crashed(s.rows[0], s.vms, s.now)
  {
    var es := SlowStart(user, route);
    var pool := c.Pool();
    assert UsedAddresses([]) + {} == {} && pool[0] !in {};
    assert LiveOf([], user, Some(c.attackImage)) == {};
    var s1 := Step(c, Init, es[0]);
    assert Exec(c, Init, []) == Init && es[..1][..0] == [];
    assert Exec(c, Init, es[..1]) == s1;
    assert |s1.rows| == 1 &&
      s1.starts == map[0 := Start(Booting, route, Placeholder(c, TimeoutMinutes(c, route, None)))];
    SlowRest(c, s1, es);
  }

  lemma SlowRest(c: Config, s: State, es: seq<Event>)
    requires |es| == 6 && Exec(c, Init, es[..1]) == s
    requires es[1..] == [Boot(0), Record(0), Tick(20), Reread(0), VmDies(0)]
    requires |s.rows| == 1 && s.rows[0].status == Starting && s.rows[0].startedAt == s.now == 0
    requires 0 in s.starts && s.starts[0].phase == Booting && s.bootedFor == [] && s.vms == {}
    ensures var s := Exec(c, Init, es);
            && |s.rows| == 1 && s.rows[0].status == Running && 0 in s.wentLive && s.wentLive[0] == s.now
            && Crashed(s.rows[0], s.vms, s.now)
  {
    hide Exec, Step;
    assert es[1] == Boot(0) && es[2] == Record(0) && es[3] == Tick(20) && es[4] == Reread(0) && es[5] == VmDies(0) by {
      assert forall k :: 1 <= k < 6 ==> es[k] == es[1..][k - 1];
    }
    OneMore(c, es, 1);
    OneMore(c, es, 2);
    OneMore(c, es, 3);
    OneMore(c, es, 4);
    OneMore(c, es, 5);
    assert es[..6] == es;
    SlowSteps(c, s);
  }

  lemma SlowSteps(c: Config, s: State)
    requires |s.rows| == 1 && s.rows[0].status == Starting && s.rows[0].startedAt == s.now == 0
    requires 0 in s.starts && s.starts[0].phase == Booting && s.bootedFor == [] && s.vms == {}
    ensures var s := Step(c, Step(c, Step(c, Step(c, Step(c, s, Boot(0)), Record(0)), Tick(20)), Reread(0)), VmDies(0));
            && |s.rows| == 1 && s.rows[0].status == Running && 0 in s.wentLive && s.wentLive[0] == s.now
            && Crashed(s.rows[0], s.vms, s.now)
  {
    var s3 := Step(c, Step(c, s, Boot(0)), Record(0));
    assert s3.starts[0].phase == Recorded(0) && s3.vms == {0} && s3.rows == [s.rows[0].(vm := Some(0))];
    var s5 := Step(c, Step(c, s3, Tick(20)), Reread(0));
    assert s5.rows[0].status == Running && s5.now == 20;
  }

  lemma OneMore(c: Config, es: seq<Event>, k: nat)
    requires k < |es|
    ensures Exec(c, Init, es[..k + 1]) == Step(c, Exec(c, Init, es[..k]), es[k])
  {
    assert es[..k + 1][..k] == es[..k];
  }

  lemma OneMoreRecorded(rows: seq<Row>, k: nat)
    requires k < |rows|
    ensures RecordedVms(rows[..k + 1]) ==
            RecordedVms(rows[..k]) + (if Live(rows[k]) && rows[k].vm.Some? then {rows[k].vm.value} else {})
  {
    assert rows[..k + 1] == rows[..k] + [rows[k]];
  }

  class Orchestrator {
    const c: Config
    var rows: seq<Row>
    var vms: set<nat>
    var bootedFor: seq<nat>
    var starts: map<nat, Start>
    var stoppers: map<nat, Stopper>
    var now: int
    ghost var leaked: set<nat>
    ghost var wentLive: map<nat, int>

    ghost function Abs(): State
      reads this
    {
      State(rows, vms, bootedFor, starts, stoppers, now, leaked, wentLive)
    }

    constructor (c: Config)
      ensures this.c == c && Abs() == Init
    {
      this.c := c;
      rows, vms, bootedFor, starts, stoppers, now := [], {}, [], map[], map[], 0;
      leaked, wentLive := {}, map[];
    }

    /** What a start request is refused for, in order: a template it may not see, no
        address, and the checks that `allocate_ip` makes under its lock. */
    method Admit(user: nat, route: Route, timeout: Option<nat>, neighbours: set<string>)
        returns (result: Result<string, Refusal>)
      ensures result == Admission(c, Abs(), Reserve(user, route, timeout, neighbours))
      ensures Answered(c, rows, user, route, neighbours, result)
    {
      AdmissionAnswers(c, Abs(), Reserve(user, route, timeout, neighbours));
      if Hidden(c, user, route) { return Err(NotFound); }
      var ip := Network.FindFree(c.Pool(), UsedAddresses(rows) + neighbours);
      if ip.None? { return Err(NoAddress); }
      var why := Refuse(c, rows, user, route);
      return if why.Some? then Err(why.value) else Ok(ip.value);
    }

    /** `allocate_ip` with the `_reserve` callback of either start route. */
    method ReserveEnv(user: nat, route: Route, timeout: Option<nat>, neighbours: set<string>)
        returns (result: Result<nat, Refusal>)
      modifies this
      ensures Abs() == Step(c, old(Abs()), Reserve(user, route, timeout, neighbours))
      ensures match Admission(c, old(Abs()), Reserve(user, route, timeout, neighbours))
              case Err(why) => result == Err(why) && Abs() == old(Abs())
              case Ok(ip) => result == Ok(|old(rows)|) && Reserved(c, old(Abs()), Abs(), user, route, timeout, ip)
    {
      hide Admission, Answered, Reserved;
      ReservationEffect(c, Abs(), Reserve(user, route, timeout, neighbours));
      var ip := Admit(user, route, timeout, neighbours);
      if ip.Err? { return Err(ip.error); }
      var minutes := TimeoutMinutes(c, route, timeout);
      var held := Placeholder(c, minutes);
      result := Ok(|rows|);
      starts := starts[|rows| := Start(Booting, route, held)];
      rows := rows + [Row(user, ImageOf(c, route), ip.value, Starting, None, now, now + 60 * held, 0, minutes == 0)];
    }

    /** Commit the vm_id of a VM that has come up, whatever has become of the row. */
    method RecordVm(env: nat)
      requires Inv(Abs()) && env in starts && starts[env].phase.Booted?
      modifies this
      ensures Inv(Abs()) && Abs() == Step(c, old(Abs()), Record(env))
      ensures VmRecorded(old(Abs()), Abs(), env, old(starts[env].phase.vm))
    {
      RecordEffect(c, Abs(), env);
      var vm := starts[env].phase.vm;
      rows := rows[env := rows[env].(vm := Some(vm))];
      starts := starts[env := starts[env].(phase := Recorded(vm))];
    }

    /** Re-read the row: go `running`, or find that it was taken away. */
    method HandOver(env: nat) returns (running: bool)
      requires env in starts && starts[env].phase.Recorded? && env < |rows|
      modifies this
      ensures Abs() == Step(c, old(Abs()), Reread(env))
      ensures running <==> old(rows[env].status) == Starting
      ensures rows == if !running then old(rows)
                      else old(rows)[env := old(rows)[env].(status := Running,
                                                            expiresAt := now + 60 * old(starts[env].minutes))]
    {
      running := rows[env].status == Starting;
      if running {
        rows := rows[env := rows[env].(status := Running, expiresAt := now + 60 * starts[env].minutes)];
        starts := starts - {env};
        wentLive := wentLive[env := now];
      } else {
        starts := starts[env := starts[env].(phase := Aborting(starts[env].phase.vm))];
      }
    }

    method ExtendEnv(env: nat, user: nat, route: Route, timeout: Option<nat>) returns (result: Result<int, ExtendError>)
      modifies this
      ensures Abs() == Step(c, old(Abs()), Extend(env, user, route, timeout))
      ensures match RefuseExtend(c, old(rows), env, user, route)
              case Some(why) => result == Err(why) && Abs() == old(Abs())
              case None => result.Ok?
      ensures ExtensionRefused(c, old(rows), env, user, route, if result.Ok? then None else Some(result.error))
      ensures result.Ok? <==> ExtensionAllowed(c, old(rows), env, user, route)
      ensures result.Ok? ==>
                && result.value == now + 60 * (if timeout.Some? && timeout.value > 0 then timeout.value
                                               else if route == AttackMachine
                                                 then c.attackMinutes else c.defaultMinutes)
                && rows == old(rows)[env := old(rows)[env].(expiresAt := result.value,
                                                            extended := old(rows)[env].extended + 1)]
    {
      RefusalMeans(c, rows, env, user, route);
      var why := RefuseExtend(c, rows, env, user, route);
      if why.Some? { return Err(why.value); }
      var until := now + 60 * ExtendMinutes(c, route, timeout);
      rows := rows[env := rows[env].(expiresAt := until, extended := rows[env].extended + 1)];
      result := Ok(until);
    }

    /** `claim_env_for_stop`. */
    method ClaimForStop(stopper: nat, env: nat, asker: Option<nat>) returns (claimed: bool)
      requires stopper !in stoppers
      modifies this
      ensures Abs() == Step(c, old(Abs()), Claim(stopper, env, asker))
      ensures claimed <==> StopAllowed(c, old(rows), env, asker)
      ensures !claimed ==> Abs() == old(Abs())
      ensures claimed ==> rows == old(rows)[env := old(rows)[env].(status := Stopping)]
    {
      ClaimEffect(c, Abs(), stopper, env, asker);
      claimed := env < |rows| && MayClaim(c, rows[env], asker);
      if claimed {
        stoppers := stoppers[stopper := Stopper(env, rows[env].vm)];
        rows := rows[env := rows[env].(status := Stopping)];
      }
    }

    /** `destroy_env` and its commit. */
    method DestroyEnv(stopper: nat)
      requires Inv(Abs()) && stopper in stoppers
      modifies this
      ensures Inv(Abs()) && Abs() == Step(c, old(Abs()), Destroy(stopper))
      ensures Destroyed(old(Abs()), Abs(), old(stoppers[stopper].env), old(stoppers[stopper].seen))
    {
      DestroyEffect(c, Abs(), stopper);
      var Stopper(env, seen) := stoppers[stopper];
      if seen.Some? { vms := vms - {seen.value}; }
      rows := rows[env := rows[env].(status := Stopped)];
      stoppers := stoppers - {stopper};
    }

    // ---- the watchdog ----

    /** Claim a row and destroy it in one transaction, if it can be claimed. */
    method ReapOne(watchdog: nat, env: nat)
      requires Inv(Abs()) && watchdog !in stoppers && env < |rows|
      modifies this
      ensures Inv(Abs()) && Abs() == old(Abs()).(rows := rows, vms := vms)
      ensures StoppedExactly(old(rows), old(vms), rows, vms, if Claimable(old(rows)[env]) then {env} else {})
    {
      ghost var s := Abs();
      var claimed := ClaimForStop(watchdog, env, None);
      if claimed {
        StepKeeps(c, s, Claim(watchdog, env, None));
        DestroyEnv(watchdog);
        ReapEffect(c, s, watchdog, env);
      }
    }

    /** SELECT id ... WHERE test. */
    method Select(test: Row -> bool) returns (ids: seq<nat>)
      ensures forall i :: i in ids <==> 0 <= i < |rows| && test(rows[i])
    {
      ids := [];
      var k := 0;
      while k < |rows|
        invariant 0 <= k <= |rows|
        invariant forall i :: i in ids <==> 0 <= i < k && test(rows[i])
      {
        if test(rows[k]) { ids := ids + [k]; }
        k := k + 1;
      }
    }

    /** One of the first two inner loops: reap every selected row. */
    method ReapAll(watchdog: nat, ids: seq<nat>)
      requires Inv(Abs()) && watchdog !in stoppers
      requires forall i :: i in ids ==> i < |rows| && Claimable(rows[i])
      modifies this
      ensures Inv(Abs()) && Abs() == old(Abs()).(rows := rows, vms := vms)
      ensures StoppedExactly(old(rows), old(vms), rows, vms, IdSet(ids))
    {
      var k := 0;
      while k < |ids|
        invariant 0 <= k <= |ids|
        invariant Inv(Abs()) && Abs() == old(Abs()).(rows := rows, vms := vms)
        invariant StoppedExactly(old(rows), old(vms), rows, vms, IdSet(ids[..k]))
      {
        var env := ids[k];
        assert env in ids;
        ghost var done := IdSet(ids[..k]);
        ghost var rows', vms' := rows, vms;
        ReapOne(watchdog, env);
        assert ids[..k + 1] == ids[..k] + [env];
        assert IdSet(ids[..k + 1]) == done + {env};
        AlreadyStopped(old(rows), old(vms), rows', vms', rows, vms, done, env);
        k := k + 1;
      }
      assert ids[..k] == ids;
    }

    /** The crash loop: the ids and vm_ids are read first, each VM is looked up
        when its turn comes. */
    method ReapCrashed(watchdog: nat, ids: seq<nat>)
      requires Inv(Abs()) && watchdog !in stoppers
      requires forall i :: i in ids ==> i < |rows| && rows[i].status == Running
      modifies this
      ensures Inv(Abs()) && Abs() == old(Abs()).(rows := rows, vms := vms)
      ensures StoppedExactly(old(rows), old(vms), rows, vms, DeadIds(old(rows), old(vms), IdSet(ids)))
    {
      ghost var dead := DeadIds(rows, vms, IdSet(ids));
      var read := rows;
      var k := 0;
      while k < |ids|
        invariant 0 <= k <= |ids|
        invariant Inv(Abs()) && Abs() == old(Abs()).(rows := rows, vms := vms)
        invariant vms == old(vms)
        invariant StoppedExactly(old(rows), old(vms), rows, vms, IdSet(ids[..k]) * dead)
      {
        var env := ids[k];
        assert env in ids;
        var vm := read[env].vm;
        assert ids[..k + 1] == ids[..k] + [env];
        if vm.Some? && vm.value !in vms {
          assert env in dead;
          ReapOne(watchdog, env);
        }
        k := k + 1;
      }
      assert ids[..k] == ids;
      assert IdSet(ids) * dead == dead;
    }

    /** One pass of `run_watchdog` with nothing interleaved stops exactly the rows
        that were due when it began, and leaves every other row as it was. */
    method WatchdogPass(watchdog: nat)
      requires Inv(Abs()) && watchdog !in stoppers
      modifies this
      ensures Inv(Abs()) && Abs() == old(Abs()).(rows := rows, vms := vms)
      ensures StoppedExactly(old(rows), old(vms), rows, vms, DueIds(old(rows), old(vms), now))
      ensures Passed(old(rows), old(vms), rows, vms, now)
    {
      var t := now;
      ghost var s0 := Abs();
      var expired := Select(r => Expired(r, t));
      ReapAll(watchdog, expired);
      ghost var rows1, vms1 := rows, vms;
      var stuck := Select(r => Stuck(r, t));
      ReapAll(watchdog, stuck);
      ghost var rows2, vms2 := rows, vms;
      var watched := Select(r => Watched(r, t));
      ReapCrashed(watchdog, watched);
      PhasesCompose(s0, t, rows1, vms1, rows2, vms2, rows, vms, IdSet(expired), IdSet(stuck), IdSet(watched));
      PassInColumns(s0, t, rows, vms);
    }

    // ---- startup cleanup ----

    /** A crash that `survivors` outlive, then `cleanup_orphaned_vms`. */
    method RestartAndCleanUp(survivors: set<nat>)
      modifies this
      ensures Abs() == Step(c, old(Abs()), Restart(survivors))
    {
      starts, stoppers := map[], map[];
      vms := vms * survivors;
      var k := 0;
      while k < |rows|
        invariant 0 <= k <= |rows| == |old(rows)|
        invariant forall i :: 0 <= i < |rows| ==>
                    rows[i] == if i < k then old(rows)[i].(status := Stopped) else old(rows)[i]
        invariant vms == old(vms) * survivors - RecordedVms(old(rows)[..k])
        invariant starts == map[] && stoppers == map[]
        invariant bootedFor == old(bootedFor) && now == old(now) && leaked == old(leaked) && wentLive == old(wentLive)
      {
        OneMoreRecorded(old(rows), k);
        if Live(rows[k]) {
          if rows[k].vm.Some? { vms := vms - {rows[k].vm.value}; }
          rows := rows[k := rows[k].(status := Stopped)];
        }
        k := k + 1;
      }
      assert old(rows)[..k] == old(rows);
      leaked := leaked + vms;
      assert rows == Swept(old(rows));
    }
  }
}
