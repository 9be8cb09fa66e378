/** What each operation does, said in the columns of the rows alone. Nothing here uses
    the predicates and helper functions the operations are written with. */
module EnvironmentEffects {
  import opened Wrappers
  import opened Network
  import opened Environments
  import opened EnvironmentSafety

  // ---- reservation ----

  /** The address belongs to a row that is not stopped, or to a neighbour. */
  ghost predicate InUse(rows: seq<Row>, neighbours: set<string>, ip: string) {
    ip in neighbours || exists i :: 0 <= i < |rows| && rows[i].status != Stopped && rows[i].ip == ip
  }

  ghost predicate AddressFree(c: Config, rows: seq<Row>, neighbours: set<string>) {
    exists k :: 0 <= k < |c.Pool()| && !InUse(rows, neighbours, c.Pool()[k])
  }

  /** A non-admin may not see the Attack Machine template on the project route. */
  predicate MaySee(c: Config, user: nat, route: Route) {
    user in c.admins || route == AttackMachine || route.image != c.attackImage
  }

  ghost predicate HasAttackMachine(c: Config, rows: seq<Row>, user: nat) {
    exists i :: 0 <= i < |rows| && rows[i].status != Stopped && rows[i].user == user && rows[i].image == c.attackImage
  }

  predicate UserFull(c: Config, rows: seq<Row>, user: nat) {
    |set i: nat | i < |rows| && rows[i].status != Stopped && rows[i].user == user| >= c.maxPerUser
  }

  predicate ServerFull(c: Config, rows: seq<Row>) {
    |set i: nat | i < |rows| && rows[i].status != Stopped| >= c.maxTotal
  }

  ghost predicate IsLeastFree(c: Config, rows: seq<Row>, neighbours: set<string>, ip: string) {
    exists k :: 0 <= k < |c.Pool()| && ip == c.Pool()[k] && !InUse(rows, neighbours, ip) &&
                forall j :: 0 <= j < k ==> InUse(rows, neighbours, c.Pool()[j])
  }

  /** Who is admitted, and the first reason against everyone else. */
  ghost predicate Answered(c: Config, rows: seq<Row>, user: nat, route: Route, neighbours: set<string>,
                           result: Result<string, Refusal>) {
    if !MaySee(c, user, route) then result == Err(NotFound)
    else if !AddressFree(c, rows, neighbours) then result == Err(NoAddress)
    else if route == AttackMachine && HasAttackMachine(c, rows, user) then result == Err(AlreadyRunning)
    else if user !in c.admins && UserFull(c, rows, user) then result == Err(UserQuota)
    else if user !in c.admins && ServerFull(c, rows) then result == Err(TotalQuota)
    else
      result.Ok? && IsLeastFree(c, rows, neighbours, result.value)
  }

  lemma UsedIsInUse(rows: seq<Row>, neighbours: set<string>, ip: string)
    ensures ip in UsedAddresses(rows) + neighbours <==> InUse(rows, neighbours, ip)
  {
    if InUse(rows, neighbours, ip) && ip !in neighbours {
      var i :| 0 <= i < |rows| && rows[i].status != Stopped && rows[i].ip == ip;
      assert Live(rows[i]);
    }
  }

  lemma LiveSets(c: Config, rows: seq<Row>, user: nat)
    ensures LiveOf(rows, user, None) == set i: nat | i < |rows| && rows[i].status != Stopped && rows[i].user == user
    ensures LiveIds(rows) == set i: nat | i < |rows| && rows[i].status != Stopped
    ensures LiveOf(rows, user, Some(c.attackImage)) != {} <==> HasAttackMachine(c, rows, user)
  {
    if HasAttackMachine(c, rows, user) {
      var i :| 0 <= i < |rows| && rows[i].status != Stopped && rows[i].user == user && rows[i].image == c.attackImage;
      assert i in LiveOf(rows, user, Some(c.attackImage));
    }
  }

  lemma FreeIsLeast(c: Config, rows: seq<Row>, neighbours: set<string>)
    ensures var free := FirstFree(c.Pool(), UsedAddresses(rows) + neighbours);
            && (free.Some? <==> AddressFree(c, rows, neighbours))
            && (free.Some? ==> IsLeastFree(c, rows, neighbours, free.value))
  {
    hide InUse, UsedAddresses;
    var pool, used := c.Pool(), UsedAddresses(rows) + neighbours;
    forall k | 0 <= k < |pool| ensures pool[k] in used <==> InUse(rows, neighbours, pool[k]) {
      UsedIsInUse(rows, neighbours, pool[k]);
    }
    var free := FirstFree(pool, used);
    if free.Some? {
      var k := FirstFreeIndex(pool, used);
      assert !InUse(rows, neighbours, pool[k]);
    }
  }

  lemma AdmissionAnswers(c: Config, s: State, e: Event)
    requires e.Reserve?
    ensures Answered(c, s.rows, e.user, e.route, e.neighbours, Admission(c, s, e))
  {
    hide FirstFree, UsedAddresses, LiveOf, LiveIds, InUse, HasAttackMachine;
    FreeIsLeast(c, s.rows, e.neighbours);
    LiveSets(c, s.rows, e.user);
  }

  /** The new row: finite exactly if the timeout in force is not 0, and then due that
      many minutes from now. */
  predicate Reserved(c: Config, s: State, s': State, user: nat, route: Route, timeout: Option<nat>, ip: string) {
    var m := if timeout.Some? then timeout.value
             else if route == AttackMachine then c.attackMinutes else c.defaultMinutes;
    var id := |s.rows|;
    && |s'.rows| == id + 1 && s'.rows[..id] == s.rows
    && s'.rows[id].user == user && s'.rows[id].ip == ip && s'.rows[id].startedAt == s.now
    && s'.rows[id].image == (if route == AttackMachine then c.attackImage else route.image)
    && s'.rows[id].status == Starting && s'.rows[id].vm == None && s'.rows[id].extended == 0
    && (s'.rows[id].unlimited <==> m == 0)
    && s'.rows[id].expiresAt == s.now + 60 * (if m == 0 then c.defaultMinutes else m)
    && id in s'.starts && s'.starts[id] == Start(Booting, route, if m == 0 then c.defaultMinutes else m)
    && s'.starts - {id} == s.starts - {id}
    && s'.vms == s.vms && s'.bootedFor == s.bootedFor && s'.stoppers == s.stoppers && s'.now == s.now
  }

  lemma ReservationEffect(c: Config, s: State, e: Event)
    requires e.Reserve?
    ensures match Admission(c, s, e)
            case Ok(ip) => Reserved(c, s, Step(c, s, e), e.user, e.route, e.timeout, ip)
            case Err(_) => Step(c, s, e) == s
  {
    hide Admission;
    if Admission(c, s, e).Ok? {
      var s' := Step(c, s, e);
      assert s'.rows[..|s.rows|] == s.rows;
    }
  }

  // ---- a start request ----

  /** Every other row, start request and stopper is as it was. */
  predicate OthersAsBefore(s: State, s': State, env: nat) {
    && |s'.rows| == |s.rows| && (forall i :: 0 <= i < |s.rows| && i != env ==> s'.rows[i] == s.rows[i])
    && s'.starts - {env} == s.starts - {env} && s'.stoppers == s.stoppers && s'.now == s.now
  }

  lemma BootFailsEffect(c: Config, s: State, env: nat)
    requires env in s.starts && s.starts[env].phase == Booting && env < |s.rows|
    ensures var s' := Step(c, s, BootFails(env));
            && OthersAsBefore(s, s', env) && s'.rows[env] == s.rows[env].(status := Stopped)
            && env !in s'.starts && s'.vms == s.vms && s'.leaked == s.leaked
  {
  }

  lemma BootEffect(c: Config, s: State, env: nat)
    requires env in s.starts && s.starts[env].phase == Booting
    ensures var s', vm := Step(c, s, Boot(env)), |s.bootedFor|;
            && OthersAsBefore(s, s', env) && s'.rows == s.rows
            && env in s'.starts && s'.starts[env] == s.starts[env].(phase := Booted(vm))
            && s'.vms == s.vms + {vm} && s'.bootedFor == s.bootedFor + [env] && s'.leaked == s.leaked
  {
  }

  /** The row goes running, and its time counts from now, exactly if it is `starting`. */
  lemma HandOverEffect(c: Config, s: State, env: nat)
    requires env in s.starts && s.starts[env].phase.Recorded? && env < |s.rows|
    ensures var s' := Step(c, s, Reread(env));
            && OthersAsBefore(s, s', env) && s'.vms == s.vms && s'.leaked == s.leaked
            && (s.rows[env].status == Starting ==>
                && s'.rows[env] == s.rows[env].(status := Running, expiresAt := s.now + 60 * s.starts[env].minutes)
                && env !in s'.starts)
            && (s.rows[env].status != Starting ==>
                && s'.rows[env] == s.rows[env] && env in s'.starts
                && s'.starts[env] == s.starts[env].(phase := Aborting(s.starts[env].phase.vm)))
  {
  }

  lemma AbortStopEffect(c: Config, s: State, env: nat)
    requires env in s.starts && s.starts[env].phase.Aborting?
    ensures var s' := Step(c, s, AbortStop(env));
            && OthersAsBefore(s, s', env) && s'.rows == s.rows && env !in s'.starts
            && s'.vms == s.vms - {s.starts[env].phase.vm} && s'.leaked == s.leaked
  {
  }

  lemma CommitFailsEffect(c: Config, s: State, env: nat)
    requires env in s.starts && (s.starts[env].phase.Booted? || s.starts[env].phase.Recorded?)
    ensures var s' := Step(c, s, CommitFails(env));
            && OthersAsBefore(s, s', env) && s'.rows == s.rows && s'.vms == s.vms
            && (s.starts[env].route == AttackMachine ==> env !in s'.starts)
            && (s.starts[env].route != AttackMachine ==>
                && env in s'.starts && s'.starts[env] == s.starts[env].(phase := Aborting(s.starts[env].phase.vm))
                && s'.leaked == s.leaked)
  {
  }

  // ---- stops ----

  /** Who may stop what: a user a running row of their own, an administrator any
      running row, and the watchdog, a forced stop or a project edit any row that is
      starting or running. */
  predicate StopAllowed(c: Config, rows: seq<Row>, env: nat, asker: Option<nat>) {
    env < |rows| &&
    match asker
    case Some(u) => rows[env].status == Running && (rows[env].user == u || u in c.admins)
    case None => rows[env].status == Starting || rows[env].status == Running
  }

  lemma ClaimEffect(c: Config, s: State, stopper: nat, env: nat, asker: Option<nat>)
    requires stopper !in s.stoppers
    ensures var s' := Step(c, s, Claim(stopper, env, asker));
            if StopAllowed(c, s.rows, env, asker) then
              && |s'.rows| == |s.rows| && (forall i :: 0 <= i < |s.rows| && i != env ==> s'.rows[i] == s.rows[i])
              && s'.rows[env] == s.rows[env].(status := Stopping)
              && s'.stoppers == s.stoppers[stopper := Stopper(env, s.rows[env].vm)]
              && s'.vms == s.vms && s'.starts == s.starts && s'.now == s.now && s'.leaked == s.leaked
            else s' == s
  {
  }

  /** A row turns `stopping` only by a claim, and one that has an asker was asked for by
      the owner of the row or an administrator while the row was running. */
  lemma OnlyAllowedStops(c: Config, s: State, e: Event, i: nat)
    requires i < |s.rows| && i < |Step(c, s, e).rows|
    requires s.rows[i].status != Stopping && Step(c, s, e).rows[i].status == Stopping
    ensures e.Claim? && e.env == i
    ensures e.asker.Some? ==>
              s.rows[i].status == Running && (s.rows[i].user == e.asker.value || e.asker.value in c.admins)
  {
    if StartEvent(e) {
      match e {
        case BootFails(_) => case Boot(_) => case Record(_) => case Reread(_) => case AbortStop(_) =>
        case CommitFails(_) =>
      }
    } else {
      match e {
        case Reserve(_, _, _, _) => case Claim(_, _, _) => case Destroy(_) => case GiveUp(_) =>
        case Extend(_, _, _, _) => case VmDies(_) => case Tick(_) => case Restart(_) =>
      }
    }
  }

  lemma NewRowIsStarting(c: Config, s: State, e: Event, i: nat)
    requires |s.rows| <= i < |Step(c, s, e).rows|
    ensures Step(c, s, e).rows[i].status == Starting
  {
  }

  /** In every run a `stopping` row was claimed, and a claim that had an asker came from
      its owner or an administrator while the row was running. */
  lemma {:induction false} StoppingWasAsked(c: Config, es: seq<Event>, i: nat) returns (k: nat)
    requires i < |Exec(c, Init, es).rows| && Exec(c, Init, es).rows[i].status == Stopping
    ensures k < |es| && es[k].Claim? && es[k].env == i && i < |Exec(c, Init, es[..k]).rows|
    ensures var r := Exec(c, Init, es[..k]).rows[i];
            es[k].asker.Some? ==> r.status == Running && (r.user == es[k].asker.value || es[k].asker.value in c.admins)
  {
    hide Step;
    var init, last := es[..|es| - 1], |es| - 1;
    var s := Exec(c, Init, init);
    if i >= |s.rows| { NewRowIsStarting(c, s, es[last], i); }
    if s.rows[i].status == Stopping {
      k := StoppingWasAsked(c, init, i);
      assert es[..k] == init[..k];
    } else {
      OnlyAllowedStops(c, s, es[last], i);
      k := last;
    }
  }

  lemma GiveUpEffect(c: Config, s: State, stopper: nat)
    ensures Step(c, s, GiveUp(stopper)) == s.(stoppers := s.stoppers - {stopper})
  {
  }

  // ---- extension ----

  /** Who may extend: a row that is starting or running and finite; its owner, or on
      the project route an administrator; a non-admin as often as the pool has
      addresses; on the Attack Machine route only an own Attack Machine. */
  predicate ExtensionAllowed(c: Config, rows: seq<Row>, env: nat, user: nat, route: Route) {
    && env < |rows| && (rows[env].status == Starting || rows[env].status == Running)
    && !rows[env].unlimited
    && (rows[env].user == user || (route != AttackMachine && user in c.admins))
    && (route == AttackMachine ==> rows[env].image == c.attackImage)
    && (user in c.admins || rows[env].extended < |c.Pool()|)
  }

  lemma ExtendEffect(c: Config, s: State, env: nat, user: nat, route: Route, timeout: Option<nat>)
    ensures var s' := Step(c, s, Extend(env, user, route, timeout));
            var m := if timeout.Some? && timeout.value > 0 then timeout.value
                     else if route == AttackMachine then c.attackMinutes else c.defaultMinutes;
            if ExtensionAllowed(c, s.rows, env, user, route) then
              && |s'.rows| == |s.rows| && (forall i :: 0 <= i < |s.rows| && i != env ==> s'.rows[i] == s.rows[i])
              && s'.rows[env] == s.rows[env].(expiresAt := s.now + 60 * m, extended := s.rows[env].extended + 1)
              && s' == s.(rows := s'.rows)
            else s' == s
  {
  }

  // ---- restart ----

  /** After a restart every row is stopped, nothing is in flight, and a VM is alive
      exactly if it was, its process survived, and no row that was not stopped names it. */
  lemma RestartEffect(c: Config, s: State, survivors: set<nat>, vm: nat)
    ensures var s' := Step(c, s, Restart(survivors));
            && |s'.rows| == |s.rows|
            && (forall i :: 0 <= i < |s.rows| ==> s'.rows[i] == s.rows[i].(status := Stopped))
            && s'.starts == map[] && s'.stoppers == map[] && s'.now == s.now
            && (vm in s'.vms <==>
                  && vm in s.vms && vm in survivors
                  && forall i :: 0 <= i < |s.rows| && s.rows[i].status != Stopped ==> s.rows[i].vm != Some(vm))
  {
    var rows := s.rows;
    if vm in RecordedVms(rows) {
      var i :| 0 <= i < |rows| && Live(rows[i]) && rows[i].vm.Some? && rows[i].vm.value == vm;
      assert rows[i].status != Stopped && rows[i].vm == Some(vm);
    } else {
      forall i | 0 <= i < |rows| && rows[i].status != Stopped ensures rows[i].vm != Some(vm) {
        assert Live(rows[i]);
      }
    }
  }

  // ---- an environment with a timeout ----

  /** A start without delay, and then d seconds. */
  function TimedStart(user: nat, image: nat, minutes: nat, d: nat): seq<Event> {
    [Reserve(user, Project(image), Some(minutes), {}), Boot(0), Record(0), Reread(0), Tick(d)]
  }

  lemma OneMoreEvent(c: Config, es: seq<Event>, k: nat)
    requires k < |es|
    ensures Exec(c, Init, es[..k + 1]) == Step(c, Exec(c, Init, es[..k]), es[k])
  {
    assert es[..k + 1][..k] == es[..k];
  }

  /** It runs since time 0, with VM 0, and is finite exactly if the timeout is not 0. */
  lemma TimedStartRuns(c: Config, user: nat, image: nat, minutes: nat, d: nat)
    requires c.poolStart <= c.poolEnd && user in c.admins
    ensures var s := Exec(c, Init, TimedStart(user, image, minutes, d));
            && |s.rows| == 1 && s.rows[0].status == Running && s.rows[0].vm == Some(0) && s.vms == {0}
            && s.now == d && s.stoppers == map[] && s.rows[0].startedAt == 0
            && (s.rows[0].unlimited <==> minutes == 0)
            && (minutes != 0 ==> s.rows[0].expiresAt == 60 * minutes)
  {
    hide Exec, Step, Admission;
    var es := TimedStart(user, image, minutes, d);
    OneMoreEvent(c, es, 0);
    OneMoreEvent(c, es, 1);
    OneMoreEvent(c, es, 2);
    OneMoreEvent(c, es, 3);
    OneMoreEvent(c, es, 4);
    assert es[..0] == [] && es[..5] == es;
    NothingYet(c);
    Admitted(c, es[0]);
    var s1 := Step(c, Init, es[0]);
    ReservationEffect(c, Init, es[0]);
    TimedSteps(c, s1, minutes, d);
  }

  lemma NothingYet(c: Config)
    ensures Exec(c, Init, []) == Init
  {
  }

  lemma Admitted(c: Config, e: Event)
    requires e.Reserve? && e.user in c.admins && e.route.Project? && e.neighbours == {} && c.poolStart <= c.poolEnd
    ensures Admission(c, Init, e).Ok?
  {
    AdmissionAnswers(c, Init, e);
    assert !InUse([], {}, c.Pool()[0]);
  }

  lemma TimedSteps(c: Config, s: State, minutes: nat, d: nat)
    requires |s.rows| == 1 && s.rows[0].status == Starting && s.now == 0 && s.rows[0].startedAt == 0
    requires 0 in s.starts && s.starts[0].phase == Booting && s.bootedFor == [] && s.vms == {} && s.stoppers == map[]
    requires s.rows[0].unlimited <==> minutes == 0
    requires minutes != 0 ==> s.starts[0].minutes == minutes
    ensures var s := Step(c, Step(c, Step(c, Step(c, s, Boot(0)), Record(0)), Reread(0)), Tick(d));
            && |s.rows| == 1 && s.rows[0].status == Running && s.rows[0].vm == Some(0) && s.vms == {0}
            && s.now == d && s.stoppers == map[] && s.rows[0].startedAt == 0
            && (s.rows[0].unlimited <==> minutes == 0)
            && (minutes != 0 ==> s.rows[0].expiresAt == 60 * minutes)
  {
    var s2 := Step(c, Step(c, s, Boot(0)), Record(0));
    assert s2.starts[0] == s.starts[0].(phase := Recorded(0)) && s2.vms == {0};
    assert s2.rows == [s.rows[0].(vm := Some(0))];
  }
}
