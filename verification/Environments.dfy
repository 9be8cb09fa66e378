/** The environment lifecycle as a labelled transition system. Start requests,
    user and admin stops, the watchdog and startup cleanup all act on the
    `environments` table and on the set of live Firecracker VMs. Each event is
    one committed write transaction or one physical effect on a VM; everything
    the code learns from outside is part of the event. */
module Environments {
  import opened Wrappers
  import opened Network

  /** The column also declares `error`, which no code ever assigns. */
  datatype Status = Starting | Running | Stopping | Stopped

  datatype Row = Row(
    user: nat, image: nat, ip: string, status: Status, vm: Option<nat>,
    startedAt: int, expiresAt: int, extended: nat, unlimited: bool)

  /** Where an in-flight start request stands, with the VM it holds. */
  datatype Phase =
    | Booting                // row reserved, VM not up yet
    | Booted(vm: nat)        // VM up, its id not committed yet
    | Recorded(vm: nat)      // id committed, row not re-read yet
    | Aborting(vm: nat)      // lost the row; about to stop its own VM

  datatype Route = Project(image: nat) | AttackMachine

  datatype Start = Start(phase: Phase, route: Route, minutes: nat)

  /** A claimed row on its way to `destroy_env`, with the vm_id read at the claim. */
  datatype Stopper = Stopper(env: nat, seen: Option<nat>)

  /** Settings and roles, fixed within a run. */
  datatype Config = Config(
    poolStart: Address, poolEnd: Address, admins: set<nat>, attackImage: nat,
    maxPerUser: nat, maxTotal: nat, defaultMinutes: nat, attackMinutes: nat)
  {
    function Pool(): seq<string> { Network.Pool(poolStart, poolEnd) }
  }

  /** VM ids are fresh: number v is the v-th VM ever booted, for row `bootedFor[v]`.
      `leaked` and `wentLive` are history that no step reads: VMs whose holder was
      dropped by a crash or a failed commit without a row to lead to them, and the time
      a row became running. */
  datatype State = State(
    rows: seq<Row>, vms: set<nat>, bootedFor: seq<nat>,
    starts: map<nat, Start>, stoppers: map<nat, Stopper>, now: int,
    leaked: set<nat>, wentLive: map<nat, int>)

  const Init := State([], {}, [], map[], map[], 0, {}, map[])

  datatype Event =
    | Reserve(user: nat, route: Route, timeout: Option<nat>, neighbours: set<string>)
    | BootFails(env: nat)
    | Boot(env: nat)
    | Record(env: nat)
    | Reread(env: nat)
    | AbortStop(env: nat)
    | CommitFails(env: nat)
    | Claim(stopper: nat, env: nat, asker: Option<nat>)
    | Destroy(stopper: nat)
    | GiveUp(stopper: nat)
    | Extend(env: nat, user: nat, route: Route, timeout: Option<nat>)
    | VmDies(vm: nat)
    | Tick(seconds: nat)
    | Restart(survivors: set<nat>)

  // ---- queries ----

  predicate Live(r: Row) { r.status != Stopped }

  predicate Claimable(r: Row) { r.status == Starting || r.status == Running }

  function LiveIds(rows: seq<Row>): set<nat> {
    set i: nat | i < |rows| && Live(rows[i])
  }

  function LiveOf(rows: seq<Row>, user: nat, image: Option<nat>): set<nat> {
    set i: nat | i < |rows| && Live(rows[i]) && rows[i].user == user && (image.Some? ==> rows[i].image == image.value)
  }

  function UsedAddresses(rows: seq<Row>): set<string> {
    set i: nat | i < |rows| && Live(rows[i]) :: rows[i].ip
  }

  // ---- start requests ----

  datatype Refusal = NotFound | NoAddress | AlreadyRunning | UserQuota | TotalQuota

  function ImageOf(c: Config, route: Route): nat {
    match route
    case Project(image) => image
    case AttackMachine => c.attackImage
  }

  /** The Attack Machine template is private and unowned, so the project route hides
      it from non-admins before anything else. */
  predicate Hidden(c: Config, user: nat, route: Route) {
    route == Project(c.attackImage) && user !in c.admins
  }

  /** The checks made under the address lock, once an address has been found. */
  function Refuse(c: Config, rows: seq<Row>, user: nat, route: Route): Option<Refusal> {
    if route == AttackMachine && LiveOf(rows, user, Some(c.attackImage)) != {} then Some(AlreadyRunning)
    else if user !in c.admins && |LiveOf(rows, user, None)| >= c.maxPerUser then Some(UserQuota)
    else if user !in c.admins && |LiveIds(rows)| >= c.maxTotal then Some(TotalQuota)
    else None
  }

  /** The image's own timeout, or the default of the route; 0 means unlimited. */
  function TimeoutMinutes(c: Config, route: Route, timeout: Option<nat>): nat {
    match timeout
    case Some(m) => m
    case None => if route == AttackMachine then c.attackMinutes else c.defaultMinutes
  }

  function Placeholder(c: Config, minutes: nat): nat {
    if minutes == 0 then c.defaultMinutes else minutes
  }

  function Admission(c: Config, s: State, e: Event): Result<string, Refusal>
    requires e.Reserve?
  {
    if Hidden(c, e.user, e.route) then Err(NotFound)
    else
      match FirstFree(c.Pool(), UsedAddresses(s.rows) + e.neighbours)
      case None => Err(NoAddress)
      case Some(ip) =>
        match Refuse(c, s.rows, e.user, e.route)
        case Some(why) => Err(why)
        case None => Ok(ip)
  }

  function NewRow(c: Config, s: State, e: Event, ip: string): Row
    requires e.Reserve?
  {
    var minutes := TimeoutMinutes(c, e.route, e.timeout);
    Row(e.user, ImageOf(c, e.route), ip, Starting, None, s.now,
        s.now + 60 * Placeholder(c, minutes), 0, minutes == 0)
  }

  function ReserveStep(c: Config, s: State, e: Event): State
    requires e.Reserve?
  {
    match Admission(c, s, e)
    case Err(_) => s
    case Ok(ip) =>
      var minutes := Placeholder(c, TimeoutMinutes(c, e.route, e.timeout));
      s.(rows := s.rows + [NewRow(c, s, e, ip)],
         starts := s.starts[|s.rows| := Start(Booting, e.route, minutes)])
  }

  /** `start_env` after `start_vm` raised: `destroy_env` on a row without a VM. */
  function BootFailsStep(s: State, env: nat): State {
    if env in s.starts && s.starts[env].phase == Booting && env < |s.rows| then
      s.(rows := s.rows[env := s.rows[env].(status := Stopped)], starts := s.starts - {env})
    else s
  }

  function WithPhase(s: State, env: nat, phase: Phase): State
    requires env in s.starts
  {
    s.(starts := s.starts[env := s.starts[env].(phase := phase)])
  }

  function BootStep(s: State, env: nat): State {
    if env in s.starts && s.starts[env].phase == Booting then
      var vm := |s.bootedFor|;
      WithPhase(s, env, Booted(vm)).(vms := s.vms + {vm}, bootedFor := s.bootedFor + [env])
    else s
  }

  /** The vm_id is committed whatever the row has become meanwhile. */
  function RecordStep(s: State, env: nat): State {
    if env in s.starts && s.starts[env].phase.Booted? && env < |s.rows| then
      var vm := s.starts[env].phase.vm;
      WithPhase(s, env, Recorded(vm)).(rows := s.rows[env := s.rows[env].(vm := Some(vm))])
    else s
  }

  function RereadStep(s: State, env: nat): State {
    if env in s.starts && s.starts[env].phase.Recorded? && env < |s.rows| then
      if s.rows[env].status == Starting then
        s.(rows := s.rows[env := s.rows[env].(status := Running, expiresAt := s.now + 60 * s.starts[env].minutes)],
           starts := s.starts - {env}, wentLive := s.wentLive[env := s.now])
      else WithPhase(s, env, Aborting(s.starts[env].phase.vm))
    else s
  }

  function AbortStopStep(s: State, env: nat): State {
    if env in s.starts && s.starts[env].phase.Aborting? then
      s.(vms := s.vms - {s.starts[env].phase.vm}, starts := s.starts - {env})
    else s
  }

  /** Row `env` is live and records this VM, and whoever claimed the row read that. */
  predicate Covered(s: State, env: nat, vm: nat) {
    && env < |s.rows|
    && Live(s.rows[env]) && s.rows[env].vm == Some(vm)
    && forall t :: t in s.stoppers && s.stoppers[t].env == env ==> s.stoppers[t].seen == Some(vm)
  }

  /** A commit raised after the VM came up: that of the vm_id, or the later one of the
      hand-over. The project route then stops its own VM; the Attack Machine route has
      no handler and drops it, so that only the row can still lead to it. */
  function CommitFailsStep(s: State, env: nat): State {
    if env in s.starts && (s.starts[env].phase.Booted? || s.starts[env].phase.Recorded?) then
      var vm := s.starts[env].phase.vm;
      if s.starts[env].route == AttackMachine
      then s.(starts := s.starts - {env}, leaked := if Covered(s, env, vm) then s.leaked else s.leaked + {vm})
      else WithPhase(s, env, Aborting(vm))
    else s
  }

  // ---- stops ----

  /** A user may stop only a running row of their own; force-stop, the watchdog
      and project edits (no asker) may also claim a starting one. */
  predicate MayClaim(c: Config, r: Row, asker: Option<nat>) {
    && Claimable(r)
    && (asker.Some? ==> r.status == Running && (r.user == asker.value || asker.value in c.admins))
  }

  predicate Claims(c: Config, s: State, stopper: nat, env: nat, asker: Option<nat>) {
    stopper !in s.stoppers && env < |s.rows| && MayClaim(c, s.rows[env], asker)
  }

  function ClaimStep(c: Config, s: State, stopper: nat, env: nat, asker: Option<nat>): State {
    if Claims(c, s, stopper, env, asker) then
      s.(rows := s.rows[env := s.rows[env].(status := Stopping)],
         stoppers := s.stoppers[stopper := Stopper(env, s.rows[env].vm)])
    else s
  }

  function DestroyStep(s: State, stopper: nat): State {
    if stopper in s.stoppers && s.stoppers[stopper].env < |s.rows| then
      var Stopper(env, seen) := s.stoppers[stopper];
      s.(rows := s.rows[env := s.rows[env].(status := Stopped)],
         vms := if seen.Some? then s.vms - {seen.value} else s.vms,
         stoppers := s.stoppers - {stopper})
    else s
  }

  /** `destroy_env` raised and the caller committed anyway: the row stays `stopping`. */
  function GiveUpStep(s: State, stopper: nat): State {
    s.(stoppers := s.stoppers - {stopper})
  }

  // ---- extension ----

  predicate MayExtend(c: Config, rows: seq<Row>, env: nat, user: nat, route: Route) {
    && env < |rows|
    && Claimable(rows[env])
    && !rows[env].unlimited
    && (user in c.admins || rows[env].extended < |c.Pool()|)
    && (match route
        case Project(_) => rows[env].user == user || user in c.admins
        case AttackMachine => rows[env].user == user && rows[env].image == c.attackImage)
  }

  function ExtendMinutes(c: Config, route: Route, timeout: Option<nat>): nat {
    if timeout.Some? && timeout.value != 0 then timeout.value else TimeoutMinutes(c, route, None)
  }

  function ExtendStep(c: Config, s: State, env: nat, user: nat, route: Route, timeout: Option<nat>): State {
    if MayExtend(c, s.rows, env, user, route) then
      var r := s.rows[env];
      s.(rows := s.rows[env := r.(expiresAt := s.now + 60 * ExtendMinutes(c, route, timeout),
        extended := r.extended + 1)])
    else s
  }

  // ---- crash and startup cleanup ----

  function RecordedVms(rows: seq<Row>): set<nat> {
    set i: nat | i < |rows| && Live(rows[i]) && rows[i].vm.Some? :: rows[i].vm.value
  }

  function Swept(rows: seq<Row>): (swept: seq<Row>)
    ensures |swept| == |rows|
    ensures forall i :: 0 <= i < |rows| ==> swept[i] == rows[i].(status := Stopped)
  {
    seq(|rows|, i requires 0 <= i < |rows| => rows[i].(status := Stopped))
  }

  /** The process dies with all requests in flight, some VM processes survive it,
      and `cleanup_orphaned_vms` runs before anything else. */
  function RestartStep(s: State, survivors: set<nat>): State {
    var vms := s.vms * survivors - RecordedVms(s.rows);
    s.(rows := Swept(s.rows), vms := vms, starts := map[], stoppers := map[], leaked := s.leaked + vms)
  }

  // ---- runs ----

  function Step(c: Config, s: State, e: Event): State {
    match e
    case Reserve(_, _, _, _) => ReserveStep(c, s, e)
    case BootFails(env) => BootFailsStep(s, env)
    case Boot(env) => BootStep(s, env)
    case Record(env) => RecordStep(s, env)
    case Reread(env) => RereadStep(s, env)
    case AbortStop(env) => AbortStopStep(s, env)
    case CommitFails(env) => CommitFailsStep(s, env)
    case Claim(stopper, env, asker) => ClaimStep(c, s, stopper, env, asker)
    case Destroy(stopper) => DestroyStep(s, stopper)
    case GiveUp(stopper) => GiveUpStep(s, stopper)
    case Extend(env, user, route, timeout) => ExtendStep(c, s, env, user, route, timeout)
    case VmDies(vm) => s.(vms := s.vms - {vm})
    case Tick(seconds) => s.(now := s.now + seconds)
    case Restart(survivors) => RestartStep(s, survivors)
  }

  /** The state after a run. An event that is not enabled changes nothing. */
  function Exec(c: Config, s: State, es: seq<Event>): State {
    if es == [] then s else Step(c, Exec(c, s, es[..|es| - 1]), es[|es| - 1])
  }
}
