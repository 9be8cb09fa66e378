/** Rows only move forward, racing stops have one winner, live rows hold distinct
    pool addresses, and both start routes keep the quotas together. */
module EnvironmentStatus {
  import opened Wrappers
  import opened Network
  import opened Environments
  import opened EnvironmentSafety
  import opened Sets

  // ---- status moves ----

  predicate AllowedMove(a: Status, b: Status) {
    || a == b
    || (a == Starting && b == Running)
    || ((a == Starting || a == Running) && b == Stopping)
    || ((a == Starting || a == Stopping) && b == Stopped)
  }

  function Rank(a: Status): nat {
    match a case Starting => 0 case Running => 1 case Stopping => 2 case Stopped => 3
  }

  /** Columns written once, and a vm_id that is never replaced. */
  predicate SameRow(r: Row, r': Row) {
    && r'.user == r.user && r'.image == r.image && r'.ip == r.ip
    && r'.startedAt == r.startedAt && r'.unlimited == r.unlimited
    && r'.extended >= r.extended
    && (r.vm.Some? ==> r'.vm == r.vm)
  }

  lemma RowMovesByStart(c: Config, s: State, e: Event, i: nat)
    requires Inv(s) && StartEvent(e) && i < |s.rows|
    ensures |Step(c, s, e).rows| == |s.rows|
    ensures SameRow(s.rows[i], Step(c, s, e).rows[i])
    ensures AllowedMove(s.rows[i].status, Step(c, s, e).rows[i].status)
  {
    assert RowOk(s, i);
    if i in s.starts { assert StartOk(s, i); }
    match e {
      case BootFails(_) => case Boot(_) => case Record(_) => case Reread(_) => case AbortStop(_) =>
      case CommitFails(_) =>
    }
  }

  /** One step on one row. Startup cleanup may also stop a running row. */
  lemma RowMoves(c: Config, s: State, e: Event, i: nat)
    requires Inv(s) && i < |s.rows|
    ensures |s.rows| <= |Step(c, s, e).rows| && (!e.Reserve? ==> |s.rows| == |Step(c, s, e).rows|)
    ensures SameRow(s.rows[i], Step(c, s, e).rows[i])
    ensures AllowedMove(s.rows[i].status, Step(c, s, e).rows[i].status)
         || (e.Restart? && Step(c, s, e).rows[i].status == Stopped)
  {
    if StartEvent(e) { RowMovesByStart(c, s, e, i); }
    else {
      match e {
        case Destroy(t) => if t in s.stoppers { assert StopperOk(s, t); }
        case Reserve(_, _, _, _) => case Claim(_, _, _) => case GiveUp(_) => case Extend(_, _, _, _) =>
        case VmDies(_) => case Tick(_) => case Restart(_) =>
      }
    }
  }

  lemma {:induction false} ExecConcat(c: Config, s: State, es: seq<Event>, more: seq<Event>)
    ensures Exec(c, s, es + more) == Exec(c, Exec(c, s, es), more)
  {
    if more == [] {
      assert es + more == es;
    } else {
      assert (es + more)[..|es + more| - 1] == es + more[..|more| - 1];
      ExecConcat(c, s, es, more[..|more| - 1]);
    }
  }

  /** Along any run a row keeps its owner, image, address and vm_id and its
      status never goes back; `stopped` is final. */
  lemma {:induction false} RowsOnlyMoveForward(c: Config, es: seq<Event>, more: seq<Event>, i: nat)
    requires i < |Exec(c, Init, es).rows|
    ensures i < |Exec(c, Init, es + more).rows|
    ensures var r, r' := Exec(c, Init, es).rows[i], Exec(c, Init, es + more).rows[i];
            && SameRow(r, r') && Rank(r.status) <= Rank(r'.status)
            && (r.status == Stopped ==> r'.status == Stopped)
  {
    if more == [] {
      assert es + more == es;
    } else {
      var before := es + more[..|more| - 1];
      assert (es + more)[..|es + more| - 1] == before;
      RowsOnlyMoveForward(c, es, more[..|more| - 1], i);
      RunKeeps(c, before);
      RowMoves(c, Exec(c, Init, before), more[|more| - 1], i);
    }
  }

  // ---- racing stops ----

  predicate WinsClaim(c: Config, s: State, e: Event, i: nat) {
    e.Claim? && e.env == i && Claims(c, s, e.stopper, e.env, e.asker)
  }

  /** How many claims on row i succeed in a run. */
  function ClaimsWon(c: Config, es: seq<Event>, i: nat): nat {
    if es == [] then 0
    else
      var before := es[..|es| - 1];
      ClaimsWon(c, before, i) + (if WinsClaim(c, Exec(c, Init, before), es[|es| - 1], i) then 1 else 0)
  }

  /** Of all stop attempts on one row in a run, at most one claim succeeds, and
      from then on the row is `stopping` or `stopped`. */
  lemma {:induction false} OneClaimWins(c: Config, es: seq<Event>, i: nat)
    ensures ClaimsWon(c, es, i) <= 1
    ensures ClaimsWon(c, es, i) == 1 ==>
            i < |Exec(c, Init, es).rows| && !Claimable(Exec(c, Init, es).rows[i])
  {
    if es != [] {
      var before := es[..|es| - 1];
      var s, e := Exec(c, Init, before), es[|es| - 1];
      hide Step, RowOk, StartOk, StopperOk, VmOk;
      OneClaimWins(c, before, i);
      RunKeeps(c, before);
      if i < |s.rows| { RowMoves(c, s, e, i); }
    }
  }

  // ---- addresses ----

  ghost predicate AddressesOk(c: Config, rows: seq<Row>) {
    && (forall i :: 0 <= i < |rows| ==> rows[i].ip in c.Pool())
    && (forall i, j :: 0 <= i < j < |rows| && Live(rows[i]) && Live(rows[j]) ==> rows[i].ip != rows[j].ip)
  }

  lemma ReserveTakesFreeAddress(c: Config, s: State, e: Event)
    requires e.Reserve? && AddressesOk(c, s.rows)
    ensures AddressesOk(c, Step(c, s, e).rows)
  {
    if Admission(c, s, e).Ok? {
      var ip := Admission(c, s, e).value;
      assert ip in c.Pool() && ip !in UsedAddresses(s.rows);
      forall i | 0 <= i < |s.rows| && Live(s.rows[i]) ensures s.rows[i].ip != ip {
        assert s.rows[i].ip in UsedAddresses(s.rows);
      }
    }
  }

  /** A step other than a reservation makes no row live again. */
  lemma LiveShrinks(c: Config, s: State, e: Event)
    requires Inv(s) && !e.Reserve?
    ensures var s' := Step(c, s, e);
            && |s'.rows| == |s.rows|
            && forall i :: 0 <= i < |s.rows| ==>
                 SameRow(s.rows[i], s'.rows[i]) && (Live(s'.rows[i]) ==> Live(s.rows[i]))
  {
    var s' := Step(c, s, e);
    if |s.rows| > 0 { RowMoves(c, s, e, 0); } else { NoRowsNoStep(c, s, e); }
    forall i | 0 <= i < |s.rows| ensures SameRow(s.rows[i], s'.rows[i]) && (Live(s'.rows[i]) ==> Live(s.rows[i])) {
      RowMoves(c, s, e, i);
    }
  }

  lemma NoRowsNoStep(c: Config, s: State, e: Event)
    requires s.rows == [] && !e.Reserve?
    ensures Step(c, s, e).rows == []
  {
  }

  /** In every reachable state the addresses of live rows are distinct and come
      from the pool, so live rows never outnumber it. */
  lemma {:induction false} LiveAddressesDistinct(c: Config, es: seq<Event>)
    ensures AddressesOk(c, Exec(c, Init, es).rows)
    ensures |LiveIds(Exec(c, Init, es).rows)| <= |c.Pool()|
  {
    if es != [] {
      var before := es[..|es| - 1];
      var s, e := Exec(c, Init, before), es[|es| - 1];
      LiveAddressesDistinct(c, before);
      RunKeeps(c, before);
      if e.Reserve? { ReserveTakesFreeAddress(c, s, e); } else { LiveShrinks(c, s, e); }
    }
    var rows := Exec(c, Init, es).rows;
    var names := set ip | ip in c.Pool();
    AddressBound(rows, LiveIds(rows), names);
    NamesBound(c.Pool(), names);
  }

  lemma {:induction false} AddressBound(rows: seq<Row>, ids: set<nat>, names: set<string>)
    requires forall i :: i in ids ==> i < |rows| && rows[i].ip in names
    requires forall i, j :: i in ids && j in ids && i != j ==> rows[i].ip != rows[j].ip
    ensures |ids| <= |names|
  {
    if ids != {} {
      var i :| i in ids;
      AddressBound(rows, ids - {i}, names - {rows[i].ip});
    }
  }

  lemma {:induction false} NamesBound(pool: seq<string>, names: set<string>)
    requires forall ip :: ip in names ==> ip in pool
    ensures |names| <= |pool|
  {
    if pool == [] {
      assert names == {};
    } else {
      NamesBound(pool[1..], names - {pool[0]});
    }
  }

  /** So live guests also have distinct MAC addresses. */
  lemma LiveMacsDistinct(c: Config, es: seq<Event>, i: nat, j: nat)
    requires var rows := Exec(c, Init, es).rows;
             i < j < |rows| && Live(rows[i]) && Live(rows[j])
    ensures var rows := Exec(c, Init, es).rows;
            IpToMac(rows[i].ip).Some? && IpToMac(rows[i].ip) != IpToMac(rows[j].ip)
  {
    LiveAddressesDistinct(c, es);
    var rows := Exec(c, Init, es).rows;
    var a := PoolAddress(c, rows[i].ip);
    var b := PoolAddress(c, rows[j].ip);
    MacInjective(a, b);
  }

  lemma PoolAddress(c: Config, ip: string) returns (a: Address)
    requires ip in c.Pool()
    ensures ip == Dotted(a)
  {
    var k :| 0 <= k < |c.Pool()| && c.Pool()[k] == ip;
    a := c.poolStart + k;
  }

  // ---- quotas ----

  function LiveNonAdmins(c: Config, rows: seq<Row>): set<nat> {
    set i: nat | i < |rows| && Live(rows[i]) && rows[i].user !in c.admins
  }

  ghost predicate QuotasOk(c: Config, rows: seq<Row>) {
    && |LiveNonAdmins(c, rows)| <= c.maxTotal
    && forall user :: user !in c.admins ==>
         && |LiveOf(rows, user, None)| <= c.maxPerUser
         && |LiveOf(rows, user, Some(c.attackImage))| <= 1
  }

  lemma QuotasShrink(c: Config, rows: seq<Row>, rows': seq<Row>)
    requires QuotasOk(c, rows) && |rows'| == |rows|
    requires forall i :: 0 <= i < |rows| ==> SameRow(rows[i], rows'[i]) && (Live(rows'[i]) ==> Live(rows[i]))
    ensures QuotasOk(c, rows')
  {
    SubsetSize(LiveNonAdmins(c, rows'), LiveNonAdmins(c, rows));
    forall user | user !in c.admins
      ensures |LiveOf(rows', user, None)| <= c.maxPerUser && |LiveOf(rows', user, Some(c.attackImage))| <= 1
    {
      SubsetSize(LiveOf(rows', user, None), LiveOf(rows, user, None));
      SubsetSize(LiveOf(rows', user, Some(c.attackImage)), LiveOf(rows, user, Some(c.attackImage)));
    }
  }

  /** Adding one live row adds at most its own id to each of the counted sets. */
  lemma CountsGrow(c: Config, rows: seq<Row>, r: Row, user: nat, image: Option<nat>)
    requires Live(r)
    ensures LiveOf(rows + [r], user, image) ==
            LiveOf(rows, user, image) + (if r.user == user && (image.Some? ==>
              r.image == image.value) then {|rows|} else {})
    ensures LiveNonAdmins(c, rows + [r]) == LiveNonAdmins(c, rows) + (if r.user !in c.admins then {|rows|} else {})
  {
    var rows' := rows + [r];
    assert forall i: nat :: i < |rows| ==> rows'[i] == rows[i];
  }

  lemma ReserveKeepsQuotas(c: Config, s: State, e: Event)
    requires e.Reserve? && QuotasOk(c, s.rows)
    ensures QuotasOk(c, Step(c, s, e).rows)
  {
    if Admission(c, s, e).Ok? {
      var r := NewRow(c, s, e, Admission(c, s, e).value);
      AdmittedKeepsQuotas(c, s.rows, e.user, e.route, r);
    }
  }

  lemma AdmittedKeepsQuotas(c: Config, rows: seq<Row>, user: nat, route: Route, r: Row)
    requires QuotasOk(c, rows) && !Hidden(c, user, route) && Refuse(c, rows, user, route).None?
    requires Live(r) && r.user == user && r.image == ImageOf(c, route)
    ensures QuotasOk(c, rows + [r])
  {
    SubsetSize(LiveNonAdmins(c, rows), LiveIds(rows));
    forall u | u !in c.admins
      ensures |LiveOf(rows + [r], u, None)| <= c.maxPerUser && |LiveOf(rows + [r], u, Some(c.attackImage))| <= 1
    {
      CountsGrow(c, rows, r, u, None);
      CountsGrow(c, rows, r, u, Some(c.attackImage));
    }
    CountsGrow(c, rows, r, user, None);
  }

  /** In every reachable state each non-admin is within the per-user quota and has
      at most one live Attack Machine, and non-admins together are within the
      total quota. */
  lemma {:induction false} QuotasHold(c: Config, es: seq<Event>)
    ensures QuotasOk(c, Exec(c, Init, es).rows)
  {
    if es == [] {
      assert LiveNonAdmins(c, []) == {};
      assert forall user, image :: LiveOf([], user, image) == {};
    } else {
      var before := es[..|es| - 1];
      var s, e := Exec(c, Init, before), es[|es| - 1];
      QuotasHold(c, before);
      RunKeeps(c, before);
      if e.Reserve? {
        ReserveKeepsQuotas(c, s, e);
      } else {
        LiveShrinks(c, s, e);
        QuotasShrink(c, s.rows, Step(c, s, e).rows);
      }
    }
  }
}
