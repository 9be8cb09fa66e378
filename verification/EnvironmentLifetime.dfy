/** How long a finite environment can stay running when only non-admins extend it. */
module EnvironmentLifetime {
  import opened Wrappers
  import opened Environments
  import opened EnvironmentSafety

  /** Nothing finite runs more than `lag` seconds past its expiry. */
  predicate OnTime(s: State, lag: nat) {
    forall i :: 0 <= i < |s.rows| && s.rows[i].status == Running && !s.rows[i].unlimited ==>
      s.now <= s.rows[i].expiresAt + lag
  }

  /** Image timeouts are at most `most` minutes and no admin extends. */
  predicate Modest(c: Config, e: Event, most: nat) {
    && (e.Reserve? ==> Placeholder(c, TimeoutMinutes(c, e.route, e.timeout)) <= most)
    && (e.Extend? ==> e.user !in c.admins && ExtendMinutes(c, e.route, e.timeout) <= most)
  }

  ghost predicate Timely(c: Config, es: seq<Event>, lag: nat, most: nat) {
    es == [] ||
    (Timely(c, es[..|es| - 1], lag, most) && Modest(c, es[|es| - 1], most) && OnTime(Exec(c, Init, es), lag))
  }

  /** What one extension can add: a full timeout, counted from as late as `lag`. */
  function Stretch(lag: nat, most: nat): nat { 60 * most + lag }

  predicate RowBounded(c: Config, s: State, lag: nat, most: nat, i: nat)
    requires i < |s.rows|
  {
    && s.rows[i].extended <= |c.Pool()|
    && (s.rows[i].status == Running && !s.rows[i].unlimited ==>
        && i in s.wentLive
        && s.rows[i].expiresAt + lag <= s.wentLive[i] + (s.rows[i].extended + 1) * Stretch(lag, most))
  }

  ghost predicate Bounded(c: Config, s: State, lag: nat, most: nat) {
    && (forall i :: i in s.starts ==> s.starts[i].minutes <= most)
    && (forall i :: 0 <= i < |s.rows| ==> RowBounded(c, s, lag, most, i))
  }

  lemma StartsBounded(c: Config, s: State, e: Event, lag: nat, most: nat, i: nat)
    requires Bounded(c, s, lag, most) && Modest(c, e, most)
    requires i in Step(c, s, e).starts
    ensures Step(c, s, e).starts[i].minutes <= most
  {
    if StartEvent(e) {
      match e {
        case BootFails(_) => case Boot(_) => case Record(_) => case Reread(_) => case AbortStop(_) =>
        case CommitFails(_) =>
      }
    }
  }

  lemma RowStaysBounded(c: Config, s: State, e: Event, lag: nat, most: nat, i: nat)
    requires Inv(s) && Bounded(c, s, lag, most) && Modest(c, e, most) && OnTime(s, lag)
    requires i < |Step(c, s, e).rows|
    ensures RowBounded(c, Step(c, s, e), lag, most, i)
  {
    if i < |s.rows| { assert RowBounded(c, s, lag, most, i); }
    if e.Extend? {
      ExtensionBounded(c, s, e, lag, most, i);
    } else if e.Reread? {
      RereadBounded(c, s, e.env, lag, most, i);
    } else {
      ClockUntouched(c, s, e, i);
    }
  }

  /** Other steps leave the expiry, the extension count and the hand-off time of
      a running row alone, and make no row running. */
  lemma ClockUntouched(c: Config, s: State, e: Event, i: nat)
    requires !e.Extend? && !e.Reread? && i < |Step(c, s, e).rows|
    ensures var s' := Step(c, s, e);
            && s'.wentLive == s.wentLive
            && (i < |s.rows| ==>
                && s'.rows[i].extended == s.rows[i].extended && s'.rows[i].expiresAt == s.rows[i].expiresAt
                && s'.rows[i].unlimited == s.rows[i].unlimited
                && (s'.rows[i].status == Running ==> s.rows[i].status == Running))
            && (i >= |s.rows| ==> s'.rows[i].extended == 0 && s'.rows[i].status == Starting)
  {
    if StartEvent(e) {
      match e { case BootFails(_) => case Boot(_) => case Record(_) => case AbortStop(_) => case CommitFails(_) => }
    } else {
      match e {
        case Reserve(_, _, _, _) => case Claim(_, _, _) => case Destroy(_) => case GiveUp(_) =>
        case VmDies(_) => case Tick(_) => case Restart(_) =>
      }
    }
  }

  lemma ExtensionBounded(c: Config, s: State, e: Event, lag: nat, most: nat, i: nat)
    requires e.Extend? && i < |s.rows| && RowBounded(c, s, lag, most, i) && Modest(c, e, most) && OnTime(s, lag)
    ensures RowBounded(c, Step(c, s, e), lag, most, i)
  {
    var k := s.rows[i].extended;
    assert (k + 2) * Stretch(lag, most) == (k + 1) * Stretch(lag, most) + Stretch(lag, most);
  }

  lemma RereadBounded(c: Config, s: State, env: nat, lag: nat, most: nat, i: nat)
    requires Inv(s) && Bounded(c, s, lag, most) && i < |s.rows|
    ensures RowBounded(c, RereadStep(s, env), lag, most, i)
  {
    assert RowBounded(c, s, lag, most, i);
    if env in s.starts { assert s.starts[env].minutes <= most; }
    var k := s.rows[i].extended;
    assert (k + 1) * Stretch(lag, most) >= Stretch(lag, most);
  }

  lemma {:induction false} RunBounded(c: Config, es: seq<Event>, lag: nat, most: nat)
    requires Timely(c, es, lag, most)
    ensures Bounded(c, Exec(c, Init, es), lag, most) && OnTime(Exec(c, Init, es), lag)
  {
    if es != [] {
      var before := es[..|es| - 1];
      var s, e := Exec(c, Init, before), es[|es| - 1];
      RunBounded(c, before, lag, most);
      RunKeeps(c, before);
      forall i | i in Step(c, s, e).starts ensures Step(c, s, e).starts[i].minutes <= most {
        StartsBounded(c, s, e, lag, most, i);
      }
      forall i | 0 <= i < |Step(c, s, e).rows| ensures RowBounded(c, Step(c, s, e), lag, most, i) {
        RowStaysBounded(c, s, e, lag, most, i);
      }
    }
  }

  lemma MoreStretches(k: nat, n: nat, x: nat, now: int, due: int, live: int)
    requires k <= n && now <= due && due <= live + (k + 1) * x
    ensures now <= live + (n + 1) * x
  {
    assert (n + 1) * x == (k + 1) * x + (n - k) * x;
  }

  /** If images time out after at most `most` minutes, only non-admins extend, and
      the watchdog claims within `lag` seconds of expiry, then an environment that
      is still running has run at most (pool size + 1) stretches: the number of
      extensions is capped by the size of the pool. */
  lemma LifetimeBound(c: Config, es: seq<Event>, lag: nat, most: nat, i: nat)
    requires Timely(c, es, lag, most)
    requires var s := Exec(c, Init, es); i < |s.rows| && s.rows[i].status == Running && !s.rows[i].unlimited
    ensures var s := Exec(c, Init, es);
            i in s.wentLive && s.now <= s.wentLive[i] + (|c.Pool()| + 1) * Stretch(lag, most)
  {
    hide Timely, Exec, Stretch;
    RunBounded(c, es, lag, most);
    var s := Exec(c, Init, es);
    assert RowBounded(c, s, lag, most, i);
    MoreStretches(s.rows[i].extended, |c.Pool()|, Stretch(lag, most), s.now, s.rows[i].expiresAt + lag, s.wentLive[i]);
  }

  /** The hand-over of row i happens at this step. */
  predicate HandsOver(s: State, e: Event, i: nat) {
    && e.Reread? && e.env == i && i in s.starts && s.starts[i].phase.Recorded?
    && i < |s.rows| && s.rows[i].status == Starting
  }

  /** A row becomes running by the hand-off of its start request and by nothing else,
      and `wentLive` is when that was. */
  lemma WentLiveIsHandOff(c: Config, s: State, e: Event, i: nat)
    ensures var s' := Step(c, s, e);
            && (HandsOver(s, e, i) ==> s'.rows[i].status == Running && i in s'.wentLive && s'.wentLive[i] == s.now)
            && (!HandsOver(s, e, i) ==>
                && (i in s'.wentLive <==> i in s.wentLive) && (i in s.wentLive ==> s'.wentLive[i] == s.wentLive[i])
                && (i < |s'.rows| && s'.rows[i].status == Running ==> i < |s.rows| && s.rows[i].status == Running))
  {
    if StartEvent(e) {
      match e {
        case BootFails(_) => case Boot(_) => case Record(_) => case Reread(_) => case AbortStop(_) =>
        case CommitFails(_) =>
      }
    } else {
      match e {
        case Reserve(_, _, _, _) => case Claim(_, _, _) => case Destroy(_) => case GiveUp(_) =>
        case Extend(_, _, _, _) => case VmDies(_) => case Tick(_) => case Restart(_) =>
      }
    }
  }
}
