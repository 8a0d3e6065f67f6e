/** Over whole runs: when the power is to be killed, and what becomes of each attempt. */
module Outcomes {
  import opened Options
  import opened UpsState
  import opened Action
  import opened ActionFacts
  import opened PassFacts
  import opened Runs
  import opened Outage
  import opened Effects

  // Power kills

  /** The event for which the pass shuts the system down, if it does. */
  function Cause(c: Config, u: Ups, r: Reading): Option<EventKind> {
    var before, l := Before(u), u.status.local;
    if l.shutdown then None
    else if r.ups.shutRemote then if before.shutRemote then None else Some(RemoteDown)
    else if !r.ups.onBatt || r.ups.calibration || !before.onBatt || u.selfTest.running != 0 then None
    else if !l.onBattMsg && r.checkTime - u.line.onLine >= c.onBattDelay then None
    else if c.maxTime > 0 && r.now - u.line.onLine > c.maxTime then Some(Timeout)
    else Reason(c, u.cutoff, l, before.battLow, r)
  }

  /** The pass tries again to kill the power of a system that is shut down. */
  predicate Retries(c: Config, u: Ups, r: Reading) {
    && u.status.local.shutdown && !r.ups.shutRemote && !r.ups.slave
    && r.ups.onBatt && !r.ups.calibration && Before(u).onBatt && u.selfTest.running == 0
    && (u.status.local.onBattMsg || r.checkTime - u.line.onLine < c.onBattDelay)
    && c.killDelay != 0 && r.now - u.shutDown >= c.killDelay
  }

  /** The pass tries to kill the power. */
  predicate Tries(c: Config, u: Ups, r: Reading) {
    Retries(c, u, r) || (Cause(c, u, r).Some? && !r.ups.slave && c.killOnPowerfail)
  }

  function TriesAt(c: Config, u: Ups, r: Reading): int { if Retries(c, u, r) then r.now else r.shutTime }

  predicate IsKill(e: Effect) { e.Hibernate? || e.KillPower? || e.AbortHibernate? || e.ShareSlaveGiveUp? }

  predicate NoKill(s: seq<Effect>) { forall e :: e in s ==> !IsKill(e) }

  /** `s` contains one attempt, if `go`, with its outcome right behind it, and nothing else about power kills. */
  ghost predicate OneKill(c: Config, s: seq<Effect>, r: Reading, at: int, go: bool) {
    exists a, b :: NoKill(a) && NoKill(b) && s == a + When(go, KillEffects(c, r, at)) + b
  }

  lemma OneKillIn(c: Config, a: seq<Effect>, b: seq<Effect>, s: seq<Effect>, r: Reading, at: int, go: bool)
    requires NoKill(a) && NoKill(b) && s == a + When(go, KillEffects(c, r, at)) + b
    ensures OneKill(c, s, r, at, go)
  {
  }

  /** More effects around it change nothing. */
  lemma OneKillWithin(c: Config, x: seq<Effect>, s: seq<Effect>, y: seq<Effect>, r: Reading, at: int, go: bool)
    requires OneKill(c, s, r, at, go) && NoKill(x) && NoKill(y)
    ensures OneKill(c, x + s + y, r, at, go)
  {
    var a, b :| NoKill(a) && NoKill(b) && s == a + When(go, KillEffects(c, r, at)) + b;
    OneKillIn(c, x + a, b + y, x + s + y, r, at, go);
  }

  lemma NoneIsOne(c: Config, s: seq<Effect>, r: Reading, at: int)
    requires NoKill(s)
    ensures OneKill(c, s, r, at, false)
  {
    OneKillIn(c, s, [], s, r, at, false);
  }

  lemma {:induction false} DownKills(c: Config, r: Reading, nologin: bool)
    ensures OneKill(c, DownEffects(c, r, nologin), r, r.shutTime, KillsFirst(c, r))
  {
    hide KillEffects, KillsFirst, Refused;
    OneKillIn(c, [DeleteLockFile, MakePowerfailFile] + When(!nologin, [ProhibitLogins]),
              When(!(KillsFirst(c, r) && Refused(c, r)), [Execute(DoShutdown), ClearFiles]),
              DownEffects(c, r, nologin), r, r.shutTime, KillsFirst(c, r));
  }

  lemma {:induction false} CriticalKills(c: Config, r: Reading, k: EventKind, down: bool, nologin: bool)
    ensures OneKill(c, CriticalEffects(c, r, k, down, nologin), r, r.shutTime, !down && KillsFirst(c, r))
  {
    hide DownEffects, OneKill, KillsFirst;
    var head := [Event(k), Announce(DoShutdown)];
    if down {
      NoneIsOne(c, CriticalEffects(c, r, k, down, nologin), r, r.shutTime);
    } else {
      DownKills(c, r, nologin);
      OneKillWithin(c, head, DownEffects(c, r, nologin), [], r, r.shutTime, KillsFirst(c, r));
      assert head + DownEffects(c, r, nologin) + [] == head + DownEffects(c, r, nologin);
    }
  }

  lemma NaggingIsNoKill(c: Config, line: LineTimers, requested: bool, nologin: bool, r: Reading)
    ensures NoKill(NagEffects(c, line, requested, nologin, r))
  {
  }

  lemma {:induction false} HuntKills(c: Config, u: Ups, reason: Option<EventKind>, r: Reading)
    ensures OneKill(c, HuntEffects(c, u, reason, r), r, r.shutTime, reason.Some? && KillsFirst(c, r))
  {
    hide CriticalEffects, NagEffects, OneKill, KillsFirst, Refused;
    NaggingIsNoKill(c, u.line, u.flags.requestedLogoff, u.flags.nologinFile, r);
    NaggingIsNoKill(c, u.line, u.flags.requestedLogoff, true, r);
    match reason
    case None => NoneIsOne(c, HuntEffects(c, u, reason, r), r, r.shutTime);
    case Some(k) =>
      var s := CriticalEffects(c, r, k, false, u.flags.nologinFile);
      var tail := When(k == Emergency && !(KillsFirst(c, r) && Refused(c, r)) && !c.terminateOnPowerfail,
                       NagEffects(c, u.line, u.flags.requestedLogoff, true, r));
      CriticalKills(c, r, k, false, u.flags.nologinFile);
      OneKillWithin(c, [], s, tail, r, r.shutTime, KillsFirst(c, r));
      assert [] + s + tail == s + tail;
  }

  /** The battery branch, given that it is taken. */
  lemma {:induction false} BatteryKills(c: Config, u: Ups, r: Reading)
    requires !r.ups.shutRemote && r.ups.onBatt && !r.ups.calibration && Before(u).onBatt && u.selfTest.running == 0
    ensures OneKill(c, BatteryEffects(c, u, Reason(c, u.cutoff, u.status.local, Before(u).battLow, r), r), r,
                    TriesAt(c, u, r), Tries(c, u, r))
  {
    hide CriticalEffects, HuntEffects, KillEffects, OneKill, Reason, Before;
    var reason := Reason(c, u.cutoff, u.status.local, Before(u).battLow, r);
    var s := BatteryEffects(c, u, reason, r);
    if !u.status.local.onBattMsg && r.checkTime - u.line.onLine >= c.onBattDelay {
      NoneIsOne(c, s, r, TriesAt(c, u, r));
    } else if u.status.local.shutdown {
      assert s == [] + When(Retries(c, u, r), KillEffects(c, r, r.now)) + [];
      if Retries(c, u, r) {
        OneKillIn(c, [], [], s, r, r.now, true);
      } else {
        NoneIsOne(c, s, r, TriesAt(c, u, r));
      }
    } else {
      CriticalKills(c, r, Timeout, false, u.flags.nologinFile);
      HuntKills(c, u, reason, r);
    }
  }

  lemma {:induction false} SwitchKills(c: Config, u: Ups, r: Reading)
    requires !r.ups.shutRemote
    ensures OneKill(c,
                    SwitchEffects(c, u, Reason(c, u.cutoff, u.status.local, Before(u).battLow, r), Before(u).onBatt, r),
                    r, TriesAt(c, u, r), Tries(c, u, r))
  {
    hide BatteryEffects, OneKill, Reason, Before;
    var s := SwitchEffects(c, u, Reason(c, u.cutoff, u.status.local, Before(u).battLow, r), Before(u).onBatt, r);
    if r.ups.onBatt && !r.ups.calibration && Before(u).onBatt && u.selfTest.running == 0 {
      BatteryKills(c, u, r);
    } else {
      NoneIsOne(c, s, r, TriesAt(c, u, r));
    }
  }

  /** A pass makes at most one attempt, exactly when told above. */
  lemma {:induction false} PassKills(c: Config, u: Ups, r: Reading)
    ensures OneKill(c, PassEffects(c, u, r), r, TriesAt(c, u, r), Tries(c, u, r))
  {
    hide SwitchEffects, CriticalEffects, OneKill, Reason, Before;
    var x, b := ComplaintEffects(c, u, r), Before(u);
    if r.ups.shutRemote {
      var s := RemoteEffects(c, u, b, r);
      CriticalKills(c, r, RemoteDown, u.status.local.shutdown, u.flags.nologinFile);
      if b.shutRemote { NoneIsOne(c, s, r, TriesAt(c, u, r)); }
      OneKillWithin(c, x, s, [], r, TriesAt(c, u, r), Tries(c, u, r));
      assert x + s + [] == x + s;
    } else {
      var s := SwitchEffects(c, u, Reason(c, u.cutoff, u.status.local, b.battLow, r), b.onBatt, r);
      SwitchKills(c, u, r);
      OneKillWithin(c, x + BatteryEdge(b, r), s, [], r, TriesAt(c, u, r), Tries(c, u, r));
      assert x + BatteryEdge(b, r) + s + [] == x + (BatteryEdge(b, r) + s);
    }
  }

  lemma {:induction false} AttemptsAppend(a: seq<Effect>, b: seq<Effect>)
    ensures Attempts(a + b) == Attempts(a) + Attempts(b)
  {
    if b == [] {
      assert a + b == a;
    } else {
      var n := |b| - 1;
      assert (a + b)[..|a + b| - 1] == a + b[..n];
      AttemptsAppend(a, b[..n]);
    }
  }

  lemma {:induction false} NoKillNoAttempt(s: seq<Effect>)
    requires NoKill(s)
    ensures Attempts(s) == []
  {
    if s != [] {
      assert s[|s| - 1] in s && forall e :: e in s[..|s| - 1] ==> e in s;
      NoKillNoAttempt(s[..|s| - 1]);
    }
  }

  lemma NoKillNoOutcome(s: seq<Effect>)
    requires NoKill(s)
    ensures forall e :: IsKill(e) ==> Count(s, e) == 0
  {
  }

  lemma {:induction false} KillCounts(c: Config, r: Reading, at: int)
    ensures Attempts(KillEffects(c, r, at)) == [at]
    ensures Count(KillEffects(c, r, at), AbortHibernate) == Bit(Refused(c, r))
    ensures Count(KillEffects(c, r, at), ShareSlaveGiveUp) == Bit(!Refused(c, r) && c.upsClass == ShareSlave)
    ensures Count(KillEffects(c, r, at), KillPower) == Bit(!Refused(c, r) && c.upsClass != ShareSlave)
  {
    var s := KillEffects(c, r, at);
    assert s[..1] == [Hibernate(at)] && s[..1][..0] == [];
    assert Attempts(s[..1]) == [at];
  }

  /** What one attempt, or none, adds to the log. */
  ghost predicate KillAdded(c: Config, was: seq<Effect>, now: seq<Effect>, r: Reading, at: int, go: bool) {
    && Attempts(now) == Attempts(was) + (if go then [at] else [])
    && Count(now, AbortHibernate) == Count(was, AbortHibernate) + Bit(go && Refused(c, r))
    && Count(now, ShareSlaveGiveUp) ==
       Count(was, ShareSlaveGiveUp) + Bit(go && !Refused(c, r) && c.upsClass == ShareSlave)
    && Count(now, KillPower) == Count(was, KillPower) + Bit(go && !Refused(c, r) && c.upsClass != ShareSlave)
  }

  lemma CountAppend(a: seq<Effect>, b: seq<Effect>)
    ensures forall e :: Count(a + b, e) == Count(a, e) + Count(b, e)
  {
  }

  lemma {:induction false} AddsNoKill(c: Config, was: seq<Effect>, a: seq<Effect>, r: Reading, at: int)
    requires NoKill(a)
    ensures KillAdded(c, was, was + a, r, at, false)
  {
    hide Count, Attempts, NoKill;
    CountAppend(was, a);
    AttemptsAppend(was, a);
    NoKillNoAttempt(a);
    NoKillNoOutcome(a);
  }

  lemma {:induction false} AddsOneKill(c: Config, was: seq<Effect>, r: Reading, at: int)
    ensures KillAdded(c, was, was + KillEffects(c, r, at), r, at, true)
  {
    hide Count, Attempts, KillEffects;
    CountAppend(was, KillEffects(c, r, at));
    AttemptsAppend(was, KillEffects(c, r, at));
    KillCounts(c, r, at);
  }

  lemma KillAddedBetween(c: Config, w0: seq<Effect>, w1: seq<Effect>, w2: seq<Effect>, w3: seq<Effect>, r: Reading,
                         at: int, go: bool)
    requires KillAdded(c, w0, w1, r, at, false) && KillAdded(c, w1, w2, r, at, go) && KillAdded(c, w2, w3, r, at, false)
    ensures KillAdded(c, w0, w3, r, at, go)
  {
    hide Count, Attempts;
  }

  lemma {:induction false} AddsKill(c: Config, was: seq<Effect>, s: seq<Effect>, r: Reading, at: int, go: bool)
    requires OneKill(c, s, r, at, go)
    ensures KillAdded(c, was, was + s, r, at, go)
  {
    hide KillEffects, KillAdded, NoKill;
    var a, b :| NoKill(a) && NoKill(b) && s == a + When(go, KillEffects(c, r, at)) + b;
    var k := When(go, KillEffects(c, r, at));
    assert was + s == was + a + k + b;
    AddsNoKill(c, was, a, r, at);
    if go { AddsOneKill(c, was + a, r, at); } else { NothingIsNoKill(k); AddsNoKill(c, was + a, k, r, at); }
    AddsNoKill(c, was + a + k, b, r, at);
    KillAddedBetween(c, was, was + a, was + a + k, was + a + k + b, r, at, go);
  }

  lemma NothingIsNoKill(s: seq<Effect>)
    requires s == []
    ensures NoKill(s)
  {
  }

  /** In every run each pass of a live process makes an attempt to kill the power exactly if it shuts the system
      down with killpower configured or retries when that is due, in both cases unless it is a slave; and the
      attempt ends the process exactly if the powerfail file is missing and the UPS is not a dumb one off
      battery, is left to the master exactly by a ShareUPS slave, and else kills the power. */
  lemma {:induction false} AttemptsAreExact(c: Config, rs: seq<Reading>, i: nat)
    requires i < |rs|
    ensures var u := After(c, rs, i);
            KillAdded(c, u.log, After(c, rs, i + 1).log, rs[i], TriesAt(c, u, rs[i]),
                      !u.flags.terminated && Tries(c, u, rs[i]))
  {
    hide Count, Attempts, After, Pass, PassEffects, Tries, TriesAt, Refused;
    StepOf(c, rs, i + 1);
    var u := After(c, rs, i);
    if !u.flags.terminated {
      PassLog(c, u, rs[i]);
      PassKills(c, u, rs[i]);
      AddsKill(c, u.log, PassEffects(c, u, rs[i]), rs[i], TriesAt(c, u, rs[i]), Tries(c, u, rs[i]));
    }
  }

  /** In every run each attempt has exactly one outcome, and which ones are possible is told by the class. */
  lemma {:induction false} AttemptsHaveOutcomes(c: Config, rs: seq<Reading>, n: nat)
    requires n <= |rs|
    ensures var log := After(c, rs, n).log;
            var kills, gaveUp, aborts :=
              Count(log, KillPower), Count(log, ShareSlaveGiveUp), Count(log, AbortHibernate);
            if c.upsClass == ShareSlave then kills == 0 && gaveUp + aborts == |Attempts(log)|
            else gaveUp == 0 && kills + aborts == |Attempts(log)|
  {
    hide Count, Attempts, After, Tries, TriesAt, Refused;
    if n == 0 {
      StepOf(c, rs, 0);
      EmptyLog();
    } else {
      AttemptsHaveOutcomes(c, rs, n - 1);
      AttemptsAreExact(c, rs, n - 1);
    }
  }

  /** The cause told here is the one for which the pass shuts down. */
  lemma {:induction false} CauseIsReason(c: Config, u: Ups, r: Reading)
    requires !u.flags.terminated
    ensures Downs(c, u, r) == Cause(c, u, r)
  {
    hide Count, Prepared, Polled, Prepares, RemoteKeeps, Cutoffs, Critical, Reason, Alike, Before;
    Stages(c, u, r);
    var p, q := Prepared(c, u, r), Polled(c, u, r);
    PreparesMeans(u, p, r);
    PreparesMeans(u, q, r);
    ReasonFound(c, u, q, r);
    HuntsMean(c, u, r);
  }

  lemma {:induction false} HuntsMean(c: Config, u: Ups, r: Reading)
    requires !u.flags.terminated
    ensures Hunts(c, u, r) <==>
            !r.ups.shutRemote && r.ups.onBatt && !r.ups.calibration && Before(u).onBatt && u.selfTest.running == 0 &&
            !u.status.local.shutdown && (u.status.local.onBattMsg || r.checkTime - u.line.onLine < c.onBattDelay)
    ensures Hunts(c, u, r) ==> Polled(c, u, r).line == u.line
  {
    hide Count, Polled;
    Stages(c, u, r);
  }
}
