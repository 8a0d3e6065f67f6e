/** A shutdown timer only expires over a condition that held for five seconds. */
module Debounce {
  import opened Options
  import opened UpsState
  import opened Action
  import opened ActionFacts
  import opened PassFacts
  import opened Runs
  import opened Outage

  /** A pass logs a critical event exactly when it shuts down for it. */
  lemma {:induction false} LogsIffDowns(c: Config, rs: seq<Reading>, i: nat, k: EventKind)
    requires i < |rs| && ShutsDown(k) && k != RemoteDown
    ensures Logs(c, rs, i, k) <==> Downs(c, After(c, rs, i), rs[i]) == Some(k)
  {
    hide Count, Act, Prepared, Polled, RemoteShutdown, Enters, Confirms, Reached;
    var u := After(c, rs, i);
    if !u.flags.terminated {
      PassShutdown(c, u, rs[i]);
    }
  }

  /** What the passes so far leave behind about remote shutdown: a pass that was told of one shut down. */
  ghost predicate RemoteSeen(u: Ups, last: Reading) {
    && !u.flags.first
    && (u.flags.terminated ==> u.status.local.shutdown)
    && (!u.flags.terminated ==> u.prev.ups == last.ups)
    && (last.ups.shutRemote ==> u.status.local.shutdown)
  }

  /** A pass only ends the process in a shutdown, which stays. */
  lemma {:induction false} ShutdownStays(c: Config, u: Ups, r: Reading)
    requires !u.flags.terminated
    ensures var v := Pass(c, u, r);
            && (v.flags.terminated || u.status.local.shutdown || Downs(c, u, r).Some? ==> v.status.local.shutdown)
  {
    hide Count, Attempts, AttemptsGuarded, Pass, Downs, Kills, Marks;
    PassShutdown(c, u, r);
    DownsOrKills(c, u, r);
  }

  /** Remote shutdown is acted on when it is first seen. */
  lemma {:induction false} RemoteDowns(c: Config, u: Ups, r: Reading)
    requires !u.flags.terminated && r.ups.shutRemote && !u.status.local.shutdown
    requires u.flags.first || !u.prev.ups.shutRemote
    ensures Downs(c, u, r).Some?
  {
    hide Count, Prepared, Polled, RemoteShutdown;
    PreparedFacts(c, u, r);
  }

  lemma {:induction false} RemoteIsSeen(c: Config, u: Ups, last: Reading, r: Reading)
    requires !u.flags.terminated && (u.flags.first || RemoteSeen(u, last))
    ensures var v := Pass(c, u, r);
            RemoteSeen(v, r) && (!v.status.local.shutdown ==> !v.flags.terminated && !u.status.local.shutdown)
  {
    hide Count, Pass, Downs;
    ShutdownStays(c, u, r);
    PassStatus(c, u, r);
    if r.ups.shutRemote && !u.status.local.shutdown { RemoteDowns(c, u, r); }
  }

  lemma {:induction false} RemoteImpliesShutdown(c: Config, rs: seq<Reading>, n: nat)
    requires n <= |rs|
    ensures n == 0 ==> After(c, rs, n) == BOOT
    ensures n > 0 && !After(c, rs, n).status.local.shutdown ==>
              !After(c, rs, n).flags.terminated && !After(c, rs, n - 1).status.local.shutdown
    ensures n > 0 ==> RemoteSeen(After(c, rs, n), rs[n - 1])
  {
    hide After, Pass;
    StepOf(c, rs, n);
    if n > 0 {
      RemoteImpliesShutdown(c, rs, n - 1);
      var u, r := After(c, rs, n - 1), rs[n - 1];
      if !u.flags.terminated {
        RemoteIsSeen(c, u, if n > 1 then rs[n - 2] else r, r);
      }
    }
  }

  /** The battery was low before this pass and still is, and its timer has run for five seconds. */
  predicate LowBatteryExpired(c: Config, u: Ups, r: Reading) {
    && Evaluates(c, u, r) && r.ups.battLow && !u.flags.first && u.prev.ups.battLow
    && r.now - u.cutoff.lbatt >= 5
  }

  /** An evaluating pass shuts down for what the cutoffs say. */
  lemma {:induction false} EvaluatingDowns(c: Config, u: Ups, r: Reading)
    requires Evaluates(c, u, r)
    ensures Downs(c, u, r) == Critical(Cutoffs(c, Polled(c, u, r), r), r)
  {
    hide Prepared, Polled, GetState, Confirms, TimesOut, Critical, Cutoffs;
  }

  lemma LowBatteryWins(c: Config, p: Ups, r: Reading)
    requires p.status.ups.battLow && r.now - p.cutoff.lbatt >= 5
    ensures Critical(Cutoffs(c, p, r), r) == Some(Failing)
  {
    hide LowCharge, LowRuntime;
  }

  /** An expired low-battery timer comes before the other timers. */
  lemma {:induction false} LowBatteryComesFirst(c: Config, u: Ups, r: Reading)
    requires LowBatteryExpired(c, u, r)
    ensures Downs(c, u, r) == Some(Failing)
  {
    hide Count, Attempts, AttemptsGuarded, Prepared, Polled, Downs, Evaluates, Critical, Cutoffs, RemoteKeeps;
    Stages(c, u, r);
    EvaluatingDowns(c, u, r);
    EvaluatingIsOrdinary(c, u, r);
    LowBatteryWins(c, Polled(c, u, r), r);
  }

  lemma EvaluatingIsOrdinary(c: Config, u: Ups, r: Reading)
    ensures Evaluates(c, u, r) ==> !r.ups.shutRemote
  {
    hide Polled, GetState, Confirms, TimesOut;
  }

  /** What the evaluated cutoffs say, and what a critical condition means for the flags and timers. */
  lemma {:induction false} CutoffFacts(c: Config, p: Ups, r: Reading)
    ensures var v, k := Cutoffs(c, p, r), Critical(Cutoffs(c, p, r), r);
            && (k == Some(Failing) ==> p.status.ups.battLow && r.now - p.cutoff.lbatt >= 5)
            && (k == Some(LoadLimit) ==>
                  LowCharge(c, r) && p.status.local.shutLoad && r.now - p.cutoff.load >= 5)
            && (k == Some(RunLimit) ==>
                  LowRuntime(c, r) && p.status.local.shutLtime && r.now - p.cutoff.ltime >= 5)
            && (k == Some(Emergency) ==> p.status.ups.battLow && p.status.ups.online)
            && k != Some(Timeout)
  {
    hide LowCharge, LowRuntime;
  }

  /** A pass that shuts down, other than for the network, found its reason while hunting for one. */
  lemma {:induction false} HuntsFor(c: Config, u: Ups, r: Reading, k: EventKind)
    requires Downs(c, u, r) == Some(k) && k != RemoteDown
    ensures Hunts(c, u, r) && Reached(c, Polled(c, u, r), r) == Some(k)
    ensures k != Timeout ==> Evaluates(c, u, r) && Critical(Cutoffs(c, Polled(c, u, r), r), r) == Some(k)
  {
    hide Prepared, Polled, RemoteShutdown, GetState, Confirms, Critical, Cutoffs, TimesOut;
  }

  /** What the reason found in the prepared state `p` says about the state `u` before the pass. */
  lemma {:induction false} ReasonBefore(c: Config, u: Ups, p: Ups, r: Reading, k: EventKind)
    requires Prepares(u, p, r) && Critical(Cutoffs(c, p, r), r) == Some(k)
    requires p.cutoff == if r.ups.battLow && !p.prev.ups.battLow then u.cutoff.(lbatt := r.now) else u.cutoff
    ensures k == Failing ==> r.ups.battLow && !u.flags.first && u.prev.ups.battLow && r.now - u.cutoff.lbatt >= 5
    ensures k == LoadLimit ==> LowCharge(c, r) && u.status.local.shutLoad && r.now - u.cutoff.load >= 5
    ensures k == RunLimit ==> LowRuntime(c, r) && u.status.local.shutLtime && r.now - u.cutoff.ltime >= 5
    ensures k == Emergency ==> r.ups.battLow && r.ups.online
  {
    hide Count, Critical, Cutoffs, LowCharge, LowRuntime;
    CutoffFacts(c, p, r);
  }

  /** Why a pass shuts down for `k`. */
  lemma {:induction false} CauseOf(c: Config, u: Ups, r: Reading, k: EventKind)
    requires Downs(c, u, r) == Some(k) && k != RemoteDown
    ensures Hunts(c, u, r) && (k != Timeout ==> Evaluates(c, u, r))
    ensures k == Failing ==> LowBatteryExpired(c, u, r)
    ensures k == LoadLimit ==> LowCharge(c, r) && u.status.local.shutLoad && r.now - u.cutoff.load >= 5
    ensures k == RunLimit ==> LowRuntime(c, r) && u.status.local.shutLtime && r.now - u.cutoff.ltime >= 5
    ensures k == Emergency ==> r.ups.battLow && r.ups.online
  {
    hide Downs, Hunts, Evaluates, Prepares, Prepared, Polled, Critical, Cutoffs, LowCharge, LowRuntime, RemoteKeeps;
    HuntsFor(c, u, r, k);
    if k != Timeout {
      Stages(c, u, r);
      ReasonBefore(c, u, Polled(c, u, r), r, k);
    }
  }

  /** As long as no shutdown was ordered, a battery that is low now has been low at every pass since the one
      that started the battery-low timer. */
  lemma {:induction false} BattLowHeld(c: Config, rs: seq<Reading>, n: nat) returns (s: nat)
    requires 0 < n <= |rs| && !After(c, rs, n).status.local.shutdown && rs[n - 1].ups.battLow
    ensures s < n && After(c, rs, n).cutoff.lbatt == rs[s].now
    ensures s == 0 || !rs[s - 1].ups.battLow
    ensures forall j :: s <= j < n ==> rs[j].ups.battLow
  {
    hide Count, Attempts, AttemptsGuarded, Pass, Evaluates;
    RemoteImpliesShutdown(c, rs, n);
    RemoteImpliesShutdown(c, rs, n - 1);
    var u := After(c, rs, n - 1);
    PassCutoffs(c, u, rs[n - 1]);
    if n == 1 || !rs[n - 2].ups.battLow {
      s := n - 1;
    } else {
      s := BattLowHeld(c, rs, n - 1);
    }
  }

  /** The pass looks for a reason to shut down: the system is on battery and was at the last reading, neither
      calibration nor self test nor remote shutdown is going on, it is not shut down already, and battery
      operation is confirmed or not yet due to be. */
  ghost predicate HuntsAt(c: Config, rs: seq<Reading>, i: nat)
    requires i < |rs|
  {
    var u, r := After(c, rs, i), rs[i];
    && i > 0 && rs[i - 1].ups.onBatt && r.ups.onBatt && !r.ups.calibration && !r.ups.shutRemote
    && !u.flags.terminated && !u.status.local.shutdown && u.selfTest.running == 0
    && (u.status.local.onBattMsg || r.checkTime - u.line.onLine < c.onBattDelay)
  }

  /** And the timeout, if there is one, is not over: the pass compares charge and runtime with their cutoffs. */
  ghost predicate EvaluatesAt(c: Config, rs: seq<Reading>, i: nat)
    requires i < |rs|
  {
    HuntsAt(c, rs, i) && !(c.maxTime > 0 && rs[i].now - After(c, rs, i).line.onLine > c.maxTime)
  }

  lemma {:induction false} HuntsWhen(c: Config, rs: seq<Reading>, i: nat)
    requires i < |rs|
    ensures HuntsAt(c, rs, i) <==> Hunts(c, After(c, rs, i), rs[i])
    ensures HuntsAt(c, rs, i) ==> Polled(c, After(c, rs, i), rs[i]).line == After(c, rs, i).line
  {
    hide Count, After, Pass, Polled, GetState;
    var u, r := After(c, rs, i), rs[i];
    if !u.flags.terminated {
      Remembers(c, rs, i);
      BranchOf(c, u, r, OnBattBefore(rs, i));
      DueToConfirm(c, u, r);
      Stages(c, u, r);
    }
  }

  lemma {:induction false} EvaluatesWhen(c: Config, rs: seq<Reading>, i: nat)
    requires i < |rs|
    ensures EvaluatesAt(c, rs, i) <==> Evaluates(c, After(c, rs, i), rs[i])
  {
    hide HuntsAt, After, Hunts, Polled;
    HuntsWhen(c, rs, i);
  }

  /** The battery was low at every pass from some pass at least five seconds ago up to pass `i`. */
  ghost predicate LowForFiveSeconds(rs: seq<Reading>, i: nat)
    requires i < |rs|
  {
    exists s :: 0 <= s < i && rs[s].now <= rs[i].now - 5 && forall j :: s <= j <= i ==> rs[j].ups.battLow
  }

  lemma {:induction false} FailingHasCause(c: Config, rs: seq<Reading>, i: nat)
    requires i < |rs| && Downs(c, After(c, rs, i), rs[i]) == Some(Failing)
    ensures EvaluatesAt(c, rs, i) && LowForFiveSeconds(rs, i)
  {
    hide EvaluatesAt, Downs, Evaluates, Hunts, After, ClockOrdered;
    EvaluatesWhen(c, rs, i);
    CauseOf(c, After(c, rs, i), rs[i], Failing);
    RemoteImpliesShutdown(c, rs, i);
    assert i > 0 && rs[i - 1].ups.battLow;
    var s := BattLowHeld(c, rs, i);
    assert rs[s].now <= rs[i].now - 5 && forall j :: s <= j <= i ==> rs[j].ups.battLow;
  }

  lemma {:induction false} LongLowBatteryFails(c: Config, rs: seq<Reading>, i: nat)
    requires i < |rs| && ClockOrdered(rs) && EvaluatesAt(c, rs, i) && LowForFiveSeconds(rs, i)
    ensures Downs(c, After(c, rs, i), rs[i]) == Some(Failing)
  {
    hide EvaluatesAt, Downs, Evaluates, Pass, After;
    var t :| 0 <= t < i && rs[t].now <= rs[i].now - 5 && forall j :: t <= j <= i ==> rs[j].ups.battLow;
    EvaluatesWhen(c, rs, i);
    RemoteImpliesShutdown(c, rs, i);
    var s := BattLowHeld(c, rs, i);
    assert s <= t;
    assert rs[s].now <= rs[t].now;
    LowBatteryComesFirst(c, After(c, rs, i), rs[i]);
  }

  /** FAILING is generated by exactly those evaluating passes at which the battery has been low, at every
      pass, for at least five seconds. */
  lemma {:induction false} FailingIsDebounced(c: Config, rs: seq<Reading>, i: nat)
    requires i < |rs| && ClockOrdered(rs)
    ensures Logs(c, rs, i, Failing) <==> EvaluatesAt(c, rs, i) && LowForFiveSeconds(rs, i)
  {
    hide Logs, Downs, EvaluatesAt, LowForFiveSeconds, After, ClockOrdered;
    LogsIffDowns(c, rs, i, Failing);
    if Downs(c, After(c, rs, i), rs[i]) == Some(Failing) {
      FailingHasCause(c, rs, i);
    } else if EvaluatesAt(c, rs, i) && LowForFiveSeconds(rs, i) {
      LongLowBatteryFails(c, rs, i);
    }
  }

  lemma {:induction false} CutoffsAfter(c: Config, rs: seq<Reading>, n: nat)
    requires n <= |rs|
    ensures n == 0 ==> !After(c, rs, n).status.local.shutLoad && !After(c, rs, n).status.local.shutLtime
    ensures n > 0 ==> CutoffStep(c, After(c, rs, n - 1), After(c, rs, n), rs[n - 1], EvaluatesAt(c, rs, n - 1))
  {
    hide EvaluatesAt, Act, Prepared, Polled, RemoteShutdown, Evaluates, LowCharge, LowRuntime;
    if n > 0 { EvaluatesWhen(c, rs, n - 1); }
    if n > 0 && !After(c, rs, n - 1).flags.terminated {
      PassCutoffs(c, After(c, rs, n - 1), rs[n - 1]);
    }
  }

  /** While the charge flag is up, every evaluating pass since the one that started its timer saw the charge
      at or below the cutoff. The flag survives the return of mains: only evaluating passes count. */
  lemma {:induction false} LowChargeHeld(c: Config, rs: seq<Reading>, n: nat) returns (s: nat)
    requires n <= |rs| && After(c, rs, n).status.local.shutLoad
    ensures s < n && After(c, rs, n).cutoff.load == rs[s].now && EvaluatesAt(c, rs, s)
    ensures forall j :: s <= j < n && EvaluatesAt(c, rs, j) ==> LowCharge(c, rs[j])
  {
    hide After, EvaluatesAt, LowCharge, LowRuntime;
    CutoffsAfter(c, rs, n);
    if EvaluatesAt(c, rs, n - 1) && !After(c, rs, n - 1).status.local.shutLoad {
      s := n - 1;
    } else {
      s := LowChargeHeld(c, rs, n - 1);
    }
  }

  lemma {:induction false} LowRuntimeHeld(c: Config, rs: seq<Reading>, n: nat) returns (s: nat)
    requires n <= |rs| && After(c, rs, n).status.local.shutLtime
    ensures s < n && After(c, rs, n).cutoff.ltime == rs[s].now && EvaluatesAt(c, rs, s)
    ensures forall j :: s <= j < n && EvaluatesAt(c, rs, j) ==> LowRuntime(c, rs[j])
  {
    hide After, EvaluatesAt, LowCharge, LowRuntime;
    CutoffsAfter(c, rs, n);
    if EvaluatesAt(c, rs, n - 1) && !After(c, rs, n - 1).status.local.shutLtime {
      s := n - 1;
    } else {
      s := LowRuntimeHeld(c, rs, n - 1);
    }
  }

  /** A charge or runtime timer that has expired comes right after the battery-low timer, in this order. */
  lemma {:induction false} ExpiredTimersAct(c: Config, u: Ups, p: Ups, r: Reading)
    requires Prepares(u, p, r) && p.cutoff.load == u.cutoff.load && p.cutoff.ltime == u.cutoff.ltime
    ensures var k := Critical(Cutoffs(c, p, r), r);
            && (LowCharge(c, r) && u.status.local.shutLoad && r.now - u.cutoff.load >= 5 ==>
                  k == Some(Failing) || k == Some(LoadLimit))
            && (LowRuntime(c, r) && u.status.local.shutLtime && r.now - u.cutoff.ltime >= 5 ==>
                  k == Some(Failing) || k == Some(LoadLimit) || k == Some(RunLimit))
  {
    hide Count, LowCharge, LowRuntime;
  }

  lemma {:induction false} ExpiredTimersShutDown(c: Config, u: Ups, r: Reading)
    requires Evaluates(c, u, r)
    ensures LowCharge(c, r) && u.status.local.shutLoad && r.now - u.cutoff.load >= 5 ==>
              Downs(c, u, r) == Some(Failing) || Downs(c, u, r) == Some(LoadLimit)
    ensures LowRuntime(c, r) && u.status.local.shutLtime && r.now - u.cutoff.ltime >= 5 ==>
              Downs(c, u, r) == Some(Failing) || Downs(c, u, r) == Some(LoadLimit) || Downs(c, u, r) == Some(RunLimit)
  {
    hide Prepares, RemoteKeeps, Prepared, Polled, GetState, Confirms, Critical, Cutoffs, LowCharge, LowRuntime,
         TimesOut;
    Stages(c, u, r);
    ExpiredTimersAct(c, u, Polled(c, u, r), r);
  }

  /** The charge was at or below its cutoff at every evaluating pass from one at least five seconds ago on. */
  ghost predicate ChargeLowForFiveSeconds(c: Config, rs: seq<Reading>, i: nat)
    requires i < |rs|
  {
    exists s :: 0 <= s < i && EvaluatesAt(c, rs, s) && rs[s].now <= rs[i].now - 5 &&
                forall j :: s <= j <= i && EvaluatesAt(c, rs, j) ==>
                  c.hasBattLevel && rs[j].battChg <= c.percent as real
  }

  ghost predicate RuntimeLowForFiveSeconds(c: Config, rs: seq<Reading>, i: nat)
    requires i < |rs|
  {
    exists s :: 0 <= s < i && EvaluatesAt(c, rs, s) && rs[s].now <= rs[i].now - 5 &&
                forall j :: s <= j <= i && EvaluatesAt(c, rs, j) ==> c.hasRunTime && rs[j].timeLeft <= c.runtime as real
  }

  /** From an evaluating pass `s` on, a charge that stays low keeps the flag up and its timer running. */
  lemma {:induction false} ChargeTimerRuns(c: Config, rs: seq<Reading>, s: nat, n: nat)
    requires s < n <= |rs| && ClockOrdered(rs) && EvaluatesAt(c, rs, s)
    requires forall j :: s <= j < n && EvaluatesAt(c, rs, j) ==> LowCharge(c, rs[j])
    ensures After(c, rs, n).status.local.shutLoad && After(c, rs, n).cutoff.load <= rs[s].now
  {
    hide After, EvaluatesAt, LowCharge, LowRuntime;
    CutoffsAfter(c, rs, n);
    if n > s + 1 {
      ChargeTimerRuns(c, rs, s, n - 1);
    } else if After(c, rs, s).status.local.shutLoad {
      var t := LowChargeHeld(c, rs, s);
      assert rs[t].annoyTime <= rs[s].now && rs[t].now <= rs[t].annoyTime;
    }
  }

  lemma {:induction false} RuntimeTimerRuns(c: Config, rs: seq<Reading>, s: nat, n: nat)
    requires s < n <= |rs| && ClockOrdered(rs) && EvaluatesAt(c, rs, s)
    requires forall j :: s <= j < n && EvaluatesAt(c, rs, j) ==> LowRuntime(c, rs[j])
    ensures After(c, rs, n).status.local.shutLtime && After(c, rs, n).cutoff.ltime <= rs[s].now
  {
    hide After, EvaluatesAt, LowCharge, LowRuntime;
    CutoffsAfter(c, rs, n);
    if n > s + 1 {
      RuntimeTimerRuns(c, rs, s, n - 1);
    } else if After(c, rs, s).status.local.shutLtime {
      var t := LowRuntimeHeld(c, rs, s);
      assert rs[t].annoyTime <= rs[s].now && rs[t].now <= rs[t].annoyTime;
    }
  }

  lemma {:induction false} LoadLimitHasCause(c: Config, rs: seq<Reading>, i: nat)
    requires i < |rs| && Downs(c, After(c, rs, i), rs[i]) == Some(LoadLimit)
    ensures EvaluatesAt(c, rs, i) && ChargeLowForFiveSeconds(c, rs, i)
  {
    hide EvaluatesAt, After, Downs, Evaluates, Hunts;
    EvaluatesWhen(c, rs, i);
    CauseOf(c, After(c, rs, i), rs[i], LoadLimit);
    var s := LowChargeHeld(c, rs, i);
    assert EvaluatesAt(c, rs, s) && forall j :: s <= j <= i && EvaluatesAt(c, rs, j) ==> LowCharge(c, rs[j]);
  }

  lemma {:induction false} RunLimitHasCause(c: Config, rs: seq<Reading>, i: nat)
    requires i < |rs| && Downs(c, After(c, rs, i), rs[i]) == Some(RunLimit)
    ensures EvaluatesAt(c, rs, i) && RuntimeLowForFiveSeconds(c, rs, i)
  {
    hide EvaluatesAt, After, Downs, Evaluates, Hunts;
    EvaluatesWhen(c, rs, i);
    CauseOf(c, After(c, rs, i), rs[i], RunLimit);
    var s := LowRuntimeHeld(c, rs, i);
    assert EvaluatesAt(c, rs, s) && forall j :: s <= j <= i && EvaluatesAt(c, rs, j) ==> LowRuntime(c, rs[j]);
  }

  lemma {:induction false} LongLowChargeShutsDown(c: Config, rs: seq<Reading>, i: nat)
    requires i < |rs| && ClockOrdered(rs) && EvaluatesAt(c, rs, i) && ChargeLowForFiveSeconds(c, rs, i)
    ensures var d := Downs(c, After(c, rs, i), rs[i]); d == Some(Failing) || d == Some(LoadLimit)
  {
    hide EvaluatesAt, After, Downs, Evaluates, ClockOrdered;
    EvaluatesWhen(c, rs, i);
    var s :| 0 <= s < i && EvaluatesAt(c, rs, s) && rs[s].now <= rs[i].now - 5 &&
             forall j :: s <= j <= i && EvaluatesAt(c, rs, j) ==> c.hasBattLevel && rs[j].battChg <= c.percent as real;
    ChargeTimerRuns(c, rs, s, i);
    ExpiredTimersShutDown(c, After(c, rs, i), rs[i]);
  }

  lemma {:induction false} LongLowRuntimeShutsDown(c: Config, rs: seq<Reading>, i: nat)
    requires i < |rs| && ClockOrdered(rs) && EvaluatesAt(c, rs, i) && RuntimeLowForFiveSeconds(c, rs, i)
    ensures var d := Downs(c, After(c, rs, i), rs[i]);
            d == Some(Failing) || d == Some(LoadLimit) || d == Some(RunLimit)
  {
    hide EvaluatesAt, After, Downs, Evaluates, ClockOrdered;
    EvaluatesWhen(c, rs, i);
    var s :| 0 <= s < i && EvaluatesAt(c, rs, s) && rs[s].now <= rs[i].now - 5 &&
             forall j :: s <= j <= i && EvaluatesAt(c, rs, j) ==> c.hasRunTime && rs[j].timeLeft <= c.runtime as real;
    RuntimeTimerRuns(c, rs, s, i);
    ExpiredTimersShutDown(c, After(c, rs, i), rs[i]);
  }

  /** LOADLIMIT is generated by exactly those evaluating passes at which the charge has been at or below its
      cutoff, at every evaluating pass, for at least five seconds, and that are not FAILING. */
  lemma {:induction false} LoadLimitIsDebounced(c: Config, rs: seq<Reading>, i: nat)
    requires i < |rs| && ClockOrdered(rs)
    ensures Logs(c, rs, i, LoadLimit) <==>
            EvaluatesAt(c, rs, i) && ChargeLowForFiveSeconds(c, rs, i) && !LowForFiveSeconds(rs, i)
  {
    hide Logs, Downs, EvaluatesAt, LowForFiveSeconds, ChargeLowForFiveSeconds, After, ClockOrdered;
    LogsIffDowns(c, rs, i, LoadLimit);
    var d := Downs(c, After(c, rs, i), rs[i]);
    if d == Some(LoadLimit) { LoadLimitHasCause(c, rs, i); }
    if d == Some(Failing) { FailingHasCause(c, rs, i); }
    if EvaluatesAt(c, rs, i) {
      if LowForFiveSeconds(rs, i) { LongLowBatteryFails(c, rs, i); }
      if ChargeLowForFiveSeconds(c, rs, i) { LongLowChargeShutsDown(c, rs, i); }
    }
  }

  /** RUNLIMIT, likewise for the remaining runtime, by those that are neither FAILING nor LOADLIMIT. */
  lemma {:induction false} RunLimitIsDebounced(c: Config, rs: seq<Reading>, i: nat)
    requires i < |rs| && ClockOrdered(rs)
    ensures Logs(c, rs, i, RunLimit) <==>
            EvaluatesAt(c, rs, i) && RuntimeLowForFiveSeconds(c, rs, i) &&
            !ChargeLowForFiveSeconds(c, rs, i) && !LowForFiveSeconds(rs, i)
  {
    hide Logs, Downs, EvaluatesAt, LowForFiveSeconds, ChargeLowForFiveSeconds, RuntimeLowForFiveSeconds, After,
         ClockOrdered;
    LogsIffDowns(c, rs, i, RunLimit);
    var d := Downs(c, After(c, rs, i), rs[i]);
    if d == Some(RunLimit) { RunLimitHasCause(c, rs, i); }
    if d == Some(LoadLimit) { LoadLimitHasCause(c, rs, i); }
    if d == Some(Failing) { FailingHasCause(c, rs, i); }
    if EvaluatesAt(c, rs, i) {
      if LowForFiveSeconds(rs, i) { LongLowBatteryFails(c, rs, i); }
      if ChargeLowForFiveSeconds(c, rs, i) { LongLowChargeShutsDown(c, rs, i); }
      if RuntimeLowForFiveSeconds(c, rs, i) { LongLowRuntimeShutsDown(c, rs, i); }
    }
  }
}
