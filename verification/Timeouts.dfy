/** The two reasons to shut down that no five-second timer guards: too long on battery, and a dead battery. */
module Timeouts {
  import opened Options
  import opened UpsState
  import opened Action
  import opened ActionFacts
  import opened PassFacts
  import opened Runs
  import opened Outage
  import opened Debounce

  /** The pass confirms that the system runs on batteries. */
  ghost predicate ConfirmsAt(c: Config, rs: seq<Reading>, i: nat)
    requires i < |rs|
  {
    var u, r := After(c, rs, i), rs[i];
    EntersAt(c, rs, i, Battery) && !u.status.local.onBattMsg && r.checkTime - u.line.onLine >= c.onBattDelay
  }

  /** The pass restarts the mains timer: it is the first, or on mains, or sees a power failure, or confirms one. */
  ghost predicate RestartsAt(c: Config, rs: seq<Reading>, i: nat)
    requires i < |rs|
  {
    i == 0 || EntersAt(c, rs, i, Mains) || EntersAt(c, rs, i, PowerFailure) || ConfirmsAt(c, rs, i)
  }

  lemma {:induction false} NoneYet(c: Config, rs: seq<Reading>, n: nat)
    requires n <= |rs|
    ensures After(c, rs, n).flags.first ==> n == 0
  {
    hide Count, After, Pass;
    StepOf(c, rs, n);
    if n > 0 {
      BootRuns();
      StepOf(c, rs, n - 1);
      if After(c, rs, n - 1).flags.terminated {
        NoneYet(c, rs, n - 1);
      } else {
        PassStatus(c, After(c, rs, n - 1), rs[n - 1]);
      }
    }
  }

  lemma BootRuns()
    ensures !BOOT.flags.terminated && BOOT.flags.first
  {
  }

  lemma {:induction false} RestartsWhen(c: Config, rs: seq<Reading>, i: nat)
    requires i < |rs|
    ensures After(c, rs, i + 1).line.onLine == if RestartsAt(c, rs, i) then rs[i].now else After(c, rs, i).line.onLine
  {
    hide Count, After, Pass, Enters, Confirming;
    StepOf(c, rs, i + 1);
    StepOf(c, rs, i);
    BootRuns();
    NoneYet(c, rs, i);
    var u, r := After(c, rs, i), rs[i];
    if u.flags.terminated {
      DeadEnters(c, u, r);
    } else {
      DueToConfirm(c, u, r);
      PassLine(c, u, r);
      if i > 0 { Remembers(c, rs, i); }
    }
  }

  lemma DeadEnters(c: Config, u: Ups, r: Reading)
    requires u.flags.terminated
    ensures forall s :: !Enters(c, u, r, s)
  {
  }

  /** The mains timer shows the time of the last pass that restarted it. */
  lemma {:induction false} MainsTimer(c: Config, rs: seq<Reading>, n: nat) returns (s: nat)
    requires 0 < n <= |rs|
    ensures s < n && RestartsAt(c, rs, s) && After(c, rs, n).line.onLine == rs[s].now
    ensures forall j :: s < j < n ==> !RestartsAt(c, rs, j)
  {
    hide After, RestartsAt;
    RestartsWhen(c, rs, n - 1);
    FirstRestarts(c, rs);
    if RestartsAt(c, rs, n - 1) {
      s := n - 1;
    } else {
      s := MainsTimer(c, rs, n - 1);
    }
  }

  lemma FirstRestarts(c: Config, rs: seq<Reading>)
    ensures rs != [] ==> RestartsAt(c, rs, 0)
  {
  }

  /** The last restart of the mains timer before pass `i` is more than `limit` seconds ago. */
  ghost predicate OverdueAt(c: Config, rs: seq<Reading>, i: nat, limit: int)
    requires i < |rs|
  {
    exists s :: 0 <= s < i && RestartsAt(c, rs, s) && (forall j :: s < j < i ==> !RestartsAt(c, rs, j)) &&
                rs[i].now - rs[s].now > limit
  }

  lemma {:induction false} OverdueWhen(c: Config, rs: seq<Reading>, i: nat, limit: int)
    requires 0 < i < |rs|
    ensures OverdueAt(c, rs, i, limit) <==> rs[i].now - After(c, rs, i).line.onLine > limit
  {
    hide After, RestartsAt;
    var s := MainsTimer(c, rs, i);
    if OverdueAt(c, rs, i, limit) {
      var t :| 0 <= t < i && RestartsAt(c, rs, t) && (forall j :: t < j < i ==> !RestartsAt(c, rs, j)) &&
               rs[i].now - rs[t].now > limit;
      assert !(s < t < i) && !(t < s < i);
    }
  }

  /** A pass shuts down on timeout exactly if it hunts and the time is up. */
  lemma {:induction false} TimeoutWhen(c: Config, rs: seq<Reading>, i: nat)
    requires i < |rs|
    ensures Downs(c, After(c, rs, i), rs[i]) == Some(Timeout) <==>
            HuntsAt(c, rs, i) && c.maxTime > 0 && rs[i].now - After(c, rs, i).line.onLine > c.maxTime
  {
    hide After, HuntsAt, Hunts, Polled, Prepared, Cutoffs;
    HuntsWhen(c, rs, i);
    NeverTimeout(Cutoffs(c, Polled(c, After(c, rs, i), rs[i]), rs[i]), rs[i]);
    HuntsMeans(c, After(c, rs, i), rs[i]);
  }

  lemma HuntsMeans(c: Config, u: Ups, r: Reading)
    ensures Hunts(c, u, r) ==> !u.flags.terminated && !u.status.local.shutdown && !r.ups.shutRemote
  {
    hide Polled, Prepared;
  }

  lemma NeverTimeout(u: Ups, r: Reading)
    ensures Critical(u, r) != Some(Timeout)
  {
  }

  /** TIMEOUT is generated by exactly those hunting passes at which a timeout is configured and the last pass that
      restarted the mains timer is longer ago than that. */
  lemma {:induction false} TimeoutIsExact(c: Config, rs: seq<Reading>, i: nat)
    requires i < |rs|
    ensures Logs(c, rs, i, Timeout) <==> HuntsAt(c, rs, i) && c.maxTime > 0 && OverdueAt(c, rs, i, c.maxTime)
  {
    hide After, Logs, Downs, OverdueAt;
    LogsIffDowns(c, rs, i, Timeout);
    TimeoutWhen(c, rs, i);
    if i > 0 { OverdueWhen(c, rs, i, c.maxTime); }
  }

  /** What an evaluating pass shuts down for when no timer has expired. */
  lemma {:induction false} EmergencyWhen(c: Config, u: Ups, r: Reading)
    requires Evaluates(c, u, r)
    ensures Downs(c, u, r) == Some(Emergency) || Downs(c, u, r) == Some(Failing) || Downs(c, u, r) == Some(LoadLimit) ||
            Downs(c, u, r) == Some(RunLimit) || Downs(c, u, r).None?
    ensures r.ups.battLow && r.ups.online ==> Downs(c, u, r).Some?
  {
    hide Count, Prepared, Polled, Downs, Evaluates, Prepares, RemoteKeeps, LowCharge, LowRuntime;
    Stages(c, u, r);
    EvaluatingDowns(c, u, r);
    assert Polled(c, u, r).status.ups == r.ups by { PreparesBits(u, Polled(c, u, r), r); }
  }

  lemma PreparesBits(u: Ups, p: Ups, r: Reading)
    requires Prepares(u, p, r)
    ensures p.status.ups == r.ups
  {
    hide Count;
  }

  /** EMERGENCY is generated by exactly those evaluating passes at which the battery is low although the UPS claims
      to be on line, and no other reason takes precedence. */
  lemma {:induction false} EmergencyIsLast(c: Config, rs: seq<Reading>, i: nat)
    requires i < |rs| && ClockOrdered(rs)
    ensures Logs(c, rs, i, Emergency) <==>
            EvaluatesAt(c, rs, i) && rs[i].ups.battLow && rs[i].ups.online && !LowForFiveSeconds(rs, i) &&
            !ChargeLowForFiveSeconds(c, rs, i) && !RuntimeLowForFiveSeconds(c, rs, i)
  {
    hide Logs, Downs, EvaluatesAt, Evaluates, Hunts, LowForFiveSeconds, ChargeLowForFiveSeconds,
         RuntimeLowForFiveSeconds, After, ClockOrdered;
    EvaluatesWhen(c, rs, i);
    LogsIffDowns(c, rs, i, Emergency);
    var u, r := After(c, rs, i), rs[i];
    var d := Downs(c, u, r);
    if d == Some(Emergency) { CauseOf(c, u, r, Emergency); }
    if d == Some(RunLimit) { RunLimitHasCause(c, rs, i); }
    if d == Some(LoadLimit) { LoadLimitHasCause(c, rs, i); }
    if d == Some(Failing) { FailingHasCause(c, rs, i); }
    if EvaluatesAt(c, rs, i) {
      EmergencyWhen(c, u, r);
      if LowForFiveSeconds(rs, i) { LongLowBatteryFails(c, rs, i); }
      if ChargeLowForFiveSeconds(c, rs, i) { LongLowChargeShutsDown(c, rs, i); }
      if RuntimeLowForFiveSeconds(c, rs, i) { LongLowRuntimeShutsDown(c, rs, i); }
    }
  }
}
