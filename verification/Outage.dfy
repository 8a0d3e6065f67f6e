/** Outages over whole runs: their announcement, their alternation and the time they are charged for. */
module Outage {
  import opened Options
  import opened UpsState
  import opened Action
  import opened PassFacts
  import opened Runs

  ghost predicate EntersAt(c: Config, rs: seq<Reading>, i: nat, s: PowerState)
    requires i < |rs|
  {
    Enters(c, After(c, rs, i), rs[i], s)
  }

  ghost predicate OnBattBefore(rs: seq<Reading>, n: nat)
    requires n <= |rs|
  {
    n > 0 && rs[n - 1].ups.onBatt
  }

  /** An outage starts where the engine does not look: under calibration, or under a remote shutdown. */
  ghost predicate HiddenStart(rs: seq<Reading>, i: nat)
    requires i < |rs|
  {
    rs[i].ups.onBatt && !OnBattBefore(rs, i) && (rs[i].ups.calibration || rs[i].ups.shutRemote)
  }

  /** An outage ends under a remote shutdown, when the engine does not look. */
  ghost predicate HiddenEnd(rs: seq<Reading>, i: nat)
    requires i < |rs|
  {
    !rs[i].ups.onBatt && OnBattBefore(rs, i) && rs[i].ups.shutRemote
  }

  ghost predicate Hidden(rs: seq<Reading>, i: nat)
    requires i < |rs|
  {
    HiddenStart(rs, i) || HiddenEnd(rs, i)
  }

  /** In every run the announcements of battery operation are paired: one is outstanding exactly while the
      bit onbatt_msg is set. */
  lemma {:induction false} AnnouncementsPaired(c: Config, rs: seq<Reading>, n: nat)
    requires n <= |rs|
    ensures var u := After(c, rs, n);
            Count(u.log, Event(OnBattery)) == Count(u.log, Event(OffBattery)) + Bit(u.status.local.onBattMsg)
  {
    hide Count, After, Pass, Enters, Confirming;
    StepOf(c, rs, n);
    if n == 0 {
      EmptyLog();
    } else {
      AnnouncementsPaired(c, rs, n - 1);
      var u := After(c, rs, n - 1);
      if !u.flags.terminated { PassMessages(c, u, rs[n - 1]); }
    }
  }

  /** Which branch a pass takes is told by its reading and the one before. */
  lemma {:induction false} BranchOf(c: Config, u: Ups, r: Reading, before: bool)
    requires !u.flags.terminated
    requires before == (!u.flags.first && u.prev.ups.onBatt)
    ensures Enters(c, u, r, PowerFailure) <==>
            !r.ups.shutRemote && r.ups.onBatt && !before && !r.ups.calibration
    ensures Enters(c, u, r, MainsReturned) <==> !r.ups.shutRemote && !r.ups.onBatt && before
    ensures Enters(c, u, r, Mains) <==> !r.ups.shutRemote && !r.ups.onBatt && !before
    ensures Enters(c, u, r, Battery) <==>
            !r.ups.shutRemote && r.ups.onBatt && before && !r.ups.calibration && u.selfTest.running == 0
    ensures Enters(c, u, r, SelfTest) <==>
            !r.ups.shutRemote && r.ups.onBatt && before && !r.ups.calibration && u.selfTest.running != 0
  {
    hide Count, Attempts, AttemptsGuarded, Polled;
    Stages(c, u, r);
  }

  /** A live process remembers the reading of the last pass. */
  lemma {:induction false} Remembers(c: Config, rs: seq<Reading>, n: nat)
    requires n <= |rs| && !After(c, rs, n).flags.terminated
    ensures var u := After(c, rs, n);
            && OnBattBefore(rs, n) == (!u.flags.first && u.prev.ups.onBatt)
            && (n > 0 ==> !After(c, rs, n - 1).flags.terminated && u.prev == u.status && !u.flags.first)
  {
    hide Count, After, Pass;
    StepOf(c, rs, n);
    if n > 0 {
      PassStatus(c, After(c, rs, n - 1), rs[n - 1]);
    }
  }

  /** In every run, a pass takes the power-failure branch exactly if its reading is on battery, neither
      calibrating nor under remote shutdown, and the reading before was not on battery; and the mains-back
      branch exactly if its reading is off battery, not under remote shutdown, and the one before was on. */
  lemma {:induction false} FailureIsSeen(c: Config, rs: seq<Reading>, i: nat)
    requires i < |rs| && !After(c, rs, i).flags.terminated
    ensures EntersAt(c, rs, i, PowerFailure) <==> rs[i].ups.onBatt && !OnBattBefore(rs, i) && !HiddenStart(rs, i)
    ensures EntersAt(c, rs, i, MainsReturned) <==> !rs[i].ups.onBatt && OnBattBefore(rs, i) && !HiddenEnd(rs, i)
  {
    hide Count, After, Pass, Enters;
    Remembers(c, rs, i);
    BranchOf(c, After(c, rs, i), rs[i], OnBattBefore(rs, i));
  }

  /** A pass under remote shutdown sees the end of an outage that was announced. */
  ghost predicate MessageStranded(c: Config, rs: seq<Reading>, i: nat)
    requires i < |rs|
  {
    var u := After(c, rs, i);
    !u.flags.terminated && u.status.local.onBattMsg && HiddenEnd(rs, i)
  }

  ghost predicate MessageIsTrue(c: Config, rs: seq<Reading>, m: nat)
    requires m <= |rs|
  {
    var s := After(c, rs, m).status;
    s.local.onBattMsg ==> s.ups.onBatt
  }

  lemma {:induction false} MessageStays(c: Config, rs: seq<Reading>, n: nat)
    requires n < |rs| && MessageIsTrue(c, rs, n)
    ensures MessageIsTrue(c, rs, n + 1) <==> !MessageStranded(c, rs, n)
  {
    hide Count, After, Pass, Enters, Confirming;
    StepOf(c, rs, n + 1);
    var u, r := After(c, rs, n), rs[n];
    if !u.flags.terminated {
      PassMessages(c, u, r);
      PassStatus(c, u, r);
      Remembers(c, rs, n);
      StepOf(c, rs, n);
      BranchOf(c, u, r, OnBattBefore(rs, n));
      ConfirmsOnBattery(c, u, r);
    }
  }

  lemma ConfirmsOnBattery(c: Config, u: Ups, r: Reading)
    ensures Confirming(c, u, r) ==> Enters(c, u, r, Battery)
  {
  }

  /** onbatt_msg implies that the last status seen was on battery, throughout a run, exactly if no pass under
      remote shutdown sees the end of an announced outage. */
  lemma {:induction false} MessageMeansBattery(c: Config, rs: seq<Reading>, n: nat)
    requires n <= |rs|
    ensures (forall m :: 0 <= m <= n ==> MessageIsTrue(c, rs, m)) <==>
            (forall i :: 0 <= i < n ==> !MessageStranded(c, rs, i))
  {
    hide After, MessageIsTrue, MessageStranded;
    if n == 0 {
      BootMessage(c, rs);
    } else {
      MessageMeansBattery(c, rs, n - 1);
      if MessageIsTrue(c, rs, n - 1) {
        MessageStays(c, rs, n - 1);
      }
    }
  }

  lemma BootMessage(c: Config, rs: seq<Reading>)
    ensures MessageIsTrue(c, rs, 0)
  {
  }

  /** While a live system is on battery and has not said so, then unless the start of this outage was hidden
      its mains timer still shows the time of the power-failure pass that opened it. */
  lemma {:induction false} UnconfirmedSince(c: Config, rs: seq<Reading>, n: nat) returns (k: nat)
    requires n <= |rs| && !After(c, rs, n).flags.terminated
    requires OnBattBefore(rs, n) && !After(c, rs, n).status.local.onBattMsg
    ensures k < n && !OnBattBefore(rs, k) && forall j :: k <= j < n ==> rs[j].ups.onBatt
    ensures HiddenStart(rs, k) || (EntersAt(c, rs, k, PowerFailure) && After(c, rs, n).line.onLine == rs[k].now)
  {
    hide Count, After, Pass, Enters, Confirming;
    StepOf(c, rs, n);
    Remembers(c, rs, n);
    Remembers(c, rs, n - 1);
    var u, r := After(c, rs, n - 1), rs[n - 1];
    BranchOf(c, u, r, OnBattBefore(rs, n - 1));
    PassMessages(c, u, r);
    PassLine(c, u, r);
    if OnBattBefore(rs, n - 1) {
      k := UnconfirmedSince(c, rs, n - 1);
    } else {
      k := n - 1;
    }
  }

  /** A pass on battery confirms the outage exactly when that is due. */
  lemma {:induction false} DueToConfirm(c: Config, u: Ups, r: Reading)
    ensures Confirming(c, u, r) ==> Enters(c, u, r, Battery)
    ensures Enters(c, u, r, Battery) && !u.flags.first ==>
              (Confirming(c, u, r) <==> !u.status.local.onBattMsg && r.checkTime - u.line.onLine >= c.onBattDelay)
  {
    hide Polled, GetState;
    Stages(c, u, r);
  }

  /** In every run, each ONBATTERY comes at least onbattdelay seconds after the power-failure pass of the outage
      that it announces, if the engine saw that outage start. */
  lemma {:induction false} OnBatteryIsDelayed(c: Config, rs: seq<Reading>, i: nat)
    requires i < |rs| && Logs(c, rs, i, OnBattery)
    ensures exists k :: 0 <= k < i && !OnBattBefore(rs, k) && (forall j :: k <= j <= i ==> rs[j].ups.onBatt) &&
              (HiddenStart(rs, k) ||
               (EntersAt(c, rs, k, PowerFailure) && rs[i].checkTime >= rs[k].now + c.onBattDelay))
  {
    hide Count, After, Pass, Enters, Confirming, HiddenStart;
    StepOf(c, rs, i + 1);
    StepOf(c, rs, i);
    var u, r := After(c, rs, i), rs[i];
    Remembers(c, rs, i);
    PassMessages(c, u, r);
    assert Confirming(c, u, r);
    DueToConfirm(c, u, r);
    BranchOf(c, u, r, OnBattBefore(rs, i));
    var k := UnconfirmedSince(c, rs, i);
    assert forall j :: k <= j <= i ==> rs[j].ups.onBatt;
  }

  /** How many of the first `n` passes enter state `s`. */
  ghost function Entries(c: Config, rs: seq<Reading>, n: nat, s: PowerState): nat
    requires n <= |rs|
  {
    if n == 0 then 0 else Entries(c, rs, n - 1, s) + Bit(EntersAt(c, rs, n - 1, s))
  }

  ghost function HiddenStarts(rs: seq<Reading>, n: nat): nat
    requires n <= |rs|
  {
    if n == 0 then 0 else HiddenStarts(rs, n - 1) + Bit(HiddenStart(rs, n - 1))
  }

  ghost function HiddenEnds(rs: seq<Reading>, n: nat): nat
    requires n <= |rs|
  {
    if n == 0 then 0 else HiddenEnds(rs, n - 1) + Bit(HiddenEnd(rs, n - 1))
  }

  /** In every run of a live process: power failures and hidden starts together are as many as returns of
      mains and hidden ends, one more while on battery; and num_xfers counts the power failures. */
  lemma {:induction false} OutagesBalance(c: Config, rs: seq<Reading>, n: nat)
    requires n <= |rs| && !After(c, rs, n).flags.terminated
    ensures Entries(c, rs, n, PowerFailure) + HiddenStarts(rs, n) ==
            Entries(c, rs, n, MainsReturned) + HiddenEnds(rs, n) + Bit(OnBattBefore(rs, n))
    ensures After(c, rs, n).outage.xfers == Entries(c, rs, n, PowerFailure)
  {
    hide Count, After, Pass, Enters;
    StepOf(c, rs, n);
    if n > 0 {
      Remembers(c, rs, n);
      OutagesBalance(c, rs, n - 1);
      FailureIsSeen(c, rs, n - 1);
      PassOutage(c, After(c, rs, n - 1), rs[n - 1]);
    }
  }

  /** After `m` passes failures and returns have alternated, starting with a failure, in step with the readings. */
  ghost predicate InStep(c: Config, rs: seq<Reading>, m: nat)
    requires m <= |rs|
  {
    Entries(c, rs, m, PowerFailure) == Entries(c, rs, m, MainsReturned) + Bit(OnBattBefore(rs, m))
  }

  /** A process that lives on lived before. */
  lemma {:induction false} LivedBefore(c: Config, rs: seq<Reading>, m: nat, n: nat)
    requires m <= n <= |rs| && !After(c, rs, n).flags.terminated
    ensures !After(c, rs, m).flags.terminated
  {
    hide After;
    if m < n {
      Remembers(c, rs, n);
      LivedBefore(c, rs, m, n - 1);
    }
  }

  /** Failures and returns alternate throughout a run of a live process exactly if no edge was hidden. */
  lemma {:induction false} AlternateIffSeen(c: Config, rs: seq<Reading>, n: nat)
    requires n <= |rs| && !After(c, rs, n).flags.terminated
    ensures (forall m :: 0 <= m <= n ==> InStep(c, rs, m)) <==> (forall i :: 0 <= i < n ==> !Hidden(rs, i))
  {
    hide After, Entries;
    OutagesBalance(c, rs, n);
    if n > 0 {
      LivedBefore(c, rs, n - 1, n);
      AlternateIffSeen(c, rs, n - 1);
      OutagesBalance(c, rs, n - 1);
      assert InStep(c, rs, n - 1) && InStep(c, rs, n) ==> !Hidden(rs, n - 1);
      if forall i :: 0 <= i < n ==> !Hidden(rs, i) {
        NothingHidden(rs, n);
      }
    }
  }

  lemma {:induction false} NothingHidden(rs: seq<Reading>, n: nat)
    requires n <= |rs| && forall i :: 0 <= i < n ==> !Hidden(rs, i)
    ensures HiddenStarts(rs, n) == HiddenEnds(rs, n) == 0
  {
    if n > 0 {
      NothingHidden(rs, n - 1);
      assert !Hidden(rs, n - 1);
    }
  }

  /** The time between consecutive readings of which the first was on battery. */
  ghost function TimeOnBattery(rs: seq<Reading>, n: nat): int
    requires n <= |rs|
  {
    if n < 2 then 0
    else TimeOnBattery(rs, n - 1) + if rs[n - 2].ups.onBatt then rs[n - 1].now - rs[n - 2].now else 0
  }

  /** The part of the time on battery that is not booked yet: the outage that is still open. */
  ghost function OpenOutage(u: Ups, rs: seq<Reading>, n: nat): int
    requires n <= |rs|
  {
    if OnBattBefore(rs, n) then rs[n - 1].now - u.outage.lastOn else 0
  }

  /** The time booked for finished outages and that of the open one are exactly the time on battery. */
  ghost predicate Conserved(c: Config, rs: seq<Reading>, m: nat)
    requires m <= |rs|
  {
    After(c, rs, m).outage.total + OpenOutage(After(c, rs, m), rs, m) == TimeOnBattery(rs, m)
  }

  /** As time() gives it: zero is how the engine marks an outage that it did not see begin. */
  ghost predicate ClockSet(rs: seq<Reading>) { forall i :: 0 <= i < |rs| ==> rs[i].now > 0 }

  ghost predicate ClockAdvances(rs: seq<Reading>) { forall i :: 0 < i < |rs| ==> rs[i - 1].now < rs[i].now }

  /** An outage whose start was seen has a start. */
  lemma {:induction false} StartIsSet(c: Config, rs: seq<Reading>, n: nat)
    requires n <= |rs| && ClockSet(rs) && !After(c, rs, n).flags.terminated && OnBattBefore(rs, n)
    requires forall i :: 0 <= i < n ==> !Hidden(rs, i)
    ensures After(c, rs, n).outage.lastOn > 0
  {
    hide Count, After, Pass, Enters;
    StepOf(c, rs, n);
    Remembers(c, rs, n);
    assert !Hidden(rs, n - 1);
    FailureIsSeen(c, rs, n - 1);
    PassOutage(c, After(c, rs, n - 1), rs[n - 1]);
    if OnBattBefore(rs, n - 1) {
      StartIsSet(c, rs, n - 1);
    }
  }

  /** The start of an outage that is booked lies in the past. */
  lemma {:induction false} StartIsPast(c: Config, rs: seq<Reading>, n: nat)
    requires n <= |rs| && ClockSet(rs) && ClockAdvances(rs) && !After(c, rs, n).flags.terminated
    ensures After(c, rs, n).outage.lastOn <= if n == 0 then 0 else rs[n - 1].now
  {
    hide Count, After, Pass, Enters;
    StepOf(c, rs, n);
    if n > 0 {
      Remembers(c, rs, n);
      StartIsPast(c, rs, n - 1);
      PassOutage(c, After(c, rs, n - 1), rs[n - 1]);
    }
  }

  /** One pass that sees what happens keeps the time; one that does not see an edge loses it, unless the edge
      has the very time at which the last outage seen started. */
  lemma {:induction false} PassConserves(c: Config, rs: seq<Reading>, n: nat)
    requires n < |rs| && !After(c, rs, n + 1).flags.terminated && Conserved(c, rs, n)
    requires OnBattBefore(rs, n) && !Hidden(rs, n) ==> After(c, rs, n).outage.lastOn > 0
    ensures Conserved(c, rs, n + 1) <==> !Hidden(rs, n) || After(c, rs, n).outage.lastOn == rs[n].now
  {
    hide Count, After, Pass, Enters;
    StepOf(c, rs, n + 1);
    Remembers(c, rs, n + 1);
    FailureIsSeen(c, rs, n);
    PassOutage(c, After(c, rs, n), rs[n]);
  }

  /** If no edge was hidden, then in every run of a live process failures and returns alternate, the failures
      are the counted transfers, and the booked time and the open outage are the time on battery. */
  lemma {:induction false} BatteryTimeConserved(c: Config, rs: seq<Reading>, n: nat)
    requires n <= |rs| && ClockSet(rs) && !After(c, rs, n).flags.terminated
    requires forall i :: 0 <= i < n ==> !Hidden(rs, i)
    ensures Conserved(c, rs, n) && InStep(c, rs, n)
    ensures After(c, rs, n).outage.xfers == Entries(c, rs, n, PowerFailure)
  {
    hide After, Entries, Hidden;
    OutagesBalance(c, rs, n);
    NothingHidden(rs, n);
    if n == 0 {
      NothingBooked(c, rs);
    } else {
      LivedBefore(c, rs, n - 1, n);
      BatteryTimeConserved(c, rs, n - 1);
      if OnBattBefore(rs, n - 1) { StartIsSet(c, rs, n - 1); }
      PassConserves(c, rs, n - 1);
    }
  }

  lemma NothingBooked(c: Config, rs: seq<Reading>)
    ensures Conserved(c, rs, 0)
  {
  }

  /** With a clock that advances between readings, the time is conserved throughout a run of a live process
      exactly if no edge was hidden. */
  lemma {:induction false} ConservedIffSeen(c: Config, rs: seq<Reading>, n: nat)
    requires n <= |rs| && ClockSet(rs) && ClockAdvances(rs) && !After(c, rs, n).flags.terminated
    ensures (forall m :: 0 <= m <= n ==> Conserved(c, rs, m)) <==> (forall i :: 0 <= i < n ==> !Hidden(rs, i))
  {
    hide After, Hidden, Conserved;
    if n == 0 {
      NothingBooked(c, rs);
    } else {
      LivedBefore(c, rs, n - 1, n);
      ConservedIffSeen(c, rs, n - 1);
      StartIsPast(c, rs, n - 1);
      if forall i :: 0 <= i < n - 1 ==> !Hidden(rs, i) {
        assert Conserved(c, rs, n - 1);
        if OnBattBefore(rs, n - 1) { StartIsSet(c, rs, n - 1); }
        PassConserves(c, rs, n - 1);
      }
    }
  }

  /** A quiet pass, one that neither shuts down nor kills power, leaves the process alive. */
  lemma {:induction false} QuietPassLives(c: Config, u: Ups, r: Reading)
    requires !u.flags.terminated && !r.ups.shutRemote && !Enters(c, u, r, Battery)
    ensures !Pass(c, u, r).flags.terminated
  {
    hide Count, Pass, Enters, Prepared, Polled;
    QuietPass(c, u, r);
    PassShutdown(c, u, r);
  }

  lemma QuietPass(c: Config, u: Ups, r: Reading)
    requires !r.ups.shutRemote && !Enters(c, u, r, Battery)
    ensures Downs(c, u, r).None? && !Kills(c, u, r)
  {
    hide Enters;
  }

  lemma {:induction false} LivesOn(c: Config, rs: seq<Reading>, i: nat)
    requires i < |rs| && !After(c, rs, i).flags.terminated && !rs[i].ups.shutRemote
    requires rs[i].ups.onBatt && OnBattBefore(rs, i) ==> rs[i].ups.calibration
    ensures !After(c, rs, i + 1).flags.terminated
  {
    hide Count, After, Pass, Enters;
    StepOf(c, rs, i + 1);
    Remembers(c, rs, i);
    BranchOf(c, After(c, rs, i), rs[i], OnBattBefore(rs, i));
    QuietPassLives(c, After(c, rs, i), rs[i]);
  }

  /** Mains, battery, mains, battery under calibration, mains: the second time on battery has a hidden start. */
  ghost predicate CalibratesLater(rs: seq<Reading>) {
    && |rs| == 4 && ClockSet(rs) && (forall i :: 0 <= i < 4 ==> !rs[i].ups.shutRemote)
    && rs[0].ups.onBatt && !rs[0].ups.calibration && !rs[1].ups.onBatt
    && rs[2].ups.onBatt && rs[2].ups.calibration && !rs[3].ups.onBatt
  }

  /** A hidden start is charged from the start of the outage before: the time in between is booked too. */
  lemma {:induction false} StaleStartIsBooked(c: Config, rs: seq<Reading>)
    requires CalibratesLater(rs)
    ensures var u := After(c, rs, 4);
            && !u.flags.terminated && u.outage.xfers == 1
            && u.outage.total == TimeOnBattery(rs, 4) + (rs[2].now - rs[0].now)
  {
    hide Count, After, Pass, Enters;
    StepOf(c, rs, 0);
    StaleBefore(c, rs);
    FailureIsSeen(c, rs, 2);
    StepOf(c, rs, 3);
    PassOutage(c, After(c, rs, 2), rs[2]);
    LivesOn(c, rs, 2);
    FailureIsSeen(c, rs, 3);
    StepOf(c, rs, 4);
    PassOutage(c, After(c, rs, 3), rs[3]);
    LivesOn(c, rs, 3);
    FourReadings(rs);
  }

  lemma {:induction false} StaleBefore(c: Config, rs: seq<Reading>)
    requires CalibratesLater(rs)
    ensures !After(c, rs, 2).flags.terminated
    ensures After(c, rs, 2).outage == OutageBook(rs[0].now, rs[1].now, 1, rs[1].now - rs[0].now)
  {
    hide Count, After, Pass, Enters;
    StepOf(c, rs, 0);
    FailureIsSeen(c, rs, 0);
    StepOf(c, rs, 1);
    PassOutage(c, After(c, rs, 0), rs[0]);
    LivesOn(c, rs, 0);
    FailureIsSeen(c, rs, 1);
    StepOf(c, rs, 2);
    PassOutage(c, After(c, rs, 1), rs[1]);
    LivesOn(c, rs, 1);
  }

  function Sample(now: int, onBatt: bool, calibration: bool): Reading {
    Reading(NO_STATUS.ups.(onBatt := onBatt, calibration := calibration), false, false, 100.0, 60.0,
            now, now, now, now, None, true)
  }

  /** An outage from 100 to 200, and a calibration from 500 to 600. */
  function OutageAndCalibration(): seq<Reading> {
    [Sample(100, true, false), Sample(200, false, false), Sample(500, true, true), Sample(600, false, false)]
  }

  /** For example: ten minutes are booked for 200 seconds on battery. */
  lemma {:induction false} StaleStartExample(c: Config)
    ensures var rs := OutageAndCalibration();
            After(c, rs, 4).outage.total == 600 && After(c, rs, 4).outage.xfers == 1 && TimeOnBattery(rs, 4) == 200
  {
    hide After;
    StaleStartIsBooked(c, OutageAndCalibration());
    FourReadings(OutageAndCalibration());
  }

  lemma FourReadings(rs: seq<Reading>)
    requires |rs| == 4
    ensures TimeOnBattery(rs, 4) == (if rs[0].ups.onBatt then rs[1].now - rs[0].now else 0) +
              (if rs[1].ups.onBatt then rs[2].now - rs[1].now else 0) +
              (if rs[2].ups.onBatt then rs[3].now - rs[2].now else 0)
  {
    assert TimeOnBattery(rs, 1) == 0;
    assert TimeOnBattery(rs, 2) == if rs[0].ups.onBatt then rs[1].now - rs[0].now else 0;
    assert TimeOnBattery(rs, 3) == TimeOnBattery(rs, 2) + if rs[1].ups.onBatt then rs[2].now - rs[1].now else 0;
  }

  /** A hidden start is announced too early: the mains timer still shows the last reading on mains. */
  lemma {:induction false} EarlyAnnouncement(c: Config, rs: seq<Reading>)
    requires |rs| == 3 && forall i :: 0 <= i < 3 ==> !rs[i].ups.shutRemote
    requires !rs[0].ups.onBatt && rs[1].ups.onBatt && rs[1].ups.calibration
    requires rs[2].ups.onBatt && !rs[2].ups.calibration
    ensures Logs(c, rs, 2, OnBattery) <==> rs[2].checkTime >= rs[0].now + c.onBattDelay
  {
    hide Count, After, Pass, Enters, Confirming;
    QuietOnMains(c, rs);
    StepOf(c, rs, 2);
    StepOf(c, rs, 3);
    var u := After(c, rs, 1);
    Remembers(c, rs, 1);
    BranchOf(c, u, rs[1], false);
    DueToConfirm(c, u, rs[1]);
    LivesOn(c, rs, 1);
    PassMessages(c, u, rs[1]);
    PassLine(c, u, rs[1]);
    PassTest(c, u, rs[1]);
    Remembers(c, rs, 2);
    BranchOf(c, After(c, rs, 2), rs[2], true);
    DueToConfirm(c, After(c, rs, 2), rs[2]);
    PassMessages(c, After(c, rs, 2), rs[2]);
  }

  lemma {:induction false} QuietOnMains(c: Config, rs: seq<Reading>)
    requires |rs| > 0 && !rs[0].ups.shutRemote && !rs[0].ups.onBatt
    ensures var u := After(c, rs, 1);
            && !u.flags.terminated && !u.status.local.onBattMsg && u.line.onLine == rs[0].now && u.selfTest.running == 0
  {
    hide Count, After, Pass, Enters, Confirming;
    StepOf(c, rs, 0);
    StepOf(c, rs, 1);
    BranchOf(c, BOOT, rs[0], false);
    DueToConfirm(c, BOOT, rs[0]);
    LivesOn(c, rs, 0);
    PassMessages(c, BOOT, rs[0]);
    PassLine(c, BOOT, rs[0]);
    PassTest(c, BOOT, rs[0]);
  }
}
