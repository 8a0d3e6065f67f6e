/** Bounded reaction: a continuing outage brings the system down in time, and is watched every second. */
module Reaction {
  import opened Options
  import opened UpsState
  import opened Action
  import opened PassFacts
  import opened Runs
  import opened Outage

  /** Pass `k` sees a power failure that lasts at least to pass `j`, with neither calibration, self test nor
      remote shutdown, at passes no more than `gap` seconds apart. */
  ghost predicate OutageFrom(c: Config, rs: seq<Reading>, k: nat, j: nat, gap: int)
    requires k <= j < |rs|
  {
    && EntersAt(c, rs, k, PowerFailure) && After(c, rs, k + 1).selfTest.running == 0
    && (forall i :: k <= i <= j ==> rs[i].ups.onBatt && !rs[i].ups.calibration && !rs[i].ups.shutRemote)
    && (forall i :: k < i <= j ==> rs[i - 1].now <= rs[i].now <= rs[i - 1].now + gap)
    && (forall i :: k <= i <= j ==> rs[i].now <= rs[i].checkTime)
  }

  /** What holds after each pass of such an outage: the system is down; or it is unconfirmed and not yet due
      to be; or it was confirmed in time, restarting the timer, and has not timed out. `r` is the last pass. */
  ghost predicate OnTheWay(c: Config, u: Ups, r: Reading, start: int, gap: int) {
    && u.status.local.fastPoll && u.selfTest.running == 0
    && (u.status.local.shutdown ||
        (&& !u.flags.terminated
         && (if u.status.local.onBattMsg
             then u.line.onLine <= start + c.onBattDelay + gap && r.now <= u.line.onLine + c.maxTime
             else u.line.onLine == start && (r.now == start || r.now < start + c.onBattDelay))))
  }

  /** A pass on battery confirms the outage when it is due, and shuts down when the time is up. */
  lemma {:induction false} ActsOnTime(c: Config, u: Ups, r: Reading)
    requires Enters(c, u, r, Battery) && !u.flags.first
    ensures Confirming(c, u, r) <==> !u.status.local.onBattMsg && r.checkTime - u.line.onLine >= c.onBattDelay
    ensures !u.status.local.shutdown && !Confirming(c, u, r) && TimesOut(c, u, r) ==> Downs(c, u, r).Some?
  {
    hide Count, Polled, Prepared, RemoteShutdown, GetState, Critical, Cutoffs;
    Stages(c, u, r);
  }

  lemma {:induction false} StaysOnTheWay(c: Config, u: Ups, last: Reading, r: Reading, start: int, gap: int)
    requires c.maxTime > 0 && c.onBattDelay >= 0 && !u.flags.terminated && !u.flags.first && u.prev.ups.onBatt
    requires r.ups.onBatt && !r.ups.calibration && !r.ups.shutRemote
    requires start <= last.now <= r.now <= last.now + gap && r.now <= r.checkTime
    requires OnTheWay(c, u, last, start, gap)
    ensures OnTheWay(c, Pass(c, u, r), r, start, gap)
  {
    hide Count, Pass, Enters, Confirming, Downs, Kills;
    BranchOf(c, u, r, true);
    ActsOnTime(c, u, r);
    PassShutdown(c, u, r);
    PassStatus(c, u, r);
    PassMessages(c, u, r);
    PassLine(c, u, r);
    PassTest(c, u, r);
    PassFastPoll(c, u, r);
  }

  lemma EntersOne(c: Config, u: Ups, r: Reading)
    requires Enters(c, u, r, PowerFailure)
    ensures !u.flags.terminated && !Enters(c, u, r, Battery) && Downs(c, u, r).None? && !Kills(c, u, r)
  {
  }

  lemma {:induction false} FailureStarts(c: Config, u: Ups, r: Reading, gap: int)
    requires Enters(c, u, r, PowerFailure) && Pass(c, u, r).selfTest.running == 0
    requires c.maxTime > 0 && c.onBattDelay >= 0 && gap >= 0
    ensures OnTheWay(c, Pass(c, u, r), r, r.now, gap)
  {
    hide Count, Pass, Kills, Enters, Polled, Prepared;
    EntersOne(c, u, r);
    PassShutdown(c, u, r);
    PassLine(c, u, r);
    PassFastPoll(c, u, r);
  }

  lemma {:induction false} OutageIsWatched(c: Config, rs: seq<Reading>, k: nat, j: nat, gap: int, m: nat)
    requires k < m <= j + 1 <= |rs| && OutageFrom(c, rs, k, j, gap)
    requires c.maxTime > 0 && c.onBattDelay >= 0 && gap >= 0
    ensures rs[k].now <= rs[m - 1].now && OnTheWay(c, After(c, rs, m), rs[m - 1], rs[k].now, gap)
  {
    hide After, Pass, Enters;
    StepOf(c, rs, m);
    var u := After(c, rs, m - 1);
    if m == k + 1 {
      EntersAlive(c, u, rs[k], PowerFailure);
      FailureStarts(c, u, rs[k], gap);
    } else {
      OutageIsWatched(c, rs, k, j, gap, m - 1);
      if !u.flags.terminated {
        Remembers(c, rs, m - 1);
        StaysOnTheWay(c, u, rs[m - 2], rs[m - 1], rs[k].now, gap);
      }
    }
  }

  /** If a timeout is configured and an outage goes on, every pass later than onbattdelay + maxtime + one
      polling gap after the power failure ends with the shutdown under way, although the confirmation of
      the outage restarts the timer; and the daemon polls every second all the time. */
  lemma {:induction false} BoundedReaction(c: Config, rs: seq<Reading>, k: nat, j: nat, gap: int)
    requires k <= j < |rs| && OutageFrom(c, rs, k, j, gap)
    requires c.maxTime > 0 && c.onBattDelay >= 0 && gap >= 0
    ensures rs[j].now > rs[k].now + c.onBattDelay + c.maxTime + gap ==> After(c, rs, j + 1).status.local.shutdown
    ensures forall m :: k < m <= j + 1 ==> WaitTime(c, After(c, rs, m)) == 1
  {
    hide After, OutageFrom;
    OutageIsWatched(c, rs, k, j, gap, j + 1);
    forall m | k < m <= j + 1
      ensures WaitTime(c, After(c, rs, m)) == 1
    {
      OutageIsWatched(c, rs, k, j, gap, m);
    }
  }
}
