/** What users are told over whole runs: bans on logins, requests to log off, complaints about the battery. */
module Notices {
  import opened Options
  import opened UpsState
  import opened Action
  import opened ActionFacts
  import opened PassFacts
  import opened Runs
  import opened Outage

  /** Bans on logins that were announced and not yet lifted, except one if the no-login file exists. */
  function Unlifted(u: Ups): int {
    Count(u.log, ProhibitLogins) - Count(u.log, AllowLogins) - Bit(u.flags.nologinFile)
  }

  /** Logged requests to log off beyond one for each return of mains, except one if there was one lately. */
  function Excess(u: Ups): int {
    Count(u.log, Event(AnnoyMe)) - Count(u.log, RemoveNologinFile) - Bit(u.flags.requestedLogoff)
  }

  /** What every part of a pass but its preparation keeps. */
  ghost predicate Keeps(u: Ups, v: Ups) {
    && Unlifted(v) == Unlifted(u) && Excess(v) <= Excess(u)
    && v.complaints == u.complaints && Count(v.log, Event(ChangeMe)) == Count(u.log, Event(ChangeMe))
    && v.status.replaceBatt == u.status.replaceBatt
  }

  lemma CountIf()
    ensures forall log, b, e, x :: Count(LogIf(log, b, e), x) == Count(log, x) + (if b && x == e then 1 else 0)
  {
    hide Count, Attempts, AttemptsGuarded;
    LogViews();
  }

  lemma {:induction false} HibernatedKeeps(c: Config, u: Ups, r: Reading, at: int, go: bool)
    ensures Keeps(u, Hibernated(c, u, r, at, go))
  {
    hide Count, LogIf, Aborts;
    CountIf();
  }

  lemma {:induction false} ShutdownBegunKeeps(u: Ups, r: Reading, go: bool)
    ensures Keeps(u, ShutdownBegun(u, r, go))
  {
    hide Count, LogIf;
    CountIf();
  }

  lemma KeepsTwice(u: Ups, v: Ups, w: Ups)
    requires Keeps(u, v) && Keeps(v, w)
    ensures Keeps(u, w)
  {
  }

  lemma {:induction false} CommandKeeps(u: Ups, ends: bool, runs: bool)
    ensures Keeps(u, u.(flags := u.flags.(terminated := ends),
                        log := LogIf(LogIf(u.log, runs, Execute(DoShutdown)), runs, ClearFiles)))
  {
    hide Count, LogIf;
    CountIf();
  }

  lemma {:induction false} ShutDownKeeps(c: Config, u: Ups, r: Reading, go: bool)
    ensures Keeps(u, ShutDown(c, u, r, go))
  {
    hide Keeps, LogIf, Hibernated, ShutdownBegun;
    var b := ShutdownBegun(u, r, go);
    var kills := go && !u.status.ups.slave && c.killOnPowerfail;
    var h := Hibernated(c, b, r, r.shutTime, kills);
    ShutdownBegunKeeps(u, r, go);
    HibernatedKeeps(c, b, r, r.shutTime, kills);
    KeepsTwice(u, b, h);
    var runs := go && !h.flags.terminated;
    CommandKeeps(h, h.flags.terminated || (runs && c.terminateOnPowerfail), runs);
    KeepsTwice(u, h, ShutDown(c, u, r, go));
  }

  lemma {:induction false} GeneratedKeeps(c: Config, u: Ups, r: Reading, k: EventKind)
    requires k != ChangeMe && k != AnnoyMe
    ensures Keeps(u, Generated(c, u, r, k))
  {
    hide Count, LogIf, ShutDown;
    var logged := u.(log := LogIf(LogIf(u.log, true, Event(k)), ShutsDown(k), Announce(DoShutdown)));
    CountIf();
    assert Keeps(u, logged);
    ShutDownKeeps(c, logged, r, ShutsDown(k) && !u.status.local.shutdown);
    KeepsTwice(u, logged, Generated(c, u, r, k));
  }

  lemma {:induction false} NaggedKeeps(c: Config, u: Ups, r: Reading)
    ensures Keeps(u, Nagged(c, u, r))
  {
    hide Count, LogIf, LogoffDue, NologinDue;
    CountIf();
  }

  lemma {:induction false} StillRunningKeeps(c: Config, u: Ups, r: Reading)
    ensures Keeps(u, StillRunning(c, u, r))
  {
    hide Count, LogIf, Hibernated, KillDue;
    HibernatedKeeps(c, u, r, r.now, !u.status.ups.slave);
  }

  lemma {:induction false} CriticalReachedKeeps(c: Config, u: Ups, r: Reading, k: EventKind)
    requires k != ChangeMe && k != AnnoyMe
    ensures Keeps(u, CriticalReached(c, u, r, k))
  {
    hide Count, LogIf, Generated, Nagged;
    var l := u.status.local;
    var marked := u.(status := u.status.(local := l.(shutEmerg := l.shutEmerg || k == Emergency)));
    GeneratedKeeps(c, marked, r, k);
    NaggedKeeps(c, Generated(c, marked, r, k), r);
    KeepsTwice(u, Generated(c, marked, r, k), Nagged(c, Generated(c, marked, r, k), r));
  }

  lemma {:induction false} NotYetShutDownKeeps(c: Config, u: Ups, r: Reading)
    ensures Keeps(u, NotYetShutDown(c, u, r))
  {
    hide Count, LogIf, Generated, Nagged, CriticalReached, TimesOut, LowCharge, LowRuntime;
    if TimesOut(c, u, r) {
      GeneratedKeeps(c, u.(status := u.status.(local := u.status.local.(shutBtime := true))), r, Timeout);
    } else {
      var v := Cutoffs(c, u, r);
      assert Keeps(u, v);
      match Critical(v, r) {
        case Some(k) =>
          CriticalReachedKeeps(c, v, r, k);
          KeepsTwice(u, v, CriticalReached(c, v, r, k));
        case None =>
          NaggedKeeps(c, v, r);
          KeepsTwice(u, v, Nagged(c, v, r));
      }
    }
  }

  lemma {:induction false} OutageEndsKeeps(u: Ups)
    ensures Keeps(u, OutageEnds(u)) && OutageEnds(u).flags == u.flags
  {
    hide Count, LogIf;
    CountIf();
  }

  lemma {:induction false} PowerReturnsKeeps(u: Ups, r: Reading)
    ensures Keeps(u, PowerReturns(u, r))
  {
    hide Count, LogIf, OutageEnds;
    OutageEndsKeeps(u);
    CountIf();
    var v := OutageEnds(u);
    var w := PowerReturns(u, r);
    assert w.log == LogIf(LogIf(v.log, v.flags.nologinFile, AllowLogins), true, RemoveNologinFile);
    KeepsTwice(u, v, w);
  }

  lemma {:induction false} ActKeeps(c: Config, u: Ups, r: Reading)
    ensures Keeps(u, Act(c, u, r))
  {
    hide Count, LogIf, NotYetShutDown, StillRunning, PowerReturns, GetState, Confirms;
    CountIf();
    match GetState(u) {
      case Mains =>
      case PowerFailure =>
      case SelfTest =>
      case Battery =>
        if !Confirms(c, u, r) {
          StillRunningKeeps(c, u, r);
          NotYetShutDownKeeps(c, u, r);
        }
      case MainsReturned => PowerReturnsKeeps(u, r);
      case Calibration =>
    }
  }

  /** The preparation of a pass complains or silences the complaint, and keeps the rest. */
  ghost predicate Complaining(c: Config, u: Ups, v: Ups, r: Reading) {
    var loud, mute := Complains(c, u, r), r.replaceBatt && ReplacementSilenced(c, u, r);
    && Unlifted(v) == Unlifted(u) && Excess(v) <= Excess(u)
    && v.complaints == (if mute then u.complaints.(count := 0)
                        else if loud then Complaints(r.now, u.complaints.count + 1) else u.complaints)
    && Count(v.log, Event(ChangeMe)) == Count(u.log, Event(ChangeMe)) + Bit(loud)
    && v.status.replaceBatt == (r.replaceBatt && !mute)
  }

  lemma {:induction false} PreparedComplains(c: Config, u: Ups, r: Reading)
    ensures Complaining(c, u, Prepared(c, u, r), r)
  {
    hide Count, LogIf, Complains, ReplacementSilenced;
    CountIf();
  }

  lemma {:induction false} BatteryNotedKeeps(p: Ups, r: Reading)
    ensures Keeps(p, BatteryNoted(p, r))
  {
    hide Count, LogIf;
    CountIf();
  }

  lemma {:induction false} RemoteKeepsNotices(c: Config, u: Ups, r: Reading)
    ensures Keeps(u, RemoteShutdown(c, u, r))
  {
    hide Count, Generated;
    GeneratedKeeps(c, u, r, RemoteDown);
  }

  lemma ComplainsThenKeeps(c: Config, u: Ups, p: Ups, v: Ups, w: Ups, r: Reading)
    requires Complaining(c, u, p, r) && Keeps(p, v) && (w == v || w == v.(prev := v.status))
    ensures Complaining(c, u, w, r)
  {
    hide Count, Complains, ReplacementSilenced;
  }

  lemma {:induction false} PassNotices(c: Config, u: Ups, r: Reading)
    requires !u.flags.terminated
    ensures Complaining(c, u, Pass(c, u, r), r)
  {
    hide Keeps, Complaining, Act, RemoteShutdown, Prepared, BatteryNoted;
    var p := Prepared(c, u, r);
    PreparedComplains(c, u, r);
    if r.ups.shutRemote {
      RemoteKeepsNotices(c, p, r);
      ComplainsThenKeeps(c, u, p, RemoteShutdown(c, p, r), Pass(c, u, r), r);
    } else {
      var q := BatteryNoted(p, r);
      BatteryNotedKeeps(p, r);
      ActKeeps(c, q, r);
      KeepsTwice(p, q, Act(c, q, r));
      ComplainsThenKeeps(c, u, p, Act(c, q, r), Pass(c, u, r), r);
    }
  }

  /** In every run bans on logins are announced and lifted in turn, one being in force exactly while the
      no-login file exists; and users are asked to log off by a logged event at most once for each return of
      mains, and once more. */
  lemma {:induction false} NoticesArePaired(c: Config, rs: seq<Reading>, n: nat)
    requires n <= |rs|
    ensures var u := After(c, rs, n);
            && Count(u.log, ProhibitLogins) == Count(u.log, AllowLogins) + Bit(u.flags.nologinFile)
            && Count(u.log, Event(AnnoyMe)) <= Count(u.log, RemoveNologinFile) + Bit(u.flags.requestedLogoff)
  {
    hide Count, After, Pass, Complains, ReplacementSilenced;
    StepOf(c, rs, n);
    if n == 0 {
      EmptyLog();
    } else {
      NoticesArePaired(c, rs, n - 1);
      if !After(c, rs, n - 1).flags.terminated {
        PassNotices(c, After(c, rs, n - 1), rs[n - 1]);
      }
    }
  }

  /** The time of the last complaint is not before that of any complaint made so far. */
  lemma {:induction false} LastComplaint(c: Config, rs: seq<Reading>, i: nat, n: nat)
    requires i < n <= |rs| && ClockOrdered(rs) && Logs(c, rs, i, ChangeMe)
    ensures After(c, rs, n).complaints.last >= rs[i].now
    decreases n
  {
    hide Count, After, Pass, ClockOrdered, ReplacementSilenced;
    StepOf(c, rs, n);
    if n > i + 1 {
      LastComplaint(c, rs, i, n - 1);
      InOrder(rs, i, n - 1);
    }
    if !After(c, rs, n - 1).flags.terminated {
      PassNotices(c, After(c, rs, n - 1), rs[n - 1]);
    }
  }

  lemma InOrder(rs: seq<Reading>, i: nat, j: nat)
    requires i < j < |rs| && ClockOrdered(rs)
    ensures rs[i].now <= rs[j].now
  {
    assert rs[i].annoyTime <= rs[j].now;
  }

  /** In every run complaints about the battery are more than nine hours apart. */
  lemma {:induction false} ComplaintsArePaced(c: Config, rs: seq<Reading>, i: nat, j: nat)
    requires i < j < |rs| && ClockOrdered(rs) && Logs(c, rs, i, ChangeMe) && Logs(c, rs, j, ChangeMe)
    ensures rs[j].now - rs[i].now > 60 * 60 * 9 && rs[j].replaceBatt && rs[j].now - c.startTime >= 60 * 10
  {
    hide Count, After, Pass, ClockOrdered;
    LastComplaint(c, rs, i, j);
    StepOf(c, rs, j + 1);
    PassNotices(c, After(c, rs, j), rs[j]);
  }

  /** How many of the first `n` passes silenced the complaint: the flag was set, and it was too early to
      complain or had been done too often. */
  ghost function Mutes(c: Config, rs: seq<Reading>, n: nat): nat
    requires n <= |rs|
  {
    if n == 0 then 0
    else
      var u, r := After(c, rs, n - 1), rs[n - 1];
      Mutes(c, rs, n - 1) + Bit(!u.flags.terminated && r.replaceBatt && ReplacementSilenced(c, u, r))
  }

  /** In every run there are at most six complaints before the flag is silenced, and between one time that it is
      and the next. */
  lemma {:induction false} SixComplaints(c: Config, rs: seq<Reading>, n: nat)
    requires n <= |rs|
    ensures var u := After(c, rs, n);
            0 <= u.complaints.count <= 6 && Count(u.log, Event(ChangeMe)) <= 6 * Mutes(c, rs, n) + u.complaints.count
  {
    hide Count, After, Pass;
    StepOf(c, rs, n);
    if n == 0 {
      EmptyLog();
    } else {
      SixComplaints(c, rs, n - 1);
      if !After(c, rs, n - 1).flags.terminated {
        PassNotices(c, After(c, rs, n - 1), rs[n - 1]);
      }
    }
  }

  /** A pass that finds the flag set after six complaints, or in the first ten minutes, clears it, does not
      complain and starts counting anew; every other pass leaves the flag as the driver set it. */
  lemma {:induction false} FlagIsSilenced(c: Config, rs: seq<Reading>, n: nat)
    requires n < |rs| && !After(c, rs, n).flags.terminated
    ensures var u, v, r := After(c, rs, n), After(c, rs, n + 1), rs[n];
            if r.replaceBatt && (u.complaints.count == 6 || r.now - c.startTime < 60 * 10)
            then !v.status.replaceBatt && v.complaints.count == 0 && !Logs(c, rs, n, ChangeMe)
            else v.status.replaceBatt == r.replaceBatt
  {
    hide Count, After, Pass;
    StepOf(c, rs, n + 1);
    SixComplaints(c, rs, n);
    PassNotices(c, After(c, rs, n), rs[n]);
  }
}
