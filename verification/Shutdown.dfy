/** One shutdown per life of the process, and power kills that are guarded and paced. */
module Shutdown {
  import opened Options
  import opened UpsState
  import opened Action
  import opened PassFacts
  import opened Runs

  /** How many of the five events that end an outage badly were logged. */
  function Criticals(log: seq<Effect>): nat {
    Count(log, Event(Failing)) + Count(log, Event(Timeout)) + Count(log, Event(LoadLimit)) +
    Count(log, Event(RunLimit)) + Count(log, Event(Emergency))
  }

  /** Consecutive stamps are at least `d` apart. */
  ghost predicate Spaced(stamps: seq<int>, d: int) {
    forall i :: 0 < i < |stamps| ==> stamps[i - 1] + d <= stamps[i]
  }

  ghost predicate CommandsOnce(u: Ups) {
    && Count(u.log, Execute(DoShutdown)) <= Bit(u.status.local.shutdown)
    && (u.flags.terminated || Count(u.log, Execute(DoShutdown)) == Bit(u.status.local.shutdown))
    && Criticals(u.log) <= Bit(u.status.local.shutdown)
  }

  /** The process can only end after the shutdown bit is set. */
  ghost predicate EndsAfterShutdown(u: Ups) { u.flags.terminated ==> u.status.local.shutdown }

  ghost predicate KillsGuarded(u: Ups) {
    && (u.status.local.shutdown ==> Count(u.log, MakePowerfailFile) > 0)
    && AttemptsGuarded(u.log)
  }

  ghost predicate KillsSpaced(c: Config, u: Ups) {
    var a := Attempts(u.log);
    && (!u.status.local.shutdown ==> a == [])
    && Spaced(a, c.killDelay)
    && (!u.flags.terminated && a != [] ==> a[|a| - 1] <= u.shutDown)
  }

  lemma {:induction false} BootIsSound(c: Config)
    ensures CommandsOnce(BOOT) && EndsAfterShutdown(BOOT) && KillsGuarded(BOOT) && KillsSpaced(c, BOOT)
  {
    EmptyLog();
  }

  lemma {:induction false} StepCommandsOnce(c: Config, u: Ups, v: Ups, r: Reading, down: Option<EventKind>, kills: bool)
    requires CommandsOnce(u) && !u.flags.terminated && ShutdownStep(u, v, r, down, kills)
    requires (down.Some? ==> !u.status.local.shutdown && !kills) && (kills ==> u.status.local.shutdown)
    ensures CommandsOnce(v) && EndsAfterShutdown(v)
  {
    hide Count, Attempts, AttemptsGuarded;
  }

  /** What the pass shuts down for is one of the five critical events or the remote shutdown. */
  lemma {:induction false} DownsForCause(c: Config, u: Ups, r: Reading)
    ensures Downs(c, u, r).Some? ==> ShutsDown(Downs(c, u, r).value)
    ensures u.status.local.shutdown || u.flags.terminated ==> Downs(c, u, r).None?
  {
    hide Prepared, Polled, Cutoffs, Hunts, TimesOut;
  }

  /** How many of the first `n` passes shut down because the network said so. */
  ghost function RemoteDowns(c: Config, rs: seq<Reading>, n: nat): nat
    requires n <= |rs|
  {
    if n == 0 then 0
    else RemoteDowns(c, rs, n - 1) + Bit(Downs(c, After(c, rs, n - 1), rs[n - 1]) == Some(RemoteDown))
  }

  lemma {:induction false} StepCounts(u: Ups, v: Ups, r: Reading, down: Option<EventKind>, kills: bool)
    requires ShutdownStep(u, v, r, down, kills) && (kills ==> u.status.local.shutdown)
    requires down.Some? ==> ShutsDown(down.value) && !u.status.local.shutdown && !kills
    ensures Criticals(v.log) + Bit(down == Some(RemoteDown)) + Bit(u.status.local.shutdown) ==
            Criticals(u.log) + Bit(v.status.local.shutdown)
  {
    hide Count, Attempts, AttemptsGuarded;
  }

  /** In every run the shutdown bit is set exactly when one critical event was generated, or a remote shutdown
      brought the system down, and never both. */
  lemma {:induction false} ShutdownHasOneCause(c: Config, rs: seq<Reading>, n: nat)
    requires n <= |rs|
    ensures Criticals(After(c, rs, n).log) + RemoteDowns(c, rs, n) == Bit(After(c, rs, n).status.local.shutdown)
  {
    hide Count, Attempts, AttemptsGuarded, After, Pass, Downs, Kills, ShutdownStep, Criticals;
    StepOf(c, rs, n);
    if n == 0 {
      NoCriticals();
    } else {
      ShutdownHasOneCause(c, rs, n - 1);
      var u, r := After(c, rs, n - 1), rs[n - 1];
      DownsForCause(c, u, r);
      if !u.flags.terminated {
        PassShutdown(c, u, r);
        DownsOrKills(c, u, r);
        StepCounts(u, Pass(c, u, r), r, Downs(c, u, r), Kills(c, u, r));
      }
    }
  }

  lemma {:induction false} NoCriticals()
    ensures Criticals(BOOT.log) == 0
  {
    EmptyLog();
  }

  /** In every run the status word is marked for a timeout, or for an emergency, exactly if that was generated. */
  lemma {:induction false} MarksTellCause(c: Config, rs: seq<Reading>, n: nat)
    requires n <= |rs|
    ensures var u := After(c, rs, n);
            && (u.status.local.shutBtime <==> Count(u.log, Event(Timeout)) > 0)
            && (u.status.local.shutEmerg <==> Count(u.log, Event(Emergency)) > 0)
  {
    hide Count, Attempts, AttemptsGuarded, After, Pass, Downs, Kills, Unmoved, KillStep;
    StepOf(c, rs, n);
    if n == 0 {
      EmptyLog();
    } else {
      MarksTellCause(c, rs, n - 1);
      var u, r := After(c, rs, n - 1), rs[n - 1];
      if !u.flags.terminated {
        PassShutdown(c, u, r);
      }
    }
  }

  lemma {:induction false} StepKillsGuarded(c: Config, u: Ups, v: Ups, r: Reading, down: Option<EventKind>, kills: bool)
    requires KillsGuarded(u) && ShutdownStep(u, v, r, down, kills)
    requires kills ==> u.status.local.shutdown
    ensures KillsGuarded(v)
  {
    hide Count, Attempts, AttemptsGuarded;
  }

  lemma {:induction false} StepKillsSpaced(c: Config, u: Ups, v: Ups, r: Reading, down: Option<EventKind>, kills: bool)
    requires c.killDelay > 0 && KillsSpaced(c, u) && !u.flags.terminated && ShutdownStep(u, v, r, down, kills)
    requires down.Some? ==> !u.status.local.shutdown && !kills
    requires kills ==> u.status.local.shutdown && KillDue(c, u, r)
    ensures KillsSpaced(c, v)
  {
    hide Count, AttemptsGuarded;
  }

  /** In every run the shutdown command is executed at most once (exactly once, if the process outlives its
      shutdown), and of FAILING, TIMEOUT, LOADLIMIT,
      RUNLIMIT and EMERGENCY at most one is ever generated. */
  lemma {:induction false} SingleShutdown(c: Config, rs: seq<Reading>, n: nat)
    requires n <= |rs|
    ensures CommandsOnce(After(c, rs, n)) && EndsAfterShutdown(After(c, rs, n))
  {
    hide Count, Attempts, AttemptsGuarded, Act, Prepared, Polled, RemoteShutdown, Downs, Kills,
         ShutdownStep, CommandsOnce;
    if n == 0 {
      BootIsSound(c);
    } else {
      SingleShutdown(c, rs, n - 1);
      var u := After(c, rs, n - 1);
      if !u.flags.terminated {
        PassShutdown(c, u, rs[n - 1]);
        DownsOrKills(c, u, rs[n - 1]);
        StepCommandsOnce(c, u, Pass(c, u, rs[n - 1]), rs[n - 1], Downs(c, u, rs[n - 1]), Kills(c, u, rs[n - 1]));
      }
    }
  }

  /** In every run each hibernate attempt comes after a creation of the powerfail file. */
  lemma {:induction false} KillsFollowPowerfailFile(c: Config, rs: seq<Reading>, n: nat)
    requires n <= |rs|
    ensures KillsGuarded(After(c, rs, n))
  {
    hide Count, Attempts, AttemptsGuarded, Act, Prepared, Polled, RemoteShutdown, Downs, Kills,
         ShutdownStep, KillsGuarded;
    if n == 0 {
      BootIsSound(c);
    } else {
      KillsFollowPowerfailFile(c, rs, n - 1);
      var u := After(c, rs, n - 1);
      if !u.flags.terminated {
        PassShutdown(c, u, rs[n - 1]);
        DownsOrKills(c, u, rs[n - 1]);
        StepKillsGuarded(c, u, Pass(c, u, rs[n - 1]), rs[n - 1], Downs(c, u, rs[n - 1]), Kills(c, u, rs[n - 1]));
      }
    }
  }

  /** In every run with a positive killdelay, consecutive hibernate attempts are at least that far apart. */
  lemma {:induction false} KillsArePaced(c: Config, rs: seq<Reading>, n: nat)
    requires n <= |rs| && c.killDelay > 0
    ensures KillsSpaced(c, After(c, rs, n))
  {
    hide Count, Attempts, AttemptsGuarded, Act, Prepared, Polled, RemoteShutdown, Downs, Kills,
         ShutdownStep, KillsSpaced;
    if n == 0 {
      BootIsSound(c);
    } else {
      KillsArePaced(c, rs, n - 1);
      var u := After(c, rs, n - 1);
      if !u.flags.terminated {
        PassShutdown(c, u, rs[n - 1]);
        DownsOrKills(c, u, rs[n - 1]);
        StepKillsSpaced(c, u, Pass(c, u, rs[n - 1]), rs[n - 1], Downs(c, u, rs[n - 1]), Kills(c, u, rs[n - 1]));
      }
    }
  }
}
