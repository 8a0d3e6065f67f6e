/** What each step of module Action leaves alone and which effects it can have. */
module ActionFacts {
  import opened Options
  import opened UpsState
  import opened Action

  /** `v` comes from `u` by effects that are neither hibernate attempts nor steps of a shutdown. */
  ghost predicate Harmless(u: Ups, v: Ups) {
    && Attempts(v.log) == Attempts(u.log)
    && (AttemptsGuarded(v.log) <==> AttemptsGuarded(u.log))
    && Count(v.log, Execute(DoShutdown)) == Count(u.log, Execute(DoShutdown))
    && Count(v.log, MakePowerfailFile) == Count(u.log, MakePowerfailFile)
    && v.flags.terminated == u.flags.terminated
  }

  /** The shutdown command runs at most once, after the powerfail file was made; a hibernate attempt made
      on the way is stamped with the time of the shutdown. */
  ghost predicate RunsShutdown(u: Ups, v: Ups) {
    && (Attempts(v.log) == Attempts(u.log) || Attempts(v.log) == Attempts(u.log) + [v.shutDown])
    && (AttemptsGuarded(v.log) <==> AttemptsGuarded(u.log))
    && Count(v.log, Execute(DoShutdown)) <= Count(u.log, Execute(DoShutdown)) + 1
    && (v.flags.terminated || Count(v.log, Execute(DoShutdown)) == Count(u.log, Execute(DoShutdown)) + 1)
    && Count(v.log, MakePowerfailFile) > 0
  }

  ghost predicate LogsOnly(u: Ups, v: Ups, k: EventKind) {
    forall j :: Count(v.log, Event(j)) == Count(u.log, Event(j)) + (if j == k then 1 else 0)
  }

  /** Without `go` nothing happens. */
  lemma {:induction false} HibernateIdle(c: Config, u: Ups, r: Reading, at: int)
    ensures Hibernated(c, u, r, at, false) == u
  {
    hide Count, Attempts, AttemptsGuarded;
  }

  lemma {:induction false} ShutDownIdle(c: Config, u: Ups, r: Reading)
    ensures ShutDown(c, u, r, false) == u
  {
    hide Count, Attempts, AttemptsGuarded, Hibernated;
    HibernateIdle(c, ShutdownBegun(u, r, false), r, r.shutTime);
  }

  /** What a shutdown may change, and that it logs no event. */
  ghost predicate GoesDown(u: Ups, v: Ups, r: Reading) {
    && v == u.(status := u.status.(local := u.status.local.(shutdown := true, fastPoll := true)),
               shutDown := r.shutTime, flags := u.flags.(nologinFile := true, terminated := v.flags.terminated),
               log := v.log)
    && RunsShutdown(u, v)
    && forall j :: Count(v.log, Event(j)) == Count(u.log, Event(j))
  }

  lemma {:induction false} ShutDownFacts(c: Config, u: Ups, r: Reading)
    ensures GoesDown(u, ShutDown(c, u, r, true), r)
  {
    hide Count, Attempts, AttemptsGuarded, LogIf, Aborts;
    LogViews();
  }

  /** The event is logged, no other is, and exactly the six critical kinds bring a live system down. */
  ghost predicate GenerateStep(u: Ups, v: Ups, r: Reading, k: EventKind) {
    && LogsOnly(u, v, k)
    && (if ShutsDown(k) && !u.status.local.shutdown then
          && v == u.(status := u.status.(local := u.status.local.(shutdown := true, fastPoll := true)),
                     shutDown := r.shutTime, log := v.log,
                     flags := u.flags.(nologinFile := true, terminated := v.flags.terminated))
          && RunsShutdown(u, v)
        else v == u.(log := v.log) && Harmless(u, v))
  }

  lemma {:induction false} GeneratedFacts(c: Config, u: Ups, r: Reading, k: EventKind)
    ensures GenerateStep(u, Generated(c, u, r, k), r, k)
  {
    hide Count, Attempts, AttemptsGuarded, LogIf, ShutDown;
    LogViews();
    var u1 := u.(log := LogIf(LogIf(u.log, true, Event(k)), ShutsDown(k), Announce(DoShutdown)));
    ShutDownIdle(c, u1, r);
    ShutDownFacts(c, u1, r);
  }

  /** What is known of the state in which a pass starts to act. */
  ghost predicate Prepares(u: Ups, p: Ups, r: Reading) {
    && p.status.ups == r.ups
    && p.status.local == (if r.fastPoll then u.status.local.(fastPoll := true) else u.status.local)
    && p.prev == (if u.flags.first then NO_STATUS.(ups := NO_STATUS.ups.(battPresent := true)) else u.prev)
    && p.line == (if u.flags.first then LineTimers(r.now, r.now, r.now) else u.line)
    && p.outage == u.outage && p.selfTest == u.selfTest && p.shutDown == u.shutDown
    && p.flags == (if u.flags.first then u.flags.(first := false) else u.flags)
    && Harmless(u, p)
    && forall j :: j != ChangeMe && j != BattAttach && j != BattDetach
         ==> Count(p.log, Event(j)) == Count(u.log, Event(j))
  }

  lemma {:induction false} PreparedFacts(c: Config, u: Ups, r: Reading)
    ensures Prepares(u, Prepared(c, u, r), r) && Prepared(c, u, r).cutoff == u.cutoff
  {
    hide Count, Attempts, AttemptsGuarded, LogIf, Complains, ReplacementSilenced;
    LogViews();
  }

  lemma {:induction false} PolledFacts(c: Config, u: Ups, r: Reading)
    ensures var v := Polled(c, u, r);
            && Prepares(u, v, r)
            && v.cutoff == (if r.ups.battLow && !v.prev.ups.battLow then u.cutoff.(lbatt := r.now) else u.cutoff)
  {
    hide Count, Attempts, AttemptsGuarded, LogIf, Prepared;
    LogViews();
    PreparedFacts(c, u, r);
  }

  lemma {:induction false} PowerFailsFacts(u: Ups, r: Reading)
    ensures var v := PowerFails(u, r);
            && Harmless(u, v)
            && forall j :: j != PowerOut && j != StartSelfTest ==> Count(v.log, Event(j)) == Count(u.log, Event(j))
  {
    hide Count, Attempts, AttemptsGuarded, LogIf;
    LogViews();
  }

  /** A kill that is due is attempted unless we are a slave, and restarts its timer unless it ends the process. */
  lemma {:induction false} StillRunningFacts(c: Config, u: Ups, r: Reading)
    ensures var v, due := StillRunning(c, u, r), KillDue(c, u, r);
            && v == u.(shutDown := v.shutDown, flags := u.flags.(terminated := v.flags.terminated), log := v.log)
            && (if due then v.shutDown == r.now || v.flags.terminated
                else Harmless(u, v) && v.shutDown == u.shutDown)
            && Attempts(v.log) == Attempts(u.log) + (if due && !u.status.ups.slave then [r.now] else [])
            && (AttemptsGuarded(u.log) && Count(u.log, MakePowerfailFile) > 0 ==> AttemptsGuarded(v.log))
            && forall e: Effect :: e.Event? || e == Execute(DoShutdown) || e == MakePowerfailFile
                 ==> Count(v.log, e) == Count(u.log, e)
  {
    hide Count, Attempts, AttemptsGuarded, LogIf, Aborts, KillDue;
    LogViews();
  }

  ghost predicate NagStep(u: Ups, v: Ups) {
    && v == u.(line := u.line.(annoy := v.line.annoy), log := v.log,
               flags := u.flags.(requestedLogoff := v.flags.requestedLogoff, nologinFile := v.flags.nologinFile))
    && Harmless(u, v)
    && forall j :: j != AnnoyMe ==> Count(v.log, Event(j)) == Count(u.log, Event(j))
  }

  lemma {:induction false} NaggedFacts(c: Config, u: Ups, r: Reading)
    ensures NagStep(u, Nagged(c, u, r))
  {
    hide Count, Attempts, AttemptsGuarded, LogIf, LogoffDue, NologinDue;
    LogViews();
  }

  /** shut_btime and shut_emerg mark the status word for a timeout and an emergency. */
  ghost predicate Marks(u: Ups, v: Ups, k: Option<EventKind>) {
    && v.status.local.shutBtime == (u.status.local.shutBtime || k == Some(Timeout))
    && v.status.local.shutEmerg == (u.status.local.shutEmerg || k == Some(Emergency))
  }

  /** A hunt that reaches a critical condition brings the system down for it; one that does not is harmless.
      Either way it only logs that event and requests to log off. */
  ghost predicate HuntStep(u: Ups, v: Ups, r: Reading, k: Option<EventKind>) {
    && v.status.ups == u.status.ups && v.status.local.onBattMsg == u.status.local.onBattMsg
    && v.prev == u.prev && v.line.onLine == u.line.onLine && v.outage == u.outage && v.selfTest == u.selfTest
    && v.flags.first == u.flags.first && v.status.local.fastPoll == (u.status.local.fastPoll || k.Some?)
    && v.cutoff == u.cutoff && v.status.local.shutLoad == u.status.local.shutLoad
    && v.status.local.shutLtime == u.status.local.shutLtime
    && Marks(u, v, k)
    && v.status.local.shutdown == k.Some? && v.shutDown == (if k.Some? then r.shutTime else u.shutDown)
    && (if k.Some? then RunsShutdown(u, v) else Harmless(u, v))
    && forall j :: j != AnnoyMe ==>
         Count(v.log, Event(j)) == Count(u.log, Event(j)) + (if k == Some(j) then 1 else 0)
  }

  lemma {:induction false} GeneratedHunt(u: Ups, l: Local, v: Ups, r: Reading, k: EventKind)
    requires ShutsDown(k) && k != Timeout && !u.status.local.shutdown
    requires l == u.status.local.(shutEmerg := u.status.local.shutEmerg || k == Emergency)
    requires GenerateStep(u.(status := u.status.(local := l)), v, r, k)
    ensures HuntStep(u, v, r, Some(k))
  {
    hide Count, Attempts, AttemptsGuarded;
  }

  lemma {:induction false} NagAfterHunt(u: Ups, v: Ups, w: Ups, r: Reading, k: Option<EventKind>)
    requires HuntStep(u, v, r, k) && NagStep(v, w)
    ensures HuntStep(u, w, r, k)
  {
    hide Count, Attempts, AttemptsGuarded;
  }

  lemma {:induction false} CriticalReachedFacts(c: Config, u: Ups, r: Reading, k: EventKind)
    requires ShutsDown(k) && k != Timeout && !u.status.local.shutdown
    ensures HuntStep(u, CriticalReached(c, u, r, k), r, Some(k))
  {
    hide Generated, GenerateStep, HuntStep, Nagged, NagStep;
    var l := u.status.local;
    var l1 := l.(shutEmerg := l.shutEmerg || k == Emergency);
    var v := Generated(c, u.(status := u.status.(local := l1)), r, k);
    GeneratedFacts(c, u.(status := u.status.(local := l1)), r, k);
    GeneratedHunt(u, l1, v, r, k);
    NaggedFacts(c, v, r);
    NagAfterHunt(u, v, Nagged(c, v, r), r, Some(k));
  }

  /** The state whose critical conditions a hunt looks at. */
  function Evaluated(c: Config, u: Ups, r: Reading): Ups {
    if TimesOut(c, u, r) then u else Cutoffs(c, u, r)
  }

  lemma {:induction false} NotYetShutDownFacts(c: Config, u: Ups, r: Reading)
    requires !u.status.local.shutdown
    ensures HuntStep(Evaluated(c, u, r), NotYetShutDown(c, u, r), r, Reached(c, u, r))
  {
    hide Count, Attempts, AttemptsGuarded, CriticalReached, Generated, Critical, LowCharge, LowRuntime;
    if TimesOut(c, u, r) {
      GeneratedFacts(c, u.(status := u.status.(local := u.status.local.(shutBtime := true))), r, Timeout);
    } else {
      var v := Cutoffs(c, u, r);
      CriticalIsCritical(v, r);
      match Critical(v, r)
      case Some(k) => CriticalReachedFacts(c, v, r, k);
      case None => NaggedFacts(c, v, r);
    }
  }

  lemma CriticalIsCritical(u: Ups, r: Reading)
    ensures Critical(u, r).Some? ==> ShutsDown(Critical(u, r).value) && Critical(u, r).value != Timeout
  {
  }

  lemma {:induction false} PowerReturnsFacts(u: Ups, r: Reading)
    ensures var v := PowerReturns(u, r);
            && v.selfTest.running == 0 && v.flags.first == u.flags.first
            && Harmless(u, v)
            && forall j :: j != MainsBack ==>
                 Count(v.log, Event(j)) ==
                 Count(u.log, Event(j)) + (if j == OffBattery && u.status.local.onBattMsg then 1 else 0)
  {
    hide Count, Attempts, AttemptsGuarded, LogIf;
    LogViews();
  }
}
