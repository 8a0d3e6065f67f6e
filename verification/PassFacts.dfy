/** What one pass does, stated by the branch of do_action it takes. The lemmas about runs rest on these
    facts and not on the definition of Action.Pass. */
module PassFacts {
  import opened Options
  import opened UpsState
  import opened Action
  import opened ActionFacts

  /** The pass enters the switch of do_action in state `s`. */
  predicate Enters(c: Config, u: Ups, r: Reading, s: PowerState) {
    !u.flags.terminated && !r.ups.shutRemote && GetState(Polled(c, u, r)) == s
  }

  lemma EntersAlive(c: Config, u: Ups, r: Reading, s: PowerState)
    requires Enters(c, u, r, s)
    ensures !u.flags.terminated && !r.ups.shutRemote
  {
  }

  /** The pass confirms that the system runs on batteries. */
  predicate Confirming(c: Config, u: Ups, r: Reading) {
    Enters(c, u, r, Battery) && Confirms(c, Polled(c, u, r), r)
  }

  /** The pass looks for a reason to shut down: on battery, nothing to confirm, not shut down. */
  predicate Hunts(c: Config, u: Ups, r: Reading) {
    Enters(c, u, r, Battery) && !Confirms(c, Polled(c, u, r), r) && !u.status.local.shutdown
  }

  /** The pass compares charge and runtime with their cutoffs. */
  predicate Evaluates(c: Config, u: Ups, r: Reading): (b: bool)
    ensures b ==> !u.flags.terminated && !u.status.local.shutdown
  {
    Hunts(c, u, r) && !TimesOut(c, Polled(c, u, r), r)
  }

  /** The pass tries to kill the power of a system that was told to shut down. */
  predicate Kills(c: Config, u: Ups, r: Reading) {
    && Enters(c, u, r, Battery) && !Confirms(c, Polled(c, u, r), r) && u.status.local.shutdown
    && KillDue(c, u, r)
  }

  /** The event for which the pass shuts the system down, if it does. */
  function Downs(c: Config, u: Ups, r: Reading): Option<EventKind> {
    if u.flags.terminated || u.status.local.shutdown then None
    else if r.ups.shutRemote then if Prepared(c, u, r).prev.ups.shutRemote then None else Some(RemoteDown)
    else if Hunts(c, u, r) then Reached(c, Polled(c, u, r), r)
    else None
  }

  lemma DownsOrKills(c: Config, u: Ups, r: Reading)
    ensures Downs(c, u, r).Some? ==> !u.status.local.shutdown && !Kills(c, u, r)
    ensures Kills(c, u, r) ==> u.status.local.shutdown && KillDue(c, u, r)
  {
  }

  ghost predicate Unmoved(u: Ups, v: Ups) {
    Harmless(u, v) && v.status.local.shutdown == u.status.local.shutdown && v.shutDown == u.shutDown
  }

  /** A hibernate attempt for each kill unless we are a slave; the kill timer restarts. */
  ghost predicate KillStep(u: Ups, v: Ups, r: Reading) {
    && v.status.local.shutdown
    && Attempts(v.log) == (if r.ups.slave then Attempts(u.log) else Attempts(u.log) + [r.now])
    && (v.shutDown == r.now || v.flags.terminated)
    && (AttemptsGuarded(u.log) && Count(u.log, MakePowerfailFile) > 0 ==> AttemptsGuarded(v.log))
    && Count(v.log, Execute(DoShutdown)) == Count(u.log, Execute(DoShutdown))
    && Count(v.log, MakePowerfailFile) == Count(u.log, MakePowerfailFile)
  }

  /** From `u` to `v` the system is brought down for `down`, or the power is killed, or neither; and of the
      five critical events exactly `down` is logged. */
  ghost predicate ShutdownStep(u: Ups, v: Ups, r: Reading, down: Option<EventKind>, kills: bool) {
    && (down.Some? ==> RunsShutdown(u, v) && v.status.local.shutdown && v.shutDown == r.shutTime)
    && (down.None? && !kills ==> Unmoved(u, v))
    && (kills ==> KillStep(u, v, r)) && Marks(u, v, down)
    && forall j :: ShutsDown(j) && j != RemoteDown ==>
         Count(v.log, Event(j)) == Count(u.log, Event(j)) + (if down == Some(j) then 1 else 0)
  }

  lemma {:induction false} HuntShutdown(c: Config, u: Ups, v: Ups, r: Reading)
    requires !u.status.local.shutdown && HuntStep(Evaluated(c, u, r), v, r, Reached(c, u, r))
    ensures ShutdownStep(u, v, r, Reached(c, u, r), false)
  {
    hide Count, Attempts, AttemptsGuarded, TimesOut, Reached, LowCharge, LowRuntime;
  }

  lemma {:induction false} KillShutdown(c: Config, u: Ups, r: Reading)
    requires u.status.ups == r.ups && u.status.local.shutdown
    ensures ShutdownStep(u, StillRunning(c, u, r), r, None, KillDue(c, u, r))
  {
    hide Count, Attempts, AttemptsGuarded, StillRunning, KillDue;
    StillRunningFacts(c, u, r);
  }

  lemma {:induction false} ActShutdown(c: Config, u: Ups, r: Reading)
    requires u.status.ups == r.ups
    ensures var battery := GetState(u) == Battery && !Confirms(c, u, r);
            ShutdownStep(u, Act(c, u, r), r,
                         if battery && !u.status.local.shutdown then Reached(c, u, r) else None,
                         battery && u.status.local.shutdown && KillDue(c, u, r))
  {
    hide Count, Attempts, AttemptsGuarded, LogIf, NotYetShutDown, StillRunning, PowerReturns, GetState, Confirms,
         Reached, KillDue, HuntStep;
    LogViews();
    match GetState(u) {
      case Mains =>
      case PowerFailure => PowerFailsFacts(u, r);
      case SelfTest =>
      case Battery =>
        if !Confirms(c, u, r) {
          if u.status.local.shutdown {
            KillShutdown(c, u, r);
          } else {
            NotYetShutDownFacts(c, u, r);
            HuntShutdown(c, u, NotYetShutDown(c, u, r), r);
          }
        }
      case MainsReturned => ReturnKeepsShutdown(u, r);
      case Calibration =>
    }
  }

  lemma {:induction false} ReturnKeepsShutdown(u: Ups, r: Reading)
    ensures ShutdownStep(u, PowerReturns(u, r), r, None, false)
  {
    hide Count, Attempts, AttemptsGuarded, LogIf;
    LogViews();
    PowerReturnsFacts(u, r);
  }

  lemma {:induction false} RemoteStep(c: Config, u: Ups, r: Reading)
    ensures var down := if u.status.ups.shutRemote != u.prev.ups.shutRemote && !u.status.local.shutdown
                        then Some(RemoteDown) else None;
            ShutdownStep(u, RemoteShutdown(c, u, r), r, down, false)
  {
    hide Count, Attempts, AttemptsGuarded, Generated;
    GeneratedFacts(c, u, r, RemoteDown);
  }

  ghost predicate QuietBefore(u: Ups, p: Ups) {
    Unmoved(u, p) && Marks(u, p, None) && forall j :: ShutsDown(j) ==> Count(p.log, Event(j)) == Count(u.log, Event(j))
  }

  lemma {:induction false} PreparationIsQuiet(c: Config, u: Ups, r: Reading)
    ensures QuietBefore(u, Prepared(c, u, r)) && QuietBefore(u, Polled(c, u, r))
  {
    hide Count, Attempts, AttemptsGuarded, Prepared, Polled;
    PreparedFacts(c, u, r);
    PolledFacts(c, u, r);
  }

  lemma {:induction false} ComposeShutdown(u: Ups, p: Ups, v: Ups, w: Ups, r: Reading, down: Option<EventKind>,
                                           kills: bool)
    requires QuietBefore(u, p) && ShutdownStep(p, v, r, down, kills)
    requires w == v || w == v.(prev := v.status)
    ensures ShutdownStep(u, w, r, down, kills)
  {
    hide Count, Attempts, AttemptsGuarded;
  }

  /** The pass shuts down for Downs, kills the power for Kills, and does neither otherwise. */
  lemma {:induction false} PassShutdown(c: Config, u: Ups, r: Reading)
    requires !u.flags.terminated
    ensures ShutdownStep(u, Pass(c, u, r), r, Downs(c, u, r), Kills(c, u, r))
  {
    hide Act, RemoteShutdown, Prepared, Polled, GetState, Confirms, Reached, ShutdownStep, QuietBefore;
    PreparationIsQuiet(c, u, r);
    PreparedFacts(c, u, r);
    PolledFacts(c, u, r);
    if r.ups.shutRemote {
      var p := Prepared(c, u, r);
      RemoteStep(c, p, r);
      ComposeShutdown(u, p, RemoteShutdown(c, p, r), Pass(c, u, r), r, Downs(c, u, r), false);
    } else {
      var p := Polled(c, u, r);
      ActShutdown(c, p, r);
      ComposeShutdown(u, p, Act(c, p, r), Pass(c, u, r), r, Downs(c, u, r), Kills(c, u, r));
    }
  }

  /** When the system is said to be, and no longer said to be, on batteries. */
  ghost predicate MessageStep(u: Ups, v: Ups, on: bool, off: bool) {
    && v.status.local.onBattMsg == ((u.status.local.onBattMsg || on) && !off)
    && (on ==> !u.status.local.onBattMsg && !off)
    && Count(v.log, Event(OnBattery)) == Count(u.log, Event(OnBattery)) + (if on then 1 else 0)
    && Count(v.log, Event(OffBattery)) ==
       Count(u.log, Event(OffBattery)) + (if off && u.status.local.onBattMsg then 1 else 0)
  }

  /** What a remote shutdown leaves alone. */
  ghost predicate RemoteKeeps(u: Ups, v: Ups) {
    && MessageStep(u, v, false, false)
    && v.status.ups == u.status.ups && v.flags.first == u.flags.first
    && v.line == u.line && v.outage == u.outage && v.selfTest == u.selfTest && v.cutoff == u.cutoff
    && v.status.local.shutLoad == u.status.local.shutLoad && v.status.local.shutLtime == u.status.local.shutLtime
    && FastPollStep(u, v, false, false)
  }

  /** The stages of a pass before, or instead of, the switch on the power state. */
  lemma {:induction false} Stages(c: Config, u: Ups, r: Reading)
    ensures Prepares(u, Prepared(c, u, r), r) && Prepares(u, Polled(c, u, r), r)
    ensures RemoteKeeps(Prepared(c, u, r), RemoteShutdown(c, Prepared(c, u, r), r))
    ensures Prepared(c, u, r).cutoff == u.cutoff
    ensures Polled(c, u, r).cutoff ==
            if r.ups.battLow && !Polled(c, u, r).prev.ups.battLow then u.cutoff.(lbatt := r.now) else u.cutoff
  {
    hide Prepares, RemoteKeeps, Prepared, Polled, RemoteShutdown;
    PreparedFacts(c, u, r);
    PolledFacts(c, u, r);
    RemoteLeaves(c, Prepared(c, u, r), r);
  }

  lemma {:induction false} RemoteLeaves(c: Config, p: Ups, r: Reading)
    ensures RemoteKeeps(p, RemoteShutdown(c, p, r))
  {
    hide Count, Attempts, AttemptsGuarded, Generated;
    GeneratedFacts(c, p, r, RemoteDown);
  }

  /** The mains timer restarts on mains, at a power failure and at its confirmation. */
  ghost predicate LineStep(u: Ups, v: Ups, r: Reading, restarts: bool) {
    v.line.onLine == if restarts || u.flags.first then r.now else u.line.onLine
  }

  /** A power failure opens an outage, the return of mains closes it. */
  ghost predicate OutageStep(u: Ups, v: Ups, r: Reading, fails: bool, ends: bool) {
    v.outage == if fails then u.outage.(lastOn := r.now, xfers := u.outage.xfers + 1)
                else if ends then
                  var on := if u.outage.lastOn <= 0 then r.now else u.outage.lastOn;
                  OutageBook(on, r.now, u.outage.xfers, u.outage.total + (r.now - on))
                else u.outage
  }

  lemma {:induction false} ReturnOutage(u: Ups, r: Reading)
    ensures OutageStep(u, PowerReturns(u, r), r, false, true)
    ensures PowerReturns(u, r).selfTest ==
            if u.selfTest.running != 0 then SelfTests(0, u.selfTest.running) else u.selfTest
  {
    hide LogIf;
  }

  /** The self test: a power failure takes its start from the driver; while it runs, it is given up 40 seconds after
      its start or on a low battery; and when mains returns it becomes the last one. */
  ghost predicate TestStep(u: Ups, v: Ups, r: Reading, fails: bool, tests: bool, ends: bool) {
    var t := u.selfTest;
    v.selfTest == if fails then t.(running := if r.selfTest.Some? then r.selfTest.value else t.running)
                  else if tests && (r.now - t.running >= 40 || r.ups.battLow) then t.(running := 0)
                  else if ends && t.running != 0 then SelfTests(0, t.running)
                  else t
  }

  /** Only a pass that evaluates the cutoffs moves the charge and runtime flags and timers; every pass of the
      ordinary kind starts the battery-low timer on the rising edge. */
  ghost predicate CutoffStep(c: Config, u: Ups, v: Ups, r: Reading, evaluates: bool) {
    var before, after := u.status.local, v.status.local;
    if evaluates then
      && after.shutLoad == LowCharge(c, r) && after.shutLtime == LowRuntime(c, r)
      && v.cutoff.load == (if LowCharge(c, r) && !before.shutLoad then r.now else u.cutoff.load)
      && v.cutoff.ltime == (if LowRuntime(c, r) && !before.shutLtime then r.now else u.cutoff.ltime)
    else
      && after.shutLoad == before.shutLoad && after.shutLtime == before.shutLtime
      && v.cutoff.load == u.cutoff.load && v.cutoff.ltime == u.cutoff.ltime
  }

  lemma ConfirmsOnce(c: Config, u: Ups, r: Reading)
    ensures Confirms(c, u, r) ==> !u.status.local.onBattMsg
  {
  }

  lemma {:induction false} ReturnLeaves(u: Ups, r: Reading)
    ensures var v := PowerReturns(u, r);
            v.line == u.line && v.cutoff == u.cutoff &&
            v.status == u.status.(local := u.status.local.(onBattMsg := v.status.local.onBattMsg))
  {
    hide LogIf;
  }

  lemma {:induction false} ReturnMessages(u: Ups, r: Reading)
    ensures MessageStep(u, PowerReturns(u, r), false, true)
  {
    hide Count, Attempts, AttemptsGuarded, LogIf;
    LogViews();
    PowerReturnsFacts(u, r);
  }

  /** Fast polling starts with a power failure or a shutdown, and only mains ends it. */
  ghost predicate FastPollStep(u: Ups, v: Ups, fails: bool, mains: bool) {
    v.status.local.fastPoll <==>
      fails || (u.status.local.fastPoll && !mains) || (v.status.local.shutdown && !u.status.local.shutdown)
  }

  /** What the switch on the power state does to everything but the shutdown: `s` is the state entered, `confirms`
      and `evaluates` tell what a pass on battery does. */
  ghost predicate ActStep(c: Config, u: Ups, v: Ups, r: Reading, s: PowerState, confirms: bool, evaluates: bool) {
    && v.status.ups == u.status.ups && v.flags.first == u.flags.first
    && MessageStep(u, v, confirms, s == MainsReturned)
    && v.line.onLine == (if s == Mains || s == PowerFailure || confirms then r.now else u.line.onLine)
    && OutageStep(u, v, r, s == PowerFailure, s == MainsReturned)
    && TestStep(u, v, r, s == PowerFailure, s == SelfTest, s == MainsReturned)
    && FastPollStep(u, v, s == PowerFailure, s == Mains)
    && CutoffStep(c, u, v, r, evaluates) && v.cutoff.lbatt == u.cutoff.lbatt
  }

  lemma {:induction false} MainsStep(c: Config, u: Ups, r: Reading)
    ensures ActStep(c, u, OnMains(u, r), r, Mains, false, false)
  {
    hide Count, LowCharge, LowRuntime;
  }

  lemma {:induction false} FailureStep(c: Config, u: Ups, r: Reading)
    ensures ActStep(c, u, PowerFails(u, r), r, PowerFailure, false, false)
  {
    hide Count, Attempts, AttemptsGuarded, LogIf, LowCharge, LowRuntime;
    PowerFailsFacts(u, r);
  }

  lemma {:induction false} ReturnStep(c: Config, u: Ups, r: Reading)
    ensures ActStep(c, u, PowerReturns(u, r), r, MainsReturned, false, false)
  {
    hide Count, Attempts, AttemptsGuarded, PowerReturns, LowCharge, LowRuntime;
    PowerReturnsFacts(u, r);
    ReturnLeaves(u, r);
    ReturnMessages(u, r);
    ReturnOutage(u, r);
  }

  lemma {:induction false} IdleStep(c: Config, u: Ups, r: Reading, s: PowerState)
    requires s == SelfTest || s == Calibration
    requires u.status.ups == r.ups
    ensures ActStep(c, u, if s == SelfTest then DuringSelfTest(u, r) else u, r, s, false, false)
  {
    hide Count, LowCharge, LowRuntime;
  }

  lemma {:induction false} ConfirmStep(c: Config, u: Ups, r: Reading)
    requires !u.status.local.onBattMsg
    ensures ActStep(c, u, Confirmed(u, r), r, Battery, true, false)
  {
    hide Count, Attempts, AttemptsGuarded, LogIf, LowCharge, LowRuntime;
    LogViews();
  }

  lemma {:induction false} RunningStep(c: Config, u: Ups, r: Reading)
    ensures ActStep(c, u, StillRunning(c, u, r), r, Battery, false, false)
  {
    hide Count, Attempts, AttemptsGuarded, LogIf, StillRunning, LowCharge, LowRuntime;
    StillRunningFacts(c, u, r);
  }

  lemma {:induction false} EvaluatedStep(c: Config, u: Ups, r: Reading)
    ensures ActStep(c, u, Evaluated(c, u, r), r, Battery, false, !TimesOut(c, u, r))
    ensures Evaluated(c, u, r).status.local.shutdown == u.status.local.shutdown
    ensures Reached(c, u, r).Some? ==> ShutsDown(Reached(c, u, r).value)
  {
    hide Count, TimesOut, LowCharge, LowRuntime;
  }

  lemma {:induction false} HuntAfter(c: Config, u: Ups, e: Ups, v: Ups, r: Reading,
                                     k: Option<EventKind>, evaluates: bool)
    requires ActStep(c, u, e, r, Battery, false, evaluates) && HuntStep(e, v, r, k)
    requires k.Some? ==> ShutsDown(k.value)
    requires !u.status.local.shutdown && !e.status.local.shutdown
    ensures ActStep(c, u, v, r, Battery, false, evaluates)
  {
    hide Count, Harmless, RunsShutdown, LowCharge, LowRuntime, Marks, OutageStep, TestStep;
    BooksKept(u, e, v, r);
  }

  lemma BooksKept(u: Ups, e: Ups, v: Ups, r: Reading)
    requires OutageStep(u, e, r, false, false) && TestStep(u, e, r, false, false, false)
    requires v.outage == e.outage && v.selfTest == e.selfTest
    ensures OutageStep(u, v, r, false, false) && TestStep(u, v, r, false, false, false)
  {
  }

  lemma {:induction false} HuntingStep(c: Config, u: Ups, r: Reading)
    requires !u.status.local.shutdown
    ensures ActStep(c, u, NotYetShutDown(c, u, r), r, Battery, false, !TimesOut(c, u, r))
  {
    hide ActStep, HuntStep, NotYetShutDown, Evaluated, Reached, TimesOut;
    NotYetShutDownFacts(c, u, r);
    EvaluatedStep(c, u, r);
    HuntAfter(c, u, Evaluated(c, u, r), NotYetShutDown(c, u, r), r, Reached(c, u, r), !TimesOut(c, u, r));
  }

  lemma {:induction false} ActSteps(c: Config, u: Ups, r: Reading)
    requires u.status.ups == r.ups
    ensures var battery := GetState(u) == Battery;
            ActStep(c, u, Act(c, u, r), r, GetState(u), battery && Confirms(c, u, r),
                    battery && !Confirms(c, u, r) && !u.status.local.shutdown && !TimesOut(c, u, r))
  {
    hide ActStep, OnMains, PowerFails, DuringSelfTest, Confirmed, NotYetShutDown, StillRunning, PowerReturns,
         GetState, Confirms, TimesOut;
    ConfirmsOnce(c, u, r);
    match GetState(u) {
      case Mains => MainsStep(c, u, r);
      case PowerFailure => FailureStep(c, u, r);
      case SelfTest => IdleStep(c, u, r, SelfTest);
      case Battery =>
        if Confirms(c, u, r) {
          ConfirmStep(c, u, r);
        } else if u.status.local.shutdown {
          RunningStep(c, u, r);
        } else {
          HuntingStep(c, u, r);
        }
      case MainsReturned => ReturnStep(c, u, r);
      case Calibration => IdleStep(c, u, r, Calibration);
    }
  }

  /** A pass remembers the bits it was given, and every pass after the first knows it is not the first. */
  lemma {:induction false} PassStatus(c: Config, u: Ups, r: Reading)
    requires !u.flags.terminated
    ensures var v := Pass(c, u, r);
            v.status.ups == r.ups && !v.flags.first && (v.flags.terminated || v.prev == v.status)
  {
    hide Count, Attempts, AttemptsGuarded, Act, MessageStep, OutageStep, TestStep, FastPollStep, CutoffStep,
         Prepared, Polled, RemoteShutdown;
    Stages(c, u, r);
    ActSteps(c, Polled(c, u, r), r);
  }

  lemma {:induction false} PassMessages(c: Config, u: Ups, r: Reading)
    requires !u.flags.terminated
    ensures MessageStep(u, Pass(c, u, r), Confirming(c, u, r), Enters(c, u, r, MainsReturned))
  {
    hide Count, Attempts, AttemptsGuarded, Act, OutageStep, TestStep, CutoffStep, FastPollStep,
         Prepared, Polled, RemoteShutdown, GetState, Confirms;
    Stages(c, u, r);
    ActSteps(c, Polled(c, u, r), r);
  }

  lemma {:induction false} PassLine(c: Config, u: Ups, r: Reading)
    requires !u.flags.terminated
    ensures LineStep(u, Pass(c, u, r), r,
                     Enters(c, u, r, Mains) || Enters(c, u, r, PowerFailure) || Confirming(c, u, r))
  {
    hide Count, Attempts, AttemptsGuarded, Act, MessageStep, OutageStep, TestStep, FastPollStep, CutoffStep,
         Prepared, Polled, RemoteShutdown, GetState, Confirms;
    Stages(c, u, r);
    ActSteps(c, Polled(c, u, r), r);
  }

  lemma {:induction false} PassOutage(c: Config, u: Ups, r: Reading)
    requires !u.flags.terminated
    ensures OutageStep(u, Pass(c, u, r), r, Enters(c, u, r, PowerFailure), Enters(c, u, r, MainsReturned))
  {
    hide Count, Attempts, AttemptsGuarded, Act, MessageStep, TestStep, CutoffStep, FastPollStep,
         Prepared, Polled, RemoteShutdown, GetState;
    Stages(c, u, r);
    ActSteps(c, Polled(c, u, r), r);
  }

  lemma {:induction false} PassTest(c: Config, u: Ups, r: Reading)
    requires !u.flags.terminated
    ensures TestStep(u, Pass(c, u, r), r, Enters(c, u, r, PowerFailure), Enters(c, u, r, SelfTest),
                     Enters(c, u, r, MainsReturned))
  {
    hide Count, Attempts, AttemptsGuarded, Act, MessageStep, OutageStep, CutoffStep, FastPollStep,
         Prepared, Polled, RemoteShutdown, GetState;
    Stages(c, u, r);
    ActSteps(c, Polled(c, u, r), r);
  }

  lemma {:induction false} PassFastPoll(c: Config, u: Ups, r: Reading)
    requires !u.flags.terminated
    ensures var l, after := u.status.local, Pass(c, u, r).status.local;
            after.fastPoll <==>
            Enters(c, u, r, PowerFailure) || ((l.fastPoll || r.fastPoll) && !Enters(c, u, r, Mains)) ||
            (after.shutdown && !l.shutdown)
  {
    hide Count, Attempts, AttemptsGuarded, Act, MessageStep, OutageStep, TestStep, CutoffStep,
         Prepared, Polled, RemoteShutdown, GetState;
    Stages(c, u, r);
    if !r.ups.shutRemote {
      ActSteps(c, Polled(c, u, r), r);
    }
  }

  lemma {:induction false} PassCutoffs(c: Config, u: Ups, r: Reading)
    requires !u.flags.terminated
    ensures CutoffStep(c, u, Pass(c, u, r), r, Evaluates(c, u, r))
    ensures var prev := if u.flags.first then NO_STATUS else u.prev;
            Pass(c, u, r).cutoff.lbatt ==
            if !r.ups.shutRemote && r.ups.battLow && !prev.ups.battLow then r.now else u.cutoff.lbatt
  {
    hide Count, Attempts, AttemptsGuarded, Act, MessageStep, OutageStep, TestStep, FastPollStep,
         Prepared, Polled, RemoteShutdown, GetState, Confirms, LowCharge,
         LowRuntime;
    Stages(c, u, r);
    ActSteps(c, Polled(c, u, r), r);
  }
}
