/** What a pass does to the outside world, effect by effect and in order, told from the state before it and the
    reading, with every comparison written out. The passes of module Action are proved to do just that. */
module Effects {
  import opened Options
  import opened UpsState
  import opened Action
  import opened ActionFacts
  import opened PassFacts

  function When(b: bool, s: seq<Effect>): seq<Effect> { if b then s else [] }

  /** The powerfail file is missing, and the UPS is not a dumb one off battery. */
  predicate Refused(c: Config, r: Reading) { !r.powerfailFile && !(c.dumbUps && !r.ups.onBatt) }

  /** An attempt to kill the power. */
  function KillEffects(c: Config, r: Reading, at: int): seq<Effect> {
    [Hibernate(at),
     if Refused(c, r) then AbortHibernate else if c.upsClass == ShareSlave then ShareSlaveGiveUp else KillPower]
  }

  /** A shutdown kills the power first, if it may and is told to. */
  predicate KillsFirst(c: Config, r: Reading) { !r.ups.slave && c.killOnPowerfail }

  function DownEffects(c: Config, r: Reading, nologin: bool): seq<Effect> {
    [DeleteLockFile, MakePowerfailFile] + When(!nologin, [ProhibitLogins]) +
    When(KillsFirst(c, r), KillEffects(c, r, r.shutTime)) +
    When(!(KillsFirst(c, r) && Refused(c, r)), [Execute(DoShutdown), ClearFiles])
  }

  function CriticalEffects(c: Config, r: Reading, k: EventKind, down: bool, nologin: bool): seq<Effect> {
    [Event(k), Announce(DoShutdown)] + When(!down, DownEffects(c, r, nologin))
  }

  /** The conditions of the five modes for a ban on logins. */
  predicate Bans(c: Config, line: LineTimers, r: Reading) {
    || (c.nologinMode == AfterTimeout && r.now - line.nologon > c.nologinTime)
    || (c.nologinMode == AtPercent && c.hasBattLevel && r.battChg <= c.nologinTime as real)
    || (c.nologinMode == AtMinutes && c.hasRunTime && r.timeLeft <= c.nologinTime as real)
    || c.nologinMode == Always
  }

  /** Users are only asked to log off once logins are banned. */
  function NagEffects(c: Config, line: LineTimers, requested: bool, nologin: bool, r: Reading): seq<Effect> {
    When(nologin && r.now - line.onLine > c.annoyDelay && r.now - line.annoy > c.annoy,
         [if requested then Execute(AnnoyMe) else Event(AnnoyMe)]) +
    When(!nologin && Bans(c, line, r), [ProhibitLogins])
  }

  /** What an evaluating pass shuts down for. `lowBefore`: the battery was low at the last reading. */
  function Reason(c: Config, timers: CutoffTimers, local: Local, lowBefore: bool, r: Reading): Option<EventKind> {
    if r.ups.battLow && lowBefore && r.now - timers.lbatt >= 5 then Some(Failing)
    else if c.hasBattLevel && r.battChg <= c.percent as real && local.shutLoad && r.now - timers.load >= 5 then
      Some(LoadLimit)
    else if c.hasRunTime && r.timeLeft <= c.runtime as real && local.shutLtime && r.now - timers.ltime >= 5 then
      Some(RunLimit)
    else if r.ups.battLow && r.ups.online then Some(Emergency)
    else None
  }

  /** An emergency is the only shutdown after which the users are still nagged, if the process lives. */
  function HuntEffects(c: Config, u: Ups, reason: Option<EventKind>, r: Reading): seq<Effect> {
    match reason
    case None => NagEffects(c, u.line, u.flags.requestedLogoff, u.flags.nologinFile, r)
    case Some(k) =>
      CriticalEffects(c, r, k, false, u.flags.nologinFile) +
      When(k == Emergency && !(KillsFirst(c, r) && Refused(c, r)) && !c.terminateOnPowerfail,
           NagEffects(c, u.line, u.flags.requestedLogoff, true, r))
  }

  /** On battery, and neither calibrating nor under a self test. */
  function BatteryEffects(c: Config, u: Ups, reason: Option<EventKind>, r: Reading): seq<Effect> {
    if !u.status.local.onBattMsg && r.checkTime - u.line.onLine >= c.onBattDelay then [Event(OnBattery)]
    else if u.status.local.shutdown then
      When(c.killDelay != 0 && r.now - u.shutDown >= c.killDelay && !r.ups.slave, KillEffects(c, r, r.now))
    else if c.maxTime > 0 && r.now - u.line.onLine > c.maxTime then
      CriticalEffects(c, r, Timeout, false, u.flags.nologinFile)
    else HuntEffects(c, u, reason, r)
  }

  function ReturnEffects(u: Ups): seq<Effect> {
    When(u.status.local.onBattMsg, [Event(OffBattery)]) +
    (if u.selfTest.running != 0 then [SelfTestReport, Execute(EndSelfTest)] else [Event(MainsBack)]) +
    When(u.flags.nologinFile, [AllowLogins]) + [RemoveNologinFile]
  }

  /** The switch on the power state; `onBefore`: the last reading was on battery. */
  function SwitchEffects(c: Config, u: Ups, reason: Option<EventKind>, onBefore: bool, r: Reading): seq<Effect> {
    if !r.ups.onBatt then When(onBefore, ReturnEffects(u))
    else if r.ups.calibration then []
    else if !onBefore then
      var test := if r.selfTest.Some? then r.selfTest.value else u.selfTest.running;
      [Event(if test != 0 then StartSelfTest else PowerOut)]
    else When(u.selfTest.running == 0, BatteryEffects(c, u, reason, r))
  }

  /** Before the first pass nothing was seen, but for a battery that is present. */
  function Before(u: Ups): Reported {
    if u.flags.first then NO_STATUS.ups.(battPresent := true) else u.prev.ups
  }

  function ComplaintEffects(c: Config, u: Ups, r: Reading): seq<Effect> {
    When(r.replaceBatt && r.now - c.startTime >= 60 * 10 && u.complaints.count <= 5 &&
         r.now - u.complaints.last > 60 * 60 * 9, [Event(ChangeMe)])
  }

  function BatteryEdge(before: Reported, r: Reading): seq<Effect> {
    When(r.ups.battPresent != before.battPresent, [Event(if r.ups.battPresent then BattAttach else BattDetach)])
  }

  function RemoteEffects(c: Config, u: Ups, before: Reported, r: Reading): seq<Effect> {
    When(!before.shutRemote, CriticalEffects(c, r, RemoteDown, u.status.local.shutdown, u.flags.nologinFile))
  }

  function PassEffects(c: Config, u: Ups, r: Reading): seq<Effect> {
    var before := Before(u);
    ComplaintEffects(c, u, r) +
    if r.ups.shutRemote then RemoteEffects(c, u, before, r)
    else
      BatteryEdge(before, r) +
      SwitchEffects(c, u, Reason(c, u.cutoff, u.status.local, before.battLow, r), before.onBatt, r)
  }

  // The proof, stage by stage

  lemma {:induction false} HibernatedLog(c: Config, u: Ups, r: Reading, at: int, go: bool)
    requires u.status.ups.onBatt == r.ups.onBatt
    ensures Hibernated(c, u, r, at, go).log == u.log + When(go, KillEffects(c, r, at))
    ensures Hibernated(c, u, r, at, go).flags.terminated == (u.flags.terminated || (go && Refused(c, r)))
  {
  }

  lemma {:induction false} BegunLog(u: Ups, r: Reading, go: bool)
    ensures ShutdownBegun(u, r, go).log ==
            u.log + When(go, [DeleteLockFile, MakePowerfailFile] + When(!u.flags.nologinFile, [ProhibitLogins]))
    ensures ShutdownBegun(u, r, go).status.ups == u.status.ups
    ensures ShutdownBegun(u, r, go).flags.terminated == u.flags.terminated
  {
  }

  lemma {:induction false} CommandLog(c: Config, u: Ups, r: Reading, go: bool)
    ensures var h := Hibernated(c, ShutdownBegun(u, r, go), r, r.shutTime,
                                go && !u.status.ups.slave && c.killOnPowerfail);
            && ShutDown(c, u, r, go).log == h.log + When(go && !h.flags.terminated, [Execute(DoShutdown), ClearFiles])
            && ShutDown(c, u, r, go).flags.terminated ==
               (h.flags.terminated || (go && !h.flags.terminated && c.terminateOnPowerfail))
  {
    hide Hibernated, ShutdownBegun;
  }

  lemma Chain(l: seq<Effect>, a: seq<Effect>, b: seq<Effect>, d: seq<Effect>, e: seq<Effect>)
    ensures l + (a + b) + d + e == l + (a + b + d + e)
  {
  }

  /** The whole effect of a shutdown that does happen. */
  lemma {:induction false} DownLog(c: Config, u: Ups, r: Reading)
    requires !u.flags.terminated && u.status.ups == r.ups
    ensures ShutDown(c, u, r, true).log == u.log + DownEffects(c, r, u.flags.nologinFile)
    ensures ShutDown(c, u, r, true).flags.terminated == ((KillsFirst(c, r) && Refused(c, r)) || c.terminateOnPowerfail)
  {
    hide ShutDown, Hibernated, ShutdownBegun, KillEffects, Refused;
    BegunLog(u, r, true);
    HibernatedLog(c, ShutdownBegun(u, r, true), r, r.shutTime, KillsFirst(c, r));
    CommandLog(c, u, r, true);
    var stays := !(KillsFirst(c, r) && Refused(c, r));
    Chain(u.log, [DeleteLockFile, MakePowerfailFile], When(!u.flags.nologinFile, [ProhibitLogins]),
          When(KillsFirst(c, r), KillEffects(c, r, r.shutTime)), When(stays, [Execute(DoShutdown), ClearFiles]));
  }

  lemma {:induction false} ShutDownLog(c: Config, u: Ups, r: Reading, go: bool)
    requires !u.flags.terminated && u.status.ups == r.ups
    ensures ShutDown(c, u, r, go).log == u.log + When(go, DownEffects(c, r, u.flags.nologinFile))
    ensures ShutDown(c, u, r, go).flags.terminated ==
            (go && ((KillsFirst(c, r) && Refused(c, r)) || c.terminateOnPowerfail))
  {
    hide ShutDown, DownEffects, KillsFirst, Refused;
    if go {
      DownLog(c, u, r);
    } else {
      ShutDownIdle(c, u, r);
    }
  }

  lemma {:induction false} GeneratedLog(c: Config, u: Ups, r: Reading, k: EventKind)
    requires !u.flags.terminated && u.status.ups == r.ups && ShutsDown(k)
    ensures Generated(c, u, r, k).log ==
            u.log + CriticalEffects(c, r, k, u.status.local.shutdown, u.flags.nologinFile)
    ensures Generated(c, u, r, k).flags.terminated ==
            (!u.status.local.shutdown && ((KillsFirst(c, r) && Refused(c, r)) || c.terminateOnPowerfail))
  {
    hide ShutDown, DownEffects, KillsFirst, Refused;
    ShutDownLog(c, u.(log := u.log + [Event(k)] + [Announce(DoShutdown)]), r, !u.status.local.shutdown);
  }

  lemma {:induction false} NaggedLog(c: Config, u: Ups, r: Reading)
    ensures Nagged(c, u, r).log == u.log + NagEffects(c, u.line, u.flags.requestedLogoff, u.flags.nologinFile, r)
  {
  }

  lemma {:induction false} StillRunningLog(c: Config, u: Ups, r: Reading)
    requires !u.flags.terminated && u.status.ups == r.ups
    ensures StillRunning(c, u, r).log ==
            u.log + When(c.killDelay != 0 && r.now - u.shutDown >= c.killDelay && !r.ups.slave,
                         KillEffects(c, r, r.now))
  {
    hide Hibernated, KillEffects, Refused;
    HibernatedLog(c, u, r, r.now, !u.status.ups.slave);
  }

  lemma {:induction false} CriticalReachedLog(c: Config, u: Ups, r: Reading, k: EventKind)
    requires !u.flags.terminated && u.status.ups == r.ups && ShutsDown(k) && !u.status.local.shutdown
    ensures CriticalReached(c, u, r, k).log == u.log + HuntEffects(c, u, Some(k), r)
  {
    hide Count, Generated, Nagged, CriticalEffects, NagEffects, KillsFirst, Refused;
    var l := u.status.local;
    var marked := u.(status := u.status.(local := l.(shutEmerg := l.shutEmerg || k == Emergency)));
    GeneratedLog(c, marked, r, k);
    GeneratedFacts(c, marked, r, k);
    NaggedLog(c, Generated(c, marked, r, k), r);
  }

  lemma {:induction false} HuntLog(c: Config, u: Ups, r: Reading)
    requires !u.flags.terminated && u.status.ups == r.ups && !u.status.local.shutdown
    ensures NotYetShutDown(c, u, r).log ==
            u.log + if c.maxTime > 0 && r.now - u.line.onLine > c.maxTime
                    then CriticalEffects(c, r, Timeout, false, u.flags.nologinFile)
                    else HuntEffects(c, u, Critical(Cutoffs(c, u, r), r), r)
  {
    hide Generated, Nagged, CriticalReached, CriticalEffects, NagEffects, Critical, LowCharge, LowRuntime, KillsFirst,
         Refused;
    if TimesOut(c, u, r) {
      GeneratedLog(c, u.(status := u.status.(local := u.status.local.(shutBtime := true))), r, Timeout);
    } else {
      var v := Cutoffs(c, u, r);
      CriticalIsCritical(v, r);
      match Critical(v, r)
      case Some(k) => CriticalReachedLog(c, v, r, k);
      case None => NaggedLog(c, v, r);
    }
  }

  lemma {:induction false} BatteryLog(c: Config, u: Ups, r: Reading)
    requires !u.flags.terminated && u.status.ups == r.ups
    ensures OnBatteries(c, u, r).log == u.log + BatteryEffects(c, u, Critical(Cutoffs(c, u, r), r), r)
  {
    hide StillRunning, NotYetShutDown, Critical, Cutoffs, HuntEffects, KillEffects, CriticalEffects;
    StillRunningLog(c, u, r);
    if !u.status.local.shutdown { HuntLog(c, u, r); }
  }

  lemma {:induction false} ReturnLog(u: Ups, r: Reading)
    ensures PowerReturns(u, r).log == u.log + ReturnEffects(u)
  {
  }

  lemma {:induction false} ActLog(c: Config, u: Ups, r: Reading)
    requires !u.flags.terminated && u.status.ups == r.ups
    ensures Act(c, u, r).log == u.log + SwitchEffects(c, u, Critical(Cutoffs(c, u, r), r), u.prev.ups.onBatt, r)
  {
    hide OnBatteries, PowerReturns, Critical, Cutoffs, BatteryEffects, ReturnEffects;
    BatteryLog(c, u, r);
    ReturnLog(u, r);
  }

  /** The evaluated cutoffs, flag by flag. */
  lemma {:induction false} FlagsFound(c: Config, p: Ups, r: Reading)
    requires p.status.ups == r.ups
    ensures var v := Cutoffs(c, p, r);
            && v.status.ups == r.ups && v.cutoff.lbatt == p.cutoff.lbatt
            && v.status.local.shutLoad == (c.hasBattLevel && r.battChg <= c.percent as real)
            && v.status.local.shutLtime == (c.hasRunTime && r.timeLeft <= c.runtime as real)
            && (v.status.local.shutLoad ==> v.cutoff.load == if p.status.local.shutLoad then p.cutoff.load else r.now)
            && (v.status.local.shutLtime ==>
                  v.cutoff.ltime == if p.status.local.shutLtime then p.cutoff.ltime else r.now)
  {
  }

  /** The reason found in the prepared state is the one told from the state before. */
  lemma {:induction false} ReasonFound(c: Config, u: Ups, p: Ups, r: Reading)
    requires Prepares(u, p, r)
    requires p.cutoff == if r.ups.battLow && !p.prev.ups.battLow then u.cutoff.(lbatt := r.now) else u.cutoff
    ensures Critical(Cutoffs(c, p, r), r) == Reason(c, u.cutoff, u.status.local, p.prev.ups.battLow, r)
  {
    hide Count, Harmless, Cutoffs;
    FlagsFound(c, p, r);
  }

  /** What the effects of a pass depend on besides the reading and the last one. */
  ghost predicate Alike(u: Ups, p: Ups) {
    && p.status.local.onBattMsg == u.status.local.onBattMsg && p.status.local.shutdown == u.status.local.shutdown
    && p.shutDown == u.shutDown && p.selfTest == u.selfTest
    && p.flags.nologinFile == u.flags.nologinFile && p.flags.requestedLogoff == u.flags.requestedLogoff
    && (!u.flags.first ==> p.line == u.line)
  }

  lemma PreparesMeans(u: Ups, p: Ups, r: Reading)
    requires Prepares(u, p, r)
    ensures p.status.ups == r.ups && p.flags.terminated == u.flags.terminated && p.prev.ups == Before(u) && Alike(u, p)
  {
    hide Count, Attempts, AttemptsGuarded;
  }

  lemma {:induction false} BatterySame(c: Config, u: Ups, p: Ups, reason: Option<EventKind>, r: Reading)
    requires Alike(u, p) && !u.flags.first
    ensures BatteryEffects(c, p, reason, r) == BatteryEffects(c, u, reason, r)
  {
    hide CriticalEffects, KillEffects, NagEffects, When;
  }

  /** Preparing a pass does not change what the switch will do. */
  lemma {:induction false} SwitchSame(c: Config, u: Ups, p: Ups, reason: Option<EventKind>, r: Reading)
    requires Alike(u, p)
    ensures SwitchEffects(c, p, reason, Before(u).onBatt, r) == SwitchEffects(c, u, reason, Before(u).onBatt, r)
  {
    hide BatteryEffects;
    if !u.flags.first { BatterySame(c, u, p, reason, r); }
  }

  lemma {:induction false} PreparedLog(c: Config, u: Ups, r: Reading)
    ensures Prepared(c, u, r).log == u.log + ComplaintEffects(c, u, r)
  {
  }

  lemma {:induction false} NotedLog(p: Ups, r: Reading)
    requires p.status.ups == r.ups
    ensures BatteryNoted(p, r).log == p.log + BatteryEdge(p.prev.ups, r)
  {
  }

  lemma {:induction false} RemoteLog(c: Config, p: Ups, r: Reading)
    requires !p.flags.terminated && p.status.ups == r.ups && r.ups.shutRemote
    ensures RemoteShutdown(c, p, r).log == p.log + RemoteEffects(c, p, p.prev.ups, r)
  {
    hide Generated, CriticalEffects;
    GeneratedLog(c, p, r, RemoteDown);
  }

  /** Every pass of a live process has exactly the effects told above, in that order. */
  lemma {:induction false} PassLog(c: Config, u: Ups, r: Reading)
    requires !u.flags.terminated
    ensures Pass(c, u, r).log == u.log + PassEffects(c, u, r)
  {
    hide Pass, Act, RemoteShutdown, Prepared, BatteryNoted, Prepares, RemoteKeeps, Alike, Critical, Cutoffs, Reason,
         ComplaintEffects, BatteryEdge, RemoteEffects, SwitchEffects, Before;
    Stages(c, u, r);
    var p, q := Prepared(c, u, r), Polled(c, u, r);
    PreparesMeans(u, p, r);
    PreparesMeans(u, q, r);
    PreparedLog(c, u, r);
    LastStage(c, u, r);
    if r.ups.shutRemote {
      RemoteLog(c, p, r);
      RemoteSame(c, u, p, Before(u), r);
    } else {
      NotedLog(p, r);
      ActLog(c, q, r);
      ReasonFound(c, u, q, r);
      SwitchSame(c, u, q, Reason(c, u.cutoff, u.status.local, Before(u).battLow, r), r);
    }
  }

  lemma RemoteSame(c: Config, u: Ups, p: Ups, before: Reported, r: Reading)
    requires Alike(u, p)
    ensures RemoteEffects(c, p, before, r) == RemoteEffects(c, u, before, r)
  {
  }

  /** Remembering the status has no effect. */
  lemma LastStage(c: Config, u: Ups, r: Reading)
    requires !u.flags.terminated
    ensures Pass(c, u, r).log ==
            if r.ups.shutRemote then RemoteShutdown(c, Prepared(c, u, r), r).log else Act(c, Polled(c, u, r), r).log
  {
    hide Act, RemoteShutdown, Prepared, Polled;
  }
}
