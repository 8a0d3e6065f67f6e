/** src/action.c and the parts of src/device.c it calls, as functions from state to state, field by field.
    Class UpsDaemon.UpsInfo takes the same steps in place, in the order and with the branches of the source,
    and is proved against these functions. */
module Action {
  import opened Options
  import opened UpsState

  datatype PowerState = PowerFailure | SelfTest | Battery | MainsReturned | Mains | Calibration

  /** If we are on battery for a calibration, treat it as not on battery. */
  function GetState(u: Ups): PowerState {
    if u.status.ups.onBatt then
      if u.status.ups.calibration then Calibration
      else if !u.prev.ups.onBatt then PowerFailure
      else if u.selfTest.running != 0 then SelfTest
      else Battery
    else if u.prev.ups.onBatt then MainsReturned
    else Mains
  }

  /** The powerfail file is missing although the UPS may be on batteries: the process gives up. */
  predicate Aborts(c: Config, u: Ups, r: Reading) {
    !r.powerfailFile && (!c.dumbUps || u.status.ups.onBatt)
  }

  /** initiate_hibernate, if `go`; the attempt is stamped `at`. */
  function Hibernated(c: Config, u: Ups, r: Reading, at: int, go: bool): Ups {
    var aborts := Aborts(c, u, r);
    var outcome := if aborts then AbortHibernate
                   else if c.upsClass == ShareSlave then ShareSlaveGiveUp else KillPower;
    u.(flags := u.flags.(terminated := u.flags.terminated || (go && aborts)),
       log := LogIf(LogIf(u.log, go, Hibernate(at)), go, outcome))
  }

  /** do_shutdown, up to the hibernate attempt, if `go`. */
  function ShutdownBegun(u: Ups, r: Reading, go: bool): Ups {
    u.(status := u.status.(local := u.status.local.(shutdown := u.status.local.shutdown || go,
                                                    fastPoll := u.status.local.fastPoll || go)),
       shutDown := if go then r.shutTime else u.shutDown,
       flags := u.flags.(nologinFile := u.flags.nologinFile || go),
       log := LogIf(LogIf(LogIf(u.log, go, DeleteLockFile), go, MakePowerfailFile),
                    go && !u.flags.nologinFile, ProhibitLogins))
  }

  /** do_shutdown, if `go`: the shutdown command runs unless the hibernate attempt ended the process. */
  function ShutDown(c: Config, u: Ups, r: Reading, go: bool): Ups {
    var v := Hibernated(c, ShutdownBegun(u, r, go), r, r.shutTime,
                        go && !u.status.ups.slave && c.killOnPowerfail);
    var runs := go && !v.flags.terminated;
    v.(flags := v.flags.(terminated := v.flags.terminated || (runs && c.terminateOnPowerfail)),
       log := LogIf(LogIf(v.log, runs, Execute(DoShutdown)), runs, ClearFiles))
  }

  predicate ShutsDown(k: EventKind) {
    k == Failing || k == Timeout || k == RunLimit || k == LoadLimit || k == Emergency || k == RemoteDown
  }

  /** generate_event: six kinds of event bring the system down, unless it is going down already. */
  function Generated(c: Config, u: Ups, r: Reading, k: EventKind): Ups {
    var log := LogIf(LogIf(u.log, true, Event(k)), ShutsDown(k), Announce(DoShutdown));
    ShutDown(c, u.(log := log), r, ShutsDown(k) && !u.status.local.shutdown)
  }

  predicate ReplacementSilenced(c: Config, u: Ups, r: Reading) {
    r.now - c.startTime < 60 * 10 || u.complaints.count > 5
  }

  /** Complain about an old battery: not in the first ten minutes, at most every nine hours, and not
      when it has been done more than five times. */
  predicate Complains(c: Config, u: Ups, r: Reading) {
    r.replaceBatt && !ReplacementSilenced(c, u, r) && r.now - u.complaints.last > 60 * 60 * 9
  }

  /** After the driver's update, the first-pass initialisation (every set bit except battery-present shall
      look like a change) and the battery-replacement complaint. */
  function Prepared(c: Config, u: Ups, r: Reading): Ups {
    var first := u.flags.first;
    var silenced := r.replaceBatt && ReplacementSilenced(c, u, r);
    var complains := Complains(c, u, r);
    Ups(Status(r.ups, r.replaceBatt && !silenced,
               if r.fastPoll then u.status.local.(fastPoll := true) else u.status.local),
        if first then NO_STATUS.(ups := NO_STATUS.ups.(battPresent := true)) else u.prev,
        if first then LineTimers(r.now, r.now, r.now) else u.line,
        u.cutoff, u.outage, u.selfTest,
        if silenced then u.complaints.(count := 0)
        else if complains then Complaints(r.now, u.complaints.count + 1) else u.complaints,
        u.shutDown, if first then u.flags.(first := false) else u.flags, LogIf(u.log, complains, Event(ChangeMe)))
  }

  /** The state in which the switch on GetState is entered: the battery's coming or going was reported, and
      the rising edge of battery-low started its timer. */
  function Polled(c: Config, u: Ups, r: Reading): Ups {
    BatteryNoted(Prepared(c, u, r), r)
  }

  function BatteryNoted(p: Ups, r: Reading): Ups {
    var moved := p.status.ups.battPresent != p.prev.ups.battPresent;
    p.(cutoff := if p.status.ups.battLow && !p.prev.ups.battLow then p.cutoff.(lbatt := r.now) else p.cutoff,
       log := LogIf(p.log, moved, Event(if p.status.ups.battPresent then BattAttach else BattDetach)))
  }

  function OnMains(u: Ups, r: Reading): Ups {
    u.(status := u.status.(local := u.status.local.(fastPoll := false)), line := LineTimers(r.now, r.now, r.now))
  }

  function PowerFails(u: Ups, r: Reading): Ups {
    var st := if r.selfTest.Some? then r.selfTest.value else u.selfTest.running;
    u.(status := u.status.(local := u.status.local.(fastPoll := true)),
       selfTest := u.selfTest.(running := st), line := LineTimers(r.now, r.now, r.now),
       outage := u.outage.(lastOn := r.now, xfers := u.outage.xfers + 1),
       log := LogIf(u.log, true, Event(if st != 0 then StartSelfTest else PowerOut)))
  }

  /** A self test may take 40 seconds; after that, or on low battery, it is taken for a power failure. */
  function DuringSelfTest(u: Ups, r: Reading): Ups {
    if r.now - u.selfTest.running < 40 && !u.status.ups.battLow then u
    else u.(selfTest := u.selfTest.(running := 0))
  }

  predicate Confirms(c: Config, u: Ups, r: Reading) {
    !u.status.local.onBattMsg && r.checkTime - u.line.onLine >= c.onBattDelay
  }

  function Confirmed(u: Ups, r: Reading): Ups {
    u.(status := u.status.(local := u.status.local.(onBattMsg := true)), line := LineTimers(r.now, r.now, r.now),
       log := LogIf(u.log, true, Event(OnBattery)))
  }

  /** Shutdown was requested but we still run: try to kill the power every killdelay seconds. */
  predicate KillDue(c: Config, u: Ups, r: Reading) {
    c.killDelay != 0 && r.now - u.shutDown >= c.killDelay
  }

  function StillRunning(c: Config, u: Ups, r: Reading): Ups {
    if !KillDue(c, u, r) then u else
      var v := Hibernated(c, u, r, r.now, !u.status.ups.slave);
      if v.flags.terminated then v else v.(shutDown := r.now)
  }

  predicate TimesOut(c: Config, u: Ups, r: Reading) {
    c.maxTime > 0 && r.now - u.line.onLine > c.maxTime
  }

  predicate LowCharge(c: Config, r: Reading) { c.hasBattLevel && r.battChg <= c.percent as real }

  predicate LowRuntime(c: Config, r: Reading) { c.hasRunTime && r.timeLeft <= c.runtime as real }

  function ChargeCutoff(c: Config, u: Ups, r: Reading): Ups {
    var l := u.status.local;
    u.(status := u.status.(local := l.(shutLoad := LowCharge(c, r))),
       cutoff := if LowCharge(c, r) && !l.shutLoad then u.cutoff.(load := r.now) else u.cutoff)
  }

  function RuntimeCutoff(c: Config, u: Ups, r: Reading): Ups {
    var l := u.status.local;
    u.(status := u.status.(local := l.(shutLtime := LowRuntime(c, r))),
       cutoff := if LowRuntime(c, r) && !l.shutLtime then u.cutoff.(ltime := r.now) else u.cutoff)
  }

  /** Each cutoff flag follows its condition; its timer starts when the flag rises. */
  function Cutoffs(c: Config, u: Ups, r: Reading): Ups {
    RuntimeCutoff(c, ChargeCutoff(c, u, r), r)
  }

  /** Which shutdown timer, if any, has been running for five seconds; else whether the battery is dead
      (low while the UPS claims to be on line). `u` is the state after the cutoffs were evaluated. */
  function Critical(u: Ups, r: Reading): Option<EventKind> {
    if u.status.ups.battLow && r.now - u.cutoff.lbatt >= 5 then Some(Failing)
    else if u.status.local.shutLoad && r.now - u.cutoff.load >= 5 then Some(LoadLimit)
    else if u.status.local.shutLtime && r.now - u.cutoff.ltime >= 5 then Some(RunLimit)
    else if u.status.ups.battLow && u.status.ups.online then Some(Emergency)
    else None
  }

  predicate LogoffDue(c: Config, u: Ups, r: Reading) {
    r.now - u.line.onLine > c.annoyDelay && r.now - u.line.annoy > c.annoy && u.flags.nologinFile
  }

  predicate NologinDue(c: Config, u: Ups, r: Reading) {
    match c.nologinMode
    case Never => false
    case AfterTimeout => r.now - u.line.nologon > c.nologinTime
    case AtPercent => c.hasBattLevel && c.nologinTime as real >= r.battChg
    case AtMinutes => c.hasRunTime && c.nologinTime as real >= r.timeLeft
    case Always => true
  }

  /** Requests to log off (logged as an event the first time only), then the ban on new logins. */
  function Nagged(c: Config, u: Ups, r: Reading): Ups {
    var annoy := LogoffDue(c, u, r);
    var again := u.flags.requestedLogoff;
    var ban := !u.flags.nologinFile && NologinDue(c, u, r);
    u.(line := u.line.(annoy := if annoy then r.annoyTime else u.line.annoy),
       flags := u.flags.(requestedLogoff := annoy || again, nologinFile := u.flags.nologinFile || ban),
       log := LogIf(LogIf(LogIf(u.log, annoy && again, Execute(AnnoyMe)), annoy && !again, Event(AnnoyMe)),
                    ban, ProhibitLogins))
  }

  /** The critical event, if any, that a pass on battery generates while no shutdown is under way. */
  function Reached(c: Config, u: Ups, r: Reading): (k: Option<EventKind>) {
    if TimesOut(c, u, r) then Some(Timeout) else Critical(Cutoffs(c, u, r), r)
  }

  function TimedOut(c: Config, u: Ups, r: Reading): Ups {
    Generated(c, u.(status := u.status.(local := u.status.local.(shutBtime := true))), r, Timeout)
  }

  /** On battery, evaluated cutoffs `u`, critical condition `k`: only an emergency goes on to the nagging. */
  function CriticalReached(c: Config, u: Ups, r: Reading, k: EventKind): Ups {
    var l := u.status.local;
    var v := Generated(c, u.(status := u.status.(local := l.(shutEmerg := l.shutEmerg || k == Emergency))), r, k);
    if k != Emergency || v.flags.terminated then v else Nagged(c, v, r)
  }

  function NotYetShutDown(c: Config, u: Ups, r: Reading): Ups {
    if TimesOut(c, u, r) then TimedOut(c, u, r)
    else
      var v := Cutoffs(c, u, r);
      match Critical(v, r)
      case Some(k) => CriticalReached(c, v, r, k)
      case None => Nagged(c, v, r)
  }

  function OnBatteries(c: Config, u: Ups, r: Reading): Ups {
    if Confirms(c, u, r) then Confirmed(u, r)
    else if u.status.local.shutdown then StillRunning(c, u, r)
    else NotYetShutDown(c, u, r)
  }

  /** The outage lasted from the last power failure, if one was seen, until now. */
  function OutageBooked(u: Ups, r: Reading): Ups {
    var on := if u.outage.lastOn <= 0 then r.now else u.outage.lastOn;
    u.(outage := OutageBook(on, r.now, u.outage.xfers, u.outage.total + (r.now - on)))
  }

  /** The end of an outage or self test is announced. */
  function OutageEnds(u: Ups): Ups {
    var msg, tested := u.status.local.onBattMsg, u.selfTest.running != 0;
    var log := LogIf(u.log, msg, Event(OffBattery));
    u.(status := if msg then u.status.(local := u.status.local.(onBattMsg := false)) else u.status,
       selfTest := if tested then SelfTests(0, u.selfTest.running) else u.selfTest,
       log := LogIf(LogIf(LogIf(log, tested, SelfTestReport), tested, Execute(EndSelfTest)),
                    !tested, Event(MainsBack)))
  }

  function PowerReturns(u: Ups, r: Reading): Ups {
    var v := OutageEnds(u);
    OutageBooked(v.(flags := v.flags.(nologinFile := false, requestedLogoff := false),
                    log := LogIf(LogIf(v.log, v.flags.nologinFile, AllowLogins), true, RemoveNologinFile)), r)
  }

  function Act(c: Config, u: Ups, r: Reading): Ups {
    match GetState(u)
    case Mains => OnMains(u, r)
    case PowerFailure => PowerFails(u, r)
    case SelfTest => DuringSelfTest(u, r)
    case Battery => OnBatteries(c, u, r)
    case MainsReturned => PowerReturns(u, r)
    case Calibration => u
  }

  function RemoteShutdown(c: Config, u: Ups, r: Reading): Ups {
    if u.status.ups.shutRemote != u.prev.ups.shutRemote then Generated(c, u, r, RemoteDown) else u
  }

  /** One call of do_action, preceded by the driver's update. A process that has ended does nothing. */
  function Pass(c: Config, u: Ups, r: Reading): Ups {
    if u.flags.terminated then u else
      var v := if r.ups.shutRemote then RemoteShutdown(c, Prepared(c, u, r), r) else Act(c, Polled(c, u, r), r);
      if v.flags.terminated then v else v.(prev := v.status)
  }

  /** device_wait_time. */
  function WaitTime(c: Config, u: Ups): int {
    var base := if u.status.local.fastPoll || !u.status.ups.battPresent then 1
                else if u.status.ups.commLost then 5
                else c.pollTime;
    var data := if c.dataTime != 0 && c.dataTime < base then c.dataTime else base;
    var stat := if c.statTime != 0 && c.statTime < data then c.statTime else data;
    if stat < 1 then 1 else stat
  }
}
