/** UPSINFO and the methods of src/action.c and src/device.c that update it in place, each proved to do what
    the corresponding function of module Action says. */
module UpsDaemon {
  import opened Options
  import opened UpsState
  import opened Action
  import opened ActionFacts
  import opened Runs
  import opened Opening
  import Reaction

  class UpsInfo {
    const config: Config

    // items a driver reports
    var status: Status
    var battChg: real
    var timeLeft: real

    // internal state, grouped as in UpsState.Ups
    var prevStatus: Status
    var line: LineTimers
    var cutoff: CutoffTimers
    var outage: OutageBook
    var selfTest: SelfTests
    var complaints: Complaints
    var shutDown: int
    var flags: Flags
    var waitTime: int

    // what the process did to the outside world
    var log: seq<Effect>

    ghost function View(): Ups
      reads this
    {
      Ups(status, prevStatus, line, cutoff, outage, selfTest, complaints, shutDown, flags, log)
    }

    constructor (config: Config)
      ensures this.config == config && View() == BOOT
    {
      this.config := config;
      status, prevStatus, battChg, timeLeft := NO_STATUS, NO_STATUS, 0.0, 0.0;
      line, cutoff, outage := LineTimers(0, 0, 0), CutoffTimers(0, 0, 0), OutageBook(0, 0, 0, 0);
      selfTest, complaints, shutDown := SelfTests(0, 0), Complaints(0, 0), 0;
      flags, waitTime, log := Flags(true, false, false, false), 0, [];
    }

    method InitiateHibernate(r: Reading, at: int)
      modifies `log, `flags
      ensures View() == Hibernated(config, old(View()), r, at, true)
    {
      hide Count, Attempts, AttemptsGuarded;
      log := log + [Hibernate(at)];
      if !r.powerfailFile && (!config.dumbUps || status.ups.onBatt) {
        log := log + [AbortHibernate];
        flags := flags.(terminated := true);
      } else if config.upsClass == ShareSlave {
        log := log + [ShareSlaveGiveUp];
      } else {
        log := log + [KillPower];
      }
    }

    method ProhibitUserLogins()
      modifies `log, `flags
      ensures flags == old(flags).(nologinFile := true)
      ensures log == if old(flags.nologinFile) then old(log) else old(log) + [ProhibitLogins]
    {
      if flags.nologinFile {
        return;
      }
      log := log + [ProhibitLogins];
      flags := flags.(nologinFile := true);
    }

    /** The part of do_shutdown before the power is touched. */
    method BeginShutdown(r: Reading)
      modifies `log, `flags, `status, `shutDown
      ensures View() == ShutdownBegun(old(View()), r, true)
      ensures status.ups == old(status.ups) && flags.terminated == old(flags.terminated)
    {
      hide Count, Attempts, AttemptsGuarded;
      shutDown := r.shutTime;
      status := status.(local := status.local.(shutdown := true));
      log := log + [DeleteLockFile];
      status := status.(local := status.local.(fastPoll := true));
      log := log + [MakePowerfailFile];
      ProhibitUserLogins();
    }

    method DoShutdown(r: Reading)
      requires !flags.terminated
      modifies `log, `flags, `status, `shutDown
      ensures View() == ShutDown(config, old(View()), r, !old(status.local.shutdown))
    {
      hide Count, Attempts, AttemptsGuarded, Hibernated, ShutdownBegun;
      ghost var u := View();
      if status.local.shutdown {
        ShutDownIdle(config, u, r);
        return;
      }
      BeginShutdown(r);
      if !status.ups.slave && config.killOnPowerfail {
        InitiateHibernate(r, r.shutTime);
        if flags.terminated {
          return;
        }
      } else {
        HibernateIdle(config, View(), r, r.shutTime);
      }
      log := log + [Execute(EventKind.DoShutdown)];
      log := log + [ClearFiles];
      if config.terminateOnPowerfail {
        flags := flags.(terminated := true);
      }
    }

    method GenerateEvent(r: Reading, k: EventKind)
      requires !flags.terminated
      modifies `log, `flags, `status, `shutDown
      ensures View() == Generated(config, old(View()), r, k)
      ensures !ShutsDown(k) ==> status == old(status) && flags == old(flags) && shutDown == old(shutDown) &&
                                log == old(log) + [Event(k)]
    {
      hide Count, Attempts, AttemptsGuarded, ShutDown;
      log := log + [Event(k)];
      if ShutsDown(k) {
        log := log + [Announce(EventKind.DoShutdown)];
        DoShutdown(r);
      } else {
        ShutDownIdle(config, View(), r);
      }
    }

    /** generate_event for the kinds that do not shut down. */
    method Report(r: Reading, k: EventKind)
      requires !flags.terminated && !ShutsDown(k)
      modifies `log, `flags, `status, `shutDown
      ensures status == old(status) && flags == old(flags) && shutDown == old(shutDown)
      ensures log == old(log) + [Event(k)]
    {
      hide Count, Attempts, AttemptsGuarded, Generated;
      GenerateEvent(r, k);
    }

    /** open_ups: the device cannot be opened at the times `failures`, and then it can. The restored communication
        is only reported if its loss was. */
    method OpenUps(failures: seq<int>)
      requires Ordered(failures)
      modifies `log, `status
      ensures status == WithCommLost(old(status), false)
      ensures var count := |Announced(config.startTime, failures)|;
              log == old(log) + Announcements(count) + if count > 0 then [Event(CommOk)] else []
    {
      hide Announced, Announcements, WithCommLost;
      var eventTime, i := 0, 0;
      ghost var a := Announced(config.startTime, failures[..0]);
      NothingAnnounced(config.startTime, failures);
      assert old(log) + [] == old(log);
      while i < |failures|
        invariant i <= |failures| && a == Announced(config.startTime, failures[..i])
        invariant eventTime == if a == [] then 0 else a[|a| - 1]
        invariant a != [] ==> eventTime > 0 && i > 0
        invariant status == if i == 0 then old(status) else WithCommLost(old(status), true)
        invariant log == old(log) + Announcements(|a|)
      {
        AnnouncedStep(config.startTime, failures, i);
        OneMore(|a|);
        CommLostTwice(status, old(status));
        eventTime := AnnounceLoss(failures[i], eventTime, a);
        i := i + 1;
        a := Announced(config.startTime, failures[..i]);
      }
      assert failures[..i] == failures;
      CommLostTwice(status, old(status));
      ReportRestored(eventTime);
    }

    /** The end of open_ups. */
    method ReportRestored(eventTime: int)
      modifies `log, `status
      ensures status == WithCommLost(old(status), false)
      ensures log == old(log) + if old(status.ups.commLost) && eventTime != 0 then [Event(CommOk)] else []
    {
      if status.ups.commLost {
        status := status.(ups := status.ups.(commLost := false));
        if eventTime != 0 {
          log := log + [Event(CommOk)];
        }
      }
    }

    /** One failed attempt, at the time `now`. */
    method AnnounceLoss(now: int, last: int, ghost a: seq<int>) returns (eventTime: int)
      requires now > 0 && last == if a == [] then 0 else a[|a| - 1]
      requires a != [] ==> last > 0
      modifies `log, `status
      ensures var due := now - config.startTime >= GRACE_PERIOD && (a == [] || now - last >= REMINDER);
              && eventTime == (if due then now else last)
              && log == old(log) + (if !due then [] else if a == [] then [Event(CommFailure)]
                                    else [Announce(CommFailure)])
              && status == WithCommLost(old(status), true)
    {
      eventTime := last;
      status := status.(ups := status.ups.(commLost := true));
      if now - config.startTime >= GRACE_PERIOD {
        if eventTime == 0 {
          log := log + [Event(CommFailure)];
          eventTime := now;
        }
        if now - eventTime >= REMINDER {
          eventTime := now;
          log := log + [Announce(CommFailure)];
        }
      }
    }

    /** The driver has just updated this object with what `r` reports. */
    ghost predicate Holds(r: Reading)
      reads this
    {
      && status.ups == r.ups && status.replaceBatt == r.replaceBatt
      && (r.fastPoll ==> status.local.fastPoll) && battChg == r.battChg && timeLeft == r.timeLeft
    }

    /** First-pass initialisation. */
    method FirstPass(r: Reading)
      modifies `flags, `prevStatus, `line
      ensures flags == old(flags).(first := false)
      ensures line == if old(flags.first) then LineTimers(r.now, r.now, r.now) else old(line)
      ensures prevStatus == if old(flags.first) then NO_STATUS.(ups := NO_STATUS.ups.(battPresent := true))
                            else old(prevStatus)
    {
      if flags.first {
        flags := flags.(first := false);
        line := line.(nologon := r.now, annoy := r.now);
        line := line.(onLine := r.now);
        prevStatus := NO_STATUS.(ups := NO_STATUS.ups.(battPresent := true));
      }
    }

    /** The replace-battery complaint. */
    method Complain(r: Reading)
      requires !flags.terminated
      modifies `log, `flags, `status, `shutDown, `complaints
      ensures flags == old(flags) && shutDown == old(shutDown)
      ensures var mute := old(status.replaceBatt) &&
                          (r.now - config.startTime < 60 * 10 || old(complaints.count) > 5);
              var loud := old(status.replaceBatt) && !mute && r.now - old(complaints.last) > 60 * 60 * 9;
              && status == old(status).(replaceBatt := old(status.replaceBatt) && !mute)
              && complaints == (if mute then old(complaints).(count := 0)
                                else if loud then Complaints(r.now, old(complaints.count) + 1) else old(complaints))
              && log == if loud then old(log) + [Event(ChangeMe)] else old(log)
    {
      if status.replaceBatt {
        if r.now - config.startTime < 60 * 10 || complaints.count > 5 {
          status := status.(replaceBatt := false);
          complaints := complaints.(count := 0);
        } else if r.now - complaints.last > 60 * 60 * 9 {
          Report(r, ChangeMe);
          complaints := complaints.(last := r.now);
          complaints := complaints.(count := complaints.count + 1);
        }
      }
    }

    method Prepare(r: Reading)
      requires Holds(r) && !flags.terminated
      modifies `log, `flags, `status, `shutDown, `prevStatus, `line, `complaints
      ensures View() == Prepared(config, old(View()), r)
    {
      FirstPass(r);
      Complain(r);
    }

    /** The battery's coming or going, and the rising edge of battery-low. */
    method NoteBattery(r: Reading)
      requires !flags.terminated
      modifies `log, `flags, `status, `shutDown, `cutoff
      ensures View() == BatteryNoted(old(View()), r)
    {
      hide Count, Attempts, AttemptsGuarded;
      if status.ups.battPresent != prevStatus.ups.battPresent {
        if status.ups.battPresent {
          Report(r, BattAttach);
        } else {
          Report(r, BattDetach);
        }
      }
      assert View() == old(View()).(log := BatteryNoted(old(View()), r).log);
      if status.ups.battLow != prevStatus.ups.battLow {
        if status.ups.battLow {
          cutoff := cutoff.(lbatt := r.now);
        }
      }
    }

    method OnMainsPower(r: Reading)
      modifies `line, `status
      ensures View() == OnMains(old(View()), r)
    {
      line := line.(nologon := r.now, annoy := r.now);
      line := line.(onLine := r.now);
      status := status.(local := status.local.(fastPoll := false));
    }

    /** Asks the driver whether a self test is running and reports that, or a power failure. */
    method CheckSelfTest(r: Reading)
      requires !flags.terminated
      modifies `log, `flags, `status, `shutDown, `selfTest
      ensures flags == old(flags) && shutDown == old(shutDown) && status == old(status)
      ensures selfTest == old(selfTest).(
                running := if r.selfTest.Some? then r.selfTest.value else old(selfTest.running))
      ensures log == old(log) + [Event(if selfTest.running != 0 then StartSelfTest else PowerOut)]
    {
      if r.selfTest.Some? {
        selfTest := selfTest.(running := r.selfTest.value);
      }
      if selfTest.running != 0 {
        Report(r, StartSelfTest);
      } else {
        Report(r, PowerOut);
      }
    }

    method PowerFailed(r: Reading)
      requires !flags.terminated
      modifies `log, `flags, `status, `shutDown, `selfTest, `line, `outage
      ensures View() == PowerFails(old(View()), r)
    {
      hide Count, Attempts, AttemptsGuarded;
      status := status.(local := status.local.(fastPoll := true));
      CheckSelfTest(r);
      line := line.(nologon := r.now, annoy := r.now);
      line := line.(onLine := r.now);
      outage := outage.(lastOn := r.now);
      outage := outage.(xfers := outage.xfers + 1);
    }

    method SelfTesting(r: Reading)
      modifies `selfTest
      ensures View() == DuringSelfTest(old(View()), r)
    {
      if r.now - selfTest.running < 40 && !status.ups.battLow {
        return;
      }
      selfTest := selfTest.(running := 0);
    }

    method ConfirmOnBattery(r: Reading)
      requires !flags.terminated
      modifies `log, `flags, `status, `shutDown, `line
      ensures View() == Confirmed(old(View()), r)
    {
      hide Count, Attempts, AttemptsGuarded;
      status := status.(local := status.local.(onBattMsg := true));
      Report(r, OnBattery);
      line := line.(nologon := r.now, annoy := r.now);
      line := line.(onLine := r.now);
    }

    method RestartKillTimer(r: Reading)
      requires status.local.shutdown
      modifies `shutDown, `status
      ensures shutDown == r.now && status == old(status)
    {
      shutDown := r.now;
      status := status.(local := status.local.(shutdown := true));
    }

    method KillAgain(r: Reading)
      requires !flags.terminated && status.local.shutdown
      modifies `log, `flags, `shutDown, `status
      ensures View() == StillRunning(config, old(View()), r)
    {
      hide Count, Attempts, AttemptsGuarded, Hibernated;
      if config.killDelay != 0 && r.now - shutDown >= config.killDelay {
        if !status.ups.slave {
          InitiateHibernate(r, r.now);
          if flags.terminated {
            return;
          }
        } else {
          HibernateIdle(config, View(), r, r.now);
        }
        RestartKillTimer(r);
      }
    }

    method EvaluateCharge(r: Reading)
      requires battChg == r.battChg
      modifies `status, `cutoff
      ensures View() == ChargeCutoff(config, old(View()), r)
    {
      if config.hasBattLevel && battChg <= config.percent as real {
        if !status.local.shutLoad {
          status := status.(local := status.local.(shutLoad := true));
          cutoff := cutoff.(load := r.now);
        }
      } else {
        status := status.(local := status.local.(shutLoad := false));
      }
    }

    method EvaluateRuntime(r: Reading)
      requires timeLeft == r.timeLeft
      modifies `status, `cutoff
      ensures View() == RuntimeCutoff(config, old(View()), r)
    {
      if config.hasRunTime && timeLeft <= config.runtime as real {
        if !status.local.shutLtime {
          status := status.(local := status.local.(shutLtime := true));
          cutoff := cutoff.(ltime := r.now);
        }
      } else {
        status := status.(local := status.local.(shutLtime := false));
      }
    }

    /** Requests to log off. */
    method RequestLogoff(r: Reading)
      requires !flags.terminated
      modifies `log, `flags, `status, `shutDown, `line
      ensures status == old(status) && shutDown == old(shutDown)
      ensures var due := LogoffDue(config, old(View()), r);
              && line == (if due then old(line).(annoy := r.annoyTime) else old(line))
              && flags == old(flags).(requestedLogoff := due || old(flags.requestedLogoff))
              && log == if !due then old(log)
                        else old(log) + [if old(flags.requestedLogoff) then Execute(AnnoyMe) else Event(AnnoyMe)]
    {
      if r.now - line.onLine > config.annoyDelay && r.now - line.annoy > config.annoy && flags.nologinFile {
        if !flags.requestedLogoff {
          Report(r, AnnoyMe);
        } else {
          log := log + [Execute(AnnoyMe)];
        }
        line := line.(annoy := r.annoyTime);
        flags := flags.(requestedLogoff := true);
      }
    }

    /** The ban on new logins. */
    method DelayLogins(r: Reading)
      requires battChg == r.battChg && timeLeft == r.timeLeft
      modifies `log, `flags
      ensures var ban := !old(flags.nologinFile) && NologinDue(config, old(View()), r);
              && flags == (if ban then old(flags).(nologinFile := true) else old(flags))
              && log == if ban then old(log) + [ProhibitLogins] else old(log)
    {
      if !flags.nologinFile {
        match config.nologinMode
        case Never =>
        case AfterTimeout =>
          if r.now - line.nologon > config.nologinTime {
            ProhibitUserLogins();
          }
        case AtPercent =>
          if config.hasBattLevel && config.nologinTime as real >= battChg {
            ProhibitUserLogins();
          }
        case AtMinutes =>
          if config.hasRunTime && config.nologinTime as real >= timeLeft {
            ProhibitUserLogins();
          }
        case Always =>
          ProhibitUserLogins();
      }
    }

    method AnnoyUsers(r: Reading)
      requires !flags.terminated && battChg == r.battChg && timeLeft == r.timeLeft
      modifies `log, `flags, `status, `shutDown, `line
      ensures View() == Nagged(config, old(View()), r)
    {
      hide LogoffDue;
      RequestLogoff(r);
      DelayLogins(r);
    }

    /** On battery, no shutdown under way: look for a reason to shut down, else annoy the users. */
    method HuntForShutdown(r: Reading)
      requires !flags.terminated && battChg == r.battChg && timeLeft == r.timeLeft
      modifies `log, `flags, `status, `shutDown, `line, `cutoff
      ensures View() == NotYetShutDown(config, old(View()), r)
    {
      hide Count, Attempts, AttemptsGuarded, Generated, Nagged, ChargeCutoff, RuntimeCutoff;
      if config.maxTime > 0 && r.now - line.onLine > config.maxTime {
        status := status.(local := status.local.(shutBtime := true));
        GenerateEvent(r, Timeout);
        return;
      }
      EvaluateCharge(r);
      EvaluateRuntime(r);
      ActOnTimers(r);
    }

    /** The three expired timers and the dead battery, in this order. */
    method ActOnTimers(r: Reading)
      requires !flags.terminated && battChg == r.battChg && timeLeft == r.timeLeft
      modifies `log, `flags, `status, `shutDown, `line
      ensures View() == match Critical(old(View()), r)
                        case Some(k) => CriticalReached(config, old(View()), r, k)
                        case None => Nagged(config, old(View()), r)
    {
      hide Count, Attempts, AttemptsGuarded, Generated, Nagged, CriticalReached;
      OrdinaryCritical(config, View(), r);
      if status.ups.battLow && r.now - cutoff.lbatt >= 5 {
        GenerateEvent(r, Failing);
        return;
      }
      if status.local.shutLoad && r.now - cutoff.load >= 5 {
        GenerateEvent(r, LoadLimit);
        return;
      }
      if status.local.shutLtime && r.now - cutoff.ltime >= 5 {
        GenerateEvent(r, RunLimit);
        return;
      }
      AnnoyOrEmergency(r);
    }

    method AnnoyOrEmergency(r: Reading)
      requires !flags.terminated && battChg == r.battChg && timeLeft == r.timeLeft
      modifies `log, `flags, `status, `shutDown, `line
      ensures View() == if old(status.ups.battLow) && old(status.ups.online)
                        then CriticalReached(config, old(View()), r, Emergency)
                        else Nagged(config, old(View()), r)
    {
      hide Count, Attempts, AttemptsGuarded, Generated, Nagged;
      if status.ups.battLow && status.ups.online {
        status := status.(local := status.local.(shutEmerg := true));
        GenerateEvent(r, Emergency);
        if flags.terminated {
          return;
        }
      }
      AnnoyUsers(r);
    }

    method OnBatteryPower(r: Reading)
      requires !flags.terminated && battChg == r.battChg && timeLeft == r.timeLeft
      modifies `log, `flags, `status, `shutDown, `line, `cutoff
      ensures View() == OnBatteries(config, old(View()), r)
    {
      hide NotYetShutDown, StillRunning, Confirmed;
      if !status.local.onBattMsg && r.checkTime - line.onLine >= config.onBattDelay {
        ConfirmOnBattery(r);
        return;
      }
      if status.local.shutdown {
        KillAgain(r);
      } else {
        HuntForShutdown(r);
      }
    }

    method BookOutage(r: Reading)
      modifies `outage
      ensures View() == OutageBooked(old(View()), r)
    {
      outage := outage.(lastOff := r.now);
      if outage.lastOn <= 0 {
        outage := outage.(lastOn := outage.lastOff);
      }
      outage := outage.(total := outage.total + (outage.lastOff - outage.lastOn));
    }

    method PowerIsBack(r: Reading)
      requires !flags.terminated
      modifies `log, `flags, `status, `shutDown, `selfTest, `outage
      ensures View() == PowerReturns(old(View()), r)
    {
      hide Count, Attempts, AttemptsGuarded, OutageBooked;
      AnnounceMains(r);
      if flags.nologinFile {
        log := log + [AllowLogins];
      }
      log := log + [RemoveNologinFile];
      flags := flags.(nologinFile := false);
      flags := flags.(requestedLogoff := false);
      BookOutage(r);
    }

    /** No longer on batteries, if that was reported. */
    method ReportOffBattery(r: Reading)
      requires !flags.terminated
      modifies `log, `flags, `status, `shutDown
      ensures flags == old(flags) && shutDown == old(shutDown)
      ensures status == if old(status.local.onBattMsg)
                        then old(status).(local := old(status.local).(onBattMsg := false)) else old(status)
      ensures log == if old(status.local.onBattMsg) then old(log) + [Event(OffBattery)] else old(log)
    {
      if status.local.onBattMsg {
        status := status.(local := status.local.(onBattMsg := false));
        Report(r, OffBattery);
      }
    }

    method AnnounceMains(r: Reading)
      requires !flags.terminated
      modifies `log, `flags, `status, `shutDown, `selfTest
      ensures View() == OutageEnds(old(View()))
    {
      hide Count, Attempts, AttemptsGuarded;
      ReportOffBattery(r);
      if selfTest.running != 0 {
        selfTest := selfTest.(last := selfTest.running);
        selfTest := selfTest.(running := 0);
        log := log + [SelfTestReport];
        log := log + [Execute(EndSelfTest)];
      } else {
        Report(r, MainsBack);
      }
    }

    method CurrentState() returns (s: PowerState)
      ensures s == GetState(View())
    {
      if status.ups.onBatt {
        if status.ups.calibration {
          s := Calibration;
        } else if status.ups.onBatt != prevStatus.ups.onBatt {
          s := PowerFailure;
        } else if selfTest.running != 0 {
          s := SelfTest;
        } else {
          s := Battery;
        }
      } else {
        s := if status.ups.onBatt != prevStatus.ups.onBatt then MainsReturned else Mains;
      }
    }

    /** The switch of do_action. */
    method SwitchOnState(r: Reading)
      requires !flags.terminated && battChg == r.battChg && timeLeft == r.timeLeft
      modifies `log, `flags, `status, `shutDown, `line, `cutoff, `selfTest, `outage
      ensures View() == Act(config, old(View()), r)
    {
      hide OnMains, PowerFails, DuringSelfTest, OnBatteries, PowerReturns, GetState;
      var s := CurrentState();
      match s
      case Mains => OnMainsPower(r);
      case PowerFailure => PowerFailed(r);
      case SelfTest => SelfTesting(r);
      case Battery => OnBatteryPower(r);
      case MainsReturned => PowerIsBack(r);
      case Calibration =>
    }

    /** do_action, called with the driver's update in place. */
    method DoAction(r: Reading)
      requires Holds(r) && !flags.terminated
      modifies `log, `flags, `status, `shutDown, `prevStatus, `line, `complaints, `cutoff, `selfTest, `outage
      ensures View() == Pass(config, old(View()), r)
    {
      hide Prepared, BatteryNoted, Act, Generated, LogIf;
      Prepare(r);
      ghost var p := View();
      PreparedFacts(config, old(View()), r);
      if status.ups.shutRemote {
        if status.ups.shutRemote != prevStatus.ups.shutRemote {
          GenerateEvent(r, RemoteDown);
        }
        Remember();
        return;
      }
      NoteBattery(r);
      PolledFacts(config, old(View()), r);
      SwitchOnState(r);
      Remember();
    }

    /** A process that has ended remembers nothing more. */
    method Remember()
      modifies `prevStatus
      ensures View() == if flags.terminated then old(View()) else old(View()).(prev := status)
    {
      if !flags.terminated {
        prevStatus := status;
      }
    }

    /** fillUPS, or whatever the driver does while it waits: the reported bits change, the local ones stay. */
    method FillUps(r: Reading)
      modifies `status, `battChg, `timeLeft
      ensures View() == Observe(old(View()), r) && Holds(r)
    {
      var local := status.local;
      if r.fastPoll {
        local := local.(fastPoll := true);
      }
      status := Status(r.ups, r.replaceBatt, local);
      battChg, timeLeft := r.battChg, r.timeLeft;
    }

    /** The least of the intervals that apply, but at least a second: one second under fast polling or without a
        battery, else five seconds while communication is lost, else the configured interval; and the intervals
        for data and status if they are configured. */
    method DeviceWaitTime() returns (wait: int)
      ensures var base := if status.local.fastPoll || !status.ups.battPresent then 1
                          else if status.ups.commLost then 5 else config.pollTime;
              var data, stat := config.dataTime, config.statTime;
              && wait >= 1
              && (wait == 1 <==> base <= 1 || (data != 0 && data <= 1) || (stat != 0 && stat <= 1))
              && (wait > 1 ==> wait <= base && (data != 0 ==> wait <= data) && (stat != 0 ==> wait <= stat) &&
                               (wait == base || wait == data || wait == stat))
      ensures wait == WaitTime(config, View())
    {
      if status.local.fastPoll || !status.ups.battPresent {
        wait := 1;
      } else if status.ups.commLost {
        wait := 1 * 5;
      } else {
        wait := config.pollTime;
      }
      if config.dataTime != 0 && config.dataTime < wait {
        wait := config.dataTime;
      }
      if config.statTime != 0 && config.statTime < wait {
        wait := config.statTime;
      }
      if wait < 1 {
        wait := 1;
      }
    }

    method ActBeforePolling(r: Reading)
      requires !flags.terminated
      modifies this
      ensures View() == Pass(config, old(View()), r)
      ensures waitTime == WaitTime(config, Observe(old(View()), r))
    {
      hide Pass, Observe, WaitTime;
      ObserveIsAbsorbed(config, View(), r);
      FillUps(r);
      waitTime := DeviceWaitTime();
      DoAction(r);
    }

    method PollAndAct(r: Reading)
      modifies this
      ensures View() == if old(flags.terminated) then old(View()) else Pass(config, old(View()), r)
      ensures !flags.terminated ==> waitTime == WaitTime(config, View())
    {
      hide Pass, Observe, WaitTime;
      if !flags.terminated {
        ObserveIsAbsorbed(config, View(), r);
        FillUps(r);
        DoAction(r);
        waitTime := DeviceWaitTime();
      }
    }

    /** The loop of do_device over a script of readings: two passes per round, until the script or the
        process ends. The run theorems about Runs.After therefore hold of this loop. `waits` are the values of
        wait_time with which the driver is told to wait for the next change of state. */
    method DoDevice(rounds: seq<(Reading, Reading)>) returns (waits: seq<int>)
      requires View() == BOOT
      modifies this
      ensures View() == After(config, Passes(rounds), 2 * |rounds|)
      ensures |waits| <= |rounds| && (!flags.terminated ==> |waits| == |rounds|)
      ensures forall k :: 0 <= k < |waits| ==> waits[k] == WaitTime(config, After(config, Passes(rounds), 2 * k + 2))
    {
      hide Pass, After, WaitTime;
      StepOf(config, Passes(rounds), 0);
      var i := 0;
      waits := [];
      while i < |rounds| && !flags.terminated
        invariant |waits| <= i <= |rounds| && (!flags.terminated ==> |waits| == i)
        invariant View() == After(config, Passes(rounds), 2 * i)
        invariant forall k :: 0 <= k < |waits| ==>
                    waits[k] == WaitTime(config, After(config, Passes(rounds), 2 * k + 2))
      {
        StepOf(config, Passes(rounds), 2 * i + 1);
        StepOf(config, Passes(rounds), 2 * i + 2);
        ActBeforePolling(rounds[i].0);
        PollAndAct(rounds[i].1);
        if !flags.terminated {
          waits := waits + [waitTime];
        }
        i := i + 1;
      }
      if i < |rounds| {
        EndedStaysEnded(config, Passes(rounds), 2 * i, 2 * |rounds|);
      }
    }
  }

  function WithCommLost(s: Status, lost: bool): Status { s.(ups := s.ups.(commLost := lost)) }

  lemma CommLostTwice(s: Status, was: Status)
    requires s == was || s == WithCommLost(was, true)
    ensures WithCommLost(s, true) == WithCommLost(was, true) && WithCommLost(s, false) == WithCommLost(was, false)
    ensures s == WithCommLost(was, true) ==> s.ups.commLost
  {
  }

  lemma OneMore(count: nat)
    ensures Announcements(count + 1) ==
            Announcements(count) + [if count == 0 then Event(CommFailure) else Announce(CommFailure)]
  {
  }

  lemma NothingAnnounced(start: int, failures: seq<int>)
    ensures Announced(start, failures[..0]) == [] && Announcements(0) == []
  {
  }

  /** Only an emergency leaves a mark in the status. */
  lemma OrdinaryCritical(c: Config, u: Ups, r: Reading)
    ensures forall k :: k != Emergency ==> CriticalReached(c, u, r, k) == Generated(c, u, r, k)
  {
    hide Generated, Nagged;
    assert u == u.(status := u.status.(local := u.status.local.(shutEmerg := u.status.local.shutEmerg)));
  }

  /** The readings of the passes of some rounds, in order. */
  ghost function Passes(rounds: seq<(Reading, Reading)>): (rs: seq<Reading>)
    ensures |rs| == 2 * |rounds|
  {
    seq(2 * |rounds|, i requires 0 <= i < 2 * |rounds| => if i % 2 == 0 then rounds[i / 2].0 else rounds[i / 2].1)
  }

  /** A pass of a live process may find the driver's update already in place. */
  lemma {:induction false} ObserveIsAbsorbed(c: Config, u: Ups, r: Reading)
    requires !u.flags.terminated
    ensures Pass(c, Observe(u, r), r) == Pass(c, u, r)
  {
    hide LogIf;
    assert Prepared(c, Observe(u, r), r) == Prepared(c, u, r);
  }

  lemma {:induction false} EndedStaysEnded(c: Config, rs: seq<Reading>, m: nat, n: nat)
    requires m <= n <= |rs| && After(c, rs, m).flags.terminated
    ensures After(c, rs, n) == After(c, rs, m)
  {
    hide After, Pass;
    if m < n {
      EndedStaysEnded(c, rs, m, n - 1);
      StepOf(c, rs, n);
    }
  }

  /** The driver is told to wait one second, for as long as an outage goes on: `waits` is what DoDevice yields
      for the rounds. */
  lemma {:induction false} OutageIsPolledEverySecond(c: Config, rounds: seq<(Reading, Reading)>, waits: seq<int>,
                                                     k: nat, j: nat, gap: int)
    requires |waits| <= |rounds|
    requires forall m :: 0 <= m < |waits| ==> waits[m] == WaitTime(c, After(c, Passes(rounds), 2 * m + 2))
    requires k <= j < 2 * |rounds| && Reaction.OutageFrom(c, Passes(rounds), k, j, gap)
    requires c.maxTime > 0 && c.onBattDelay >= 0 && gap >= 0
    ensures forall m :: 0 <= m < |waits| && k < 2 * m + 2 <= j + 1 ==> waits[m] == 1
  {
    hide After, WaitTime, Reaction.OutageFrom;
    Reaction.BoundedReaction(c, Passes(rounds), k, j, gap);
  }
}
