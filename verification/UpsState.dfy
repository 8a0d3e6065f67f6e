/** The state that one polling pass of the daemon reads and writes: the status bits of
    include/struct.h, the timers and counters of UPSINFO, and the effects that leave the process. */
module UpsState {
  import opened Options

  /** The bits of UPSINFO::Status that a driver sets. Module StatusWord relates the fields of Reported
      and Local to the bit masks of the status word. */
  datatype Reported = Reported(
    calibration: bool, trim: bool, boost: bool, online: bool, onBatt: bool, overload: bool,
    battLow: bool, commLost: bool, slave: bool, slaveDown: bool,
    shutRemote: bool, plugged: bool, battPresent: bool)

  /** The bits that only the event engine changes (a driver may also set fastPoll). */
  datatype Local = Local(
    shutdown: bool, onBattMsg: bool, fastPoll: bool,
    shutLoad: bool, shutBtime: bool, shutLtime: bool, shutEmerg: bool)

  /** The replace-battery bit is set by a driver and cleared by the engine. */
  datatype Status = Status(ups: Reported, replaceBatt: bool, local: Local)

  const NO_STATUS := Status(
    Reported(false, false, false, false, false, false, false, false, false, false, false, false, false),
    false,
    Local(false, false, false, false, false, false, false))

  datatype NologinMode = Never | AfterTimeout | AtPercent | AtMinutes | Always

  datatype UpsClass = NoClass | Standalone | ShareSlave | ShareMaster

  /** What the configuration file and the capability query fix before the first pass. */
  datatype Config = Config(
    maxTime: int, onBattDelay: int, killDelay: int, percent: int, runtime: int,
    annoy: int, annoyDelay: int, nologinMode: NologinMode, nologinTime: int,
    hasBattLevel: bool, hasRunTime: bool, startTime: int,
    killOnPowerfail: bool, terminateOnPowerfail: bool,
    dumbUps: bool, upsClass: UpsClass, pollTime: int, dataTime: int, statTime: int)

  datatype EventKind =
    | PowerOut | OnBattery | Failing | Timeout | LoadLimit | RunLimit | DoShutdown | MainsBack
    | AnnoyMe | Emergency | ChangeMe | RemoteDown | CommFailure | CommOk
    | StartSelfTest | EndSelfTest | OffBattery | BattDetach | BattAttach

  /** Everything observable that a pass does to the outside world. */
  datatype Effect =
    | Event(kind: EventKind)       // message logged and script run
    | Announce(kind: EventKind)    // message logged only
    | Execute(kind: EventKind)     // script run only
    | DeleteLockFile
    | MakePowerfailFile
    | ClearFiles
    | ProhibitLogins               // no-login file written, "User logins prohibited" logged
    | AllowLogins                  // "Allowing logins" logged
    | RemoveNologinFile            // the no-login file is unlinked
    | SelfTestReport
    | Hibernate(at: int)           // initiate_hibernate entered; `at` is the clock reading it answers to
    | KillPower
    | ShareSlaveGiveUp
    | AbortHibernate               // powerfail file missing: the process ends

  /** last_time_on_line, last_time_annoy, last_time_nologon */
  datatype LineTimers = LineTimers(onLine: int, annoy: int, nologon: int)

  /** start_shut_load, start_shut_ltime, start_shut_lbatt */
  datatype CutoffTimers = CutoffTimers(load: int, ltime: int, lbatt: int)

  /** last_onbatt_time, last_offbatt_time, num_xfers, cum_time_on_batt */
  datatype OutageBook = OutageBook(lastOn: int, lastOff: int, xfers: int, total: int)

  /** SelfTest, LastSelfTest */
  datatype SelfTests = SelfTests(running: int, last: int)

  /** last_time_changeme, ChangeBattCounter */
  datatype Complaints = Complaints(last: int, count: int)

  /** The two statics of do_action, nologin_file, and whether the process has ended. */
  datatype Flags = Flags(first: bool, requestedLogoff: bool, nologinFile: bool, terminated: bool)

  datatype Ups = Ups(status: Status, prev: Status, line: LineTimers, cutoff: CutoffTimers,
                     outage: OutageBook, selfTest: SelfTests, complaints: Complaints, shutDown: int,
                     flags: Flags, log: seq<Effect>)

  /** The daemon as it enters its poll loop: no bit set, no timer started, nothing logged. */
  const BOOT := Ups(NO_STATUS, NO_STATUS, LineTimers(0, 0, 0), CutoffTimers(0, 0, 0), OutageBook(0, 0, 0, 0),
                    SelfTests(0, 0), Complaints(0, 0), 0, Flags(true, false, false, false), [])

  /** What the environment contributes to one pass: the bits, charge and runtime the driver left in
      UPSINFO, the successive clock readings of the pass, the answer to the self-test query (None when
      the driver leaves SelfTest alone) and whether the powerfail file can be opened. */
  datatype Reading = Reading(
    ups: Reported, replaceBatt: bool, fastPoll: bool, battChg: real, timeLeft: real,
    now: int, checkTime: int, shutTime: int, annoyTime: int,
    selfTest: Option<int>, powerfailFile: bool)

  /** The driver rewrites the bits the UPS reports. It keeps the local bits, except that it may set
      (never clear) fastpoll, as the network driver does with its master's bit. */
  function Observe(u: Ups, r: Reading): Ups {
    u.(status := Status(r.ups, r.replaceBatt,
                        u.status.local.(fastPoll := u.status.local.fastPoll || r.fastPoll)))
  }

  function Bit(b: bool): nat { if b then 1 else 0 }

  /** How often `e` occurs in `log`. */
  function Count(log: seq<Effect>, e: Effect): nat { multiset(log)[e] }

  /** The stamps of the hibernate attempts in `log`, oldest first. */
  function Attempts(log: seq<Effect>): seq<int> {
    if log == [] then []
    else Attempts(log[..|log| - 1]) + (if log[|log| - 1].Hibernate? then [log[|log| - 1].at] else [])
  }

  /** Every hibernate attempt in `log` has a creation of the powerfail file before it. */
  predicate AttemptsGuarded(log: seq<Effect>) {
    forall i :: 0 <= i < |log| && log[i].Hibernate? ==> MakePowerfailFile in log[..i]
  }

  /** The log after an effect that happens when `b` holds. */
  function LogIf(log: seq<Effect>, b: bool, e: Effect): seq<Effect> { if b then log + [e] else log }

  /** What one effect does to each view of the log. */
  lemma {:induction false} LogView(log: seq<Effect>, e: Effect)
    ensures forall x :: Count(log + [e], x) == Count(log, x) + (if x == e then 1 else 0)
    ensures Attempts(log + [e]) == if e.Hibernate? then Attempts(log) + [e.at] else Attempts(log)
    ensures AttemptsGuarded(log + [e]) <==>
            AttemptsGuarded(log) && (e.Hibernate? ==> Count(log, MakePowerfailFile) > 0)
  {
    var l := log + [e];
    assert l[..|log|] == log;
    assert forall i :: 0 <= i < |log| ==> l[..i] == log[..i];
  }

  lemma {:induction false} LogViews()
    ensures forall log, b, e, x :: Count(LogIf(log, b, e), x) == Count(log, x) + (if b && x == e then 1 else 0)
    ensures forall log, b, e :: Attempts(LogIf(log, b, e)) ==
                                if b && e.Hibernate? then Attempts(log) + [e.at] else Attempts(log)
    ensures forall log, b, e :: AttemptsGuarded(LogIf(log, b, e)) <==>
              AttemptsGuarded(log) && (b && e.Hibernate? ==> Count(log, MakePowerfailFile) > 0)
  {
    hide Count, Attempts, AttemptsGuarded;
    forall log: seq<Effect>, b: bool, e: Effect
      ensures forall x :: Count(LogIf(log, b, e), x) == Count(log, x) + (if b && x == e then 1 else 0)
      ensures Attempts(LogIf(log, b, e)) == if b && e.Hibernate? then Attempts(log) + [e.at] else Attempts(log)
      ensures AttemptsGuarded(LogIf(log, b, e)) <==>
              AttemptsGuarded(log) && (b && e.Hibernate? ==> Count(log, MakePowerfailFile) > 0)
    {
      LogView(log, e);
    }
  }

  lemma EmptyLog()
    ensures forall e :: Count(BOOT.log, e) == 0
    ensures Attempts(BOOT.log) == [] && AttemptsGuarded(BOOT.log)
  {
  }
}
