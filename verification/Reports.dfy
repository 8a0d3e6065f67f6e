/** Over whole runs: which reports the edges of power, battery and network leave behind. */
module Reports {
  import opened Options
  import opened UpsState
  import opened Action
  import opened ActionFacts
  import opened PassFacts
  import opened Runs
  import opened Outage
  import opened Effects
  import opened Outcomes

  /** Reports of edges: of mains power, of the battery, of remote shutdown. */
  predicate IsReport(e: Effect) {
    || e == Event(PowerOut) || e == Event(StartSelfTest) || e == Event(MainsBack)
    || e == Execute(EndSelfTest) || e == SelfTestReport
    || e == Event(BattAttach) || e == Event(BattDetach) || e == Event(RemoteDown)
  }

  predicate NoReport(s: seq<Effect>) { forall e :: e in s ==> !IsReport(e) }

  lemma NoReportJoin(a: seq<Effect>, b: seq<Effect>)
    requires NoReport(a) && NoReport(b)
    ensures NoReport(a + b)
  {
  }

  lemma {:induction false} DownIsNoReport(c: Config, r: Reading, nologin: bool)
    ensures NoReport(DownEffects(c, r, nologin))
  {
    hide KillsFirst, Refused, NoReport;
    var a := [DeleteLockFile, MakePowerfailFile];
    var b, k := When(!nologin, [ProhibitLogins]), When(KillsFirst(c, r), KillEffects(c, r, r.shutTime));
    var d := When(!(KillsFirst(c, r) && Refused(c, r)), [Execute(DoShutdown), ClearFiles]);
    assert NoReport(a) && NoReport(b) by { ShortIsNoReport(a); ShortIsNoReport(b); }
    assert NoReport(k) by { KillIsNoReport(c, r, r.shutTime); ShortIsNoReport([]); }
    assert NoReport(d) by { ShortIsNoReport(d); }
    NoReportJoin(a, b);
    NoReportJoin(a + b, k);
    NoReportJoin(a + b + k, d);
  }

  lemma ShortIsNoReport(s: seq<Effect>)
    requires |s| <= 2 && forall i :: 0 <= i < |s| ==> !IsReport(s[i])
    ensures NoReport(s)
  {
  }

  lemma KillIsNoReport(c: Config, r: Reading, at: int)
    ensures NoReport(KillEffects(c, r, at))
  {
    hide Refused;
  }

  lemma {:induction false} CriticalIsNoReport(c: Config, r: Reading, k: EventKind, down: bool, nologin: bool)
    requires ShutsDown(k) && k != RemoteDown
    ensures NoReport(CriticalEffects(c, r, k, down, nologin))
  {
    hide DownEffects, NoReport;
    DownIsNoReport(c, r, nologin);
    ShortIsNoReport([Event(k), Announce(DoShutdown)]);
    ShortIsNoReport([]);
    NoReportJoin([Event(k), Announce(DoShutdown)], When(!down, DownEffects(c, r, nologin)));
  }

  lemma {:induction false} HuntIsNoReport(c: Config, u: Ups, reason: Option<EventKind>, r: Reading)
    requires reason.Some? ==> ShutsDown(reason.value) && reason.value != RemoteDown
    ensures NoReport(HuntEffects(c, u, reason, r))
  {
    hide CriticalEffects, KillsFirst, Refused, Bans;
    if reason.Some? { CriticalIsNoReport(c, r, reason.value, false, u.flags.nologinFile); }
  }

  lemma ReasonShutsDown(c: Config, timers: CutoffTimers, local: Local, lowBefore: bool, r: Reading)
    ensures var k := Reason(c, timers, local, lowBefore, r); k.Some? ==> ShutsDown(k.value) && k.value != RemoteDown
  {
  }

  lemma {:induction false} BatteryIsNoReport(c: Config, u: Ups, reason: Option<EventKind>, r: Reading)
    requires reason.Some? ==> ShutsDown(reason.value) && reason.value != RemoteDown
    ensures NoReport(BatteryEffects(c, u, reason, r))
  {
    hide CriticalEffects, HuntEffects, Refused;
    CriticalIsNoReport(c, r, Timeout, false, u.flags.nologinFile);
    HuntIsNoReport(c, u, reason, r);
  }

  lemma NoReportNoCount(s: seq<Effect>)
    requires NoReport(s)
    ensures forall e :: IsReport(e) ==> Count(s, e) == 0
  {
  }

  /** How often each report is made. */
  datatype Tally = Tally(powerOut: int, startTest: int, mainsBack: int, endTest: int, testReport: int,
                         attach: int, detach: int, remote: int)

  function TallyOf(s: seq<Effect>): Tally {
    Tally(Count(s, Event(PowerOut)), Count(s, Event(StartSelfTest)), Count(s, Event(MainsBack)),
          Count(s, Execute(EndSelfTest)), Count(s, SelfTestReport),
          Count(s, Event(BattAttach)), Count(s, Event(BattDetach)), Count(s, Event(RemoteDown)))
  }

  function Plus(a: Tally, b: Tally): Tally {
    Tally(a.powerOut + b.powerOut, a.startTest + b.startTest, a.mainsBack + b.mainsBack, a.endTest + b.endTest,
          a.testReport + b.testReport, a.attach + b.attach, a.detach + b.detach, a.remote + b.remote)
  }

  const NOTHING := Tally(0, 0, 0, 0, 0, 0, 0, 0)

  lemma {:induction false} TallyAppend(a: seq<Effect>, b: seq<Effect>)
    ensures TallyOf(a + b) == Plus(TallyOf(a), TallyOf(b))
  {
    hide Count;
    CountAppend(a, b);
  }

  lemma NothingTold(s: seq<Effect>)
    requires NoReport(s)
    ensures TallyOf(s) == NOTHING
  {
    hide Count, NoReport;
    NoReportNoCount(s);
  }

  /** What is no report around it changes nothing. */
  lemma {:induction false} QuietAround(a: seq<Effect>, s: seq<Effect>, b: seq<Effect>)
    requires NoReport(a) && NoReport(b)
    ensures TallyOf(a + s + b) == TallyOf(s)
  {
    hide NoReport, TallyOf;
    NothingTold(a);
    NothingTold(b);
    TallyAppend(a, s);
    TallyAppend(a + s, b);
  }

  lemma RemoteHead()
    ensures TallyOf([Event(RemoteDown), Announce(DoShutdown)]) == NOTHING.(remote := 1)
  {
  }

  lemma NothingReported(s: seq<Effect>)
    requires s == []
    ensures NoReport(s) && TallyOf(s) == NOTHING
  {
  }

  /** The reports of a pass: a power failure is told as POWEROUT, or as STARTSELFTEST while a self test runs; the
      return of mains as MAINSBACK, or as the end of that test; each change of the battery's presence once; and the
      rise of remote shutdown once. Under remote shutdown nothing else is seen. */
  function ReportsOf(u: Ups, r: Reading): Tally {
    var b := Before(u);
    var test := (if r.selfTest.Some? then r.selfTest.value else u.selfTest.running) != 0;
    if r.ups.shutRemote then NOTHING.(remote := Bit(!b.shutRemote))
    else
      var fails, ends := r.ups.onBatt && !r.ups.calibration && !b.onBatt, !r.ups.onBatt && b.onBatt;
      Tally(Bit(fails && !test), Bit(fails && test), Bit(ends && u.selfTest.running == 0),
            Bit(ends && u.selfTest.running != 0), Bit(ends && u.selfTest.running != 0),
            Bit(r.ups.battPresent && !b.battPresent), Bit(!r.ups.battPresent && b.battPresent), 0)
  }

  lemma {:induction false} RemoteTold(c: Config, u: Ups, b: Reported, r: Reading)
    ensures TallyOf(RemoteEffects(c, u, b, r)) == NOTHING.(remote := Bit(!b.shutRemote))
  {
    hide DownEffects, TallyOf, NoReport;
    if b.shutRemote {
      NothingReported(RemoteEffects(c, u, b, r));
    } else {
      var head := [Event(RemoteDown), Announce(DoShutdown)];
      var tail := When(!u.status.local.shutdown, DownEffects(c, r, u.flags.nologinFile));
      DownIsNoReport(c, r, u.flags.nologinFile);
      NothingReported([]);
      RemoteHead();
      QuietAround([], head, tail);
      assert [] + head + tail == RemoteEffects(c, u, b, r);
    }
  }

  lemma {:induction false} ReturnTold(u: Ups)
    ensures TallyOf(ReturnEffects(u)) ==
            if u.selfTest.running != 0 then NOTHING.(endTest := 1, testReport := 1) else NOTHING.(mainsBack := 1)
  {
    hide NoReport, TallyOf;
    var a := When(u.status.local.onBattMsg, [Event(OffBattery)]);
    var b := if u.selfTest.running != 0 then [SelfTestReport, Execute(EndSelfTest)] else [Event(MainsBack)];
    var d := When(u.flags.nologinFile, [AllowLogins]) + [RemoveNologinFile];
    ShortIsNoReport(a);
    ShortIsNoReport(d);
    QuietAround(a, b, d);
    EndTold(u.selfTest.running != 0, b);
    assert a + b + d == ReturnEffects(u);
  }

  lemma EndTold(test: bool, b: seq<Effect>)
    requires b == if test then [SelfTestReport, Execute(EndSelfTest)] else [Event(MainsBack)]
    ensures TallyOf(b) == if test then NOTHING.(endTest := 1, testReport := 1) else NOTHING.(mainsBack := 1)
  {
  }

  lemma EdgeTold(k: EventKind)
    requires k == PowerOut || k == StartSelfTest || k == BattAttach || k == BattDetach
    ensures TallyOf([Event(k)]) ==
            Tally(Bit(k == PowerOut), Bit(k == StartSelfTest), 0, 0, 0, Bit(k == BattAttach), Bit(k == BattDetach), 0)
  {
  }

  lemma {:induction false} SwitchTold(c: Config, u: Ups, reason: Option<EventKind>, r: Reading)
    requires !r.ups.shutRemote
    requires reason.Some? ==> ShutsDown(reason.value) && reason.value != RemoteDown
    ensures TallyOf(SwitchEffects(c, u, reason, Before(u).onBatt, r)) == ReportsOf(u, r).(attach := 0, detach := 0)
  {
    hide BatteryEffects, ReturnEffects, TallyOf, NoReport, Before;
    BatteryIsNoReport(c, u, reason, r);
    NothingTold(BatteryEffects(c, u, reason, r));
    ShortIsNoReport([]);
    NothingTold([]);
    ReturnTold(u);
    EdgeTold(PowerOut);
    EdgeTold(StartSelfTest);
  }

  lemma {:induction false} OrdinaryReports(c: Config, u: Ups, reason: Option<EventKind>, r: Reading)
    requires !r.ups.shutRemote
    requires reason.Some? ==> ShutsDown(reason.value) && reason.value != RemoteDown
    ensures TallyOf(BatteryEdge(Before(u), r) + SwitchEffects(c, u, reason, Before(u).onBatt, r)) == ReportsOf(u, r)
  {
    hide SwitchEffects, BatteryEdge, TallyOf, Before;
    SwitchTold(c, u, reason, r);
    BatteryTold(Before(u), r);
    TallyAppend(BatteryEdge(Before(u), r), SwitchEffects(c, u, reason, Before(u).onBatt, r));
  }

  lemma {:induction false} PassReports(c: Config, u: Ups, r: Reading)
    ensures TallyOf(PassEffects(c, u, r)) == ReportsOf(u, r)
  {
    hide RemoteEffects, SwitchEffects, BatteryEdge, ComplaintEffects, TallyOf, NoReport, Before, Reason;
    var b, x := Before(u), ComplaintEffects(c, u, r);
    var reason := Reason(c, u.cutoff, u.status.local, b.battLow, r);
    var t := if r.ups.shutRemote then RemoteEffects(c, u, b, r)
             else BatteryEdge(b, r) + SwitchEffects(c, u, reason, b.onBatt, r);
    assert PassEffects(c, u, r) == x + t + [];
    ComplaintIsNoReport(c, u, r);
    NothingReported([]);
    QuietAround(x, t, []);
    if r.ups.shutRemote {
      RemoteTold(c, u, b, r);
    } else {
      ReasonShutsDown(c, u.cutoff, u.status.local, b.battLow, r);
      OrdinaryReports(c, u, reason, r);
    }
  }

  lemma ComplaintIsNoReport(c: Config, u: Ups, r: Reading)
    ensures NoReport(ComplaintEffects(c, u, r))
  {
  }

  lemma {:induction false} BatteryTold(b: Reported, r: Reading)
    ensures TallyOf(BatteryEdge(b, r)) ==
            NOTHING.(attach := Bit(r.ups.battPresent && !b.battPresent),
                     detach := Bit(!r.ups.battPresent && b.battPresent))
  {
    hide TallyOf;
    NothingReported([]);
    EdgeTold(BattAttach);
    EdgeTold(BattDetach);
  }

  /** In every run each pass of a live process makes exactly the reports of the edges it sees. */
  lemma {:induction false} ReportsAreExact(c: Config, rs: seq<Reading>, i: nat)
    requires i < |rs|
    ensures var u := After(c, rs, i);
            TallyOf(After(c, rs, i + 1).log) ==
            Plus(TallyOf(u.log), if u.flags.terminated then NOTHING else ReportsOf(u, rs[i]))
  {
    hide Count, After, Pass, PassEffects, ReportsOf, TallyOf;
    StepOf(c, rs, i + 1);
    var u := After(c, rs, i);
    if u.flags.terminated {
      NothingAdded(TallyOf(u.log));
    } else {
      PassLog(c, u, rs[i]);
      PassReports(c, u, rs[i]);
      TallyAppend(u.log, PassEffects(c, u, rs[i]));
    }
  }

  lemma NothingAdded(t: Tally)
    ensures Plus(t, NOTHING) == t
  {
  }

  /** Every failure and every return of power that the engine sees is told exactly once. */
  lemma {:induction false} OutagesAreTold(c: Config, rs: seq<Reading>, n: nat)
    requires n <= |rs|
    ensures var t := TallyOf(After(c, rs, n).log);
            && t.powerOut + t.startTest == Entries(c, rs, n, PowerFailure)
            && t.mainsBack + t.endTest == Entries(c, rs, n, MainsReturned) && t.testReport == t.endTest
  {
    hide Count, After, Pass, Enters, ReportsOf, TallyOf;
    StepOf(c, rs, n);
    if n == 0 {
      NothingReported(BOOT.log);
    } else {
      OutagesAreTold(c, rs, n - 1);
      ReportsAreExact(c, rs, n - 1);
      var u := After(c, rs, n - 1);
      if u.flags.terminated {
        NobodyEnters(c, u, rs[n - 1]);
      } else {
        BranchOf(c, u, rs[n - 1], Before(u).onBatt);
        OutageReports(c, u, rs[n - 1]);
      }
    }
  }

  lemma OutageReports(c: Config, u: Ups, r: Reading)
    requires Enters(c, u, r, PowerFailure) <==>
             !r.ups.shutRemote && r.ups.onBatt && !Before(u).onBatt && !r.ups.calibration
    requires Enters(c, u, r, MainsReturned) <==> !r.ups.shutRemote && !r.ups.onBatt && Before(u).onBatt
    ensures var t := ReportsOf(u, r);
            && t.powerOut + t.startTest == Bit(Enters(c, u, r, PowerFailure))
            && t.mainsBack + t.endTest == Bit(Enters(c, u, r, MainsReturned)) && t.testReport == t.endTest
  {
    hide Enters;
  }

  lemma NobodyEnters(c: Config, u: Ups, r: Reading)
    requires u.flags.terminated
    ensures !Enters(c, u, r, PowerFailure) && !Enters(c, u, r, MainsReturned)
  {
  }

  /** A self test is taken from the driver at a power failure, given up by exactly those passes on battery at which it
      is 40 seconds old or the battery is low, and ended by the return of mains. */
  lemma {:induction false} SelfTestIsExact(c: Config, rs: seq<Reading>, i: nat)
    requires i < |rs| && !After(c, rs, i).flags.terminated
    ensures var t, r := After(c, rs, i).selfTest, rs[i];
            After(c, rs, i + 1).selfTest ==
            if r.ups.shutRemote || (r.ups.onBatt && r.ups.calibration) then t
            else if r.ups.onBatt && !OnBattBefore(rs, i) then
              t.(running := if r.selfTest.Some? then r.selfTest.value else t.running)
            else if r.ups.onBatt && t.running != 0 && (r.now - t.running >= 40 || r.ups.battLow) then t.(running := 0)
            else if !r.ups.onBatt && OnBattBefore(rs, i) && t.running != 0 then SelfTests(0, t.running)
            else t
  {
    hide Count, After, Pass, Enters;
    StepOf(c, rs, i + 1);
    Remembers(c, rs, i);
    BranchOf(c, After(c, rs, i), rs[i], OnBattBefore(rs, i));
    PassTest(c, After(c, rs, i), rs[i]);
  }

  /** Whether a battery was there at the last reading; it is taken to be there at the start. */
  ghost predicate BatteryBefore(rs: seq<Reading>, n: nat)
    requires n <= |rs|
  {
    n == 0 || rs[n - 1].ups.battPresent
  }

  /** The battery comes or goes under a remote shutdown. */
  ghost predicate HiddenBattery(rs: seq<Reading>, i: nat)
    requires i < |rs|
  {
    rs[i].ups.shutRemote && rs[i].ups.battPresent != BatteryBefore(rs, i)
  }

  /** Attachments and detachments have alternated, starting with a detachment, in step with the readings. */
  ghost predicate BatteryInStep(c: Config, rs: seq<Reading>, m: nat)
    requires m <= |rs|
  {
    var t := TallyOf(After(c, rs, m).log);
    t.detach == t.attach + Bit(!BatteryBefore(rs, m))
  }

  lemma {:induction false} BatteryStays(c: Config, rs: seq<Reading>, n: nat)
    requires n < |rs| && !After(c, rs, n).flags.terminated && BatteryInStep(c, rs, n)
    ensures BatteryInStep(c, rs, n + 1) <==> !HiddenBattery(rs, n)
  {
    hide Count, After, Pass;
    ReportsAreExact(c, rs, n);
    StepOf(c, rs, n);
    Remembers(c, rs, n);
    FirstIsFirst(c, rs, n);
  }

  /** A live process has looked at the battery. */
  lemma {:induction false} FirstIsFirst(c: Config, rs: seq<Reading>, n: nat)
    requires n <= |rs| && !After(c, rs, n).flags.terminated
    ensures Before(After(c, rs, n)).battPresent == BatteryBefore(rs, n)
  {
    hide Count, After, Pass;
    StepOf(c, rs, n);
    if n > 0 {
      Remembers(c, rs, n);
      PassStatus(c, After(c, rs, n - 1), rs[n - 1]);
    }
  }

  /** The reports of attached and detached batteries are paired throughout a run of a live process exactly if no
      change was hidden. */
  lemma {:induction false} BatteryIsPaired(c: Config, rs: seq<Reading>, n: nat)
    requires n <= |rs| && !After(c, rs, n).flags.terminated
    ensures (forall m :: 0 <= m <= n ==> BatteryInStep(c, rs, m)) <==>
            (forall i :: 0 <= i < n ==> !HiddenBattery(rs, i))
  {
    hide After, BatteryInStep, HiddenBattery;
    if n == 0 {
      NoBatteryYet(c, rs);
    } else {
      LivedBefore(c, rs, n - 1, n);
      BatteryIsPaired(c, rs, n - 1);
      if BatteryInStep(c, rs, n - 1) { BatteryStays(c, rs, n - 1); }
    }
  }

  lemma NoBatteryYet(c: Config, rs: seq<Reading>)
    ensures BatteryInStep(c, rs, 0)
  {
  }
}
