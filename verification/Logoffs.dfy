/** Requests to log off over whole runs: when they are made, and how often. */
module Logoffs {
  import opened Options
  import opened UpsState
  import opened Action
  import opened ActionFacts
  import opened PassFacts
  import opened Runs
  import opened Outage
  import opened Effects
  import opened Outcomes

  /** The pass asks the users to log off. On battery without a reason to shut down it may, and with one only if that
      is an emergency which leaves the process alive; logins must be banned, the outage be older than annoydelay and
      the last request older than annoy. */
  predicate BatteryAsks(c: Config, u: Ups, reason: Option<EventKind>, r: Reading) {
    && (u.status.local.onBattMsg || r.checkTime - u.line.onLine < c.onBattDelay)
    && !u.status.local.shutdown && !(c.maxTime > 0 && r.now - u.line.onLine > c.maxTime)
    && ((reason == None && u.flags.nologinFile) ||
        (reason == Some(Emergency) && !(KillsFirst(c, r) && Refused(c, r)) && !c.terminateOnPowerfail))
    && r.now - u.line.onLine > c.annoyDelay && r.now - u.line.annoy > c.annoy
  }

  predicate SwitchAsks(c: Config, u: Ups, reason: Option<EventKind>, onBefore: bool, r: Reading) {
    r.ups.onBatt && !r.ups.calibration && onBefore && u.selfTest.running == 0 && BatteryAsks(c, u, reason, r)
  }

  predicate Asks(c: Config, u: Ups, r: Reading) {
    !r.ups.shutRemote &&
    SwitchAsks(c, u, Reason(c, u.cutoff, u.status.local, Before(u).battLow, r), Before(u).onBatt, r)
  }

  /** The pass starts all the line timers anew. */
  predicate SwitchRestarts(c: Config, u: Ups, onBefore: bool, r: Reading) {
    if !r.ups.onBatt then !onBefore
    else !r.ups.calibration &&
         (!onBefore ||
          (u.selfTest.running == 0 && !u.status.local.onBattMsg && r.checkTime - u.line.onLine >= c.onBattDelay))
  }

  predicate Restarts(c: Config, u: Ups, r: Reading) {
    u.flags.first || (!r.ups.shutRemote && SwitchRestarts(c, u, Before(u).onBatt, r))
  }

  predicate Ends(u: Ups, r: Reading) { !r.ups.shutRemote && !r.ups.onBatt && Before(u).onBatt }

  /** What a pass does to the timers and the memory of requests. */
  ghost predicate AskStep(u: Ups, v: Ups, r: Reading, restarts: bool, asks: bool, ends: bool) {
    && v.line == (if restarts then LineTimers(r.now, r.now, r.now)
                  else if asks then u.line.(annoy := r.annoyTime) else u.line)
    && v.flags.requestedLogoff == (!ends && (u.flags.requestedLogoff || asks))
  }

  lemma {:induction false} GeneratedAsks(c: Config, u: Ups, r: Reading, k: EventKind)
    ensures AskStep(u, Generated(c, u, r, k), r, false, false, false)
    ensures ShutsDown(k) && !u.status.local.shutdown && !Generated(c, u, r, k).flags.terminated ==>
              Generated(c, u, r, k).flags.nologinFile
  {
    hide Count, Attempts, AttemptsGuarded, Generated;
    GeneratedFacts(c, u, r, k);
  }

  lemma {:induction false} NaggedAsks(c: Config, u: Ups, r: Reading)
    ensures AskStep(u, Nagged(c, u, r), r, false,
                    r.now - u.line.onLine > c.annoyDelay && r.now - u.line.annoy > c.annoy && u.flags.nologinFile,
                    false)
  {
    hide Count, Attempts, AttemptsGuarded, LogIf, NologinDue;
  }

  lemma {:induction false} CriticalAsks(c: Config, u: Ups, r: Reading, k: EventKind)
    requires !u.flags.terminated && u.status.ups == r.ups && ShutsDown(k) && !u.status.local.shutdown
    ensures AskStep(u, CriticalReached(c, u, r, k), r, false,
                    k == Emergency && !(KillsFirst(c, r) && Refused(c, r)) && !c.terminateOnPowerfail &&
                    r.now - u.line.onLine > c.annoyDelay && r.now - u.line.annoy > c.annoy, false)
  {
    hide Count, Generated, Nagged, KillsFirst, Refused;
    var l := u.status.local;
    var marked := u.(status := u.status.(local := l.(shutEmerg := l.shutEmerg || k == Emergency)));
    GeneratedLog(c, marked, r, k);
    GeneratedAsks(c, marked, r, k);
    NaggedAsks(c, Generated(c, marked, r, k), r);
  }

  lemma {:induction false} HuntAsks(c: Config, u: Ups, r: Reading)
    requires !u.flags.terminated && u.status.ups == r.ups && !u.status.local.shutdown
    requires u.status.local.onBattMsg || r.checkTime - u.line.onLine < c.onBattDelay
    ensures AskStep(u, NotYetShutDown(c, u, r), r, false, BatteryAsks(c, u, Critical(Cutoffs(c, u, r), r), r), false)
  {
    hide Generated, Nagged, CriticalReached, Critical, LowCharge, LowRuntime, KillsFirst, Refused;
    if TimesOut(c, u, r) {
      GeneratedAsks(c, u.(status := u.status.(local := u.status.local.(shutBtime := true))), r, Timeout);
    } else {
      var v := Cutoffs(c, u, r);
      CriticalIsCritical(v, r);
      match Critical(v, r)
      case Some(k) => CriticalAsks(c, v, r, k);
      case None => NaggedAsks(c, v, r);
    }
  }

  lemma StillAsksNothing(c: Config, u: Ups, r: Reading)
    ensures AskStep(u, StillRunning(c, u, r), r, false, false, false)
  {
    hide LogIf, Count;
  }

  lemma {:induction false} ActAsks(c: Config, u: Ups, r: Reading)
    requires !u.flags.terminated && u.status.ups == r.ups
    ensures AskStep(u, Act(c, u, r), r, SwitchRestarts(c, u, u.prev.ups.onBatt, r),
                    SwitchAsks(c, u, Critical(Cutoffs(c, u, r), r), u.prev.ups.onBatt, r),
                    !r.ups.onBatt && u.prev.ups.onBatt)
  {
    hide LogIf, NotYetShutDown, StillRunning, Critical, Cutoffs, KillsFirst, Refused;
    StillAsksNothing(c, u, r);
    if !u.status.local.shutdown && (u.status.local.onBattMsg || r.checkTime - u.line.onLine < c.onBattDelay) {
      HuntAsks(c, u, r);
    }
  }

  /** Preparing a pass does not change what the switch will do. */
  lemma {:induction false} AskSame(c: Config, u: Ups, p: Ups, reason: Option<EventKind>, r: Reading)
    requires Alike(u, p)
    ensures SwitchAsks(c, p, reason, Before(u).onBatt, r) == SwitchAsks(c, u, reason, Before(u).onBatt, r)
    ensures u.flags.first || SwitchRestarts(c, p, Before(u).onBatt, r) == SwitchRestarts(c, u, Before(u).onBatt, r)
    ensures u.flags.first ==> SwitchAsks(c, p, reason, Before(u).onBatt, r) == false
  {
    hide KillsFirst, Refused;
  }

  lemma {:induction false} PassAsks(c: Config, u: Ups, r: Reading)
    requires !u.flags.terminated
    ensures AskStep(u, Pass(c, u, r), r, Restarts(c, u, r), Asks(c, u, r), Ends(u, r))
  {
    hide Act, RemoteShutdown, Prepared, BatteryNoted, Prepares, RemoteKeeps, Alike, Critical, Cutoffs, Reason,
         SwitchAsks, SwitchRestarts, Before;
    Stages(c, u, r);
    var p, q := Prepared(c, u, r), Polled(c, u, r);
    PreparesMeans(u, p, r);
    PreparesMeans(u, q, r);
    PreparedRemembers(u, p, r);
    PreparedRemembers(u, q, r);
    if r.ups.shutRemote {
      RemoteAsks(c, p, r);
    } else {
      ActAsks(c, q, r);
      ReasonFound(c, u, q, r);
      AskSame(c, u, q, Reason(c, u.cutoff, u.status.local, Before(u).battLow, r), r);
    }
  }

  lemma RemoteAsks(c: Config, p: Ups, r: Reading)
    ensures AskStep(p, RemoteShutdown(c, p, r), r, false, false, false)
  {
    hide Generated;
    GeneratedAsks(c, p, r, RemoteDown);
  }

  lemma PreparedRemembers(u: Ups, p: Ups, r: Reading)
    requires Prepares(u, p, r)
    ensures p.line == (if u.flags.first then LineTimers(r.now, r.now, r.now) else u.line)
    ensures p.flags.requestedLogoff == u.flags.requestedLogoff
  {
    hide Count, Attempts, AttemptsGuarded;
  }

  // The requests in the log

  /** One request, if `asks`: the first since mains returned is logged as an event, the later ones only executed. */
  ghost predicate Told(s: seq<Effect>, asks: bool, again: bool) {
    Count(s, Event(AnnoyMe)) == Bit(asks && !again) && Count(s, Execute(AnnoyMe)) == Bit(asks && again)
  }

  predicate NoRequest(s: seq<Effect>) { Event(AnnoyMe) !in s && Execute(AnnoyMe) !in s }

  lemma {:induction false} ToldAround(a: seq<Effect>, s: seq<Effect>, b: seq<Effect>, asks: bool, again: bool)
    requires NoRequest(a) && Told(s, asks, again) && NoRequest(b)
    ensures Told(a + s + b, asks, again)
  {
    hide Count;
    NothingCounted(a);
    NothingCounted(b);
    CountAppend(a, s);
    CountAppend(a + s, b);
  }

  lemma NothingCounted(s: seq<Effect>)
    requires NoRequest(s)
    ensures Told(s, false, false) && Told(s, false, true)
  {
  }

  lemma KillIsNoRequest(c: Config, r: Reading, at: int)
    ensures NoRequest(KillEffects(c, r, at))
  {
    hide Refused;
  }

  lemma NoRequestJoin(a: seq<Effect>, b: seq<Effect>)
    requires NoRequest(a) && NoRequest(b)
    ensures NoRequest(a + b)
  {
  }

  lemma {:induction false} DownIsNoRequest(c: Config, r: Reading, nologin: bool)
    ensures NoRequest(DownEffects(c, r, nologin))
  {
    hide KillsFirst, Refused, KillEffects;
    KillIsNoRequest(c, r, r.shutTime);
    var a, k := [DeleteLockFile, MakePowerfailFile] + When(!nologin, [ProhibitLogins]),
                When(KillsFirst(c, r), KillEffects(c, r, r.shutTime));
    NoRequestJoin(a, k);
    NoRequestJoin(a + k, When(!(KillsFirst(c, r) && Refused(c, r)), [Execute(DoShutdown), ClearFiles]));
  }

  lemma {:induction false} CriticalIsNoRequest(c: Config, r: Reading, k: EventKind, down: bool, nologin: bool)
    requires k != AnnoyMe
    ensures NoRequest(CriticalEffects(c, r, k, down, nologin))
  {
    hide DownEffects;
    DownIsNoRequest(c, r, nologin);
    NoRequestJoin([Event(k), Announce(DoShutdown)], When(!down, DownEffects(c, r, nologin)));
  }

  lemma {:induction false} NaggingTold(c: Config, line: LineTimers, again: bool, nologin: bool, r: Reading)
    ensures Told(NagEffects(c, line, again, nologin, r),
                 nologin && r.now - line.onLine > c.annoyDelay && r.now - line.annoy > c.annoy, again)
  {
    hide Bans, Count;
    var asks := nologin && r.now - line.onLine > c.annoyDelay && r.now - line.annoy > c.annoy;
    var s := When(asks, [if again then Execute(AnnoyMe) else Event(AnnoyMe)]);
    var b := When(!nologin && Bans(c, line, r), [ProhibitLogins]);
    OneTold(s, asks, again);
    ToldAround([], s, b, asks, again);
    assert [] + s + b == s + b;
  }

  lemma OneTold(s: seq<Effect>, asks: bool, again: bool)
    requires s == When(asks, [if again then Execute(AnnoyMe) else Event(AnnoyMe)])
    ensures Told(s, asks, again)
  {
  }

  lemma {:induction false} HuntTold(c: Config, u: Ups, reason: Option<EventKind>, r: Reading)
    requires reason.Some? ==> reason.value != AnnoyMe
    requires !u.status.local.shutdown && !(c.maxTime > 0 && r.now - u.line.onLine > c.maxTime)
    requires u.status.local.onBattMsg || r.checkTime - u.line.onLine < c.onBattDelay
    ensures Told(HuntEffects(c, u, reason, r), BatteryAsks(c, u, reason, r), u.flags.requestedLogoff)
  {
    hide CriticalEffects, NagEffects, KillsFirst, Refused, Told, NoRequest;
    var again := u.flags.requestedLogoff;
    match reason
    case None => NaggingTold(c, u.line, again, u.flags.nologinFile, r);
    case Some(k) =>
      var s := CriticalEffects(c, r, k, false, u.flags.nologinFile);
      var goes := k == Emergency && !(KillsFirst(c, r) && Refused(c, r)) && !c.terminateOnPowerfail;
      var t := When(goes, NagEffects(c, u.line, again, true, r));
      CriticalIsNoRequest(c, r, k, false, u.flags.nologinFile);
      NaggingTold(c, u.line, again, true, r);
      NothingSaid([]);
      if !goes { NothingSaid(t); }
      ToldAround(s, t, [], BatteryAsks(c, u, reason, r), again);
      assert s + t + [] == s + t;
  }

  lemma NothingSaid(s: seq<Effect>)
    requires s == []
    ensures NoRequest(s) && Told(s, false, false) && Told(s, false, true)
  {
  }

  lemma {:induction false} BatteryTells(c: Config, u: Ups, reason: Option<EventKind>, r: Reading)
    requires reason.Some? ==> reason.value != AnnoyMe
    ensures Told(BatteryEffects(c, u, reason, r), BatteryAsks(c, u, reason, r), u.flags.requestedLogoff)
  {
    hide CriticalEffects, HuntEffects, KillEffects, KillsFirst, Refused, Count;
    var s := BatteryEffects(c, u, reason, r);
    KillIsNoRequest(c, r, r.now);
    CriticalIsNoRequest(c, r, Timeout, false, u.flags.nologinFile);
    if !u.status.local.onBattMsg && r.checkTime - u.line.onLine >= c.onBattDelay {
      NothingCounted(s);
    } else if u.status.local.shutdown || (c.maxTime > 0 && r.now - u.line.onLine > c.maxTime) {
      NothingCounted(s);
    } else {
      HuntTold(c, u, reason, r);
    }
  }

  lemma {:induction false} SwitchTells(c: Config, u: Ups, reason: Option<EventKind>, before: bool, r: Reading)
    requires reason.Some? ==> reason.value != AnnoyMe
    ensures Told(SwitchEffects(c, u, reason, before, r), SwitchAsks(c, u, reason, before, r), u.flags.requestedLogoff)
  {
    hide BatteryEffects, BatteryAsks, Count;
    BatteryTells(c, u, reason, r);
    if !(r.ups.onBatt && !r.ups.calibration && before && u.selfTest.running == 0) {
      NothingCounted(SwitchEffects(c, u, reason, before, r));
    }
  }

  lemma {:induction false} PassTells(c: Config, u: Ups, r: Reading)
    ensures Told(PassEffects(c, u, r), Asks(c, u, r), u.flags.requestedLogoff)
  {
    hide SwitchEffects, SwitchAsks, RemoteEffects, BatteryEdge, ComplaintEffects, Reason, Before, Told, NoRequest;
    var b, x := Before(u), ComplaintEffects(c, u, r);
    var reason := Reason(c, u.cutoff, u.status.local, b.battLow, r);
    QuietStart(c, u, b, r);
    NothingSaid([]);
    if r.ups.shutRemote {
      RemoteIsNoRequest(c, u, b, r);
      ToldAround(x, [], RemoteEffects(c, u, b, r), false, u.flags.requestedLogoff);
      assert x + [] + RemoteEffects(c, u, b, r) == PassEffects(c, u, r);
    } else {
      var s := SwitchEffects(c, u, reason, b.onBatt, r);
      ReasonIsNoRequest(c, u.cutoff, u.status.local, b.battLow, r);
      SwitchTells(c, u, reason, b.onBatt, r);
      ToldAround(x + BatteryEdge(b, r), s, [], Asks(c, u, r), u.flags.requestedLogoff);
      assert x + BatteryEdge(b, r) + s + [] == PassEffects(c, u, r);
    }
  }

  lemma QuietStart(c: Config, u: Ups, b: Reported, r: Reading)
    ensures NoRequest(ComplaintEffects(c, u, r)) && NoRequest(ComplaintEffects(c, u, r) + BatteryEdge(b, r))
  {
  }

  lemma RemoteIsNoRequest(c: Config, u: Ups, b: Reported, r: Reading)
    ensures NoRequest(RemoteEffects(c, u, b, r))
  {
    hide CriticalEffects;
    CriticalIsNoRequest(c, r, RemoteDown, u.status.local.shutdown, u.flags.nologinFile);
  }

  lemma ReasonIsNoRequest(c: Config, timers: CutoffTimers, local: Local, lowBefore: bool, r: Reading)
    ensures Reason(c, timers, local, lowBefore, r) != Some(AnnoyMe)
  {
  }

  // Over runs

  /** Pass `i` asks the users to log off. */
  ghost predicate AsksAt(c: Config, rs: seq<Reading>, i: nat)
    requires i < |rs|
  {
    !After(c, rs, i).flags.terminated && Asks(c, After(c, rs, i), rs[i])
  }

  /** In every run exactly the asking passes make a request, one each, and log it as an event exactly if it is the
      first since mains returned. */
  lemma {:induction false} RequestsAreExact(c: Config, rs: seq<Reading>, i: nat)
    requires i < |rs|
    ensures var u, v := After(c, rs, i), After(c, rs, i + 1);
            && Count(v.log, Event(AnnoyMe)) ==
               Count(u.log, Event(AnnoyMe)) + Bit(AsksAt(c, rs, i) && !u.flags.requestedLogoff)
            && Count(v.log, Execute(AnnoyMe)) ==
               Count(u.log, Execute(AnnoyMe)) + Bit(AsksAt(c, rs, i) && u.flags.requestedLogoff)
  {
    hide Count, After, Pass, PassEffects, Asks;
    StepOf(c, rs, i + 1);
    var u := After(c, rs, i);
    if !u.flags.terminated {
      PassLog(c, u, rs[i]);
      PassTells(c, u, rs[i]);
      CountAppend(u.log, PassEffects(c, u, rs[i]));
    }
  }

  lemma {:induction false} RequestRemembered(c: Config, rs: seq<Reading>, i: nat)
    requires i < |rs|
    ensures var u, v := After(c, rs, i), After(c, rs, i + 1);
            v.flags.requestedLogoff ==
            (!EntersAt(c, rs, i, MainsReturned) && (u.flags.requestedLogoff || AsksAt(c, rs, i)))
    ensures var u, v := After(c, rs, i), After(c, rs, i + 1);
            u.line.annoy <= v.line.annoy || v.line.annoy == rs[i].now || v.line.annoy == rs[i].annoyTime
  {
    hide Count, After, Pass, Enters, Asks, Restarts;
    StepOf(c, rs, i + 1);
    var u := After(c, rs, i);
    if u.flags.terminated {
      NobodyReturns(c, u, rs[i]);
    } else {
      PassAsks(c, u, rs[i]);
      BranchOf(c, u, rs[i], Before(u).onBatt);
    }
  }

  lemma NobodyReturns(c: Config, u: Ups, r: Reading)
    requires u.flags.terminated
    ensures !Enters(c, u, r, MainsReturned)
  {
  }

  /** A request was made since mains last returned. */
  ghost predicate AskedSince(c: Config, rs: seq<Reading>, n: nat)
    requires n <= |rs|
  {
    exists k :: 0 <= k < n && AsksAt(c, rs, k) && forall j :: k <= j < n ==> !EntersAt(c, rs, j, MainsReturned)
  }

  lemma {:induction false} AskedBefore(c: Config, rs: seq<Reading>, n: nat)
    requires 0 < n <= |rs|
    ensures AskedSince(c, rs, n) <==>
            !EntersAt(c, rs, n - 1, MainsReturned) && (AsksAt(c, rs, n - 1) || AskedSince(c, rs, n - 1))
  {
    hide AsksAt, EntersAt;
    if AskedSince(c, rs, n) {
      var k :| 0 <= k < n && AsksAt(c, rs, k) && forall j :: k <= j < n ==> !EntersAt(c, rs, j, MainsReturned);
    }
  }

  /** requested_logoff tells just that. */
  lemma {:induction false} RequestedIffAsked(c: Config, rs: seq<Reading>, n: nat)
    requires n <= |rs|
    ensures After(c, rs, n).flags.requestedLogoff <==> AskedSince(c, rs, n)
  {
    hide After, Pass, AsksAt, EntersAt;
    if n == 0 {
      StepOf(c, rs, n);
    } else {
      hide AskedSince;
      RequestedIffAsked(c, rs, n - 1);
      RequestRemembered(c, rs, n - 1);
      AskedBefore(c, rs, n);
    }
  }

  /** After a request the timer never shows an earlier time. */
  lemma {:induction false} TimerStays(c: Config, rs: seq<Reading>, i: nat, n: nat)
    requires i < n <= |rs| && ClockOrdered(rs) && AsksAt(c, rs, i)
    ensures After(c, rs, n).line.annoy >= rs[i].annoyTime
    decreases n
  {
    hide Count, After, Pass, Asks, Restarts, Before;
    StepOf(c, rs, n);
    var u := After(c, rs, n - 1);
    if i == n - 1 {
      PassAsks(c, u, rs[i]);
      AskingRestartsNothing(c, u, rs[i]);
    } else {
      TimerStays(c, rs, i, n - 1);
      RequestRemembered(c, rs, n - 1);
    }
  }

  lemma AskingRestartsNothing(c: Config, u: Ups, r: Reading)
    ensures Asks(c, u, r) ==> !Restarts(c, u, r)
  {
    hide Reason, KillsFirst, Refused;
  }

  lemma AskingIsLate(c: Config, u: Ups, r: Reading)
    ensures Asks(c, u, r) ==> r.now - u.line.annoy > c.annoy && r.now - u.line.onLine > c.annoyDelay
  {
    hide Reason, KillsFirst, Refused;
  }

  /** Any two requests to log off are more than `annoy` seconds apart. */
  lemma {:induction false} RequestsArePaced(c: Config, rs: seq<Reading>, i: nat, j: nat)
    requires i < j < |rs| && ClockOrdered(rs) && AsksAt(c, rs, i) && AsksAt(c, rs, j)
    ensures rs[j].now - rs[i].annoyTime > c.annoy
  {
    hide After, Asks, ClockOrdered;
    TimerStays(c, rs, i, j);
    AskingIsLate(c, After(c, rs, j), rs[j]);
  }
}
