/** src/lib/atimer.cpp on src/lib/athread.cpp: the restartable one-shot timer as a system of steps of the
    threads that use it and of the timer threads it creates. */
module ATimer {
  import opened Options

  /** Who runs start(): a thread that uses the timer, or the timeout callback on a timer thread. */
  datatype Caller = User(c: nat) | Callback(i: nat)

  /** Who holds _mutex, and where: in start() before run() looked at _running, in start() between the creation
      of the thread and _running = true, or in body() at the test of _started. */
  datatype Holder = Free | Armed(who: Caller) | Created(who: Caller) | Testing(i: nat)

  /** How a wait on the condition variable ended. */
  datatype Outcome = Timeout | Error | Wakeup

  /** Where a timer thread stands. Leaving has left body(), Ending has cleared _running. */
  datatype Phase =
    | Entering | AtTest | Waiting | Woken(outcome: Outcome) | Calling | Restarting | Relocking
    | Leaving | Ending | Exited

  /** Where a user of the timer stands. A stop() that found the timer armed remembers how many start() calls
      had armed it; `joined` is the thread it waits for, counted from 1. */
  datatype Use = Idle | Starting | Stopping | Disarmed(armings: nat) | Joining(armings: nat, joined: nat)

  /** armings: start() calls that armed the timer; callbacks: calls of HandleTimeout; stopped: the values of
      `armings` remembered by the stop() calls that found the timer armed and have returned. `disarms`: stop() calls
      that found it armed; `late`: callbacks that found it disarmed; `errors`: failed waits that disarmed it. */
  datatype History = History(armings: nat, callbacks: nat, stopped: set<nat>, disarms: nat, late: nat, errors: nat)

  datatype State = State(mutex: Holder, started: bool, running: bool, threads: seq<Phase>, users: seq<Use>,
                         history: History)

  /** Lock: take the mutex and arm the timer unless it is armed. Run: run(); `creates` tells whether
      pthread_create would succeed. */
  datatype StartStep = Call | Lock | Run(creates: bool) | MarkRunning

  datatype StopStep = CallStop | LockStop | BeginJoin | EndJoin

  datatype ThreadStep = Enter | Test | Wake(outcome: Outcome) | Resume | EndCallback | Relock | ClearRunning | Exit

  datatype Step =
    | ByStart(who: Caller, start: StartStep)
    | ByStop(c: nat, stop: StopStep)
    | ByThread(i: nat, thread: ThreadStep)

  predicate Is(s: State, i: nat, p: Phase) { i < |s.threads| && s.threads[i] == p }

  predicate Uses(s: State, c: nat, u: Use) { c < |s.users| && s.users[c] == u }

  /** The caller may call start(), or has called it and wants the mutex. */
  predicate MayStart(s: State, who: Caller) {
    match who
    case User(c) => Uses(s, c, Idle)
    case Callback(i) => Is(s, i, Calling)
  }

  predicate WantsStart(s: State, who: Caller) {
    match who
    case User(c) => Uses(s, c, Starting)
    case Callback(i) => Is(s, i, Restarting)
  }

  function Placed(s: State, who: Caller, starts: bool): State
    requires MayStart(s, who) || WantsStart(s, who)
  {
    match who
    case User(c) => s.(users := s.users[c := if starts then Starting else Idle])
    case Callback(i) => s.(threads := s.threads[i := if starts then Restarting else Calling])
  }

  function NextStart(s: State, who: Caller, a: StartStep): Option<State> {
    match a
    case Call => if MayStart(s, who) then Some(Placed(s, who, true)) else None
    case Lock =>
      if !WantsStart(s, who) || s.mutex != Free then None
      else if s.started then Some(Placed(s, who, false))
      else Some(s.(mutex := Armed(who), started := true,
                   history := s.history.(armings := s.history.armings + 1)))
    case Run(creates) =>
      if !WantsStart(s, who) || s.mutex != Armed(who) then None
      else if s.running || !creates then Some(Placed(s, who, false).(mutex := Free))
      else Some(s.(mutex := Created(who), threads := s.threads + [Entering]))
    case MarkRunning =>
      if !WantsStart(s, who) || s.mutex != Created(who) then None
      else Some(Placed(s, who, false).(mutex := Free, running := true))
  }

  function NextStop(s: State, c: nat, a: StopStep): Option<State> {
    if c >= |s.users| then None
    else match a
      case CallStop => if s.users[c] == Idle then Some(s.(users := s.users[c := Stopping])) else None
      case LockStop =>
        if s.users[c] != Stopping || s.mutex != Free then None
        else if s.started then
          Some(s.(started := false, users := s.users[c := Disarmed(s.history.armings)],
                  history := s.history.(disarms := s.history.disarms + 1)))
        else Some(s.(users := s.users[c := Idle]))
      case BeginJoin =>
        if s.users[c].Disarmed? then Some(s.(users := s.users[c := Joining(s.users[c].armings, |s.threads|)]))
        else None
      case EndJoin =>
        if s.users[c].Joining? && (s.users[c].joined == 0 || Is(s, s.users[c].joined - 1, Exited)) then
          Some(s.(users := s.users[c := Idle],
                  history := s.history.(stopped := s.history.stopped + {s.users[c].armings})))
        else None
  }

  function NextThread(s: State, i: nat, a: ThreadStep): Option<State> {
    if i >= |s.threads| then None
    else match a
      case Enter =>
        if s.threads[i] == Entering && s.mutex == Free then Some(Moved(s, i, AtTest).(mutex := Testing(i))) else None
      case Test =>
        if s.threads[i] == AtTest && s.mutex == Testing(i) then
          Some(Moved(s, i, if s.started then Waiting else Leaving).(mutex := Free))
        else None
      case Wake(outcome) => if s.threads[i] == Waiting then Some(Moved(s, i, Woken(outcome))) else None
      case Resume =>
        if !s.threads[i].Woken? || s.mutex != Free then None
        else (match s.threads[i].outcome
          case Timeout =>
            Some(Moved(s, i, Calling).(started := false,
                                       history := s.history.(callbacks := s.history.callbacks + 1,
                                                             late := s.history.late + if s.started then 0 else 1)))
          case Error =>
            Some(Moved(s, i, AtTest).(mutex := Testing(i), started := false,
                                      history := s.history.(errors := s.history.errors + if s.started then 1 else 0)))
          case Wakeup => Some(Moved(s, i, AtTest).(mutex := Testing(i))))
      case EndCallback => if s.threads[i] == Calling then Some(Moved(s, i, Relocking)) else None
      case Relock =>
        if s.threads[i] == Relocking && s.mutex == Free then Some(Moved(s, i, AtTest).(mutex := Testing(i))) else None
      case ClearRunning => if s.threads[i] == Leaving then Some(Moved(s, i, Ending).(running := false)) else None
      case Exit => if s.threads[i] == Ending then Some(Moved(s, i, Exited)) else None
  }

  function Moved(s: State, i: nat, p: Phase): State
    requires i < |s.threads|
  {
    s.(threads := s.threads[i := p])
  }

  /** The state after a step; None if the step cannot happen. */
  function Next(s: State, a: Step): Option<State> {
    match a
    case ByStart(who, start) => NextStart(s, who, start)
    case ByStop(c, stop) => NextStop(s, c, stop)
    case ByThread(i, thread) => NextThread(s, i, thread)
  }

  predicate Initial(s: State) {
    && s.mutex == Free && !s.started && !s.running && s.threads == [] && s.history == History(0, 0, {}, 0, 0, 0)
    && forall c :: 0 <= c < |s.users| ==> s.users[c] == Idle
  }

  ghost predicate Reaches(s: State, run: seq<Step>, t: State)
    decreases |run|
  {
    if run == [] then t == s
    else Next(s, run[0]).Some? && Reaches(Next(s, run[0]).value, run[1..], t)
  }

  /** The thread is still inside body(), or on its way into it. */
  predicate InBody(p: Phase) { !p.Ending? && !p.Exited? }

  /** The thread is waiting for the timeout or has been woken from the wait. */
  predicate Waits(p: Phase) { p.Waiting? || p.Woken? }

  /** Only the last thread created may be in body(). */
  ghost predicate OnlyLast(threads: seq<Phase>) {
    forall i :: 0 <= i < |threads| - 1 ==> !InBody(threads[i])
  }

  /** The phase of the last thread; Exited if there is none. */
  function Last(threads: seq<Phase>): Phase { if threads == [] then Exited else threads[|threads| - 1] }

  /** While a thread is in body(), _running says so, or is about to. A start() that holds the mutex keeps the
      timer armed, and the thread it created at the door. */
  ghost predicate OneThread(s: State) {
    && OnlyLast(s.threads)
    && (InBody(Last(s.threads)) ==> s.running || s.mutex.Created?)
    && (s.running ==> InBody(Last(s.threads)))
    && (s.mutex.Armed? || s.mutex.Created? ==> s.started)
    && (s.mutex.Created? ==> Last(s.threads) == Entering)
    && (s.mutex.Testing? ==> Is(s, s.mutex.i, AtTest))
  }

  /** Every timeout that may still lead to a callback is paid for by a start() that armed the timer. */
  ghost predicate Paid(s: State) {
    && s.history.callbacks <= s.history.armings
    && (s.started || Waits(Last(s.threads)) ==> s.history.callbacks + 1 <= s.history.armings)
  }

  /** As long as nobody armed the timer again, a stop() that found it armed has stopped it. */
  ghost predicate UserIsRight(s: State, u: Use) {
    match u
    case Disarmed(n) => n <= s.history.armings && (n == s.history.armings ==> !s.started)
    case Joining(n, k) =>
      n <= s.history.armings && k <= |s.threads| && (n == s.history.armings ==> !s.started && k == |s.threads|)
    case _ => true
  }

  ghost predicate UsersAreRight(s: State) {
    forall c :: 0 <= c < |s.users| ==> UserIsRight(s, s.users[c])
  }

  ghost predicate Stopped(s: State) {
    && (forall n :: n in s.history.stopped ==> n <= s.history.armings)
    && (s.history.armings in s.history.stopped ==> !s.started && !InBody(Last(s.threads)))
  }

  lemma {:induction false} ThreadKeepsOne(s: State, i: nat, a: ThreadStep)
    requires OneThread(s) && NextThread(s, i, a).Some?
    ensures OneThread(NextThread(s, i, a).value)
  {
  }

  lemma {:induction false} StopKeepsOne(s: State, c: nat, a: StopStep)
    requires OneThread(s) && NextStop(s, c, a).Some?
    ensures OneThread(NextStop(s, c, a).value)
  {
  }

  lemma {:induction false} StartKeepsOne(s: State, who: Caller, a: StartStep)
    requires OneThread(s) && NextStart(s, who, a).Some?
    ensures OneThread(NextStart(s, who, a).value)
  {
  }

  lemma {:induction false} StepKeepsPaid(s: State, a: Step)
    requires OneThread(s) && Paid(s) && Next(s, a).Some?
    ensures Paid(Next(s, a).value)
  {
  }

  lemma {:induction false} ThreadKeepsStopped(s: State, i: nat, a: ThreadStep)
    requires OneThread(s) && UsersAreRight(s) && Stopped(s) && NextThread(s, i, a).Some?
    ensures UsersAreRight(NextThread(s, i, a).value) && Stopped(NextThread(s, i, a).value)
  {
  }

  lemma {:induction false} StopKeepsStopped(s: State, c: nat, a: StopStep)
    requires OneThread(s) && UsersAreRight(s) && Stopped(s) && NextStop(s, c, a).Some?
    ensures UsersAreRight(NextStop(s, c, a).value) && Stopped(NextStop(s, c, a).value)
  {
  }

  lemma {:induction false} StartKeepsStopped(s: State, who: Caller, a: StartStep)
    requires OneThread(s) && UsersAreRight(s) && Stopped(s) && NextStart(s, who, a).Some?
    ensures UsersAreRight(NextStart(s, who, a).value) && Stopped(NextStart(s, who, a).value)
  {
  }

  /** Each arming of the timer ends in a callback, in a stop or in a failed wait, unless it is still on; and a
      callback that finds the timer disarmed comes of a stop. */
  ghost predicate Balanced(s: State) {
    var h := s.history;
    && h.armings + h.late == h.callbacks + h.disarms + h.errors + (if s.started then 1 else 0)
    && h.late + (if Waits(Last(s.threads)) && !s.started then 1 else 0) <= h.disarms
  }

  lemma {:induction false} StartKeepsBalance(s: State, who: Caller, a: StartStep)
    requires OneThread(s) && Balanced(s) && NextStart(s, who, a).Some?
    ensures Balanced(NextStart(s, who, a).value)
  {
  }

  lemma {:induction false} StopKeepsBalance(s: State, c: nat, a: StopStep)
    requires OneThread(s) && Balanced(s) && NextStop(s, c, a).Some?
    ensures Balanced(NextStop(s, c, a).value)
  {
  }

  lemma {:induction false} ThreadKeepsBalance(s: State, i: nat, a: ThreadStep)
    requires OneThread(s) && Balanced(s) && NextThread(s, i, a).Some?
    ensures Balanced(NextThread(s, i, a).value)
  {
  }

  /** What every step keeps. */
  ghost predicate Sound(s: State) { OneThread(s) && Paid(s) && Balanced(s) && UsersAreRight(s) && Stopped(s) }

  lemma {:induction false} StepKeepsSound(s: State, a: Step)
    requires Sound(s) && Next(s, a).Some?
    ensures Sound(Next(s, a).value)
  {
    StepKeepsPaid(s, a);
    hide OneThread, Paid, Balanced, UsersAreRight, Stopped, NextStart, NextStop, NextThread;
    match a {
      case ByStart(who, start) =>
        StartKeepsOne(s, who, start);
        StartKeepsBalance(s, who, start);
        StartKeepsStopped(s, who, start);
      case ByStop(c, stop) =>
        StopKeepsOne(s, c, stop);
        StopKeepsBalance(s, c, stop);
        StopKeepsStopped(s, c, stop);
      case ByThread(i, thread) =>
        ThreadKeepsOne(s, i, thread);
        ThreadKeepsBalance(s, i, thread);
        ThreadKeepsStopped(s, i, thread);
    }
  }

  lemma {:induction false} RunKeepsSound(s: State, run: seq<Step>, t: State)
    requires Sound(s) && Reaches(s, run, t)
    ensures Sound(t)
    decreases |run|
  {
    hide Sound, Next;
    if run != [] {
      StepKeepsSound(s, run[0]);
      RunKeepsSound(Next(s, run[0]).value, run[1..], t);
    }
  }

  lemma StartsSound(s: State)
    requires Initial(s)
    ensures Sound(s)
  {
  }

  /** In every interleaving of start, stop, timeouts, spurious wake-ups and restarts from the callback: at most
      one thread is inside body(); there are never more callbacks than start() calls that armed the timer;
      and each of those has led to one callback, or was stopped, or failed, or is still on, but for callbacks that
      a stop() came too late for, of which there are no more than such stops. */
  lemma {:induction false} TimerIsSafe(s: State, run: seq<Step>, t: State)
    requires Initial(s) && Reaches(s, run, t)
    ensures forall i, j :: 0 <= i < j < |t.threads| ==> !(InBody(t.threads[i]) && InBody(t.threads[j]))
    ensures var h := t.history;
            && h.callbacks <= h.armings && h.late <= h.disarms
            && h.armings + h.late == h.callbacks + h.disarms + h.errors + (if t.started then 1 else 0)
  {
    hide Reaches, Initial;
    StartsSound(s);
    RunKeepsSound(s, run, t);
  }

  /** Once a stop() that found the timer armed has returned, and until somebody arms the timer again, it is not
      armed and every timer thread is out of body(): no callback runs or can run. */
  lemma {:induction false} StopIsFinal(s: State, run: seq<Step>, t: State)
    requires Initial(s) && Reaches(s, run, t) && t.history.armings in t.history.stopped
    ensures !t.started && forall i :: 0 <= i < |t.threads| ==> !InBody(t.threads[i])
  {
    hide Reaches, Initial;
    StartsSound(s);
    RunKeepsSound(s, run, t);
  }

  /** A thread will look at _started again. */
  predicate Watched(s: State) { InBody(Last(s.threads)) && !Last(s.threads).Leaving? }

  /** A start() that armed the timer is noticed by a timer thread exactly if, when it comes to run(), no thread
      has left the loop of body() without having cleared _running yet; otherwise the start is lost. */
  lemma {:induction false} StartIsLostIffLeaving(s0: State, run: seq<Step>, s: State, who: Caller)
    requires Initial(s0) && Reaches(s0, run, s)
    requires s.mutex == Armed(who) && Next(s, ByStart(who, Run(true))).Some?
    ensures Watched(Next(s, ByStart(who, Run(true))).value) <==> Last(s.threads) != Leaving
  {
    hide Reaches, Initial;
    StartsSound(s0);
    RunKeepsSound(s0, run, s);
  }
}
