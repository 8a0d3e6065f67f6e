/** include/aqueue.h: a queue shared by threads, as a system of steps. A step is what one thread does while
    it holds the mutex; falling asleep on the condition variable releases it. */
module AQueue {
  import opened Options

  /** The forms of dequeue: with a time limit, without one, and the one that returns the element itself and so
      cannot report failure. */
  datatype Call = Timed | Untimed | Plain

  /** Where a consumer stands in dequeue. Failed: its wait returned an error or timed out. */
  datatype Consumer = Outside | Sleeping(call: Call) | Awake(call: Call) | Failed(call: Call)

  /** enqueue releases the mutex before it signals. */
  datatype Producer = Ready | Signalling

  datatype Removal<T> = Taken(elem: T) | Cleared(elem: T)

  /** The queue and its threads, all that ever went in and came out, and whether the first element of an empty
      queue was read. */
  datatype State<T> = State(queue: seq<T>, consumers: seq<Consumer>, producers: seq<Producer>,
                            enqueued: seq<T>, removed: seq<Removal<T>>, crashed: bool)

  datatype Step<T> =
    | Enqueue(p: nat, elem: T)
    | Signal(p: nat, woken: Option<nat>)   // wakes one sleeper, if there is any
    | Dequeue(c: nat, call: Call)
    | Recheck(c: nat)                      // an awakened consumer holds the mutex again
    | Spurious(c: nat)                     // pthread_cond_wait returns without a signal
    | Expire(c: nat)                       // the time limit passes
    | WaitFails(c: nat)                    // the wait returns another error
    | GiveUp(c: nat)                       // dequeue returns false
    | TakeAnyway(c: nat)                   // the plain form ignores the error
    | Clear

  predicate IsAwake(c: Consumer) { c.Awake? }

  predicate IsSignalling(p: Producer) { p.Signalling? }

  predicate Sleeps(s: State, c: nat) { c < |s.consumers| && s.consumers[c].Sleeping? }

  function Number<A>(xs: seq<A>, p: A -> bool): nat {
    if xs == [] then 0 else Number(xs[..|xs| - 1], p) + (if p(xs[|xs| - 1]) then 1 else 0)
  }

  lemma {:induction false} NumberUpdate<A>(xs: seq<A>, p: A -> bool, i: nat, x: A)
    requires i < |xs|
    ensures Number(xs[i := x], p) == Number(xs, p) - (if p(xs[i]) then 1 else 0) + (if p(x) then 1 else 0)
  {
    var n := |xs| - 1;
    if i < n {
      assert xs[i := x][..n] == xs[..n][i := x];
      NumberUpdate(xs[..n], p, i, x);
    } else {
      assert xs[i := x][..n] == xs[..n];
    }
  }

  /** A consumer holding the mutex takes the first element. */
  function Take<T>(s: State<T>, c: nat): State<T>
    requires c < |s.consumers| && s.queue != []
  {
    s.(queue := s.queue[1..], removed := s.removed + [Taken(s.queue[0])], consumers := s.consumers[c := Outside])
  }

  /** A consumer holding the mutex takes the first element or falls asleep. */
  function Poll<T>(s: State<T>, c: nat, call: Call): State<T>
    requires c < |s.consumers|
  {
    if s.queue == [] then s.(consumers := s.consumers[c := Sleeping(call)]) else Take(s, c)
  }

  function AllCleared<T>(queue: seq<T>): seq<Removal<T>> {
    if queue == [] then [] else [Cleared(queue[0])] + AllCleared(queue[1..])
  }

  /** A sleeping or failed consumer moves on. */
  function Moved<T>(s: State<T>, c: nat, x: Consumer): State<T>
    requires c < |s.consumers|
  {
    s.(consumers := s.consumers[c := x])
  }

  /** The state after a step; None if the step cannot happen. */
  ghost function Next<T>(s: State<T>, a: Step<T>): Option<State<T>> {
    if s.crashed then None
    else match a
      case Enqueue(p, elem) =>
        if p < |s.producers| && s.producers[p].Ready? then
          Some(s.(queue := s.queue + [elem], enqueued := s.enqueued + [elem],
                  producers := s.producers[p := Signalling]))
        else None
      case Signal(p, woken) =>
        if p < |s.producers| && s.producers[p].Signalling? then
          var t := s.(producers := s.producers[p := Ready]);
          if woken.Some? then
            if Sleeps(s, woken.value) then
              Some(Moved(t, woken.value, Awake(s.consumers[woken.value].call)))
            else None
          else if exists c :: Sleeps(s, c) then None
          else Some(t)
        else None
      case Dequeue(c, call) => if c < |s.consumers| && s.consumers[c].Outside? then Some(Poll(s, c, call)) else None
      case Recheck(c) =>
        if c < |s.consumers| && s.consumers[c].Awake? then Some(Poll(s, c, s.consumers[c].call)) else None
      case Spurious(c) => if Sleeps(s, c) then Some(Moved(s, c, Awake(s.consumers[c].call))) else None
      case Expire(c) => if Sleeps(s, c) && s.consumers[c].call == Timed then Some(Moved(s, c, Failed(Timed))) else None
      case WaitFails(c) => if Sleeps(s, c) then Some(Moved(s, c, Failed(s.consumers[c].call))) else None
      case GiveUp(c) =>
        if c < |s.consumers| && s.consumers[c].Failed? && s.consumers[c].call != Plain then Some(Moved(s, c, Outside))
        else None
      case TakeAnyway(c) =>
        if c < |s.consumers| && s.consumers[c] == Failed(Plain) then
          Some(if s.queue == [] then s.(crashed := true) else Take(s, c))
        else None
      case Clear => Some(s.(queue := [], removed := s.removed + AllCleared(s.queue)))
  }

  /** Nothing queued, everyone outside. */
  predicate Initial<T>(s: State<T>) {
    && s.queue == [] && s.enqueued == [] && s.removed == [] && !s.crashed
    && (forall c :: 0 <= c < |s.consumers| ==> s.consumers[c].Outside?)
    && (forall p :: 0 <= p < |s.producers| ==> s.producers[p].Ready?)
  }

  /** `t` is reached from `s` by the steps `run`. */
  ghost predicate Reaches<T>(s: State<T>, run: seq<Step<T>>, t: State<T>)
    decreases |run|
  {
    if run == [] then t == s
    else Next(s, run[0]).Some? && Reaches(Next(s, run[0]).value, run[1..], t)
  }

  /** While anyone sleeps, each queued element has an awakened consumer or a signal on its way. */
  ghost predicate NoLostWakeup<T>(s: State<T>) {
    (exists c :: Sleeps(s, c)) ==>
      |s.queue| <= Number(s.consumers, IsAwake) + Number(s.producers, IsSignalling)
  }

  function Elements<T>(log: seq<Removal<T>>): seq<T> {
    if log == [] then [] else Elements(log[..|log| - 1]) + [log[|log| - 1].elem]
  }

  /** What came out, in order, followed by what is queued is what went in, in order. */
  ghost predicate Fifo<T>(s: State<T>) { Elements(s.removed) + s.queue == s.enqueued }

  lemma {:induction false} StepKeepsWakeups<T>(s: State<T>, a: Step<T>)
    requires NoLostWakeup(s) && Next(s, a).Some?
    ensures NoLostWakeup(Next(s, a).value)
  {
    var t := Next(s, a).value;
    assert !a.Dequeue? && !a.Recheck? ==> forall c :: Sleeps(t, c) ==> Sleeps(s, c);
    match a
    case Enqueue(p, elem) => NumberUpdate(s.producers, IsSignalling, p, Signalling);
    case Signal(p, woken) =>
      NumberUpdate(s.producers, IsSignalling, p, Ready);
      if woken.Some? { NumberUpdate(s.consumers, IsAwake, woken.value, t.consumers[woken.value]); }
    case Dequeue(c, call) => PollKeepsWakeups(s, c, call);
    case Recheck(c) => PollKeepsWakeups(s, c, s.consumers[c].call);
    case Spurious(c) => NumberUpdate(s.consumers, IsAwake, c, t.consumers[c]);
    case Expire(c) => NumberUpdate(s.consumers, IsAwake, c, t.consumers[c]);
    case WaitFails(c) => NumberUpdate(s.consumers, IsAwake, c, t.consumers[c]);
    case GiveUp(c) => NumberUpdate(s.consumers, IsAwake, c, t.consumers[c]);
    case TakeAnyway(c) => if s.queue != [] { NumberUpdate(s.consumers, IsAwake, c, Outside); }
    case Clear =>
  }

  lemma {:induction false} PollKeepsWakeups<T>(s: State<T>, c: nat, call: Call)
    requires NoLostWakeup(s) && c < |s.consumers| && (s.consumers[c].Outside? || s.consumers[c].Awake?)
    ensures NoLostWakeup(Poll(s, c, call))
  {
    var t := Poll(s, c, call);
    NumberUpdate(s.consumers, IsAwake, c, t.consumers[c]);
    if s.queue != [] {
      assert forall i :: Sleeps(t, i) ==> Sleeps(s, i);
    }
  }

  lemma {:induction false} ElementsAppend<T>(log: seq<Removal<T>>, queue: seq<T>)
    ensures Elements(log + AllCleared(queue)) == Elements(log) + queue
    decreases |queue|
  {
    if queue == [] {
      assert log + AllCleared(queue) == log;
    } else {
      var first := log + [Cleared(queue[0])];
      assert log + AllCleared(queue) == first + AllCleared(queue[1..]);
      assert first[..|first| - 1] == log;
      ElementsAppend(first, queue[1..]);
    }
  }

  lemma {:induction false} StepKeepsOrder<T>(s: State<T>, a: Step<T>)
    requires Fifo(s) && Next(s, a).Some?
    ensures Fifo(Next(s, a).value)
  {
    var t := Next(s, a).value;
    match a
    case Enqueue(p, elem) => assert Elements(s.removed) + (s.queue + [elem]) == s.enqueued + [elem];
    case Dequeue(c, call) => if s.queue != [] { TakeKeepsOrder(s, c); }
    case Recheck(c) => if s.queue != [] { TakeKeepsOrder(s, c); }
    case TakeAnyway(c) => if s.queue != [] { TakeKeepsOrder(s, c); }
    case Clear => ElementsAppend(s.removed, s.queue);
    case _ =>
  }

  lemma {:induction false} TakeKeepsOrder<T>(s: State<T>, c: nat)
    requires Fifo(s) && c < |s.consumers| && s.queue != []
    ensures Fifo(Take(s, c))
  {
    var log := s.removed + [Taken(s.queue[0])];
    assert log[..|s.removed|] == s.removed;
    assert Elements(log) + s.queue[1..] == Elements(s.removed) + s.queue;
  }

  lemma {:induction false} RunKeeps<T>(s: State<T>, run: seq<Step<T>>, t: State<T>)
    requires NoLostWakeup(s) && Fifo(s) && Reaches(s, run, t)
    ensures NoLostWakeup(t) && Fifo(t)
    decreases |run|
  {
    hide Next, NoLostWakeup, Fifo;
    if run != [] {
      StepKeepsWakeups(s, run[0]);
      StepKeepsOrder(s, run[0]);
      RunKeeps(Next(s, run[0]).value, run[1..], t);
    }
  }

  /** In every interleaving of any number of producers, consumers and clears: no wake-up is lost, and elements
      leave in the order in which they came. */
  lemma {:induction false} QueueIsSafe<T>(s: State<T>, run: seq<Step<T>>, t: State<T>)
    requires Initial(s) && Reaches(s, run, t)
    ensures NoLostWakeup(t) && Fifo(t)
  {
    RunKeeps(s, run, t);
  }

  /** Once every signal is sent and every awakened consumer has looked, nobody sleeps beside a full queue. */
  lemma {:induction false} NobodySleepsBesideWork<T>(s: State<T>, run: seq<Step<T>>, t: State<T>)
    requires Initial(s) && Reaches(s, run, t)
    requires forall c :: 0 <= c < |t.consumers| ==> !t.consumers[c].Awake?
    requires forall p :: 0 <= p < |t.producers| ==> !t.producers[p].Signalling?
    ensures t.queue == [] || forall c :: !Sleeps(t, c)
  {
    hide Next, Reaches, Initial;
    QueueIsSafe(s, run, t);
    NoneCounted(t.consumers, IsAwake);
    NoneCounted(t.producers, IsSignalling);
  }

  lemma {:induction false} NoneCounted<A>(xs: seq<A>, p: A -> bool)
    requires forall i :: 0 <= i < |xs| ==> !p(xs[i])
    ensures Number(xs, p) == 0
  {
    if xs != [] {
      NoneCounted(xs[..|xs| - 1], p);
    }
  }

  /** What consumers got, in order. */
  function TakenFrom<T>(log: seq<Removal<T>>): seq<T> {
    if log == [] then []
    else TakenFrom(log[..|log| - 1]) + if log[|log| - 1].Taken? then [log[|log| - 1].elem] else []
  }

  lemma {:induction false} NothingCleared<T>(log: seq<Removal<T>>)
    requires forall r :: r in log ==> r.Taken?
    ensures TakenFrom(log) == Elements(log)
  {
    if log != [] {
      assert log[|log| - 1] in log && forall r :: r in log[..|log| - 1] ==> r in log;
      NothingCleared(log[..|log| - 1]);
    }
  }

  /** Unless something was cleared, what the consumers got and what is queued is what was enqueued. */
  lemma {:induction false} NothingIsLost<T>(s: State<T>, run: seq<Step<T>>, t: State<T>)
    requires Initial(s) && Reaches(s, run, t) && forall r :: r in t.removed ==> r.Taken?
    ensures TakenFrom(t.removed) + t.queue == t.enqueued
  {
    hide Next, Reaches, Initial;
    QueueIsSafe(s, run, t);
    NothingCleared(t.removed);
  }

  /** No consumer is about to take an element that need not be there. */
  ghost predicate NobodyIsBlind<T>(s: State<T>) {
    !s.crashed && forall c :: 0 <= c < |s.consumers| ==> s.consumers[c] != Failed(Plain)
  }

  lemma {:induction false} RunStaysSighted<T>(s: State<T>, run: seq<Step<T>>, t: State<T>)
    requires NobodyIsBlind(s) && Reaches(s, run, t) && forall a :: a in run ==> !a.WaitFails?
    ensures NobodyIsBlind(t)
    decreases |run|
  {
    if run != [] {
      assert run[0] in run && forall a :: a in run[1..] ==> a in run;
      RunStaysSighted(Next(s, run[0]).value, run[1..], t);
    }
  }

  /** As long as no wait returns an error other than a timeout, nobody reads an empty queue. */
  lemma {:induction false} OnlyFailedWaitsCrash<T>(s: State<T>, run: seq<Step<T>>, t: State<T>)
    requires Initial(s) && Reaches(s, run, t) && forall a :: a in run ==> !a.WaitFails?
    ensures !t.crashed
  {
    hide Next, Reaches;
    RunStaysSighted(s, run, t);
  }
}
