/** Whole runs of the event engine: what holds after any number of passes over any readings. */
module Runs {
  import opened UpsState
  import opened Action

  /** The state after the first `n` passes. */
  ghost function After(c: Config, rs: seq<Reading>, n: nat): Ups
    requires n <= |rs|
  {
    if n == 0 then BOOT else Pass(c, After(c, rs, n - 1), rs[n - 1])
  }

  /** Pass `i` logs event `k`. */
  ghost predicate Logs(c: Config, rs: seq<Reading>, i: nat, k: EventKind)
    requires i < |rs|
  {
    Count(After(c, rs, i + 1).log, Event(k)) > Count(After(c, rs, i).log, Event(k))
  }

  /** The clock never runs backwards, within a pass or between passes. */
  ghost predicate ClockOrdered(rs: seq<Reading>) {
    && (forall i :: 0 <= i < |rs| ==> rs[i].now <= rs[i].checkTime <= rs[i].shutTime <= rs[i].annoyTime)
    && (forall i, j :: 0 <= i < j < |rs| ==> rs[i].annoyTime <= rs[j].now)
  }

  /** One step of a run, without looking into the pass. */
  lemma {:induction false} StepOf(c: Config, rs: seq<Reading>, n: nat)
    requires n <= |rs|
    ensures n == 0 ==> After(c, rs, n) == BOOT
    ensures n > 0 ==> var u := After(c, rs, n - 1);
                      After(c, rs, n) == if u.flags.terminated then u else Pass(c, u, rs[n - 1])
  {
    hide Act, Prepared, Polled, RemoteShutdown;
  }
}
