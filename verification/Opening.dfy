/** open_ups of src/device.c: what is announced while the UPS cannot be reached at start-up. */
module Opening {
  import opened UpsState

  const GRACE_PERIOD := 60
  const REMINDER := 10 * 60

  /** The times at which the loss is announced, given those of the failed attempts to open the device. */
  function Announced(start: int, failures: seq<int>): seq<int> {
    if failures == [] then []
    else
      var before, t := Announced(start, failures[..|failures| - 1]), failures[|failures| - 1];
      if t - start >= GRACE_PERIOD && (before == [] || t - before[|before| - 1] >= REMINDER) then before + [t]
      else before
  }

  lemma AnnouncedStep(start: int, failures: seq<int>, i: nat)
    requires i < |failures|
    ensures var before, t := Announced(start, failures[..i]), failures[i];
            Announced(start, failures[..i + 1]) ==
            if t - start >= GRACE_PERIOD && (before == [] || t - before[|before| - 1] >= REMINDER) then before + [t]
            else before
  {
    assert failures[..i + 1][..i] == failures[..i];
  }

  /** The first announcement is an event, the others are messages. */
  function Announcements(count: nat): seq<Effect> {
    if count == 0 then []
    else Announcements(count - 1) + [if count == 1 then Event(CommFailure) else Announce(CommFailure)]
  }

  /** The loss is one event, however long it lasts. */
  lemma {:induction false} LossIsOneEvent(count: nat)
    ensures Count(Announcements(count), Event(CommFailure)) == Bit(count > 0)
    ensures Count(Announcements(count), Announce(CommFailure)) == if count > 0 then count - 1 else 0
    ensures |Announcements(count)| == count && (count > 0 ==> Announcements(count)[0] == Event(CommFailure))
  {
    if count > 0 { LossIsOneEvent(count - 1); }
  }

  ghost predicate Ordered(times: seq<int>) {
    (forall i :: 0 <= i < |times| ==> times[i] > 0) &&
    forall i, j :: 0 <= i < j < |times| ==> times[i] <= times[j]
  }

  ghost predicate Spread(a: seq<int>) { forall i :: 0 < i < |a| ==> a[i] - a[i - 1] >= 600 }

  /** Announcements are made at failed attempts after the grace period and at least ten minutes apart. */
  lemma {:induction false} AnnouncementsAreRare(start: int, failures: seq<int>)
    ensures forall t :: t in Announced(start, failures) ==> t in failures && t >= start + 60
    ensures Spread(Announced(start, failures))
  {
    if failures != [] {
      var n := |failures| - 1;
      var before, a := Announced(start, failures[..n]), Announced(start, failures);
      AnnouncementsAreRare(start, failures[..n]);
      assert failures[n] in failures && forall t :: t in failures[..n] ==> t in failures;
    }
  }

  /** `t` falls within ten minutes after an announcement. */
  ghost predicate Covered(a: seq<int>, t: int) {
    exists i :: 0 <= i < |a| && a[i] <= t < a[i] + 600
  }

  /** No failed attempt after the grace period goes unannounced for ten minutes. */
  lemma {:induction false} AnnouncementsAreTimely(start: int, failures: seq<int>)
    requires Ordered(failures)
    ensures forall k :: 0 <= k < |failures| && failures[k] >= start + 60
                        ==> Covered(Announced(start, failures), failures[k])
    ensures forall i :: 0 <= i < |Announced(start, failures)| ==> Announced(start, failures)[i] in failures
  {
    hide Covered;
    if failures != [] {
      var n := |failures| - 1;
      var before, a, t := Announced(start, failures[..n]), Announced(start, failures), failures[n];
      AnnouncementsAreTimely(start, failures[..n]);
      forall k | 0 <= k <= n && failures[k] >= start + 60 ensures Covered(a, failures[k]) {
        if k < n {
          assert Covered(before, failures[..n][k]);
          StaysCovered(before, a, failures[k]);
        } else {
          assert a == before ==> before[|before| - 1] in failures[..n];
          LastCovers(a, t);
        }
      }
    }
  }

  lemma StaysCovered(before: seq<int>, a: seq<int>, t: int)
    requires before <= a && Covered(before, t)
    ensures Covered(a, t)
  {
    var i :| 0 <= i < |before| && before[i] <= t < before[i] + 600;
    assert a[i] == before[i];
  }

  lemma LastCovers(a: seq<int>, t: int)
    requires a != [] && a[|a| - 1] <= t < a[|a| - 1] + 600
    ensures Covered(a, t)
  {
  }

  /** Something is announced exactly if an attempt failed after the grace period. */
  lemma {:induction false} AnnouncedIffLate(start: int, failures: seq<int>)
    ensures Announced(start, failures) != [] <==> exists t :: t in failures && t - start >= 60
  {
    if failures != [] {
      var n := |failures| - 1;
      AnnouncedIffLate(start, failures[..n]);
      assert failures[n] in failures && forall t :: t in failures[..n] ==> t in failures;
      assert forall t :: t in failures ==> t in failures[..n] || t == failures[n];
      assert Announced(start, failures) == [] ==> Announced(start, failures[..n]) == [];
    }
  }
}
