/** How a network slave follows its master: get_ups_status_flag of src/drivers/net/net.c. */
module NetworkSlave {
  import opened Options
  import opened UpsState
  import opened StatusWord

  /** What one call finds: our status word, the master's (None if it cannot be told), and whether the buffer with
      the master's report was filled. */
  datatype Call = Call(own: bv32, answer: Option<bv32>, filled: bool)

  /** Our word once the master's is taken in. */
  function Taken(call: Call): bv32 {
    if call.answer.Some? then Followed(call.own, call.answer.value) else call.own
  }

  /** The call lost the master while we are on battery. */
  predicate Lost(call: Call) { !(call.filled && call.answer.Some?) && Has(Taken(call), OnBatt) }

  /** That is: no answer, or an answer without a report, and by the word that results we are on battery. */
  lemma {:induction false} LostMeans(call: Call)
    ensures Lost(call) <==> match call.answer
                            case Some(m) => !call.filled && Has(m, OnBatt)
                            case None => Has(call.own, OnBatt)
  {
    hide Has, Merged, Or, Mask;
    if call.answer.Some? {
      MasterDecides(call.own, call.answer.value, OnBatt);
      OtherFlag(Merged(call.own, call.answer.value), ShutRemote, OnBatt);
    }
  }

  /** _comm_loss after the first `n` calls. */
  function Losses(calls: seq<Call>, n: nat): nat
    requires n <= |calls|
  {
    if n == 0 || !Lost(calls[n - 1]) then 0 else Losses(calls, n - 1) + 1
  }

  /** Our word after a call that found `losses` losses counted before it. */
  function Result(call: Call, losses: nat): bv32 {
    if Lost(call) && losses == 4 then Or(Taken(call), Mask(ShutRemote)) else Taken(call)
  }

  /** The count is the number of consecutive losses up to now. */
  lemma {:induction false} LossesAreConsecutive(calls: seq<Call>, n: nat, k: nat)
    requires k <= n <= |calls|
    ensures Losses(calls, n) >= k <==> forall i :: n - k <= i < n ==> Lost(calls[i])
  {
    hide Lost;
    if k > 0 {
      LossesAreConsecutive(calls, n - 1, k - 1);
    }
  }

  lemma {:induction false} LossesAreFew(calls: seq<Call>, n: nat)
    requires n <= |calls|
    ensures Losses(calls, n) <= n
  {
    hide Lost;
    if n > 0 {
      LossesAreFew(calls, n - 1);
    }
  }

  /** For want of the master a slave is told to shut down by exactly the fifth consecutive loss on battery. */
  lemma {:induction false} FifthLossShutsDown(calls: seq<Call>, n: nat)
    requires n < |calls|
    ensures Lost(calls[n]) && Losses(calls, n) == 4 <==>
            n >= 4 && (forall i :: n - 4 <= i <= n ==> Lost(calls[i])) && (n > 4 ==> !Lost(calls[n - 5]))
  {
    hide Lost, Losses;
    LossesAreFew(calls, n);
    if n >= 4 { LossesAreConsecutive(calls, n, 4); }
    if n >= 5 { LossesAreConsecutive(calls, n, 5); }
  }

  /** Whatever the master says or does not say, a call keeps our own bits but for a rising fastpoll, so that the
      engine may take it for a driver's update; and it reports remote shutdown if the master does, if the
      master is shutting down, or by the fifth loss. */
  lemma {:induction false} CallIsObserved(call: Call, losses: nat, u: Ups, r: Reading)
    requires u.status == Meaning(call.own)
    ensures var w := Result(call, losses);
            Meaning(w) == Observe(u, r.(ups := Report(w), replaceBatt := Has(w, ReplaceBatt),
                                        fastPoll := call.answer.Some? && Has(call.answer.value, FastPoll))).status
    ensures Has(Result(call, losses), ShutRemote) <==>
            (match call.answer
             case Some(m) => Has(m, ShutRemote) || Has(m, Shutdown)
             case None => Has(call.own, ShutRemote)) || (Lost(call) && losses == 4)
  {
    hide Has, Followed, Report, Or, Mask, Lost;
    ShutRemoteLocals(Taken(call));
    ShutRemoteFlag(Taken(call));
    if call.answer.Some? {
      FollowedLocals(call.own, call.answer.value);
      FollowedShutRemote(call.own, call.answer.value);
    }
  }

  lemma ShutRemoteFlag(w: bv32)
    ensures Has(Or(w, Mask(ShutRemote)), ShutRemote)
  {
    hide Has, Or, Mask;
    OwnFlag(w, ShutRemote);
  }

  lemma FollowedShutRemote(own: bv32, master: bv32)
    ensures Has(Followed(own, master), ShutRemote) <==> Has(master, ShutRemote) || Has(master, Shutdown)
  {
    hide Has, Merged, Or, Mask;
    MasterDecides(own, master, ShutRemote);
    OwnFlag(Merged(own, master), ShutRemote);
  }

  class NetUpsDriver {
    const ups: StatusFields
    var commLoss: nat

    method GetUpsStatusFlag(answer: Option<bv32>, filled: bool) returns (stat: bool)
      modifies `commLoss, ups`status
      ensures var call := Call(old(ups.status), answer, filled);
              && stat == (filled && answer.Some?)
              && ups.status == Result(call, old(commLoss))
              && commLoss == if Lost(call) then old(commLoss) + 1 else 0
    {
      hide Has, Followed, Or, Mask;
      stat := filled;
      if answer.Some? {
        ups.TakeMasterStatus(answer.value);
      } else {
        stat := false;
      }
      if !stat && Has(ups.status, OnBatt) {
        if commLoss == 4 {
          ups.RaiseShutRemote();
        }
        commLoss := commLoss + 1;
      } else {
        commLoss := 0;
      }
    }

    constructor (ups: StatusFields)
      ensures this.ups == ups && commLoss == 0
    {
      this.ups := ups;
      commLoss := 0;
    }
  }
}
