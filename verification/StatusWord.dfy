/** The status word of include/struct.h and include/defines.h: one bit per condition, changed in place by
    masks. Its meaning is the record UpsState.Status that the event engine works on. */
module StatusWord {
  import opened UpsState

  datatype Flag =
    | Calibration | Trim | Boost | Online | OnBatt | Overload | BattLow | ReplaceBatt | CommLost | Shutdown
    | Slave | SlaveDown | OnBattMsg | FastPoll | ShutLoad | ShutBtime | ShutLtime | ShutEmerg | ShutRemote
    | Plugged | BattPresent

  function Mask(f: Flag): bv32 {
    match f
    case Calibration => 0x1
    case Trim => 0x2
    case Boost => 0x4
    case Online => 0x8
    case OnBatt => 0x10
    case Overload => 0x20
    case BattLow => 0x40
    case ReplaceBatt => 0x80
    case CommLost => 0x100
    case Shutdown => 0x200
    case Slave => 0x400
    case SlaveDown => 0x800
    case OnBattMsg => 0x2_0000
    case FastPoll => 0x4_0000
    case ShutLoad => 0x8_0000
    case ShutBtime => 0x10_0000
    case ShutLtime => 0x20_0000
    case ShutEmerg => 0x40_0000
    case ShutRemote => 0x80_0000
    case Plugged => 0x100_0000
    case BattPresent => 0x400_0000
  }

  /** UPS_LOCAL_BITS */
  const LOCAL_BITS: bv32 :=
    Mask(CommLost) | Mask(Shutdown) | Mask(Slave) | Mask(SlaveDown) | Mask(OnBattMsg) | Mask(FastPoll) |
    Mask(Plugged) | Mask(ShutLoad) | Mask(ShutBtime) | Mask(ShutLtime) | Mask(ShutEmerg)

  predicate IsLocal(f: Flag) {
    match f
    case CommLost | Shutdown | Slave | SlaveDown | OnBattMsg | FastPoll => true
    case Plugged | ShutLoad | ShutBtime | ShutLtime | ShutEmerg => true
    case _ => false
  }

  // Words and masks. The small lemmas keep bit arithmetic away from the reasoning about flags.

  function Part(w: bv32, m: bv32): bv32 { w & m }

  predicate Tests(w: bv32, m: bv32) { Part(w, m) == m }

  predicate Single(m: bv32) { m != 0 && m & (m - 1) == 0 }

  predicate Apart(m: bv32, n: bv32) { m & n == 0 }

  function Or(w: bv32, m: bv32): bv32 { w | m }

  function AndNot(w: bv32, m: bv32): bv32 { w & !m }

  lemma OrKeeps(w: bv32, m: bv32, n: bv32)
    requires Apart(m, n)
    ensures Part(Or(w, m), n) == Part(w, n)
  {
  }

  lemma AndNotKeeps(w: bv32, m: bv32, n: bv32)
    requires Apart(m, n)
    ensures Part(AndNot(w, m), n) == Part(w, n)
  {
  }

  lemma SameTest(w: bv32, x: bv32, n: bv32)
    requires Part(x, n) == Part(w, n)
    ensures Tests(x, n) == Tests(w, n)
  {
  }

  lemma OtherMask(w: bv32, m: bv32, n: bv32)
    requires Apart(m, n)
    ensures Tests(Or(w, m), n) == Tests(w, n)
    ensures Tests(AndNot(w, m), n) == Tests(w, n)
  {
    hide Part, Tests, Apart, Or, AndNot;
    OrKeeps(w, m, n);
    AndNotKeeps(w, m, n);
    SameTest(w, Or(w, m), n);
    SameTest(w, AndNot(w, m), n);
  }

  lemma OwnMask(w: bv32, m: bv32)
    requires Single(m)
    ensures Tests(Or(w, m), m)
    ensures !Tests(AndNot(w, m), m)
  {
  }

  lemma OneBit(w: bv32, m: bv32)
    requires Single(m)
    ensures w & m == 0 || w & m == m
  {
  }

  lemma XorSplits(w: bv32, v: bv32, m: bv32)
    ensures (w ^ v) & m == (w & m) ^ (v & m)
  {
  }

  lemma MasksAreSingle(f: Flag)
    ensures Single(Mask(f))
  {
  }

  /** No two flags share a bit. */
  lemma MasksAreApart(f: Flag, g: Flag)
    requires f != g
    ensures Apart(Mask(f), Mask(g))
  {
  }

  /** The is_* tests. */
  predicate Has(w: bv32, f: Flag) { Tests(w, Mask(f)) }

  lemma OwnFlag(w: bv32, f: Flag)
    ensures Has(Or(w, Mask(f)), f) && !Has(AndNot(w, Mask(f)), f)
  {
    hide Mask, Tests, Single, Or, AndNot;
    MasksAreSingle(f);
    OwnMask(w, Mask(f));
  }

  lemma OtherFlag(w: bv32, f: Flag, g: Flag)
    requires f != g
    ensures Has(Or(w, Mask(f)), g) == Has(w, g)
    ensures Has(AndNot(w, Mask(f)), g) == Has(w, g)
  {
    hide Mask, Tests, Or, AndNot, Apart;
    MasksAreApart(f, g);
    OtherMask(w, Mask(f), Mask(g));
  }

  /** Setting a bit raises exactly that flag; clearing it lowers exactly that flag. */
  lemma {:induction false} SetAndClear(w: bv32, f: Flag, g: Flag)
    ensures Has(Or(w, Mask(f)), g) <==> g == f || Has(w, g)
    ensures Has(AndNot(w, Mask(f)), g) <==> g != f && Has(w, g)
  {
    hide Mask, Has, Or, AndNot;
    if f == g {
      OwnFlag(w, f);
    } else {
      OtherFlag(w, f, g);
    }
  }

  /** A chg_* test tells whether the flag differs between the two words. */
  lemma {:induction false} ChangedTest(w: bv32, prev: bv32, f: Flag)
    ensures Tests(w ^ prev, Mask(f)) <==> Has(w, f) != Has(prev, f)
  {
    hide Mask;
    MasksAreSingle(f);
    OneBit(w, Mask(f));
    OneBit(prev, Mask(f));
    XorSplits(w, prev, Mask(f));
  }

  /** The network driver's update: our local bits, the master's other bits, and on top of them the master's
      commlost and fastpoll, which are only ever set here. */
  function Merged(own: bv32, master: bv32): bv32 {
    ((own & LOCAL_BITS) | (master & !LOCAL_BITS)) | (master & (Mask(CommLost) | Mask(FastPoll)))
  }

  lemma MergedLocal(own: bv32, master: bv32, f: Flag)
    requires IsLocal(f) && f != CommLost && f != FastPoll
    ensures Merged(own, master) & Mask(f) == own & Mask(f)
  {
  }

  lemma MergedShared(own: bv32, master: bv32, f: Flag)
    requires f == CommLost || f == FastPoll
    ensures Merged(own, master) & Mask(f) == (own & Mask(f)) | (master & Mask(f))
  {
  }

  lemma MergedForeign(own: bv32, master: bv32, f: Flag)
    requires !IsLocal(f)
    ensures Merged(own, master) & Mask(f) == master & Mask(f)
  {
  }

  /** The record that a status word stands for. */
  function Report(w: bv32): Reported {
    Reported(Has(w, Calibration), Has(w, Trim), Has(w, Boost), Has(w, Online), Has(w, OnBatt),
             Has(w, Overload), Has(w, BattLow), Has(w, CommLost), Has(w, Slave), Has(w, SlaveDown),
             Has(w, ShutRemote), Has(w, Plugged), Has(w, BattPresent))
  }

  function Locals(w: bv32): Local {
    Local(Has(w, Shutdown), Has(w, OnBattMsg), Has(w, FastPoll), Has(w, ShutLoad), Has(w, ShutBtime),
          Has(w, ShutLtime), Has(w, ShutEmerg))
  }

  function Meaning(w: bv32): Status { Status(Report(w), Has(w, ReplaceBatt), Locals(w)) }

  /** Our own local flags survive the update; */
  lemma {:induction false} OwnSurvives(own: bv32, master: bv32, f: Flag)
    requires IsLocal(f) && f != CommLost && f != FastPoll
    ensures Has(Merged(own, master), f) == Has(own, f)
  {
    hide Merged, Mask, IsLocal;
    MergedLocal(own, master, f);
  }

  /** the other flags are the master's; */
  lemma {:induction false} MasterDecides(own: bv32, master: bv32, f: Flag)
    requires !IsLocal(f)
    ensures Has(Merged(own, master), f) == Has(master, f)
  {
    hide Merged, Mask, IsLocal;
    MergedForeign(own, master, f);
  }

  /** and for two of them either may raise it. */
  lemma {:induction false} EitherRaises(own: bv32, master: bv32, f: Flag)
    requires f == CommLost || f == FastPoll
    ensures Has(Merged(own, master), f) <==> Has(own, f) || Has(master, f)
  {
    hide Merged, Mask, Single;
    MergedShared(own, master, f);
    MasksAreSingle(f);
    OneBit(own, Mask(f));
    OneBit(master, Mask(f));
  }

  /** The master's report, but our own slave bits, either's loss of communication, and remote shutdown also
      when the master is shutting down itself. */
  function Joined(own: Reported, master: Reported, down: bool): Reported {
    Reported(master.calibration, master.trim, master.boost, master.online, master.onBatt, master.overload,
             master.battLow, own.commLost || master.commLost, own.slave, own.slaveDown,
             master.shutRemote || down, own.plugged, master.battPresent)
  }

  lemma {:induction false} MergedFlags(own: bv32, master: bv32)
    ensures Report(Merged(own, master)) ==
            Reported(Has(master, Calibration), Has(master, Trim), Has(master, Boost), Has(master, Online),
                     Has(master, OnBatt), Has(master, Overload), Has(master, BattLow),
                     Has(own, CommLost) || Has(master, CommLost), Has(own, Slave), Has(own, SlaveDown),
                     Has(master, ShutRemote), Has(own, Plugged), Has(master, BattPresent))
  {
    hide Has, Mask, Merged;
    MasterDecides(own, master, Calibration);
    MasterDecides(own, master, Trim);
    MasterDecides(own, master, Boost);
    MasterDecides(own, master, Online);
    MasterDecides(own, master, OnBatt);
    MasterDecides(own, master, Overload);
    MasterDecides(own, master, BattLow);
    EitherRaises(own, master, CommLost);
    OwnSurvives(own, master, Slave);
    OwnSurvives(own, master, SlaveDown);
    MasterDecides(own, master, ShutRemote);
    OwnSurvives(own, master, Plugged);
    MasterDecides(own, master, BattPresent);
  }

  lemma {:induction false} JoinedFlags(own: bv32, master: bv32)
    ensures Joined(Report(own), Report(master), false) ==
            Reported(Has(master, Calibration), Has(master, Trim), Has(master, Boost), Has(master, Online),
                     Has(master, OnBatt), Has(master, Overload), Has(master, BattLow),
                     Has(own, CommLost) || Has(master, CommLost), Has(own, Slave), Has(own, SlaveDown),
                     Has(master, ShutRemote), Has(own, Plugged), Has(master, BattPresent))
  {
    hide Has;
  }

  lemma {:induction false} MergedReport(own: bv32, master: bv32)
    ensures Report(Merged(own, master)) == Joined(Report(own), Report(master), false)
  {
    hide Has, Merged, Report, Joined;
    MergedFlags(own, master);
    JoinedFlags(own, master);
  }

  lemma {:induction false} MergedLocals(own: bv32, master: bv32)
    ensures Locals(Merged(own, master)) == Locals(own).(fastPoll := Has(own, FastPoll) || Has(master, FastPoll))
  {
    hide Has, Mask, Merged;
    OwnSurvives(own, master, Shutdown);
    OwnSurvives(own, master, OnBattMsg);
    EitherRaises(own, master, FastPoll);
    OwnSurvives(own, master, ShutLoad);
    OwnSurvives(own, master, ShutBtime);
    OwnSurvives(own, master, ShutLtime);
    OwnSurvives(own, master, ShutEmerg);
  }

  /** The whole update: a master that is shutting down also tells its slaves to. */
  function Followed(own: bv32, master: bv32): bv32 {
    if Has(master, Shutdown) then Or(Merged(own, master), Mask(ShutRemote)) else Merged(own, master)
  }

  lemma {:induction false} ShutRemoteReport(w: bv32)
    ensures Report(Or(w, Mask(ShutRemote))) == Report(w).(shutRemote := true)
  {
    hide Has, Mask, Or, AndNot;
    OtherFlag(w, ShutRemote, Calibration);
    OtherFlag(w, ShutRemote, Trim);
    OtherFlag(w, ShutRemote, Boost);
    OtherFlag(w, ShutRemote, Online);
    OtherFlag(w, ShutRemote, OnBatt);
    OtherFlag(w, ShutRemote, Overload);
    OtherFlag(w, ShutRemote, BattLow);
    OtherFlag(w, ShutRemote, CommLost);
    OtherFlag(w, ShutRemote, Slave);
    OtherFlag(w, ShutRemote, SlaveDown);
    OwnFlag(w, ShutRemote);
    OtherFlag(w, ShutRemote, Plugged);
    OtherFlag(w, ShutRemote, BattPresent);
  }

  lemma {:induction false} ShutRemoteLocals(w: bv32)
    ensures Locals(Or(w, Mask(ShutRemote))) == Locals(w)
    ensures Has(Or(w, Mask(ShutRemote)), ReplaceBatt) == Has(w, ReplaceBatt)
  {
    hide Has, Mask, Or, AndNot;
    OtherFlag(w, ShutRemote, Shutdown);
    OtherFlag(w, ShutRemote, OnBattMsg);
    OtherFlag(w, ShutRemote, FastPoll);
    OtherFlag(w, ShutRemote, ShutLoad);
    OtherFlag(w, ShutRemote, ShutBtime);
    OtherFlag(w, ShutRemote, ShutLtime);
    OtherFlag(w, ShutRemote, ShutEmerg);
    OtherFlag(w, ShutRemote, ReplaceBatt);
  }

  lemma JoinedWhenDown(own: Reported, master: Reported)
    ensures Joined(own, master, false).(shutRemote := true) == Joined(own, master, true)
  {
  }

  lemma {:induction false} FollowedReport(own: bv32, master: bv32)
    ensures Report(Followed(own, master)) == Joined(Report(own), Report(master), Has(master, Shutdown))
  {
    hide Has, Mask, Merged, Or, Report, Joined;
    MergedReport(own, master);
    JoinedWhenDown(Report(own), Report(master));
    ShutRemoteReport(Merged(own, master));
  }

  lemma {:induction false} FollowedLocals(own: bv32, master: bv32)
    ensures Locals(Followed(own, master)) ==
            Locals(own).(fastPoll := Locals(own).fastPoll || Locals(master).fastPoll)
    ensures Has(Followed(own, master), ReplaceBatt) == Has(master, ReplaceBatt)
  {
    hide Has, Mask, Merged, Or, Report;
    MasterDecides(own, master, ReplaceBatt);
    MergedLocals(own, master);
    ShutRemoteLocals(Merged(own, master));
  }

  /** What the network driver's update means for the engine: its own bits survive, except that fastpoll may be
      raised, so the update is one that UpsState.Observe allows; and remote shutdown is reported if the master
      reports it or is itself shutting down. */
  lemma {:induction false} NetworkUpdateIsObserved(own: bv32, master: bv32, u: Ups, r: Reading)
    requires u.status == Meaning(own)
    ensures var m := Meaning(master);
            Meaning(Followed(own, master)) ==
            Observe(u, r.(ups := Joined(u.status.ups, m.ups, m.local.shutdown), replaceBatt := m.replaceBatt,
                          fastPoll := m.local.fastPoll)).status
  {
    hide Has, Followed, Report, Joined;
    FollowedReport(own, master);
    FollowedLocals(own, master);
  }

  /** The two status words of UPSINFO, with the mutators and tests of include/struct.h. */
  class StatusFields {
    var status: bv32
    var prevStatus: bv32

    method Set(f: Flag)
      modifies `status
      ensures forall g :: Has(status, g) <==> g == f || old(Has(status, g))
    {
      hide Has, Or, Mask;
      forall g ensures Has(Or(status, Mask(f)), g) <==> g == f || Has(status, g) { SetAndClear(status, f, g); }
      status := Or(status, Mask(f));
    }

    method Clear(f: Flag)
      modifies `status
      ensures forall g :: Has(status, g) <==> g != f && old(Has(status, g))
    {
      hide Has, AndNot, Mask;
      forall g ensures Has(AndNot(status, Mask(f)), g) <==> g != f && Has(status, g) { SetAndClear(status, f, g); }
      status := AndNot(status, Mask(f));
    }

    /** Being on line and being on battery exclude each other. */
    method SetOnline(on: bool)
      modifies `status
      ensures forall g :: Has(status, g) <==>
                          if g == Online then on else if g == OnBatt then !on else old(Has(status, g))
    {
      hide Has;
      if on {
        Set(Online);
        Clear(OnBatt);
      } else {
        Set(OnBatt);
        Clear(Online);
      }
    }

    method Changed(f: Flag) returns (changed: bool)
      ensures changed <==> Has(status, f) != Has(prevStatus, f)
    {
      hide Tests, Has, Mask;
      ChangedTest(status, prevStatus, f);
      changed := Tests(status ^ prevStatus, Mask(f));
    }

    /** What the network driver does with the status word of its master. */
    method TakeMasterStatus(master: bv32)
      modifies `status
      ensures status == Followed(old(status), master)
    {
      CopyBits(master);
      if Has(master, Shutdown) {
        RaiseShutRemote();
      }
    }

    /** Remote shutdown is set unless it is set already. */
    method RaiseShutRemote()
      modifies `status
      ensures status == Or(old(status), Mask(ShutRemote))
    {
      if !Has(status, ShutRemote) {
        status := Or(status, Mask(ShutRemote));
      } else {
        OrAgain(status, ShutRemote);
      }
    }

    method CopyBits(master: bv32)
      modifies `status
      ensures status == Merged(old(status), master)
    {
      var newStatus := master & !LOCAL_BITS;
      status := status & LOCAL_BITS;
      status := status | newStatus;
      newStatus := master & (Mask(CommLost) | Mask(FastPoll));
      status := status | newStatus;
    }
  }

  lemma OrAgain(w: bv32, f: Flag)
    requires Has(w, f)
    ensures Or(w, Mask(f)) == w
  {
    hide Mask;
    OrIncluded(w, Mask(f));
  }

  lemma OrIncluded(w: bv32, m: bv32)
    requires w & m == m
    ensures w | m == w
  {
  }
}
