/** The notifications of `Notification` on the rings of `RingProtocol`: the counts are those of the chains added
    and taken, and the flags and the event index are fields of the shared memory. */
module RingWakeUp {
  import opened Wrappers
  import opened Words
  import opened RingMemory
  import opened RingProtocol
  import RingSafety
  import N = Notification

  datatype Queue = Queue(ring: System, eventIdx: bool, device: N.Device, pending: nat, kicked: bool, sent: nat)

  datatype Step = OnRing(step: RingProtocol.Step) | Check | Suppress | Arm | Recheck | Wake

  function View(q: Queue): (s: N.State) {
    N.State(q.eventIdx, q.ring.available, q.ring.taken, q.ring.mem.availEvent, q.ring.mem.usedFlags, q.device,
            q.pending, q.kicked, q.sent)
  }

  ghost predicate Init(q: Queue) {
    && RingProtocol.Init(q.ring) && q.ring.mem.availEvent == q.ring.mem.usedFlags == 0
    && q.device == N.Running && q.pending == 0 && !q.kicked && q.sent == 0
  }

  /** The ring after the device has written the fields by which it asks for notifications. */
  function Told(s: System, flags: nat, event: nat): (s': System) {
    s.(mem := s.mem.(usedFlags := flags, availEvent := event))
  }

  /** The driver checks with its own index and the fields that the device wrote; the device goes by its own index
      and the driver's published one. */
  ghost predicate Next(q: Queue, q': Queue, step: Step) {
    match step
    case OnRing(step) =>
      && RingProtocol.Next(q.ring, q'.ring, step)
      && (step.Fetch? ==> q.device == N.Running)
      && q' == q.(ring := q'.ring, pending := if step.Add? then q.pending + 1 else q.pending)
    case Check =>
      && q.pending > 0
      && q' == q.(pending := 0, kicked := q.kicked || (q.device == N.Asleep && Notifies(q.eventIdx, q.ring)),
                  sent := if Notifies(q.eventIdx, q.ring) then q.sent + 1 else q.sent)
    case Suppress =>
      q.device == N.Running && q' == q.(ring := Told(q.ring, 1, q.ring.mem.availEvent))
    case Arm =>
      q.device == N.Running && q' == q.(device := N.Armed, ring := Told(q.ring, 0, q.ring.devAvail))
    case Recheck =>
      && q.device == N.Armed
      && q' == q.(device := if q.ring.mem.availIdx != q.ring.devAvail then N.Running else N.Asleep)
    case Wake =>
      q.device == N.Asleep && q.kicked && q' == q.(device := N.Running, kicked := false)
  }

  predicate Notifies(eventIdx: bool, s: System) {
    NeedsNotify(eventIdx, s.drvAvail, s.mem.availEvent, s.mem.usedFlags)
  }

  // ---------------------------------------------------------------------------------------

  lemma ToldKeeps(s: System, flags: nat, event: nat)
    requires Inv(s)
    ensures Inv(Told(s, flags, event))
  {
  }

  /** The steps on the ring leave those fields alone, and count one chain added or taken. */
  lemma RingStepCounts(s: System, s': System, step: RingProtocol.Step)
    requires RingProtocol.Next(s, s', step)
    ensures s'.mem.availEvent == s.mem.availEvent && s'.mem.usedFlags == s.mem.usedFlags
    ensures s'.available == if step.Add? then s.available + 1 else s.available
    ensures s'.taken == if step.Fetch? then s.taken + 1 else s.taken
    ensures step.Fetch? ==> s.devAvail != s.mem.availIdx
  {
  }

  /** No more chains are ever waiting than the ring holds. */
  lemma WaitingFits(s: System)
    requires Inv(s)
    ensures s.taken <= s.available <= s.taken + 32768
    ensures s.devAvail == s.taken % U16 && s.drvAvail == s.mem.availIdx == s.available % U16
  {
    RingSafety.CountOrder(s);
  }

  /** Whether a further chain may be added before the driver checks. */
  predicate MayBatch(q: Queue) {
    N.MayBatch(View(q))
  }

  lemma RingStepKeeps(v: N.State, v': N.State, step: RingProtocol.Step)
    requires N.Inv(v) && (step.Add? ==> N.MayBatch(v) && v'.available <= v'.taken + 32768)
    requires step.Fetch? ==> v.device == N.Running && v.taken < v.available
    requires v' == v.(available := if step.Add? then v.available + 1 else v.available,
                      taken := if step.Fetch? then v.taken + 1 else v.taken,
                      pending := if step.Add? then v.pending + 1 else v.pending)
    ensures N.Inv(v')
  {
    match step
    case Add(_, _, _, _) => N.StepKeeps(v, v', N.Publish);
    case Fetch => N.StepKeeps(v, v', N.Take);
    case _ => assert v' == v;
  }

  lemma ViewKeeps(q: Queue, q': Queue, step: RingProtocol.Step)
    requires Next(q, q', OnRing(step)) && N.Inv(View(q)) && (step.Add? ==> MayBatch(q))
    requires step.Fetch? ==> q.ring.taken < q.ring.available
    requires q'.ring.available <= q'.ring.taken + 32768
    ensures N.Inv(View(q'))
  {
    RingStepCounts(q.ring, q'.ring, step);
    RingStepKeeps(View(q), View(q'), step);
  }

  lemma OnRingKeeps(q: Queue, q': Queue, step: RingProtocol.Step)
    requires Inv(q.ring) && N.Inv(View(q)) && Next(q, q', OnRing(step))
    requires step.Add? ==> MayBatch(q)
    ensures Inv(q'.ring) && N.Inv(View(q'))
  {
    RingSafety.StepKeeps(q.ring, q'.ring, step);
    WaitingFits(q.ring);
    WaitingFits(q'.ring);
    RingStepCounts(q.ring, q'.ring, step);
    ViewKeeps(q, q', step);
  }

  /** Every step keeps the invariants of the ring and of the notifications. */
  lemma StepKeeps(q: Queue, q': Queue, step: Step)
    requires Inv(q.ring) && N.Inv(View(q)) && Next(q, q', step)
    requires step.OnRing? && step.step.Add? ==> MayBatch(q)
    ensures Inv(q'.ring) && N.Inv(View(q'))
  {
    if step.OnRing? {
      OnRingKeeps(q, q', step.step);
    } else {
      WaitingFits(q.ring);
      ToldKeeps(q.ring, q'.ring.mem.usedFlags, q'.ring.mem.availEvent);
      assert q'.ring == Told(q.ring, q'.ring.mem.usedFlags, q'.ring.mem.availEvent);
      OwnStepKeeps(q, q', step);
    }
  }

  lemma OwnStepKeeps(q: Queue, q': Queue, step: Step)
    requires !step.OnRing? && Next(q, q', step) && N.Inv(View(q))
    requires q.ring.devAvail == q.ring.taken % U16 && q.ring.drvAvail == q.ring.mem.availIdx == q.ring.available % U16
    ensures N.Inv(View(q'))
  {
    match step
    case Check => N.StepKeeps(View(q), View(q'), N.Check);
    case Suppress => N.StepKeeps(View(q), View(q'), N.Suppress);
    case Arm => N.StepKeeps(View(q), View(q'), N.Arm);
    case Recheck => N.StepKeeps(View(q), View(q'), N.Recheck);
    case Wake => N.StepKeeps(View(q), View(q'), N.Wake);
  }

  // ---------------------------------------------------------------------------------------
  // All runs

  datatype Run = Start(state: Queue) | Then(before: Run, step: Step, state: Queue)

  ghost predicate IsRun(r: Run) {
    match r
    case Start(q) => Init(q)
    case Then(before, step, q) =>
      && IsRun(before) && Next(before.state, q, step)
      && (step.OnRing? && step.step.Add? ==> MayBatch(before.state))
  }

  lemma {:induction false} RunInv(r: Run)
    requires IsRun(r)
    ensures Inv(r.state.ring) && N.Inv(View(r.state))
  {
    match r
    case Start(q) => RingSafety.InitInv(q.ring);
    case Then(before, step, q) =>
      RunInv(before);
      StepKeeps(before.state, q, step);
  }

  /** No lost wake-up: in every run, a device that sleeps while a chain waits on the available ring has been
      notified, unless the driver has added a chain and not yet looked whether to notify. */
  lemma NoLostWakeup(r: Run)
    requires IsRun(r)
    ensures var q := r.state;
            q.device == N.Asleep && q.ring.waiting != [] && q.pending == 0 ==> q.kicked
  {
    RunInv(r);
  }

  // ---------------------------------------------------------------------------------------
  // The notifications are those of `Notification`

  function StepOf(step: Step): (s: Option<N.Step>) {
    match step
    case OnRing(Add(_, _, _, _)) => Some(N.Publish)
    case OnRing(Fetch) => Some(N.Take)
    case OnRing(_) => None
    case Check => Some(N.Check)
    case Suppress => Some(N.Suppress)
    case Arm => Some(N.Arm)
    case Recheck => Some(N.Recheck)
    case Wake => Some(N.Wake)
  }

  /** The run as far as notifications are concerned. */
  function Watched(r: Run): (w: N.Run) {
    match r
    case Start(q) => N.Start(View(q))
    case Then(before, step, q) =>
      match StepOf(step)
      case None => Watched(before)
      case Some(s) => N.Then(Watched(before), s, View(q))
  }

  lemma StepWatched(q: Queue, q': Queue, step: Step)
    requires Inv(q.ring) && Inv(q'.ring) && Next(q, q', step)
    ensures if StepOf(step).None? then View(q') == View(q) else N.Next(View(q), View(q'), StepOf(step).value)
  {
    WaitingFits(q.ring);
    WaitingFits(q'.ring);
    if step.OnRing? {
      RingStepCounts(q.ring, q'.ring, step.step);
      RingStepWatched(q, q', step.step);
    } else {
      OwnStepWatched(q, q', step);
    }
  }

  lemma RingStepWatched(q: Queue, q': Queue, step: RingProtocol.Step)
    requires Next(q, q', OnRing(step))
    requires q'.ring.mem.availEvent == q.ring.mem.availEvent && q'.ring.mem.usedFlags == q.ring.mem.usedFlags
    requires q'.ring.available == if step.Add? then q.ring.available + 1 else q.ring.available
    requires q'.ring.taken == if step.Fetch? then q.ring.taken + 1 else q.ring.taken
    requires q'.ring.taken <= q'.ring.available <= q'.ring.taken + 32768
    ensures var s := StepOf(OnRing(step));
            if s.None? then View(q') == View(q) else N.Next(View(q), View(q'), s.value)
  {
  }

  lemma OwnStepWatched(q: Queue, q': Queue, step: Step)
    requires !step.OnRing? && Next(q, q', step)
    requires q.ring.devAvail == q.ring.taken % U16 && q.ring.drvAvail == q.ring.mem.availIdx == q.ring.available % U16
    ensures N.Next(View(q), View(q'), StepOf(step).value)
  {
  }

  /** Every run on the rings is one of `Notification`, so that all its laws hold on the rings. */
  lemma {:induction false} RunWatched(r: Run)
    requires IsRun(r)
    ensures N.IsRun(Watched(r)) && Watched(r).state == View(r.state)
  {
    match r
    case Start(_) =>
    case Then(before, step, q) =>
      RunWatched(before);
      RunInv(before);
      RunInv(r);
      StepWatched(before.state, q, step);
  }

  /** The device's latest word was that it does not want to be notified. */
  function Hushed(r: Run): (b: bool) {
    match r
    case Start(_) => false
    case Then(before, step, _) => step.Suppress? || (!step.Arm? && Hushed(before))
  }

  lemma {:induction false} HushedWatched(r: Run)
    ensures N.Hushed(Watched(r)) == Hushed(r)
  {
    if r.Then? {
      HushedWatched(r.before);
    }
  }

  /** With flags, every check sends one notification, unless the device's latest word was that it wants none. */
  lemma CheckExact(r: Run, q: Queue)
    requires IsRun(Then(r, Check, q)) && !q.eventIdx
    ensures q.sent == if Hushed(r) then r.state.sent else r.state.sent + 1
  {
    var later := Then(r, Check, q);
    RunWatched(r);
    RunWatched(later);
    N.FreeRun(Watched(later));
    N.CheckExact(Watched(r), View(q));
    HushedWatched(r);
  }

  /** The count for which the device has last asked to be notified. */
  function ArmedAt(r: Run): (n: nat) {
    match r
    case Start(_) => 0
    case Then(before, step, _) => if step.Arm? then before.state.ring.taken else ArmedAt(before)
  }

  lemma {:induction false} ArmedWatched(r: Run)
    requires IsRun(r)
    ensures N.ArmedAt(Watched(r)) == ArmedAt(r)
  {
    if r.Then? {
      ArmedWatched(r.before);
      RunWatched(r.before);
    }
  }

  /** With event indices a device that waits for a chain not yet added is notified exactly if that chain is the last one
      before the index wraps. */
  lemma EarlyExact(r: Run, q: Queue)
    requires IsRun(Then(r, Check, q)) && q.eventIdx && ArmedAt(r) == q.ring.available
    ensures q.sent == if q.ring.available % U16 == U16 - 1 then r.state.sent + 1 else r.state.sent
  {
    var later := Then(r, Check, q);
    RunWatched(r);
    RunWatched(later);
    N.FreeRun(Watched(later));
    ArmedWatched(r);
    N.EventExact(Watched(r), View(q));
  }
}
