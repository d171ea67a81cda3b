/** Available buffer notifications (sections 2.6.7 and 2.6.10 of VirtIO v1.1): a device that goes to sleep with work
    pending has been woken, and one that asked not to be notified is left alone. */
module Notification {
  import opened Words
  import opened RingMemory

  datatype Device = Running | Armed | Asleep

  /** `available` and `taken` count the chains the driver has published and the device has taken;
      the driver's index and the event field are these counts modulo 2^16. `pending` is the number
      of chains published since the driver last looked whether it should notify, `kicked` says
      that a sleeping device has been notified, and `sent` counts the notifications. */
  datatype State = State(
    eventIdx: bool, available: nat, taken: nat, availEvent: nat, usedFlags: nat,
    device: Device, pending: nat, kicked: bool, sent: nat)

  datatype Step = Publish | Check | Take | Suppress | Arm | Recheck | Wake

  ghost predicate Init(s: State) {
    && s.available == s.taken == s.availEvent == s.usedFlags == 0
    && s.device == Running && s.pending == 0 && !s.kicked && s.sent == 0
  }

  /** With event indices, a further chain may join a batch that has not been checked yet, unless it makes
      the index wrap to zero. Publishing one chain and then checking is always allowed, and with flags so is
      any batch. */
  predicate MayBatch(s: State) {
    s.pending == 0 || !s.eventIdx || (s.available + 1) % U16 != 0
  }

  /** Whether the driver notifies, on the fields it reads. */
  predicate Notifies(s: State) {
    NeedsNotify(s.eventIdx, s.available % U16, s.availEvent, s.usedFlags)
  }

  /** A notification to a device that is not asleep has no effect. */
  ghost predicate Next(s: State, s': State, step: Step) {
    match step
    case Publish =>
      && s.available - s.taken < 32768
      && s' == s.(available := s.available + 1, pending := s.pending + 1)
    case Check =>
      && s.pending > 0
      && s' == s.(pending := 0, kicked := s.kicked || (s.device == Asleep && Notifies(s)),
                  sent := if Notifies(s) then s.sent + 1 else s.sent)
    case Take =>
      s.device == Running && s.taken < s.available && s' == s.(taken := s.taken + 1)
    case Suppress =>
      // While it runs, the device may ask not to be notified.
      s.device == Running && s' == s.(usedFlags := 1)
    case Arm =>
      s.device == Running && s' == s.(device := Armed, usedFlags := 0, availEvent := s.taken % U16)
    case Recheck =>
      s.device == Armed && s' == s.(device := if s.available % U16 != s.taken % U16 then Running else Asleep)
    case Wake =>
      s.device == Asleep && s.kicked && s' == s.(device := Running, kicked := false)
  }

  /** A sleeping device has nothing to do, or has been notified, or the driver is about to do so:
      then every chain the device has not seen belongs to the unchecked batch. */
  ghost predicate Inv(s: State) {
    && s.taken <= s.available <= s.taken + 32768
    && s.pending <= s.available
    && (s.device != Running ==> s.availEvent == s.taken % U16 && s.usedFlags == 0)
    && (s.device == Asleep && !s.kicked ==> s.available - s.taken <= s.pending)
    && (s.kicked ==> s.device == Asleep)
    && (s.eventIdx ==> NoWrapInside(s.available, s.pending))
  }

  /** No chain of the batch but the first one made the index wrap to zero. */
  ghost predicate NoWrapInside(available: nat, pending: nat)
    requires pending <= available
  {
    pending > 0 ==> (available - pending + 1) % U16 + (pending - 1) < U16
  }

  lemma InitInv(s: State)
    requires Init(s)
    ensures Inv(s)
  {
  }

  /** The source compares the index and the event field without regard to wraparound. For a batch
      without a wrap inside, that still notifies a device that waits for any chain of the batch. */
  lemma BatchNotifies(s: State)
    requires Inv(s) && s.device == Asleep && s.taken < s.available && s.available - s.taken <= s.pending
    ensures Notifies(s)
  {
    if s.eventIdx {
      var first := s.available - s.pending + 1;
      ModStep(first, s.taken + 1 - first);
      ModStep(first, s.available - first);
      WrappedNext(s.taken);
    }
  }

  /** Within one lap of 2^16, remainders grow along with the counts. */
  lemma ModStep(c: nat, d: nat)
    requires c % U16 + d < U16
    ensures (c + d) % U16 == c % U16 + d
  {
  }

  lemma StepKeeps(s: State, s': State, step: Step)
    requires Inv(s) && Next(s, s', step) && (step.Publish? ==> MayBatch(s))
    ensures Inv(s')
  {
    match step
    case Publish => PublishKeeps(s);
    case Check =>
      if s.device == Asleep && !s.kicked && s.taken < s.available {
        BatchNotifies(s);
      }
    case Recheck => WrappedEqual(s.taken, s.available);
    case _ =>
  }

  lemma PublishKeeps(s: State)
    requires s.pending <= s.available && MayBatch(s) && (s.eventIdx ==> NoWrapInside(s.available, s.pending))
    ensures s.eventIdx ==> NoWrapInside(s.available + 1, s.pending + 1)
  {
    if s.eventIdx && s.pending > 0 {
      var first := s.available - s.pending + 1;
      ModStep(first, s.pending - 1);
      assert s.available % U16 != U16 - 1;
    }
  }

  // ---------------------------------------------------------------------------------------
  // All runs

  datatype Run = Start(state: State) | Then(before: Run, step: Step, state: State)

  ghost predicate IsRun(r: Run) {
    match r
    case Start(s) => Init(s)
    case Then(before, step, s) =>
      IsRun(before) && Next(before.state, s, step) && (step.Publish? ==> MayBatch(before.state))
  }

  lemma {:induction false} RunInv(r: Run)
    requires IsRun(r)
    ensures Inv(r.state)
  {
    match r
    case Start(s) => InitInv(s);
    case Then(before, step, s) =>
      RunInv(before);
      StepKeeps(before.state, s, step);
  }

  /** No lost wake-up: in every run, a device that sleeps while a chain is pending has been notified,
      unless the driver has published a chain and not yet looked whether to notify. */
  lemma NoLostWakeup(r: Run)
    requires IsRun(r)
    ensures var s := r.state;
            s.device == Asleep && s.taken < s.available && s.pending == 0 ==> s.kicked
  {
    RunInv(r);
  }

  // ---------------------------------------------------------------------------------------
  // Batches

  /** After a batch of `k` chains, the driver notifies a device that waits for the first of them
      exactly when the index does not wrap between the first chain and the last. */
  lemma BatchExact(available: nat, k: nat)
    requires 1 <= k <= 32768
    ensures NeedsNotify(true, (available + k) % U16, available % U16, 0)
            <==> available % U16 == U16 - 1 || available % U16 + k < U16
  {
  }

  /** The restriction on batches is needed: whenever a batch wraps inside, a device that went to sleep
      just before it stays asleep with the whole batch pending and no notification. */
  lemma WrapInsideIsLost(s: State, k: nat) returns (s': State)
    requires s.eventIdx && s.device == Asleep && !s.kicked && s.taken == s.available
    requires s.availEvent == s.taken % U16 && s.pending == 0
    requires 1 <= k <= 32768 && s.available % U16 != U16 - 1 && s.available % U16 + k >= U16
    ensures Next(s.(available := s.available + k, pending := k), s', Check)
    ensures s'.device == Asleep && s'.taken + k == s'.available && s'.pending == 0 && !s'.kicked
  {
    var t := s.(available := s.available + k, pending := k);
    BatchExact(s.available, k);
    s' := t.(pending := 0);
  }

  /** A run in which the driver may publish any number of chains before it checks. */
  ghost predicate IsFreeRun(r: Run) {
    match r
    case Start(s) => Init(s)
    case Then(before, step, s) => IsFreeRun(before) && Next(before.state, s, step)
  }

  lemma {:induction false} FreeRun(r: Run)
    requires IsRun(r)
    ensures IsFreeRun(r)
  {
    if r.Then? {
      FreeRun(r.before);
    }
  }

  /** Chains published, checked and taken one at a time bring the counts to any number. */
  lemma {:induction false} Advance(n: nat) returns (r: Run)
    ensures IsRun(r) && IsFreeRun(r) && r.state == State(true, n, n, 0, 0, Running, 0, false, r.state.sent)
  {
    if n == 0 {
      r := Start(State(true, 0, 0, 0, 0, Running, 0, false, 0));
    } else {
      var before := Advance(n - 1);
      var s1 := before.state.(available := n, pending := 1);
      var s2 := s1.(pending := 0, sent := if Notifies(s1) then s1.sent + 1 else s1.sent);
      r := Then(Then(Then(before, Publish, s1), Check, s2), Take, s2.(taken := n));
    }
  }

  /** Without the restriction a wake-up is lost: the device sleeps at count 65534, two chains are
      published before the driver checks, and nobody is notified. */
  lemma LostWakeup() returns (r: Run)
    ensures IsFreeRun(r)
    ensures r.state.device == Asleep && r.state.taken < r.state.available && r.state.pending == 0 && !r.state.kicked
  {
    var n := 65534;
    var base := Advance(n);
    var k := base.state.sent;
    var armed := Then(base, Arm, State(true, n, n, n, 0, Armed, 0, false, k));
    var asleep := Then(armed, Recheck, State(true, n, n, n, 0, Asleep, 0, false, k));
    var one := Then(asleep, Publish, State(true, n + 1, n, n, 0, Asleep, 1, false, k));
    assert IsFreeRun(armed) && IsFreeRun(asleep);
    var two := Then(one, Publish, State(true, n + 2, n, n, 0, Asleep, 2, false, k));
    assert IsFreeRun(one) && IsFreeRun(two);
    r := Then(two, Check, State(true, n + 2, n, n, 0, Asleep, 0, false, k));
  }

  /** The one batch the source publishes before checking, when a queue is first filled, is safe. */
  lemma FirstFillNotifies(size: nat)
    requires IsQueueSize(size)
    ensures NeedsNotify(true, size % U16, 0, 0)
  {
    var m := QueueSizeDivides(size);
    BatchExact(0, size);
  }

  // ---------------------------------------------------------------------------------------
  // A device that does not want to be notified

  /** The device's latest word, in a run with flags, was that it does not want to be notified. */
  function Hushed(r: Run): (b: bool) {
    match r
    case Start(_) => false
    case Then(before, step, _) => step.Suppress? || (!step.Arm? && Hushed(before))
  }

  lemma {:induction false} HushedFlag(r: Run)
    requires IsFreeRun(r)
    ensures r.state.usedFlags == if Hushed(r) then 1 else 0
  {
    if r.Then? {
      HushedFlag(r.before);
    }
  }

  /** With flags, every check sends one notification, unless the device's latest word was that it wants none. */
  lemma CheckExact(r: Run, s: State)
    requires IsFreeRun(Then(r, Check, s)) && !s.eventIdx
    ensures s.sent == if Hushed(r) then r.state.sent else r.state.sent + 1
  {
    HushedFlag(r);
  }

  /** The run has gone on from `r` to `later`, and the device has not asked for notifications since. */
  predicate GoesOnUnarmed(r: Run, later: Run) {
    later == r || (later.Then? && !later.step.Arm? && GoesOnUnarmed(r, later.before))
  }

  /** So, between a word that it wants none and the next one that it does, the device gets none. */
  lemma {:induction false} HushedIsLeftAlone(r: Run, later: Run)
    requires IsFreeRun(later) && !later.state.eventIdx && Hushed(r) && GoesOnUnarmed(r, later)
    ensures Hushed(later) && later.state.sent == r.state.sent
  {
    if later != r {
      HushedIsLeftAlone(r, later.before);
      if later.step.Check? {
        CheckExact(later.before, later.state);
      }
    }
  }

  /** The count for which the device has last asked to be notified: at the start, for the first chain. */
  function ArmedAt(r: Run): (n: nat) {
    match r
    case Start(_) => 0
    case Then(before, step, _) => if step.Arm? then before.state.taken else ArmedAt(before)
  }

  lemma {:induction false} ArmedEvent(r: Run)
    requires IsFreeRun(r)
    ensures r.state.availEvent == ArmedAt(r) % U16 && ArmedAt(r) <= r.state.taken <= r.state.available
  {
    if r.Then? {
      ArmedEvent(r.before);
    }
  }

  /** Leaving out whole laps of the index in between, chain `n` is among the `m` published ones and the index has not
      wrapped since, or it is the last one before the index wraps, published or not. */
  predicate Passed(n: nat, m: nat)
    requires n <= m
  {
    n % U16 == U16 - 1 || 0 < (m - n) % U16 < U16 - n % U16
  }

  /** What `NeedsNotify` comes to when the device waits for chain `n` and `m` chains are published. */
  lemma WaitedFor(n: nat, m: nat, flags: nat)
    requires n <= m
    ensures NeedsNotify(true, m % U16, n % U16, flags) <==> Passed(n, m)
  {
    var k := (m - n) % U16;
    assert m % U16 == (n + k) % U16;
    PassedNotify(n, k);
  }

  lemma PassedNotify(n: nat, k: nat)
    requires k < U16
    ensures (n + k) % U16 >= (n % U16 + 1) % U16 <==> n % U16 == U16 - 1 || 0 < k < U16 - n % U16
  {
  }

  /** With event indices a check sends a notification exactly if the index has passed the chain that the device waits
      for in this sense; so it sends none to a device that waits for a chain not yet published, with that one
      exception. */
  lemma EventExact(r: Run, s: State)
    requires IsFreeRun(Then(r, Check, s)) && s.eventIdx
    ensures ArmedAt(r) <= s.available
    ensures s.sent == if Passed(ArmedAt(r), s.available) then r.state.sent + 1 else r.state.sent
  {
    ArmedEvent(r);
    WaitedFor(ArmedAt(r), s.available, s.usedFlags);
    assert Notifies(r.state) <==> Passed(ArmedAt(r), s.available);
  }

  /** The exception is real: a device that has taken all 65535 chains published so far and waits for the next one is
      notified although there is none. */
  lemma NeedlessNotify() returns (r: Run)
    ensures IsRun(r) && r.Then? && r.step.Check?
    ensures r.state.device == Armed && r.state.taken == r.state.available && r.state.sent == r.before.state.sent + 1
  {
    var n := 65535;
    var base := Advance(n - 1);
    var published := Then(base, Publish, base.state.(available := n, pending := 1));
    var taken := Then(published, Take, published.state.(taken := n));
    var armed := Then(taken, Arm, taken.state.(device := Armed, availEvent := n));
    assert IsRun(published) && IsRun(taken) && IsRun(armed);
    r := Then(armed, Check, armed.state.(pending := 0, sent := armed.state.sent + 1));
  }
}
