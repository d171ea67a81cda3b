/** Reading several fields of the configuration space while the device may change them. */
module ConfigSnapshot {
  import opened Wrappers
  import opened Words

  /** The configuration space at one moment. `changes` counts, without bound, how often the device has
      announced a change. */
  datatype Moment = Moment(fields: seq<nat>, changes: nat)

  /** The device announces every change: the fields only differ between moments with different counts. */
  ghost predicate Announced(line: seq<Moment>) {
    forall t :: 0 < t < |line| ==> AnnouncedAt(line, t)
  }

  ghost predicate AnnouncedAt(line: seq<Moment>, t: nat)
    requires 0 < t < |line|
  {
    && line[t - 1].changes <= line[t].changes
    && (line[t - 1].changes == line[t].changes ==> line[t - 1].fields == line[t].fields)
  }

  /** The moments of the reads of one attempt: of the generation, of each field, of the generation again. */
  datatype Attempt = Attempt(before: nat, reading: seq<nat>, after: nat)

  ghost predicate InOrder(a: Attempt, line: seq<Moment>, n: nat) {
    && |a.reading| == n && a.before <= a.after < |line|
    && (forall i :: 0 <= i < n ==> a.before <= a.reading[i] <= a.after)
  }

  /** Within the attempt the generation, which is the count modulo `modulus`, does not come round. */
  ghost predicate NoWrap(a: Attempt, line: seq<Moment>, modulus: nat) {
    a.before < |line| && a.after < |line| && line[a.after].changes < line[a.before].changes + modulus
  }

  /** The device announced something during the attempt. */
  ghost predicate Disturbed(a: Attempt, line: seq<Moment>) {
    a.before < |line| && a.after < |line| && line[a.before].changes != line[a.after].changes
  }

  /** What the closure of the driver returns when it reads the fields `wanted` at the moments `at`: a field that is
      not in the configuration space is an error. */
  function Observed(line: seq<Moment>, at: seq<nat>, wanted: seq<nat>): (r: Result<seq<nat>, Error>)
    requires |at| == |wanted| && forall i :: 0 <= i < |at| ==> at[i] < |line|
  {
    if forall i :: 0 <= i < |wanted| ==> wanted[i] < |line[at[i]].fields| then
      Ok(seq(|wanted|, i requires 0 <= i < |wanted| => line[at[i]].fields[wanted[i]]))
    else
      Err(ConfigSpaceTooSmall)
  }

  /** What it returns when it reads all of them at moment `m`. */
  function Snapshot(m: Moment, wanted: seq<nat>): (r: Result<seq<nat>, Error>) {
    if forall i :: 0 <= i < |wanted| ==> wanted[i] < |m.fields| then
      Ok(seq(|wanted|, i requires 0 <= i < |wanted| => m.fields[wanted[i]]))
    else
      Err(ConfigSpaceTooSmall)
  }

  lemma {:induction false} Quiet(line: seq<Moment>, t: nat, t': nat)
    requires Announced(line) && t <= t' < |line|
    ensures line[t].changes <= line[t'].changes
    ensures line[t].changes == line[t'].changes ==> line[t].fields == line[t'].fields
  {
    if t < t' {
      Quiet(line, t, t' - 1);
      assert AnnouncedAt(line, t');
    }
  }

  lemma SameGeneration(line: seq<Moment>, t: nat, t': nat, modulus: nat)
    requires Announced(line) && t <= t' < |line| && 0 < modulus
    requires line[t'].changes < line[t].changes + modulus && line[t].changes % modulus == line[t'].changes % modulus
    ensures line[t].changes == line[t'].changes
  {
    Quiet(line, t, t');
    if line[t].changes < line[t'].changes {
      ModsDiffer(line[t].changes, line[t'].changes, modulus);
    }
  }

  /** Between two reads of the same generation all fields stay as they are. */
  lemma NothingTorn(line: seq<Moment>, wanted: seq<nat>, a: Attempt, modulus: nat)
    requires Announced(line) && 0 < modulus
    requires InOrder(a, line, |wanted|) && NoWrap(a, line, modulus)
    requires line[a.before].changes % modulus == line[a.after].changes % modulus
    ensures Observed(line, a.reading, wanted) == Snapshot(line[a.before], wanted)
  {
    SameGeneration(line, a.before, a.after, modulus);
    forall i | 0 <= i < |wanted|
      ensures line[a.reading[i]].fields == line[a.before].fields
    {
      Quiet(line, a.before, a.reading[i]);
      Quiet(line, a.reading[i], a.after);
    }
    var seen, whole := Observed(line, a.reading, wanted), Snapshot(line[a.before], wanted);
    if seen.Ok? && whole.Ok? {
      assert seen.value == whole.value;
    }
  }

  /** `read_consistent`. `line` is what the device does and `attempts` are the moments of the reads; the
      retries have not ended if `attempts` does. */
  method ReadConsistent(line: seq<Moment>, wanted: seq<nat>, attempts: seq<Attempt>, modulus: nat)
    returns (r: Result<seq<nat>, Error>, tries: nat)
    requires Announced(line) && 0 < modulus
    requires forall i :: 0 <= i < |attempts| ==>
               InOrder(attempts[i], line, |wanted|) && NoWrap(attempts[i], line, modulus)
    ensures tries <= |attempts|
    ensures r != Err(Diverges) ==>
              && 0 < tries && InOrder(attempts[tries - 1], line, |wanted|)
              && r == Snapshot(line[attempts[tries - 1].before], wanted)
              && !Disturbed(attempts[tries - 1], line)
    ensures forall i :: 0 <= i < tries && (r == Err(Diverges) || i < tries - 1) ==> Disturbed(attempts[i], line)
    ensures r == Err(Diverges) ==> tries == |attempts|
  {
    tries := 0;
    while tries < |attempts|
      invariant tries <= |attempts|
      invariant forall i :: 0 <= i < tries ==> Disturbed(attempts[i], line)
    {
      var a := attempts[tries];
      var before := line[a.before].changes % modulus;
      var result := Observed(line, a.reading, wanted);
      var after := line[a.after].changes % modulus;
      tries := tries + 1;
      if before == after {
        NothingTorn(line, wanted, a, modulus);
        SameGeneration(line, a.before, a.after, modulus);
        return result, tries;
      }
    }
    return Err(Diverges), tries;
  }

  /** A 64-bit value stored as two 32-bit halves. */
  function Join(low: nat, high: nat): (v: nat) {
    low + high * U32
  }

  /** How the block driver reads the capacity and the socket driver its CID: the value is one that the
      device really had at a single moment, an error means that at some moment the space was too small, and an
      undisturbed attempt ends the retries. */
  method ReadU64(line: seq<Moment>, attempts: seq<Attempt>, modulus: nat) returns (r: Result<nat, Error>)
    requires Announced(line) && 0 < modulus
    requires forall i :: 0 <= i < |attempts| ==> InOrder(attempts[i], line, 2) && NoWrap(attempts[i], line, modulus)
    ensures r.Ok? ==> exists t :: 0 <= t < |line| && Holds(line[t], r.value)
    ensures r.Err? ==> r.error in {Diverges, ConfigSpaceTooSmall}
    ensures r == Err(ConfigSpaceTooSmall) ==> exists t :: 0 <= t < |line| && |line[t].fields| < 2
    ensures r == Err(Diverges) <==> forall i :: 0 <= i < |attempts| ==> Disturbed(attempts[i], line)
  {
    var values, tries := ReadConsistent(line, [0, 1], attempts, modulus);
    if values.Err? {
      return Err(values.error);
    }
    r := Ok(Join(values.value[0], values.value[1]));
    assert Holds(line[attempts[tries - 1].before], r.value);
  }

  /** The value whose low half is the first field and whose high half is the second. */
  ghost predicate Holds(m: Moment, v: nat) {
    |m.fields| >= 2 && v == m.fields[0] + m.fields[1] * 0x1_0000_0000
  }

  /** A device that changes both halves once and then announces until the generation comes round. */
  function Tearing(modulus: nat): (line: seq<Moment>) {
    seq(modulus + 1, t requires 0 <= t => Moment(if t == 0 then [0, 0] else [1, 1], t))
  }

  /** The bound on the number of changes is needed: when the generation comes round to the same value
      inside one attempt, the halves can be of different moments. */
  lemma WrapTearsReads(modulus: nat)
    requires 0 < modulus
    ensures var line, a := Tearing(modulus), Attempt(0, [0, modulus], modulus);
            && Announced(line) && InOrder(a, line, 2)
            && line[a.before].changes % modulus == line[a.after].changes % modulus
            && forall t :: 0 <= t < |line| ==> !Holds(line[t], Join(line[0].fields[0], line[modulus].fields[1]))
  {
    var line := Tearing(modulus);
    ModUnique(modulus, modulus, 1, 0);
    ModUnique(0, modulus, 0, 0);
    forall t | 0 < t < |line|
      ensures AnnouncedAt(line, t)
    {
    }
  }
}
