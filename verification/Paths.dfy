/** Sequences of states in which each comes from the one before it by a move, for any kind of move. */
module Paths {

  ghost predicate MovesAt<S(!new)>(ss: seq<S>, moves: (S, S) -> bool, i: nat)
    requires 0 < i < |ss|
  {
    moves(ss[i - 1], ss[i])
  }

  ghost predicate IsPath<S(!new)>(ss: seq<S>, moves: (S, S) -> bool) {
    ss != [] && forall i :: 0 < i < |ss| ==> MovesAt(ss, moves, i)
  }

  ghost predicate Leads<S(!new)>(ss: seq<S>, s: S, s': S, moves: (S, S) -> bool) {
    IsPath(ss, moves) && ss[0] == s && ss[|ss| - 1] == s'
  }

  /** Moves lead from `s` to `s'`. */
  ghost predicate Reaches<S(!new)>(s: S, s': S, moves: (S, S) -> bool) {
    exists ss :: Leads(ss, s, s', moves)
  }

  /** No move leads out of the states of the given kind. */
  ghost predicate Keeps<S(!new)>(moves: (S, S) -> bool, inv: S -> bool) {
    forall s, s' :: inv(s) && moves(s, s') ==> inv(s')
  }

  /** No move leads from a state of the first kind out of those of the second. */
  ghost predicate KeepsUnder<S(!new)>(moves: (S, S) -> bool, inv: S -> bool, fact: S -> bool) {
    forall s, s' :: inv(s) && fact(s) && moves(s, s') ==> fact(s')
  }

  lemma Stays<S(!new)>(s: S, moves: (S, S) -> bool)
    ensures Reaches(s, s, moves)
  {
    assert Leads([s], s, s, moves);
  }

  lemma OneMove<S(!new)>(s: S, s': S, moves: (S, S) -> bool)
    requires moves(s, s')
    ensures Reaches(s, s', moves)
  {
    assert Leads([s, s'], s, s', moves);
  }

  lemma Onward<S(!new)>(s: S, s': S, s'': S, moves: (S, S) -> bool)
    requires Reaches(s, s', moves) && Reaches(s', s'', moves)
    ensures Reaches(s, s'', moves)
  {
    var ss :| Leads(ss, s, s', moves);
    var ss' :| Leads(ss', s', s'', moves);
    var path := ss + ss'[1..];
    forall i | 0 < i < |path|
      ensures MovesAt(path, moves, i)
    {
      if i < |ss| {
        assert MovesAt(ss, moves, i);
      } else {
        assert MovesAt(ss', moves, i - |ss| + 1);
      }
    }
    assert Leads(path, s, s'', moves);
  }

  lemma Widen<S(!new)>(s: S, s': S, moves: (S, S) -> bool, moves': (S, S) -> bool)
    requires Reaches(s, s', moves) && forall x, x' :: moves(x, x') ==> moves'(x, x')
    ensures Reaches(s, s', moves')
  {
    var ss :| Leads(ss, s, s', moves);
    forall i | 0 < i < |ss|
      ensures MovesAt(ss, moves', i)
    {
      assert MovesAt(ss, moves, i);
    }
    assert Leads(ss, s, s', moves');
  }

  lemma {:induction false} KeptAt<S(!new)>(ss: seq<S>, moves: (S, S) -> bool, inv: S -> bool, fact: S -> bool, i: nat)
    requires IsPath(ss, moves) && i < |ss| && inv(ss[0]) && fact(ss[0])
    requires Keeps(moves, inv) && KeepsUnder(moves, inv, fact)
    ensures inv(ss[i]) && fact(ss[i])
  {
    if i > 0 {
      KeptAt(ss, moves, inv, fact, i - 1);
      assert MovesAt(ss, moves, i);
    }
  }

  /** What every move keeps holds wherever moves lead. */
  lemma Kept<S(!new)>(s: S, s': S, moves: (S, S) -> bool, inv: S -> bool)
    requires Reaches(s, s', moves) && inv(s) && Keeps(moves, inv)
    ensures inv(s')
  {
    var ss :| Leads(ss, s, s', moves);
    KeptAt(ss, moves, inv, inv, |ss| - 1);
  }

  /** And so does what every move keeps where that holds. */
  lemma KeptUnder<S(!new)>(s: S, s': S, moves: (S, S) -> bool, inv: S -> bool, fact: S -> bool)
    requires Reaches(s, s', moves) && inv(s) && fact(s) && Keeps(moves, inv) && KeepsUnder(moves, inv, fact)
    ensures fact(s')
  {
    var ss :| Leads(ss, s, s', moves);
    KeptAt(ss, moves, inv, fact, |ss| - 1);
  }
}
