/** The generator macros of the tuple module. A tuple is a sequence of
    elements; an instance of a macro destructures its input tuple(s) into named
    elements and rebuilds a tuple from a list of those names. That list is a
    row: each slot names an element of the input tuple (`Own`) or of the extra
    argument (`Arg`: the inserted value, or an element of the second tuple of a
    concatenation). */
module TupleMacros {

  datatype Slot = Own(i: nat) | Arg(j: nat)

  /** The element names the macros bind: `a`, `b`, ... for the input tuple and
      `z` for the extra value. */
  const A: Slot := Own(0)
  const B: Slot := Own(1)
  const C: Slot := Own(2)
  const D: Slot := Own(3)
  const E: Slot := Own(4)
  const Z: Slot := Arg(0)

  /** Every slot of `row` names an element of a tuple of arity `n` or of an
      argument of arity `m`. */
  predicate Fits(row: seq<Slot>, n: nat, m: nat) {
    forall k :: 0 <= k < |row| ==> (row[k].Own? ==> row[k].i < n) && (row[k].Arg? ==> row[k].j < m)
  }

  /** The element a slot names. */
  function Pick<T>(t: seq<T>, args: seq<T>, s: Slot): T
    requires s.Own? ==> s.i < |t|
    requires s.Arg? ==> s.j < |args|
  {
    match s
    case Own(i) => t[i]
    case Arg(j) => args[j]
  }

  /** What fits a tuple also fits it after its first slot. */
  lemma FitsTail(row: seq<Slot>, n: nat, m: nat)
    requires row != [] && Fits(row, n, m)
    ensures Fits(row[1..], n, m)
  {
    forall k | 0 <= k < |row| - 1
      ensures (row[1..][k].Own? ==> row[1..][k].i < n) && (row[1..][k].Arg? ==> row[1..][k].j < m)
    {
      assert row[1..][k] == row[k + 1];
    }
  }

  /** The output tuple an instance builds, one slot of its row after the other
      (the macros' `$(..),+` repetition). */
  function Place<T>(t: seq<T>, args: seq<T>, row: seq<Slot>): (r: seq<T>)
    requires Fits(row, |t|, |args|)
    ensures |r| == |row|
  {
    if row == [] then []
    else
      FitsTail(row, |t|, |args|);
      [Pick(t, args, row[0])] + Place(t, args, row[1..])
  }

  /** Element k of an instance's output is the element slot k names. */
  lemma {:induction false} PlaceAt<T>(t: seq<T>, args: seq<T>, row: seq<Slot>, k: nat)
    requires Fits(row, |t|, |args|) && k < |row|
    ensures Place(t, args, row)[k] == Pick(t, args, row[k])
  {
    if k > 0 {
      FitsTail(row, |t|, |args|);
      PlaceAt(t, args, row[1..], k - 1);
    }
  }

  /** The slots `Own(lo)`, ..., `Own(hi - 1)`: a run of the input's elements in order. */
  function Owns(lo: nat, hi: nat): (row: seq<Slot>)
    ensures |row| == if lo <= hi then hi - lo else 0
  {
    if lo <= hi then seq(hi - lo, (k: nat) => Own(lo + k)) else []
  }

  /** The slots `Arg(0)`, ..., `Arg(m - 1)`: all of the argument tuple's elements. */
  function Args(m: nat): (row: seq<Slot>)
    ensures |row| == m
  {
    seq(m, (k: nat) => Arg(k))
  }

  /** Placing a run of the input's elements copies that slice of the input. */
  lemma PlaceOwns<T>(t: seq<T>, args: seq<T>, lo: nat, hi: nat)
    requires lo <= hi <= |t|
    ensures Fits(Owns(lo, hi), |t|, |args|)
    ensures Place(t, args, Owns(lo, hi)) == t[lo..hi]
  {
    var row := Owns(lo, hi);
    assert forall k :: 0 <= k < |row| ==> row[k] == Own(lo + k);
    var r := Place(t, args, row);
    forall k | 0 <= k < |r| ensures r[k] == t[lo..hi][k] {
      PlaceAt(t, args, row, k);
    }
  }

  /** Placing all argument slots copies the argument. */
  lemma PlaceArgs<T>(t: seq<T>, args: seq<T>)
    ensures Fits(Args(|args|), |t|, |args|)
    ensures Place(t, args, Args(|args|)) == args
  {
    var row := Args(|args|);
    assert forall k :: 0 <= k < |row| ==> row[k] == Arg(k);
    var r := Place(t, args, row);
    forall k | 0 <= k < |r| ensures r[k] == args[k] {
      PlaceAt(t, args, row, k);
    }
  }

  /** Placing a concatenated row concatenates the outputs. */
  lemma {:induction false} PlaceAppend<T>(t: seq<T>, args: seq<T>, row1: seq<Slot>, row2: seq<Slot>)
    requires Fits(row1, |t|, |args|) && Fits(row2, |t|, |args|)
    ensures Fits(row1 + row2, |t|, |args|)
    ensures Place(t, args, row1 + row2) == Place(t, args, row1) + Place(t, args, row2)
  {
    var r := row1 + row2;
    assert forall k :: 0 <= k < |r| ==> r[k] == if k < |row1| then row1[k] else row2[k - |row1|];
    if row1 == [] {
      assert r == row2;
    } else {
      assert r[1..] == row1[1..] + row2;
      FitsTail(row1, |t|, |args|);
      PlaceAppend(t, args, row1[1..], row2);
    }
  }

  /** `__impl_tuple_zip`: `(a, b, ..) = self`, then `(a, b, .., val)`. */
  function ZipRow(n: nat): (row: seq<Slot>)
    ensures |row| == n + 1
  {
    Owns(0, n) + [Z]
  }

  /** `__impl_tuple_concat`: both tuples destructured, left elements then right ones. */
  function ConcatRow(n: nat, m: nat): (row: seq<Slot>)
    ensures |row| == n + m
  {
    Owns(0, n) + Args(m)
  }

  /** The generic splice order: the first `p` elements, the new value, the
      rest. */
  function SpliceRow(n: nat, p: nat): (row: seq<Slot>)
    requires p <= n
    ensures |row| == n + 1
  {
    Owns(0, p) + [Z] + Owns(p, n)
  }

  /** The generic delete order: every element but the one at `p`. */
  function DeleteRow(n: nat, p: nat): (row: seq<Slot>)
    requires p < n
    ensures |row| == n - 1
  {
    Owns(0, p) + Owns(p + 1, n)
  }

  /** The one-slot row `[Z]` places the argument. */
  lemma PlaceSingleArg<T>(t: seq<T>, v: T)
    ensures Fits([Z], |t|, 1) && Place(t, [v], [Z]) == [v]
  {
    assert Fits([Z], |t|, 1);
    PlaceAt(t, [v], [Z], 0);
  }

  /** A splice row places exactly the spliced sequence. */
  lemma {:induction false} PlaceSpliceRow<T>(t: seq<T>, p: nat, v: T)
    requires p <= |t|
    ensures Fits(SpliceRow(|t|, p), |t|, 1)
    ensures Place(t, [v], SpliceRow(|t|, p)) == t[..p] + [v] + t[p..]
  {
    var before, after := Owns(0, p), Owns(p, |t|);
    PlaceOwns(t, [v], 0, p);
    PlaceOwns(t, [v], p, |t|);
    PlaceSingleArg(t, v);
    PlaceAppend(t, [v], before, [Z]);
    PlaceAppend(t, [v], before + [Z], after);
  }

  /** A delete row places exactly the sequence without element `p`. */
  lemma {:induction false} PlaceDeleteRow<T>(t: seq<T>, p: nat)
    requires p < |t|
    ensures Fits(DeleteRow(|t|, p), |t|, 0)
    ensures Place(t, [], DeleteRow(|t|, p)) == t[..p] + t[p + 1..]
  {
    PlaceOwns(t, [], 0, p);
    PlaceOwns(t, [], p + 1, |t|);
    PlaceAppend(t, [], Owns(0, p), Owns(p + 1, |t|));
  }
}
