/** The tuple traits `TupleZip`, `TupleInsertExact`/`TupleInsert`,
    `TupleRemoveExact`/`TupleRemove` and `TupleConcat`. A tuple is modelled as
    the sequence of its elements; each operation exists only for the
    (arity, position) pairs of the instance table, which is a precondition
    here, and it rebuilds its result from the row of that instance. */
module Tuple {
  import opened TupleMacros
  import opened TupleShortImpl

  /** `TupleZip::zip`: the input's elements in order, then `val`. */
  function Zip<T>(t: seq<T>, val: T): (r: seq<T>)
    requires |t| in ZipArities
    ensures |r| == |t| + 1 && r[..|t|] == t && r[|t|] == val
  {
    PlaceOwns(t, [val], 0, |t|);
    PlaceAppend(t, [val], Owns(0, |t|), [Z]);
    Place(t, [val], ZipRow(|t|))
  }

  /** `TupleInsertExact::<POS>::insert`: `val` becomes element `pos`; the
      elements before keep their index and the rest move up by one. */
  function InsertExact<T>(t: seq<T>, pos: nat, val: T): (r: seq<T>)
    requires (|t|, pos) in InsertTable
    ensures pos <= |t| && |r| == |t| + 1
    ensures r[..pos] == t[..pos] && r[pos] == val && r[pos + 1..] == t[pos..]
  {
    InsertRowIsSplice(|t|, pos);
    PlaceSpliceRow(t, pos, val);
    Place(t, [val], InsertTable[(|t|, pos)])
  }

  /** `TupleInsert::insert::<POS>`: the same instance, reached through the
      trait every tuple of arity 1 to 5 implements. */
  function Insert<T>(t: seq<T>, pos: nat, val: T): (r: seq<T>)
    requires |t| in InsertArities && (|t|, pos) in InsertTable
    ensures pos <= |t| && r == t[..pos] + [val] + t[pos..]
  {
    InsertExact(t, pos, val)
  }

  /** `TupleRemoveExact::<POS>::remove`: element `pos` is dropped and the
      others keep their order. */
  function RemoveExact<T>(t: seq<T>, pos: nat): (r: seq<T>)
    requires (|t|, pos) in RemoveTable
    ensures pos < |t| && |r| == |t| - 1
    ensures r == t[..pos] + t[pos + 1..]
  {
    RemoveRowIsDelete(|t|, pos);
    PlaceDeleteRow(t, pos);
    Place(t, [], RemoveTable[(|t|, pos)])
  }

  /** `TupleRemove::remove::<POS>`: the same instance, reached through the
      trait every tuple of arity 1 to 5 implements. */
  function Remove<T>(t: seq<T>, pos: nat): (r: seq<T>)
    requires |t| in RemoveArities && (|t|, pos) in RemoveTable
    ensures pos < |t| && |r| == |t| - 1
    ensures forall k :: 0 <= k < |r| ==> r[k] == if k < pos then t[k] else t[k + 1]
  {
    RemoveExact(t, pos)
  }

  /** `TupleConcat::concat`: the left tuple's elements, then the right one's. */
  function Concat<T>(x: seq<T>, y: seq<T>): (r: seq<T>)
    requires (|x|, |y|) in ConcatTable
    ensures |r| == |x| + |y| && r[..|x|] == x && r[|x|..] == y
  {
    PlaceOwns(x, y, 0, |x|);
    PlaceArgs(x, y);
    PlaceAppend(x, y, Owns(0, |x|), Args(|y|));
    Place(x, y, ConcatRow(|x|, |y|))
  }

  /** Removing the position just inserted at gives back the input, for every
      input arity whose insert result still has a remove instance. */
  lemma {:induction false} RemoveAfterInsert<T>(t: seq<T>, pos: nat, val: T)
    requires 1 <= |t| <= 4 && pos <= |t|
    ensures (|t|, pos) in InsertTable && (|t| + 1, pos) in RemoveTable
    ensures RemoveExact(InsertExact(t, pos, val), pos) == t
  {
    InsertTableDomain(|t|, pos);
    RemoveTableDomain(|t| + 1, pos);
    var u := InsertExact(t, pos, val);
    assert u[..pos] + u[pos + 1..] == t[..pos] + t[pos..] == t;
  }

  /** Inserting at the last position is zipping. */
  lemma InsertAtEndIsZip<T>(t: seq<T>, val: T)
    requires |t| in ZipArities
    ensures (|t|, |t|) in InsertTable && InsertExact(t, |t|, val) == Zip(t, val)
  {
    InsertTableDomain(|t|, |t|);
    var r := InsertExact(t, |t|, val);
    assert r == r[..|t|] + [r[|t|]];
  }

  /** Concatenating a 1-tuple is zipping its element. */
  lemma ConcatSingleIsZip<T>(t: seq<T>, val: T)
    requires |t| in ZipArities
    ensures (|t|, 1) in ConcatTable && Concat(t, [val]) == Zip(t, val)
  {
    ConcatTableDomain(|t|, 1);
    var r := Concat(t, [val]);
    assert r == r[..|t|] + [r[|t|]];
  }

  /** Removing the last position of a zipped tuple gives back the input. */
  lemma RemoveAfterZip<T>(t: seq<T>, val: T)
    requires 1 <= |t| <= 4
    ensures |t| in ZipArities && (|t| + 1, |t|) in RemoveTable
    ensures RemoveExact(Zip(t, val), |t|) == t
  {
    RemoveTableDomain(|t| + 1, |t|);
  }

  /** Removing the only element of a 1-tuple gives the unit tuple. */
  lemma RemoveOnlyElement<T>(t: seq<T>)
    requires |t| == 1
    ensures (1, 0) in RemoveTable && RemoveExact(t, 0) == []
  {
  }

  /** Element values of different types, for the examples. */
  datatype Value = U8(u8: int) | Usize(usize: int) | I32(i32: int) | Char(ch: char) | Bool(b: bool) | Str(s: string)

  /** The documented examples of the traits. */
  lemma DocExamples()
    ensures Zip([U8(10), Char('a')], I32(-5)) == [U8(10), Char('a'), I32(-5)]
    ensures InsertExact([U8(10), Char('a')], 1, I32(-5)) == [U8(10), I32(-5), Char('a')]
    ensures Insert([U8(10), Char('a')], 1, I32(-5)) == [U8(10), I32(-5), Char('a')]
    ensures RemoveExact([U8(10), Char('a'), I32(-5)], 1) == [U8(10), I32(-5)]
    ensures Remove([U8(10), Char('a'), I32(-5)], 1) == [U8(10), I32(-5)]
    ensures Concat([U8(10), Char('a')], [I32(-5), Str("foo")]) == [U8(10), Char('a'), I32(-5), Str("foo")]
  {
  }

  /** The repository's tuple tests. */
  lemma TestExamples()
    ensures Zip([U8(1), Usize(2), Bool(false)], Char('a')) == [U8(1), Usize(2), Bool(false), Char('a')]
    ensures Insert([U8(1), Usize(2), Bool(false)], 1, Char('a')) == [U8(1), Char('a'), Usize(2), Bool(false)]
    ensures Remove([U8(1), Usize(2), Bool(false)], 2) == [U8(1), Usize(2)]
    ensures Concat([U8(1), Usize(2), Bool(false)], [I32(10), Char('a')])
            == [U8(1), Usize(2), Bool(false), I32(10), Char('a')]
  {
  }
}
