/** The instance table of the tuple traits for tuples of at most five
    elements: which (arity, position) pairs have an instance, and for insert
    and remove the output order each instance spells out. A pair that is not
    in a table has no instance, so a call with it does not compile. */
module TupleShortImpl {
  import opened TupleMacros

  /** Input arities that have a `TupleZip` instance. */
  const ZipArities: set<nat> := {1, 2, 3, 4, 5}

  /** Input arities that have a `TupleInsert` instance. */
  const InsertArities: set<nat> := {1, 2, 3, 4, 5}

  /** Input arities that have a `TupleRemove` instance. */
  const RemoveArities: set<nat> := {1, 2, 3, 4, 5}

  /** `TupleInsertExact<POS>` instances: (input arity, position) to the output
      order, `Z` being the inserted value. */
  const InsertTable: map<(nat, nat), seq<Slot>> := map[
      (1, 0) := [Z, A],
      (1, 1) := [A, Z],
      (2, 0) := [Z, A, B],
      (2, 1) := [A, Z, B],
      (2, 2) := [A, B, Z],
      (3, 0) := [Z, A, B, C],
      (3, 1) := [A, Z, B, C],
      (3, 2) := [A, B, Z, C],
      (3, 3) := [A, B, C, Z],
      (4, 0) := [Z, A, B, C, D],
      (4, 1) := [A, Z, B, C, D],
      (4, 2) := [A, B, Z, C, D],
      (4, 3) := [A, B, C, Z, D],
      (4, 4) := [A, B, C, D, Z],
      (5, 0) := [Z, A, B, C, D, E],
      (5, 1) := [A, Z, B, C, D, E],
      (5, 2) := [A, B, Z, C, D, E],
      (5, 3) := [A, B, C, Z, D, E],
      (5, 4) := [A, B, C, D, Z, E],
      (5, 5) := [A, B, C, D, E, Z]
    ]

  /** `TupleRemoveExact<POS>` instances: (input arity, position) to the output
      order. The 1-tuple case, written by hand, returns the unit tuple `()`. */
  const RemoveTable: map<(nat, nat), seq<Slot>> := map[
      (1, 0) := [],
      (2, 0) := [B],
      (2, 1) := [A],
      (3, 0) := [B, C],
      (3, 1) := [A, C],
      (3, 2) := [A, B],
      (4, 0) := [B, C, D],
      (4, 1) := [A, C, D],
      (4, 2) := [A, B, D],
      (4, 3) := [A, B, C],
      (5, 0) := [B, C, D, E],
      (5, 1) := [A, C, D, E],
      (5, 2) := [A, B, D, E],
      (5, 3) := [A, B, C, E],
      (5, 4) := [A, B, C, D]
    ]

  /** `TupleConcat` instances: (left arity, right arity). */
  const ConcatTable: set<(nat, nat)> := {
      (1, 1), (1, 2), (1, 3), (1, 4), (1, 5), (1, 6), (1, 7), (1, 8), (1, 9),
      (2, 1), (2, 2), (2, 3), (2, 4), (2, 5), (2, 6), (2, 7), (2, 8),
      (3, 1), (3, 2), (3, 3), (3, 4), (3, 5), (3, 6), (3, 7),
      (4, 1), (4, 2), (4, 3), (4, 4), (4, 5), (4, 6),
      (5, 1), (5, 2), (5, 3), (5, 4), (5, 5)
    }

  /** Insert has an instance for exactly the positions 0 to n of every input
      arity n from 1 to 5. */
  lemma InsertTableDomain(n: nat, p: nat)
    ensures (n, p) in InsertTable <==> 1 <= n <= 5 && p <= n
  {
  }

  /** Remove has an instance for exactly the positions 0 to n - 1 of every
      input arity n from 1 to 5. */
  lemma RemoveTableDomain(n: nat, p: nat)
    ensures (n, p) in RemoveTable <==> 1 <= n <= 5 && p < n
  {
  }

  /** Concat has an instance for every left arity 1 to 5 and every non-empty
      right tuple with at most ten elements in all. */
  lemma ConcatTableDomain(a: nat, b: nat)
    ensures (a, b) in ConcatTable <==> 1 <= a <= 5 && 1 <= b && a + b <= 10
  {
  }

  /** Every insert row puts the new value at its position and keeps the input's
      order around it. */
  lemma InsertRowIsSplice(n: nat, p: nat)
    requires (n, p) in InsertTable
    ensures p <= n && InsertTable[(n, p)] == SpliceRow(n, p)
  {
  }

  /** Every remove row drops the element at its position and keeps the order
      of the rest. */
  lemma RemoveRowIsDelete(n: nat, p: nat)
    requires (n, p) in RemoveTable
    ensures p < n && RemoveTable[(n, p)] == DeleteRow(n, p)
  {
  }
}
