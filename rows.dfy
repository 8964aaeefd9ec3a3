/** Rows of a materialization: `Row` wraps a shared tuple of values and `Rows` is a
    content-keyed bag of them (server/dataflow/src/state/mod.rs, lines 77-119).
    Shared ownership (`Rc`) is a matter of memory layout only, so a row is modelled by value. */
module Rows {

  /** A logically immutable tuple of values. Equality is on contents, as the derived
      `PartialEq`/`Hash` on the wrapped vector make it. */
  datatype Row<V> = Row(values: seq<V>) {

    /** `SizeOf::is_empty`: a row handle never counts as empty, whatever it holds. */
    predicate IsEmpty() {
      false
    }
  }

  /** `Rows`: a bag of rows in which equal rows are counted separately. */
  type Rows<V(==)> = multiset<Row<V>>

  /** Two rows built independently from the same values are the same row, and rows
      with different values differ. */
  lemma ContentEquality<V>(a: seq<V>, b: seq<V>)
    ensures Row(a) == Row(b) <==> a == b
  {
  }

  /** Equal rows inserted separately are two members of `Rows`, not one. */
  lemma DuplicatesCount<V>(a: seq<V>, b: seq<V>)
    requires a == b
    ensures (multiset{Row(a)} + multiset{Row(b)})[Row(a)] == 2
    ensures |multiset{Row(a)} + multiset{Row(b)}| == 2
  {
  }

  /** Even a row holding no values reports that it is not empty. */
  lemma NeverEmpty<V>(r: Row<V>)
    ensures !r.IsEmpty()
  {
  }
}
