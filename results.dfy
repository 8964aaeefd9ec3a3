/** Read results: `RecordResult` is either a view of the bag of rows held in storage or an
    owned vector of row values, and `LookupResult` adds the outcome "key not replayed"
    (server/dataflow/src/state/mod.rs, lines 121-173). Borrowing is modelled by value. */
module Results {
  import opened Rows
  import Wrappers

  /** The rows a lookup produced: borrowed from live storage, or owned (copied out of
      durable storage). */
  datatype RecordResult<V(==,!new)> = Borrowed(rows: Rows<V>) | Owned(owned: seq<seq<V>>) {

    /** `len`: the number of rows, counting equal rows separately. */
    function Len(): (n: nat)
      // no tuple is yielded more often than there are rows, and only an empty result yields none
      ensures forall s :: Occurrences(s) <= n
      ensures n == 0 ==> forall s :: Occurrences(s) == 0
    {
      match this
      case Borrowed(rs) => |rs|
      case Owned(rs) => |rs|
    }

    /** `is_empty`: asks the underlying collection, and agrees with `Len`. */
    predicate IsEmpty()
      ensures IsEmpty() <==> Len() == 0
    {
      match this
      case Borrowed(rs) => rs == multiset{}
      case Owned(rs) => |rs| == 0
    }

    /** How many times iterating this result yields the value tuple `s`. */
    ghost function Occurrences(s: seq<V>): nat {
      match this
      case Borrowed(rs) => rs[Row(s)]
      case Owned(rs) => multiset(rs)[s]
    }
  }

  /** Length counts every copy: a borrowed bag of `n` copies of one row, and an owned vector
      of `n` equal tuples, both have length `n`, and iterating either yields that tuple `n` times. */
  lemma LenCountsDuplicates<V(!new)>(r: Row<V>, n: nat)
    ensures Borrowed(multiset{}[r := n]).Len() == n
    ensures Owned(seq(n, _ => r.values)).Len() == n
    ensures Borrowed(multiset{}[r := n]).Occurrences(r.values) == n
    ensures Owned(seq(n, _ => r.values)).Occurrences(r.values) == n
  {
    MultisetOfCopies(r.values, n);
  }

  lemma {:induction false} MultisetOfCopies<T>(x: T, n: nat)
    ensures multiset(seq(n, _ => x)) == multiset{}[x := n]
  {
    if n > 0 {
      MultisetOfCopies(x, n - 1);
      assert seq(n, _ => x) == seq(n - 1, _ => x) + [x];
    }
  }

  /** The rows whose values are the given tuples, in the same order. */
  function Wrap<V>(tuples: seq<seq<V>>): seq<Row<V>>
  {
    seq(|tuples|, i requires 0 <= i < |tuples| => Row(tuples[i]))
  }

  lemma WrapSnoc<V>(tuples: seq<seq<V>>, r: Row<V>)
    ensures multiset(Wrap(tuples + [r.values])) == multiset(Wrap(tuples)) + multiset{r}
  {
    assert Wrap(tuples + [r.values]) == Wrap(tuples) + [r];
  }

  /** Wrapping keeps multiplicities: a row occurs in the wrapped sequence as often as its
      values occur among the tuples. */
  lemma {:induction false} WrapCounts<V>(tuples: seq<seq<V>>, s: seq<V>)
    ensures multiset(Wrap(tuples))[Row(s)] == multiset(tuples)[s]
    decreases |tuples|
  {
    if |tuples| > 0 {
      var init := tuples[..|tuples| - 1];
      WrapCounts(init, s);
      assert tuples == init + [tuples[|tuples| - 1]];
      assert Wrap(tuples) == Wrap(init) + [Row(tuples[|tuples| - 1])];
    }
  }

  /** The outcome of a lookup: `Missing` when the key is a hole of a partial index, which
      is a different answer from `Some` of an empty result. */
  datatype LookupResult<V(==,!new)> = Some(records: RecordResult<V>) | Missing

  /** Where an iterator over a `RecordResult` stands: the owned vector's remaining
      elements, in order, or the rows of the bag not yet visited. */
  datatype Cursor<V(==,!new)> = OwnedCursor(pending: seq<seq<V>>) | BorrowedCursor(unvisited: Rows<V>)

  /** `RecordResultIterator`: yields the value tuple of every row of a `RecordResult`. */
  class RecordResultIterator<V(==,!new)> {
    var cursor: Cursor<V>
    /** The result this iterator was made from. */
    ghost const origin: RecordResult<V>
    /** The tuples yielded so far, in order. */
    ghost var yielded: seq<seq<V>>

    ghost predicate Valid()
      reads this
    {
      match cursor
      case OwnedCursor(pending) =>
        origin.Owned? && yielded + pending == origin.owned
      case BorrowedCursor(unvisited) =>
        origin.Borrowed? && multiset(Wrap(yielded)) + unvisited == origin.rows
    }

    /** The number of tuples still to come. */
    ghost function Remaining(): nat
      reads this
    {
      match cursor
      case OwnedCursor(pending) => |pending|
      case BorrowedCursor(unvisited) => |unvisited|
    }

    /** `RecordResult::into_iter`: an iterator that has yielded nothing yet. */
    constructor (rr: RecordResult<V>)
      ensures Valid() && origin == rr && yielded == []
      ensures Remaining() == rr.Len()
    {
      cursor := match rr
        case Borrowed(rs) => BorrowedCursor(rs)
        case Owned(rs) => OwnedCursor(rs);
      origin := rr;
      yielded := [];
    }

    /** `next`: the following tuple, or `None` once every row has been yielded. An owned
        vector is yielded front to back; a bag in no particular order. */
    method Next() returns (item: Wrappers.Option<seq<V>>)
      requires Valid()
      modifies this
      ensures Valid()
      ensures item.None? <==> old(Remaining()) == 0
      ensures item.None? ==> yielded == old(yielded)
      ensures item.Some? ==> yielded == old(yielded) + [item.value] && Remaining() == old(Remaining()) - 1
    {
      match cursor
      case OwnedCursor(pending) =>
        if |pending| == 0 {
          item := Wrappers.None;
        } else {
          assert (yielded + [pending[0]]) + pending[1..] == yielded + pending;
          item := Wrappers.Some(pending[0]);
          cursor := OwnedCursor(pending[1..]);
          yielded := yielded + [pending[0]];
        }
      case BorrowedCursor(unvisited) =>
        if unvisited == multiset{} {
          item := Wrappers.None;
        } else {
          var r :| r in unvisited;
          WrapSnoc(yielded, r);
          assert multiset{r} + (unvisited - multiset{r}) == unvisited;
          item := Wrappers.Some(r.values);
          cursor := BorrowedCursor(unvisited - multiset{r});
          yielded := yielded + [r.values];
        }
    }
  }

  /** Draining the iterator of a `RecordResult` (a `for` loop over it) yields exactly its
      rows: `Len()` tuples in all, each as often as it occurs, and an owned vector in order. */
  method Collect<V(==,!new)>(rr: RecordResult<V>) returns (items: seq<seq<V>>)
    ensures |items| == rr.Len()
    ensures forall s :: multiset(items)[s] == rr.Occurrences(s)
    ensures rr.Owned? ==> items == rr.owned
  {
    var it := new RecordResultIterator(rr);
    items := [];
    var exhausted := false;
    while !exhausted
      invariant it.Valid() && it.origin == rr && items == it.yielded
      invariant exhausted ==> it.Remaining() == 0
      decreases it.Remaining() + (if exhausted then 0 else 1)
    {
      var next := it.Next();
      match next
      case None => exhausted := true;
      case Some(tuple) => items := items + [tuple];
    }
    forall s ensures multiset(items)[s] == rr.Occurrences(s) {
      WrapCounts(items, s);
    }
    assert it.Remaining() == 0;
  }
}
