/** Batches of signed records and what applying them does to a bag of rows: the value-level
    meaning of `State::process_records` (server/dataflow/src/state/mod.rs, lines 30-32).
    The dataflow prelude's `Record`/`Records` types are represented by their two variants only. */
module Batch {
  import opened Rows

  /** A delta: insert one copy of a row, or retract one copy of it. */
  datatype Record<V> = Positive(row: seq<V>) | Negative(row: seq<V>)

  /** One record applied to the stored rows: a positive record adds one copy of its row;
      a negative one removes exactly one matching copy, if there is one. */
  function Apply<V(==)>(rows: Rows<V>, rec: Record<V>): Rows<V>
  {
    match rec
    case Positive(r) => rows + multiset{Row(r)}
    case Negative(r) => rows - multiset{Row(r)}
  }

  /** Applying a record changes the count of its own row by one copy, up for an insertion
      and down for a retraction that finds a copy, and leaves every other row alone. */
  lemma ApplyChangesOneCopy<V(!new)>(rows: Rows<V>, rec: Record<V>)
    ensures forall r :: r != Row(rec.row) ==> Apply(rows, rec)[r] == rows[r]
    ensures rec.Positive? ==> Apply(rows, rec)[Row(rec.row)] == rows[Row(rec.row)] + 1
    ensures rec.Positive? ==> |Apply(rows, rec)| == |rows| + 1
    ensures rec.Negative? && Row(rec.row) in rows ==> Apply(rows, rec)[Row(rec.row)] == rows[Row(rec.row)] - 1
    ensures rec.Negative? && Row(rec.row) in rows ==> |Apply(rows, rec)| == |rows| - 1
    ensures rec.Negative? && Row(rec.row) !in rows ==> Apply(rows, rec) == rows
  {
  }

  /** A batch applied record by record, in batch order. */
  function ApplyAll<V(==)>(rows: Rows<V>, batch: seq<Record<V>>): Rows<V>
    decreases |batch|
  {
    if |batch| == 0 then rows
    else Apply(ApplyAll(rows, batch[..|batch| - 1]), batch[|batch| - 1])
  }

  /** The rows the positive records of a batch insert. */
  function Inserted<V(==)>(batch: seq<Record<V>>): Rows<V>
    decreases |batch|
  {
    if |batch| == 0 then multiset{}
    else
      var last := batch[|batch| - 1];
      Inserted(batch[..|batch| - 1]) + (if last.Positive? then multiset{Row(last.row)} else multiset{})
  }

  /** The rows the negative records of a batch retract. */
  function Retracted<V(==)>(batch: seq<Record<V>>): Rows<V>
    decreases |batch|
  {
    if |batch| == 0 then multiset{}
    else
      var last := batch[|batch| - 1];
      Retracted(batch[..|batch| - 1]) + (if last.Negative? then multiset{Row(last.row)} else multiset{})
  }

  /** Every retraction of the batch finds a copy of its row when its turn comes. */
  ghost predicate RetractionsMatch<V>(rows: Rows<V>, batch: seq<Record<V>>)
    decreases |batch|
  {
    |batch| == 0 ||
    (RetractionsMatch(rows, batch[..|batch| - 1]) &&
     (batch[|batch| - 1].Negative? ==> Row(batch[|batch| - 1].row) in ApplyAll(rows, batch[..|batch| - 1])))
  }

  /** When every retraction matches, the stored rows afterwards are the rows before plus
      the inserted copies minus the retracted copies, one copy per retraction. */
  lemma {:induction false} ApplyAllBalance<V>(rows: Rows<V>, batch: seq<Record<V>>)
    requires RetractionsMatch(rows, batch)
    ensures ApplyAll(rows, batch) + Retracted(batch) == rows + Inserted(batch)
    decreases |batch|
  {
    if |batch| > 0 {
      var init, last := batch[..|batch| - 1], batch[|batch| - 1];
      ApplyAllBalance(rows, init);
      var before := ApplyAll(rows, init);
      var x := multiset{Row(last.row)};
      assert ApplyAll(rows, batch) == Apply(before, last);
      if last.Negative? {
        assert Row(last.row) in before;
        assert Apply(before, last) + x == before;
        assert Retracted(batch) == Retracted(init) + x;
        assert Inserted(batch) == Inserted(init);
      } else {
        assert Apply(before, last) == before + x;
        assert Retracted(batch) == Retracted(init);
        assert Inserted(batch) == Inserted(init) + x;
        assert before + x + Retracted(init) == (before + Retracted(init)) + x;
      }
    }
  }

  /** Whatever the retractions do, applying a batch never leaves more rows than were
      stored plus those inserted. */
  lemma {:induction false} ApplyAllBounded<V>(rows: Rows<V>, batch: seq<Record<V>>)
    ensures ApplyAll(rows, batch) <= rows + Inserted(batch)
    decreases |batch|
  {
    if |batch| > 0 {
      ApplyAllBounded(rows, batch[..|batch| - 1]);
    }
  }

  lemma ApplyAllSnoc<V>(rows: Rows<V>, batch: seq<Record<V>>, rec: Record<V>)
    ensures ApplyAll(rows, batch + [rec]) == Apply(ApplyAll(rows, batch), rec)
  {
    assert (batch + [rec])[..|batch|] == batch;
  }

  /** Inserting three identical rows and retracting one of them leaves two copies. */
  lemma ThreeInsertsOneRetraction<V>(x: seq<V>)
    ensures ApplyAll(multiset{}, [Positive(x), Positive(x), Positive(x), Negative(x)])[Row(x)] == 2
    ensures |ApplyAll(multiset{}, [Positive(x), Positive(x), Positive(x), Negative(x)])| == 2
  {
    var batch := [Positive(x), Positive(x), Positive(x), Negative(x)];
    var one := multiset{Row(x)};
    assert batch[..3][..2][..1][..0] == [];
    assert ApplyAll(multiset{}, batch[..1]) == one;
    assert ApplyAll(multiset{}, batch[..2]) == one + one by {
      assert batch[..2][..1] == batch[..1];
    }
    assert ApplyAll(multiset{}, batch[..3]) == one + one + one by {
      assert batch[..3][..2] == batch[..2];
    }
    assert ApplyAll(multiset{}, batch) == one + one;
  }

  /** `n` insertions of one row store `n` rows, although every stored row is the same and
      so has the same key on any index. */
  lemma {:induction false} RepeatedInsertions<V>(x: seq<V>, n: nat)
    ensures ApplyAll(multiset{}, seq(n, _ => Positive(x))) == multiset{}[Row(x) := n]
    ensures |ApplyAll(multiset{}, seq(n, _ => Positive(x)))| == n
  {
    if n > 0 {
      var batch := seq(n, _ => Positive(x));
      RepeatedInsertions(x, n - 1);
      assert batch[..n - 1] == seq(n - 1, _ => Positive(x));
      var copies: Rows<V> := multiset{}[Row(x) := n - 1];
      assert ApplyAll(multiset{}, batch) == copies + multiset{Row(x)};
      assert copies + multiset{Row(x)} == multiset{}[Row(x) := n];
    }
  }

  /** The elements of `s` that `keep` accepts, in their original order. */
  function Filter<T>(s: seq<T>, keep: T -> bool): (kept: seq<T>)
    ensures |kept| <= |s|
    decreases |s|
  {
    if |s| == 0 then []
    else Filter(s[..|s| - 1], keep) + (if keep(s[|s| - 1]) then [s[|s| - 1]] else [])
  }

  /** A test that accepts everything leaves the batch as it is. */
  lemma {:induction false} FilterKeepsAll<T>(s: seq<T>, keep: T -> bool)
    requires forall x :: keep(x)
    ensures Filter(s, keep) == s
    decreases |s|
  {
    if |s| > 0 {
      FilterKeepsAll(s[..|s| - 1], keep);
      assert s == s[..|s| - 1] + [s[|s| - 1]];
    }
  }

  /** A record stays in the filtered batch exactly when it is in the batch and passes, and
      every copy of a passing record is kept. */
  lemma {:induction false} FilterKeepsExactly<T>(s: seq<T>, keep: T -> bool)
    ensures forall x :: x in Filter(s, keep) <==> x in s && keep(x)
    ensures forall x :: multiset(Filter(s, keep))[x] == if keep(x) then multiset(s)[x] else 0
    decreases |s|
  {
    if |s| > 0 {
      FilterKeepsExactly(s[..|s| - 1], keep);
      assert s == s[..|s| - 1] + [s[|s| - 1]];
    }
  }

  /** Filtering a batch one more element at a time, as an in-place `retain` does. */
  lemma FilterStep<T>(s: seq<T>, i: nat, keep: T -> bool)
    requires i < |s|
    ensures Filter(s[..i + 1], keep) == Filter(s[..i], keep) + (if keep(s[i]) then [s[i]] else [])
    ensures s[..i + 1] == s[..i] + [s[i]]
  {
    assert s[..i + 1][..i] == s[..i];
  }

  /** `sub` is `s` with some elements deleted and the rest left in order. */
  ghost predicate IsSubsequence<T>(sub: seq<T>, s: seq<T>)
    decreases |s|
  {
    |sub| <= |s| &&
    (|sub| == 0 ||
     (sub[|sub| - 1] == s[|s| - 1] && IsSubsequence(sub[..|sub| - 1], s[..|s| - 1])) ||
     IsSubsequence(sub, s[..|s| - 1]))
  }

  /** Filtering deletes records and never reorders the ones it keeps. */
  lemma {:induction false} FilterIsSubsequence<T>(s: seq<T>, keep: T -> bool)
    ensures IsSubsequence(Filter(s, keep), s)
    decreases |s|
  {
    if |s| > 0 {
      var init := s[..|s| - 1];
      FilterIsSubsequence(init, keep);
      if keep(s[|s| - 1]) {
        assert Filter(s, keep)[..|Filter(s, keep)| - 1] == Filter(init, keep);
      } else {
        assert Filter(s, keep) == Filter(init, keep);
      }
    }
  }

  /** One pass over a batch in batch order: the records `keep` rejects are dropped from the
      batch (`Vec::retain`) and every record left is applied to `rows`. */
  method ProcessBatch<V(==,!new)>(rows: Rows<V>, batch: seq<Record<V>>, keep: Record<V> -> bool)
    returns (kept: seq<Record<V>>, after: Rows<V>)
    ensures kept == Filter(batch, keep)
    ensures after == ApplyAll(rows, kept)
  {
    kept, after := [], rows;
    var i := 0;
    while i < |batch|
      invariant 0 <= i <= |batch|
      invariant kept == Filter(batch[..i], keep)
      invariant after == ApplyAll(rows, kept)
    {
      var rec := batch[i];
      FilterStep(batch, i, keep);
      ApplyAllSnoc(rows, kept, rec);
      if keep(rec) {
        after := Apply(after, rec);
        kept := kept + [rec];
      }
      i := i + 1;
    }
    assert batch[..|batch|] == batch;
  }

  /** The bag of the rows of `from` that `keep` accepts, each with its full multiplicity. */
  method SelectRows<V(==,!new)>(from: Rows<V>, keep: Row<V> -> bool) returns (selected: Rows<V>)
    ensures forall r :: selected[r] == if keep(r) then from[r] else 0
  {
    selected := multiset{};
    var unvisited := from;
    while unvisited != multiset{}
      invariant unvisited <= from
      invariant forall r :: selected[r] + (if keep(r) then unvisited[r] else 0) == if keep(r) then from[r] else 0
      decreases |unvisited|
    {
      var r :| r in unvisited;
      if keep(r) {
        selected := selected + multiset{r};
      }
      unvisited := unvisited - multiset{r};
    }
  }
}
