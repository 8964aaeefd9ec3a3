/** The `State` trait: the contract every materialization of a dataflow node satisfies
    (server/dataflow/src/state/mod.rs, lines 20-75). The trait has no body in that file, so
    this class is a reference implementation of its doc comments, with the choices its
    README lists where they say nothing, over abstract storage:
    - the provisioned indices, each a list of column positions, in the order they were added;
    - for each partial index, the set of keys already replayed ("filled"); every other key
      of a partial index is a hole, and a full index has no holes;
    - which index each replay path (tag) fills;
    - one bag of stored rows that every index is a view of.
    Key extraction is a collaborator, given to the constructor. */
module StateContract {
  import opened Rows
  import opened Results
  import opened Batch
  import Wrappers

  /** The column positions an index is keyed on. */
  type Columns = seq<nat>
  /** The values of a row at an index's columns. */
  type Key<V> = seq<V>
  /** The identifier of a replay path. */
  type Tag = nat

  /** `Records`: the batch given to `process_records` by mutable reference. */
  class Records<V(==)> {
    var items: seq<Record<V>>

    constructor (items: seq<Record<V>>)
      ensures this.items == items
    {
      this.items := items;
    }
  }

  /** Whether a record whose row is `row` hits an index: with a tag, the index the tag fills,
      unless the row's key is a hole there; without one, any index where its key is not a hole. */
  function Hits<V(==)>(keyOf: (Columns, seq<V>) -> Key<V>, indices: seq<Columns>,
                       filled: map<Columns, set<Key<V>>>, tags: map<Tag, Columns>,
                       partialTag: Wrappers.Option<Tag>, row: seq<V>): bool
  {
    match partialTag
    case Some(t) =>
      t in tags && (tags[t] in filled ==> keyOf(tags[t], row) in filled[tags[t]])
    case None =>
      exists c :: c in indices && (c in filled ==> keyOf(c, row) in filled[c])
  }

  /** `Hits` as a test on records, for filtering a batch. */
  function HitTest<V(==)>(keyOf: (Columns, seq<V>) -> Key<V>, indices: seq<Columns>,
                          filled: map<Columns, set<Key<V>>>, tags: map<Tag, Columns>,
                          partialTag: Wrappers.Option<Tag>): Record<V> -> bool
  {
    (rec: Record<V>) => Hits(keyOf, indices, filled, tags, partialTag, rec.row)
  }

  /** The records a partial state keeps from a batch, by the hole rule: along a known replay
      path, those whose key is filled in the path's index (or the index is full); along an
      unknown one, none; without a path, those whose key is not a hole of some index. */
  lemma {:induction false} KeptByHoleRule<V(!new)>(keyOf: (Columns, seq<V>) -> Key<V>, indices: seq<Columns>,
                                filled: map<Columns, set<Key<V>>>, tags: map<Tag, Columns>,
                                partialTag: Wrappers.Option<Tag>, batch: seq<Record<V>>)
    ensures partialTag.Some? && partialTag.value in tags ==>
      var c := tags[partialTag.value];
      forall rec :: rec in Filter(batch, HitTest(keyOf, indices, filled, tags, partialTag)) <==>
        rec in batch && !(c in filled && keyOf(c, rec.row) !in filled[c])
    ensures partialTag.Some? && partialTag.value !in tags ==>
      Filter(batch, HitTest(keyOf, indices, filled, tags, partialTag)) == []
    ensures partialTag.None? ==>
      forall rec :: rec in Filter(batch, HitTest(keyOf, indices, filled, tags, partialTag)) <==>
        rec in batch && exists c :: c in indices && !(c in filled && keyOf(c, rec.row) !in filled[c])
  {
    var keep := HitTest(keyOf, indices, filled, tags, partialTag);
    FilterKeepsExactly(batch, keep);
  }

  class State<V(==,!new)> {
    /** The key-extraction collaborator: the key of a row for an index's columns. */
    const keyOf: (Columns, seq<V>) -> Key<V>
    /** The provisioned indices, in the order `add_key` created them. */
    var indices: seq<Columns>
    /** For each partial index, the keys that have been replayed into it. */
    var filled: map<Columns, set<Key<V>>>
    /** The index that each replay path fills. */
    var tags: map<Tag, Columns>
    /** All stored rows, equal rows counted separately. */
    var rows: Rows<V>

    ghost predicate Valid()
      reads this
    {
      (forall i, j :: 0 <= i < j < |indices| ==> indices[i] != indices[j]) &&
      (forall c :: c in filled ==> c in indices) &&
      (forall t :: t in tags ==> tags[t] in indices) &&
      // a state keyed on nothing cannot store anything
      (indices == [] ==> rows == multiset{})
    }

    /** A new state: no index, no rows. */
    constructor (keyOf: (Columns, seq<V>) -> Key<V>)
      ensures Valid() && this.keyOf == keyOf
      ensures indices == [] && filled == map[] && tags == map[] && rows == multiset{}
      ensures !IsUseful() && !IsPartial() && Len() == 0
    {
      this.keyOf := keyOf;
      indices, filled, tags, rows := [], map[], map[], multiset{};
    }

    /** `is_useful`: whether any index has been provisioned. */
    predicate IsUseful()
      reads this
      // a state keyed on nothing has no partial index and no replay path into it
      ensures Valid() && !IsUseful() ==> filled == map[] && tags == map[] && rows == multiset{}
    {
      |indices| > 0
    }

    /** `is_partial`: whether any index is partially materialized. */
    predicate IsPartial()
      reads this
      // a partial state has a hole-tracking index, so it is also useful
      ensures Valid() && IsPartial() ==> IsUseful()
    {
      |filled| > 0
    }

    /** Whether `key` is a hole of the index on `columns`: the index is partial and the key
        has not been replayed. */
    predicate IsHole(columns: Columns, key: Key<V>)
      reads this
    {
      columns in filled && key !in filled[columns]
    }

    /** `len`: the number of stored rows, not the number of keys. */
    function Len(): (n: nat)
      reads this
      ensures n == 0 <==> rows == multiset{}
      ensures forall r :: rows[r] <= n
    {
      |rows|
    }

    /** `keys`: the columns of every provisioned index. */
    function Keys(): (keys: seq<Columns>)
      reads this
      // every partial index, and every index a replay path fills, is among the keys
      ensures Valid() ==> forall c :: c in filled ==> c in keys
      ensures Valid() ==> forall t :: t in tags ==> tags[t] in keys
    {
      indices
    }

    /** `add_key`: provisions an index on `columns`, once per distinct column list. With
        replay paths the new index is partial and every key starts as a hole; each listed
        tag then fills this index. */
    method AddKey(columns: Columns, partial: Wrappers.Option<seq<Tag>>)
      requires Valid()
      modifies this
      ensures Valid() && rows == old(rows)
      ensures columns in old(indices) ==> indices == old(indices) && filled == old(filled)
      ensures columns !in old(indices) ==> indices == old(indices) + [columns]
      ensures columns !in old(indices) ==>
        filled == if partial.Some? then old(filled)[columns := {}] else old(filled)
      ensures tags == if partial.Some? then old(tags) + map t | t in partial.value :: columns else old(tags)
      ensures IsUseful() && columns in Keys()
    {
      if columns !in indices {
        indices := indices + [columns];
        if partial.Some? {
          filled := filled[columns := {}];
        }
      }
      if partial.Some? {
        tags := tags + map t | t in partial.value :: columns;
      }
    }

    /** `process_records`: applies the batch to the stored rows in batch order. In a partial
        state every record that misses all indices (its key is a hole wherever it is offered)
        is removed from the batch instead; `Filter`'s contract and `FilterIsSubsequence` say
        that exactly the hitting records stay, in their original order. */
    method ProcessRecords(records: Records<V>, partialTag: Wrappers.Option<Tag>)
      requires Valid() && IsUseful()
      modifies this`rows, records
      ensures Valid()
      ensures records.items ==
        if IsPartial() then Filter(old(records.items), HitTest(keyOf, indices, filled, tags, partialTag))
        else old(records.items)
      ensures rows == ApplyAll(old(rows), records.items)
      // along a replay path into a partial index, exactly the records whose key is not a hole
      // there stay
      ensures IsPartial() && partialTag.Some? && partialTag.value in tags && tags[partialTag.value] in filled ==>
        forall rec :: rec in records.items <==>
          rec in old(records.items) && !IsHole(tags[partialTag.value], keyOf(tags[partialTag.value], rec.row))
      // along an unknown replay path every record misses
      ensures IsPartial() && partialTag.Some? && partialTag.value !in tags ==> records.items == []
      // without a path, a record stays when some index has its key
      ensures IsPartial() && partialTag.None? ==>
        forall rec :: rec in records.items <==>
          rec in old(records.items) && exists c :: c in indices && !IsHole(c, keyOf(c, rec.row))
    {
      var batch := records.items;
      var keep: Record<V> -> bool;
      if IsPartial() {
        keep := HitTest(keyOf, indices, filled, tags, partialTag);
        KeptByHoleRule(keyOf, indices, filled, tags, partialTag, batch);
      } else {
        keep := _ => true;
        FilterKeepsAll(batch, keep);
      }
      var kept, after := ProcessBatch(rows, batch, keep);
      rows := after;
      records.items := kept;
    }

    /** `mark_hole`: the key becomes a hole again for the index `tag` fills, and the rows
        stored under it are freed. */
    method MarkHole(key: Key<V>, tag: Tag)
      requires Valid() && tag in tags && tags[tag] in filled
      modifies this`filled, this`rows
      ensures Valid()
      ensures filled == old(filled)[tags[tag] := old(filled[tags[tag]]) - {key}]
      ensures IsHole(tags[tag], key)
      ensures forall r :: rows[r] == if keyOf(tags[tag], r.values) == key then 0 else old(rows[r])
    {
      var c := tags[tag];
      filled := filled[c := filled[c] - {key}];
      var kf := keyOf;
      rows := SelectRows(rows, (r: Row<V>) => kf(c, r.values) != key);
    }

    /** `mark_filled`: the key has been replayed into the index `tag` fills; marking a
        filled key again changes nothing. */
    method MarkFilled(key: Key<V>, tag: Tag)
      requires Valid() && tag in tags && tags[tag] in filled
      modifies this`filled
      ensures Valid()
      ensures filled == old(filled)[tags[tag] := old(filled[tags[tag]]) + {key}]
      ensures key in old(filled[tags[tag]]) ==> filled == old(filled)
      ensures !IsHole(tags[tag], key)
    {
      var c := tags[tag];
      if key in filled[c] {
        assert filled[c] + {key} == filled[c];
        assert filled[c := filled[c]] == filled;
      }
      filled := filled[c := filled[c] + {key}];
    }

    /** `lookup`: `Missing` exactly when the key is a hole of the index on `columns`;
        otherwise `Some` of every stored row with that key, possibly none. */
    method Lookup(columns: Columns, key: Key<V>) returns (res: LookupResult<V>)
      requires Valid() && columns in indices
      ensures res.Missing? <==> IsHole(columns, key)
      ensures res.Some? ==>
        forall s :: res.records.Occurrences(s) == if keyOf(columns, s) == key then rows[Row(s)] else 0
      ensures res.Some? ==> res.records.Borrowed?
      ensures res.Some? ==>
        forall r :: res.records.rows[r] == if keyOf(columns, r.values) == key then rows[r] else 0
    {
      if columns in filled && key !in filled[columns] {
        res := Missing;
      } else {
        var kf := keyOf;
        var matching := SelectRows(rows, (r: Row<V>) => kf(columns, r.values) == key);
        res := Some(Borrowed(matching));
      }
    }

    /** `cloned_records`: a copy of every stored row, each as often as it is stored. A
        partial state cannot give a complete copy, so callers must not ask it for one. */
    method ClonedRecords() returns (copy: seq<seq<V>>)
      requires Valid() && !IsPartial()
      ensures |copy| == Len()
      ensures forall s :: multiset(copy)[s] == rows[Row(s)]
    {
      copy := [];
      var unvisited := rows;
      while unvisited != multiset{}
        invariant unvisited <= rows
        invariant |copy| + |unvisited| == |rows|
        invariant forall s :: multiset(copy)[s] + unvisited[Row(s)] == rows[Row(s)]
        decreases |unvisited|
      {
        var r :| r in unvisited;
        copy := copy + [r.values];
        unvisited := unvisited - multiset{r};
      }
    }

    /** `evict_keys`: drops the listed keys from the index `tag` fills and returns its
        columns; the keys become holes again for every tag filling that index. A tag that
        fills no partial index evicts nothing and returns `None`. */
    method EvictKeys(tag: Tag, keys: seq<Key<V>>) returns (evicted: Wrappers.Option<Columns>)
      requires Valid()
      modifies this`rows, this`filled
      ensures Valid()
      ensures evicted.Some? <==> old(tag in tags && tags[tag] in filled)
      ensures evicted.Some? ==> evicted.value == tags[tag] && evicted.value in Keys()
      ensures evicted.Some? ==>
        filled == old(filled)[evicted.value := old(filled[evicted.value]) - set k | k in keys]
      ensures evicted.Some? ==> forall k :: k in keys ==> IsHole(evicted.value, k)
      ensures evicted.Some? ==> forall r ::
        rows[r] == if keyOf(evicted.value, r.values) in keys then 0 else old(rows[r])
      ensures evicted.None? ==> rows == old(rows) && filled == old(filled)
    {
      if tag in tags && tags[tag] in filled {
        var c := tags[tag];
        filled := filled[c := filled[c] - set k | k in keys];
        var kf := keyOf;
        rows := SelectRows(rows, (r: Row<V>) => kf(c, r.values) !in keys);
        evicted := Wrappers.Some(c);
      } else {
        evicted := Wrappers.None;
      }
    }

    /** `clear`: removes every stored row; the indices stay provisioned, and every key of a
        partial index is a hole again. */
    method Clear()
      requires Valid()
      modifies this`rows, this`filled
      ensures Valid() && rows == multiset{} && Len() == 0
      ensures filled == map c | c in old(filled) :: {}
      ensures forall c, k :: c in filled ==> IsHole(c, k)
    {
      rows := multiset{};
      filled := map c | c in filled :: {};
    }
  }
}
