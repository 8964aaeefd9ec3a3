# Materialized state of a dataflow node, in Dafny

This project models the shared vocabulary of the materialized state of a streaming dataflow
engine (`server/dataflow/src/state/mod.rs`). Each stateful operator keeps zero or more indices
over one set of rows and answers lookups by key. A *partial* index holds only keys that have
been replayed along some replay path (a *tag*). Every other key of it is a *hole*.

- `Rows` (rows.dfy): `Row` is a tuple of values compared by content. `Rows` is a bag
  (`multiset`) of rows in which equal rows count separately.
- `Results` (results.dfy): `RecordResult` is a borrowed bag of rows or an owned vector of
  tuples. `Len` and `IsEmpty` branch on the variant. `RecordResultIterator` yields every row of
  either variant. `LookupResult` adds `Missing`, which is a different answer from an empty result.
- `Batch` (batch.dfy): signed records (`Positive`/`Negative`) and what a batch does to a bag of
  rows. It also holds the order-preserving filter that `process_records` applies to a batch in
  a partial state, and the scan that selects rows by key.
- `StateContract` (state.dfy): the `State` trait as a reference class. The trait has no bodies
  in the modelled file, so the class states what its doc comments say, plus the choices listed
  under "Left out" where they are silent. A key made a hole by `MarkHole`, `EvictKeys` or
  `Clear` holds no rows until it is replayed. Its abstract storage is:
  - the provisioned indices, in the order they were added;
  - the filled keys of each partial index;
  - the index each tag fills;
  - one bag of stored rows.
- `ReplayScenario` (scenario.dfy): a caller that takes one key of a partial index from hole
  to filled to evicted, using only the contracts.

The value type of a row is a type parameter `V`. Tags and column positions are unbounded
naturals. Key extraction (`mk_key`) is a collaborator given to the `State` constructor as the
function `keyOf`.

## Model

| member | source | states |
|---|---|---|
| `Rows.ContentEquality` | server/dataflow/src/state/mod.rs:77-78 | two rows are equal exactly when their values are equal, however they were built |
| `Rows.DuplicatesCount` | server/dataflow/src/state/mod.rs:77-80 | two equal rows inserted separately are two members of `Rows` |
| `Rows.NeverEmpty` | server/dataflow/src/state/mod.rs:116-118 | `is_empty` of a row is false for every row, even one without values |
| `Results.RecordResult.Len` | server/dataflow/src/state/mod.rs:128-133 | `len` bounds how often any tuple is yielded, and a result of length 0 yields nothing |
| `Results.RecordResult.IsEmpty` | server/dataflow/src/state/mod.rs:135-140 | `is_empty` holds exactly when `len` is 0, in both variants |
| `Results.LenCountsDuplicates` | server/dataflow/src/state/mod.rs:128-133 | `len` counts every copy: a bag with `n` copies of one row, or a vector of `n` equal tuples, has length `n` and yields that tuple `n` times |
| `Results.RecordResultIterator.constructor` | server/dataflow/src/state/mod.rs:147-152 | `into_iter` starts an iterator that has yielded nothing and has `len` tuples to come |
| `Results.RecordResultIterator.Next` | server/dataflow/src/state/mod.rs:160-168 | `next` returns `None` exactly when nothing remains; otherwise it yields one more tuple, the vector's next element for `Owned`, and one fewer remains; the iterator invariant ties what was yielded plus what remains to the result |
| `Results.WrapCounts` | server/dataflow/src/state/mod.rs:160-168 | the rows built from a list of yielded tuples hold each row as often as its tuple was yielded, which ties what a borrowed iterator yields to the bag it came from |
| `Results.Collect` | server/dataflow/src/state/mod.rs:143-168 | iterating a result to the end yields `len` tuples, each tuple as often as the result holds it, and an owned vector's elements in their order |
| `Batch.ApplyChangesOneCopy` | server/dataflow/src/state/mod.rs:30-32 | a positive record adds one copy of its row; a negative one removes one matching copy if there is one; no other row changes |
| `Batch.ApplyAllBalance` | server/dataflow/src/state/mod.rs:30-32 | when every retraction finds its row, the rows after a batch are the rows before, plus the inserted copies, minus one copy per retraction |
| `Batch.ApplyAllBounded` | server/dataflow/src/state/mod.rs:30-32 | after any batch, the stored rows are at most the rows before plus the inserted ones |
| `Batch.ThreeInsertsOneRetraction` | server/dataflow/src/state/mod.rs:30-32 | three insertions of one row then one retraction of it leave two copies, not zero |
| `Batch.RepeatedInsertions` | server/dataflow/src/state/mod.rs:40-47 | `n` insertions of one row store `n` copies of that single row, so the row count is `n` while every row has the same key |
| `Batch.Filter` | server/dataflow/src/state/mod.rs:30-32 | filtering a batch never lengthens it |
| `Batch.FilterKeepsExactly` | server/dataflow/src/state/mod.rs:30-32 | a record is in the filtered batch exactly when it is in the batch and passes the test, and every copy of a passing record is kept, so duplicates in a batch count |
| `Batch.FilterKeepsAll` | server/dataflow/src/state/mod.rs:30-32 | when every record passes, filtering leaves the batch as it was, as a state with no partial index does |
| `Batch.FilterIsSubsequence` | server/dataflow/src/state/mod.rs:30-32 | the records kept are a subsequence of the batch, in the original order |
| `Batch.ApplyAllSnoc` | server/dataflow/src/state/mod.rs:30-32 | applying a batch and then one more record is applying the extended batch, so records take effect in batch order |
| `Batch.ProcessBatch` | server/dataflow/src/state/mod.rs:30-32 | one pass over the batch keeps exactly the filtered batch, in order, and leaves the rows equal to the kept records applied in batch order |
| `Batch.SelectRows` | server/dataflow/src/state/mod.rs:38 | the scan keeps every row that passes the test with its full multiplicity, and no other row |
| `StateContract.KeptByHoleRule` | server/dataflow/src/state/mod.rs:30-31 | filtering a batch by the hit test keeps, along a known replay path, exactly the records whose key is filled in that path's index (all of them when the index is full), along an unknown path none, and without a path those whose key is present in some index |
| `StateContract.State.constructor` | server/dataflow/src/state/mod.rs:24-26 | a new state has no index and no rows, so it is neither useful nor partial |
| `StateContract.State.IsUseful` | server/dataflow/src/state/mod.rs:24-26 | a state keyed on nothing stores no rows, and has no partial index and no replay path into one |
| `StateContract.State.IsPartial` | server/dataflow/src/state/mod.rs:28 | a partial state has an index, so it is useful |
| `StateContract.State.Len` | server/dataflow/src/state/mod.rs:40-47 | `len` is 0 exactly when no row is stored, and it counts every copy, so no row is stored more times than `len` |
| `StateContract.State.Keys` | server/dataflow/src/state/mod.rs:49 | every partial index and every index a replay path fills is among `keys` |
| `StateContract.State.AddKey` | server/dataflow/src/state/mod.rs:21-22 | `add_key` provisions the index once per column list and makes the state useful; with tags the new index is partial with every key a hole, and each tag fills it; rows do not change |
| `StateContract.State.ProcessRecords` | server/dataflow/src/state/mod.rs:30-32 | in a partial state the batch becomes the records that hit (`Hits`: along a known replay path, exactly those whose key is not a hole of that path's index; along an unknown path, none; without a path, those whose key is not a hole of some index), in order; otherwise it is untouched; the stored rows become the old rows with the remaining batch applied in order |
| `StateContract.State.MarkHole` | server/dataflow/src/state/mod.rs:34 | the key becomes a hole of the index the tag fills and its rows are freed; every other row and every other key's hole state stay as they were |
| `StateContract.State.MarkFilled` | server/dataflow/src/state/mod.rs:36 | the key is no longer a hole of the index the tag fills; marking a filled key again changes nothing |
| `StateContract.State.Lookup` | server/dataflow/src/state/mod.rs:38 | `Missing` exactly when the key is a hole of the index; otherwise `Some` of a result that yields every stored row with that key, each as often as it is stored, possibly none |
| `StateContract.State.ClonedRecords` | server/dataflow/src/state/mod.rs:51-52 | only for a state with no partial index; the copy has `len` rows and holds each stored row as often as it is stored |
| `StateContract.State.EvictKeys` | server/dataflow/src/state/mod.rs:70-72 | for a tag that fills a partial index, the listed keys lose their rows and become holes, and the index's columns, one of `keys`, are returned; for any other tag nothing changes and `None` is returned |
| `StateContract.State.Clear` | server/dataflow/src/state/mod.rs:74 | every row is removed and every key of a partial index is a hole again; the indices stay |

`IsUseful`, `IsPartial`, `Len` and `Keys` on `State` are the trait's `is_useful`, `is_partial`,
`len` and `keys`. They are defined directly on the abstract storage. What the operations
promise about them is stated by the contracts above:
- `is_useful` is false for a new state and true after any `add_key`, and no other operation
  changes the indices.
- `len` is the number of stored rows, not of keys (`RepeatedInsertions`).
- `keys` holds the columns that `evict_keys` returns.

## Left out

- `evict_random_keys` (lines 54-68): it takes a floating-point `fraction` and chooses keys at random.
- Byte accounting: `SizeOf` for `Row` (lines 108-115) and the byte counts returned by `evict_keys`. They depend on the platform's memory layout.
- `Rc` sharing, the `Cow` borrow/own lifetimes, `unsafe impl Send` (line 82) and the `Send` bound (line 20). Both result variants are values; a borrowed result is a copy of the bag at lookup time.
- `HashBag` and the `ahash` seed (lines 13-15, 80): `Rows` is a `multiset`. Iteration order of a bag is unspecified, so `Next` picks any remaining row.
- The concrete backends (`memory_state`, `persistent_state`, `keyed_state`, `single_state`) and `mk_key` (lines 1-5) are not part of this model. Key extraction is the parameter `keyOf`.
- The prelude's `Record` and `Records` types are modelled by their two variants, `Positive` and `Negative` of a tuple, and by a class holding the batch as a sequence. `ProcessRecords` reassigns that sequence, which stands for the in-place `retain` of the vector.
- StateContract.State: every index is a view of one bag of rows. A row is not stored per index, so an index added later sees the rows already stored, and evicting a key of one index, or marking it a hole, removes its rows from all of them. A key that is still a hole of a partial index can therefore hold rows that arrived through another index (a record processed without a replay path hits any full index), and filling that key shows them before any replay along its tag.
- StateContract.State: hole state is kept per index. Every tag that fills an index sees the same holes, so evicting or marking a hole along one tag makes the key a hole for all of that index's tags.
- StateContract.State.ProcessRecords: with a tag, a record is offered only to the index that tag fills, and an unknown tag misses. Without a tag, a record hits any index where its key is not a hole. It requires a useful state, as calling it with no index is a caller error.
- StateContract.State.AddKey: for a column list that is already indexed, the listed tags are routed to the existing index and its partiality stays as it was.
- StateContract.State.MarkHole and StateContract.State.MarkFilled require the tag to fill a partial index. The trait gives no behaviour for other tags.
- StateContract.State.Lookup requires the columns to be those of a provisioned index, as lookups on an unindexed column list are a caller error.
- StateContract.State.Clear also makes every key of a partial index a hole again. Otherwise a cleared partial index would answer "no rows" for keys it no longer holds.
- Integer widths (`usize` lengths and columns, `u32` tags) are unbounded here. No operation modelled does arithmetic that could overflow.
