/** A caller of the `State` contract walking one key of a partial index through its life:
    a hole, then replayed and filled with one row, then evicted back to a hole. Everything
    asserted here follows from the contracts alone. */
module ReplayScenario {
  import opened Rows
  import opened Results
  import opened Batch
  import opened StateContract
  import Wrappers

  /** Key extraction for the scenario: the row's values at the index's columns. */
  function Project(columns: Columns, row: seq<int>): Key<int> {
    seq(|columns|, i requires 0 <= i < |columns| => if columns[i] < |row| then row[columns[i]] else 0)
  }

  /** One partial index on column 0, filled along tag 7, with key [5] still a hole. */
  ghost predicate Provisioned(st: State<int>, filledKeys: set<Key<int>>)
    reads st
  {
    st.Valid() && st.keyOf == Project &&
    st.indices == [[0]] && st.filled == map[[0] := filledKeys] && st.tags == map[7 := [0]]
  }

  method HoleFillEvict() {
    var st := new State<int>(Project);
    st.AddKey([0], Wrappers.Some([7]));
    assert Provisioned(st, {});

    // Key [5] has not been replayed: the lookup says so, rather than "no rows".
    var res := st.Lookup([0], [5]);
    assert res == Missing;

    Replay(st);
    Evict(st);
  }

  /** Marking a filled key a hole frees its rows, so refilling it starts from no rows and
      a replay cannot store a row twice. */
  method HoleThenRefill() {
    var st := new State<int>(Project);
    st.AddKey([0], Wrappers.Some([7]));
    assert Provisioned(st, {});
    Replay(st);
    Rehole(st);
  }

  method Rehole(st: State<int>)
    requires Provisioned(st, {[5]}) && st.rows == multiset{Row([5, 1])}
    modifies st
  {
    st.MarkHole([5], 7);
    assert Project([0], [5, 1]) == [5];
    assert st.rows[Row([5, 1])] == 0;
    assert st.rows == multiset{} by {
      forall r: Row<int> ensures st.rows[r] == 0 {
        if r != Row([5, 1]) {
          assert old(st.rows)[r] == 0;
        }
      }
    }
    assert st.Len() == 0;
    st.MarkFilled([5], 7);
    var res := st.Lookup([0], [5]);
    assert res.Some? && res.records.Occurrences([5, 1]) == 0;
  }

  /** The replay along tag 7 fills key [5] and brings row [5, 1]; the lookup then finds it. */
  method Replay(st: State<int>)
    requires Provisioned(st, {}) && st.rows == multiset{}
    modifies st
    ensures Provisioned(st, {[5]}) && st.rows == multiset{Row([5, 1])}
  {
    st.MarkFilled([5], 7);
    assert st.filled[[0]] == {[5]} && st.filled.Keys == {[0]};
    assert st.filled == map[[0] := {[5]}];
    Insert(st);
    Found(st);
    DropStray(st);
  }

  /** Row [5, 1] arrives along tag 7 once key [5] is filled, and is stored. */
  method Insert(st: State<int>)
    requires Provisioned(st, {[5]}) && st.rows == multiset{}
    modifies st
    ensures Provisioned(st, {[5]}) && st.rows == multiset{Row([5, 1])}
  {
    var batch := new Records([Positive([5, 1])]);
    FilledKeyKept();
    st.ProcessRecords(batch, Wrappers.Some(7));
    ApplyAllSnoc(multiset{}, [], Positive([5, 1]));
    assert [] + [Positive([5, 1])] == batch.items;
  }

  /** With row [5, 1] stored under filled key [5], the lookup returns exactly that row. */
  method Found(st: State<int>)
    requires Provisioned(st, {[5]}) && st.rows == multiset{Row([5, 1])}
  {
    var res := st.Lookup([0], [5]);
    assert res.Some? && res.records.rows == multiset{Row([5, 1])} by {
      assert Project([0], [5, 1]) == [5];
      forall r: Row<int> ensures res.records.rows[r] == multiset{Row([5, 1])}[r] {
        if r != Row([5, 1]) {
          assert st.rows[r] == 0;
        }
      }
    }
  }

  /** A record for key [6], still a hole, is dropped from its batch and not stored. */
  method DropStray(st: State<int>)
    requires Provisioned(st, {[5]}) && st.rows == multiset{Row([5, 1])}
    modifies st
    ensures Provisioned(st, {[5]}) && st.rows == multiset{Row([5, 1])}
  {
    var stray := new Records([Positive([6, 2])]);
    HoleKeyDropped();
    st.ProcessRecords(stray, Wrappers.Some(7));
    assert stray.items == [];
  }

  /** Along tag 7, a record for the filled key [5] passes the filter. */
  lemma FilledKeyKept()
    ensures Filter([Positive([5, 1])], HitTest(Project, [[0]], map[[0] := {[5]}], map[7 := [0]], Wrappers.Some(7)))
      == [Positive([5, 1])]
  {
    assert Project([0], [5, 1]) == [5];
    assert [Positive([5, 1])][..0] == [];
  }

  /** Along tag 7, a record for key [6], a hole, does not pass the filter. */
  lemma HoleKeyDropped()
    ensures Filter([Positive([6, 2])], HitTest(Project, [[0]], map[[0] := {[5]}], map[7 := [0]], Wrappers.Some(7)))
      == []
  {
    assert Project([0], [6, 2]) == [6];
    assert [Positive([6, 2])][..0] == [];
  }

  /** Evicting key [5] along tag 7 reports index [0], drops the row and makes the key a
      hole again. */
  method Evict(st: State<int>)
    requires Provisioned(st, {[5]}) && st.rows == multiset{Row([5, 1])}
    modifies st
  {
    var evicted := st.EvictKeys(7, [[5]]);
    assert evicted == Wrappers.Some([0]);
    assert st.rows == multiset{} by {
      assert Project([0], [5, 1]) == [5];
      forall r: Row<int> ensures st.rows[r] == 0 {
        if r != Row([5, 1]) {
          assert old(st.rows)[r] == 0;
        }
      }
    }
    var res := st.Lookup([0], [5]);
    assert res == Missing;
  }
}
