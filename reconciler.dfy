/**
 * The reconciler of MoESchools.py (`match_schools_with_rolls`): the two
 * mismatch sets and the left join of the registry table with the roll table
 * on the school identifier.
 */
module Reconciler {
  import opened Wrappers
  import opened Text
  import opened Records
  import opened RollData

  /** A registry record with the roll band attached, or None where no roll row matched. */
  datatype JoinedRow = JoinedRow(record: Record, roll: Option<seq<Cell>>)

  /** The identifiers found on one side only. */
  datatype Mismatch = Mismatch(rollOnly: set<int>, registryOnly: set<int>)

  datatype Reconciled = Reconciled(rows: seq<JoinedRow>, report: Mismatch)

  /** `astype(int)` failed on the registry identifier of the record at `index`. */
  datatype ReconcileError = NonNumericId(index: nat)

  /** `astype(int)` on a registry identifier: integers, and digit strings the numeric coercion turned into integers. */
  function IdOf(v: Value): Option<int> {
    match v
    case VInt(n) => Some(n)
    case VStr(s) => if IsDigits(s) then Some(DigitsValue(s)) else None
    case _ => None
  }

  /** The identifier of a registry record, when it has a numeric one. */
  function RegistryKey(rec: Record): Option<int> {
    match Lookup(rec, SchoolIdName)
    case None => None
    case Some(v) => IdOf(v)
  }

  /** MoESchools.py:271: every registry identifier as an integer, or the first record where that fails. */
  function RegistryIds(registry: seq<Record>): (r: Result<seq<int>, ReconcileError>)
    ensures r.Success? ==> (|r.value| == |registry|
      && forall k :: 0 <= k < |registry| ==> RegistryKey(registry[k]) == Some(r.value[k]))
    ensures r.Failure? ==> (r.error.index < |registry| && RegistryKey(registry[r.error.index]).None?
      && forall k :: 0 <= k < r.error.index ==> RegistryKey(registry[k]).Some?)
  {
    if registry == [] then Success([])
    else
      var init := registry[..|registry| - 1];
      assert forall k :: 0 <= k < |init| ==> init[k] == registry[k];
      match RegistryIds(init)
      case Failure(e) => Failure(e)
      case Success(ids) =>
        match RegistryKey(registry[|registry| - 1])
        case None => Failure(NonNumericId(|registry| - 1))
        case Some(id) => Success(ids + [id])
  }

  function IdSet(ids: seq<int>): set<int> {
    set k | k in ids
  }

  /** MoESchools.py:272: the identifiers of the roll table. */
  function RollIds(rows: seq<RollRow>): set<int> {
    set r | r in rows :: r.id
  }

  /** MoESchools.py:274-275: the set differences in both directions. */
  function Mismatches(apiIds: set<int>, rollIds: set<int>): (m: Mismatch)
    ensures m.rollOnly !! m.registryOnly
    ensures m.rollOnly !! apiIds && m.registryOnly !! rollIds
    ensures m.rollOnly + m.registryOnly + (apiIds * rollIds) == apiIds + rollIds
  {
    Mismatch(rollIds - apiIds, apiIds - rollIds)
  }

  /** The band cells of the roll rows with identifier `id`, in roll order. */
  function MatchesFor(rows: seq<RollRow>, id: int): (ms: seq<seq<Cell>>)
    ensures ms == [] <==> id !in RollIds(rows)
    ensures forall c :: c in ms ==> RollRow(id, c) in rows
    ensures forall c :: RollRow(id, c) in rows ==> c in ms
    ensures |ms| <= |rows|
  {
    if rows == [] then []
    else
      var rest := MatchesFor(rows[1..], id);
      assert RollIds(rows) == {rows[0].id} + RollIds(rows[1..]);
      if rows[0].id == id then [rows[0].cells] + rest else rest
  }

  /**
   * The matches of two blocks of roll rows are the matches of the first block
   * followed by those of the second: every matching roll row contributes, in
   * roll order.
   */
  lemma {:induction false} MatchesForAppend(a: seq<RollRow>, b: seq<RollRow>, id: int)
    ensures MatchesFor(a + b, id) == MatchesFor(a, id) + MatchesFor(b, id)
  {
    if a == [] {
      assert a + b == b;
    } else {
      assert (a + b)[0] == a[0] && (a + b)[1..] == a[1..] + b;
      MatchesForAppend(a[1..], b, id);
    }
  }

  /** The rows a left merge produces for one registry record: one per matching roll row, or one unmatched row. */
  function JoinOne(rec: Record, ms: seq<seq<Cell>>): (out: seq<JoinedRow>)
    ensures |out| == if ms == [] then 1 else |ms|
    ensures forall k :: 0 <= k < |out| ==> out[k].record == rec
    ensures ms == [] ==> out == [JoinedRow(rec, None)]
    ensures forall k :: 0 <= k < |ms| ==> out[k].roll == Some(ms[k])
  {
    if ms == [] then [JoinedRow(rec, None)]
    else seq(|ms|, k requires 0 <= k < |ms| => JoinedRow(rec, Some(ms[k])))
  }

  /** `df_schools.merge(df_rolls, on='School_Id', how='left')` (MoESchools.py:285): registry order first, roll order within. */
  function LeftJoin(registry: seq<Record>, ids: seq<int>, rolls: seq<RollRow>): (out: seq<JoinedRow>)
    requires |ids| == |registry|
    ensures |out| >= |registry|
    ensures registry != [] ==> out[0].record == registry[0]
  {
    if registry == [] then []
    else JoinOne(registry[0], MatchesFor(rolls, ids[0])) + LeftJoin(registry[1..], ids[1..], rolls)
  }

  /** `match_schools_with_rolls` (MoESchools.py:263-295). */
  function MatchSchoolsWithRolls(registry: seq<Record>, rolls: RollTable): (r: Result<Reconciled, ReconcileError>)
    ensures r.Success? <==> forall k :: 0 <= k < |registry| ==> RegistryKey(registry[k]).Some?
    ensures r.Failure? ==> r.error.index < |registry| && RegistryKey(registry[r.error.index]).None?
    ensures r.Success? ==> |r.value.rows| >= |registry| && r.value.report.rollOnly !! r.value.report.registryOnly
  {
    match RegistryIds(registry)
    case Failure(e) => Failure(e)
    case Success(ids) =>
      Success(Reconciled(LeftJoin(registry, ids, rolls.rows), Mismatches(IdSet(ids), RollIds(rolls.rows))))
  }

  /** The join is stable: joining two blocks of the registry is joining each in turn. */
  lemma {:induction false} LeftJoinAppend(a: seq<Record>, ia: seq<int>, b: seq<Record>, ib: seq<int>, rolls: seq<RollRow>)
    requires |ia| == |a| && |ib| == |b|
    ensures LeftJoin(a + b, ia + ib, rolls) == LeftJoin(a, ia, rolls) + LeftJoin(b, ib, rolls)
  {
    if a == [] {
      assert a + b == b && ia + ib == ib;
    } else {
      assert (a + b)[1..] == a[1..] + b && (ia + ib)[1..] == ia[1..] + ib;
      LeftJoinAppend(a[1..], ia[1..], b, ib, rolls);
    }
  }

  /**
   * Every registry record yields at least one output row, every output row
   * carries a registry record, and a roll row is attached only under a
   * matching identifier: roll-only identifiers produce no rows.
   */
  lemma {:induction false} LeftJoinCovers(registry: seq<Record>, ids: seq<int>, rolls: seq<RollRow>)
    requires |ids| == |registry|
    ensures |LeftJoin(registry, ids, rolls)| >= |registry|
    ensures forall row :: row in LeftJoin(registry, ids, rolls) ==>
      exists k :: (0 <= k < |registry| && row.record == registry[k]
        && (row.roll.Some? ==> RollRow(ids[k], row.roll.value) in rolls)
        && (row.roll.None? ==> ids[k] !in RollIds(rolls)))
  {
    if registry != [] {
      LeftJoinCovers(registry[1..], ids[1..], rolls);
      var ms := MatchesFor(rolls, ids[0]);
      var head := JoinOne(registry[0], ms);
      var tail := LeftJoin(registry[1..], ids[1..], rolls);
      forall row | row in LeftJoin(registry, ids, rolls)
        ensures exists k :: (0 <= k < |registry| && row.record == registry[k]
          && (row.roll.Some? ==> RollRow(ids[k], row.roll.value) in rolls)
          && (row.roll.None? ==> ids[k] !in RollIds(rolls)))
      {
        if row in head {
          var j :| 0 <= j < |head| && head[j] == row;
          if ms != [] {
            assert ms[j] in ms;
          }
          assert row.record == registry[0];
        } else {
          assert row in tail;
          var k :| 0 <= k < |registry[1..]| && row.record == registry[1..][k]
            && (row.roll.Some? ==> RollRow(ids[1..][k], row.roll.value) in rolls)
            && (row.roll.None? ==> ids[1..][k] !in RollIds(rolls));
          assert row.record == registry[k + 1];
        }
      }
    }
  }

  /** No two roll rows share an identifier. */
  predicate UniqueIds(rows: seq<RollRow>) {
    forall i, j :: 0 <= i < |rows| && 0 <= j < |rows| && rows[i].id == rows[j].id ==> i == j
  }

  /** With unique roll identifiers, at most one roll row matches an identifier. */
  lemma {:induction false} MatchesForUnique(rows: seq<RollRow>, id: int)
    requires UniqueIds(rows)
    ensures |MatchesFor(rows, id)| <= 1
  {
    if rows != [] {
      assert UniqueIds(rows[1..]) by {
        forall i, j | 0 <= i < |rows[1..]| && 0 <= j < |rows[1..]| && rows[1..][i].id == rows[1..][j].id
          ensures i == j
        {
          assert rows[i + 1].id == rows[j + 1].id;
        }
      }
      MatchesForUnique(rows[1..], id);
      if rows[0].id == id {
        assert forall k :: 0 <= k < |rows[1..]| ==> rows[1..][k].id != id by {
          forall k | 0 <= k < |rows[1..]| ensures rows[1..][k].id != id {
            assert rows[k + 1] == rows[1..][k];
          }
        }
        assert id !in RollIds(rows[1..]);
      }
    }
  }

  /**
   * With unique roll identifiers the join has exactly one row per registry
   * record, in registry order: its record, and the band of the roll row with
   * the same identifier when there is one.
   */
  lemma {:induction false} LeftJoinUnique(registry: seq<Record>, ids: seq<int>, rolls: seq<RollRow>)
    requires |ids| == |registry| && UniqueIds(rolls)
    ensures |LeftJoin(registry, ids, rolls)| == |registry|
    ensures forall k :: 0 <= k < |registry| ==>
      var row := LeftJoin(registry, ids, rolls)[k];
      row.record == registry[k]
      && (row.roll.Some? <==> ids[k] in RollIds(rolls))
      && (row.roll.Some? ==> RollRow(ids[k], row.roll.value) in rolls)
  {
    if registry != [] {
      LeftJoinUnique(registry[1..], ids[1..], rolls);
      MatchesForUnique(rolls, ids[0]);
      var out := LeftJoin(registry, ids, rolls);
      var head := JoinOne(registry[0], MatchesFor(rolls, ids[0]));
      assert |head| == 1;
      forall k | 0 <= k < |registry|
        ensures var row := out[k];
          row.record == registry[k]
          && (row.roll.Some? <==> ids[k] in RollIds(rolls))
          && (row.roll.Some? ==> RollRow(ids[k], row.roll.value) in rolls)
      {
        if k > 0 {
          assert out[k] == LeftJoin(registry[1..], ids[1..], rolls)[k - 1];
          assert registry[1..][k - 1] == registry[k] && ids[1..][k - 1] == ids[k];
        } else {
          var ms := MatchesFor(rolls, ids[0]);
          if ms != [] {
            assert ms[0] in ms;
          }
        }
      }
    }
  }

  /**
   * The outcome of a successful match: the report lists the identifiers on one
   * side only, and with unique roll identifiers there is one row per registry
   * record in registry order, matched exactly when its identifier is not
   * registry-only.
   */
  lemma MatchOutcome(registry: seq<Record>, rolls: RollTable)
    requires MatchSchoolsWithRolls(registry, rolls).Success?
    ensures var r := MatchSchoolsWithRolls(registry, rolls).value;
      var ids := RegistryIds(registry).value;
      (forall x :: x in r.report.rollOnly <==> x in RollIds(rolls.rows) && x !in ids)
      && (forall x :: x in r.report.registryOnly <==> x in ids && x !in RollIds(rolls.rows))
      && (UniqueIds(rolls.rows) ==> (|r.rows| == |registry|
        && forall k :: 0 <= k < |registry| ==> (r.rows[k].record == registry[k]
          && (r.rows[k].roll.None? <==> ids[k] in r.report.registryOnly))))
  {
    var ids := RegistryIds(registry).value;
    if UniqueIds(rolls.rows) {
      LeftJoinUnique(registry, ids, rolls.rows);
    }
  }

  /** The column order of the merged table: the registry fields, then the roll band. */
  function JoinedColumns(rolls: RollTable): (cs: seq<string>)
    ensures |rolls.columns| >= 1 ==> |cs| == |Fields| + |rolls.columns| - 1 && cs[..|Fields|] == Fields
    ensures |rolls.columns| >= 1 ==> forall k :: |Fields| <= k < |cs| ==> cs[k] == rolls.columns[k - |Fields| + 1]
    ensures |rolls.columns| == 0 ==> cs == Fields
  {
    if |rolls.columns| >= 1 then Fields + rolls.columns[1..] else Fields
  }

  /** The record with only an identifier, as the examples below use. */
  function IdRecord(id: int): Record {
    [(SchoolIdName, VInt(id))]
  }

  const ExampleRegistry: seq<Record> := [IdRecord(1), IdRecord(2), IdRecord(3)]
  const ExampleRollRows: seq<RollRow> := [RollRow(2, [Num(20)]), RollRow(3, [Num(30)]), RollRow(4, [Num(40)])]

  lemma ExampleIds()
    ensures RegistryIds(ExampleRegistry) == Success([1, 2, 3])
  {
    assert RegistryKey(IdRecord(1)) == Some(1) && RegistryKey(IdRecord(2)) == Some(2) && RegistryKey(IdRecord(3)) == Some(3);
    var r := RegistryIds(ExampleRegistry);
    assert r.Success?;
    assert r.value[0] == 1 && r.value[1] == 2 && r.value[2] == 3;
    assert r.value == [1, 2, 3];
  }

  lemma ExampleIdSet()
    ensures IdSet([1, 2, 3]) == {1, 2, 3}
  {
    assert 1 in [1, 2, 3] && 2 in [1, 2, 3] && 3 in [1, 2, 3];
  }

  lemma ExampleReport()
    ensures Mismatches({1, 2, 3}, {2, 3, 4}) == Mismatch({4}, {1})
  {
    assert {2, 3, 4} - {1, 2, 3} == {4};
    assert {1, 2, 3} - {2, 3, 4} == {1};
  }

  lemma ExampleRollSide()
    ensures RollIds(ExampleRollRows) == {2, 3, 4}
    ensures MatchesFor(ExampleRollRows, 1) == []
    ensures MatchesFor(ExampleRollRows, 2) == [[Num(20)]]
    ensures MatchesFor(ExampleRollRows, 3) == [[Num(30)]]
  {
    var rows := ExampleRollRows;
    assert rows[0] in rows && rows[1] in rows && rows[2] in rows;
    assert rows[1..] == [RollRow(3, [Num(30)]), RollRow(4, [Num(40)])];
    assert rows[1..][1..] == [RollRow(4, [Num(40)])];
  }

  lemma ExampleJoin()
    ensures LeftJoin(ExampleRegistry, [1, 2, 3], ExampleRollRows)
      == [JoinedRow(IdRecord(1), None), JoinedRow(IdRecord(2), Some([Num(20)])), JoinedRow(IdRecord(3), Some([Num(30)]))]
  {
    ExampleRollSide();
    var registry := ExampleRegistry;
    assert registry[1..] == [IdRecord(2), IdRecord(3)] && registry[1..][1..] == [IdRecord(3)];
    assert [1, 2, 3][1..] == [2, 3] && [2, 3][1..] == [3];
    assert JoinOne(IdRecord(2), [[Num(20)]]) == [JoinedRow(IdRecord(2), Some([Num(20)]))];
    assert JoinOne(IdRecord(3), [[Num(30)]]) == [JoinedRow(IdRecord(3), Some([Num(30)]))];
  }

  /**
   * Registry 1, 2, 3 against rolls 2, 3, 4: roll-only {4}, registry-only {1},
   * three rows in registry order, the row for 1 unmatched.
   */
  lemma MatchExample()
    ensures MatchSchoolsWithRolls(ExampleRegistry, RollTable([SchoolIdName, "Y1"], ExampleRollRows))
      == Success(Reconciled(
        [JoinedRow(IdRecord(1), None), JoinedRow(IdRecord(2), Some([Num(20)])), JoinedRow(IdRecord(3), Some([Num(30)]))],
        Mismatch({4}, {1})))
  {
    ExampleIds();
    ExampleIdSet();
    ExampleRollSide();
    ExampleJoin();
    ExampleReport();
  }
}
