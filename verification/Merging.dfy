/** Two increasing streams of rows, merged into one (the loop of src/production/replay.rs). */
module Merging {
  import opened Spool
  import opened Pending

  ghost predicate Increasing(rows: seq<SpoolRow>) {
    forall i, j | 0 <= i < j < |rows| :: rows[i].common.sequence < rows[j].common.sequence
  }

  /** The streams share no sequence. */
  ghost predicate Disjoint(orders: seq<SpoolRow>, executions: seq<SpoolRow>) {
    forall i, j | 0 <= i < |orders| && 0 <= j < |executions| ::
      orders[i].common.sequence != executions[j].common.sequence
  }

  /** `applied` holds exactly the rows of both lists, in strictly increasing order. */
  ghost predicate SortedUnion(applied: seq<SpoolRow>, orders: seq<SpoolRow>, executions: seq<SpoolRow>) {
    Increasing(applied) && multiset(applied) == multiset(orders) + multiset(executions)
  }

  /** `row` comes after all of `rows`. */
  ghost predicate Later(rows: seq<SpoolRow>, row: SpoolRow) {
    forall a | a in rows :: a.common.sequence < row.common.sequence
  }

  /** The first rows of both streams are applied, and all that is left comes later. */
  ghost predicate Merged(applied: seq<SpoolRow>, orders: seq<SpoolRow>, i: nat, executions: seq<SpoolRow>, j: nat) {
    && i <= |orders| && j <= |executions|
    && SortedUnion(applied, orders[..i], executions[..j])
    && (i < |orders| ==> Later(applied, orders[i]))
    && (j < |executions| ==> Later(applied, executions[j]))
  }

  /** Rows of the heads of both streams, merged so far. */
  ghost predicate PartlyMerged(applied: seq<SpoolRow>, orders: seq<SpoolRow>, executions: seq<SpoolRow>) {
    exists i: nat, j: nat :: Merged(applied, orders, i, executions, j)
  }

  lemma IncreasingMore(rows: seq<SpoolRow>, row: SpoolRow)
    requires Increasing(rows) && Later(rows, row)
    ensures Increasing(rows + [row])
  {
    forall i | 0 <= i < |rows| ensures rows[i].common.sequence < row.common.sequence {
      assert rows[i] in rows;
    }
  }

  lemma UnionMore(applied: seq<SpoolRow>, orders: seq<SpoolRow>, executions: seq<SpoolRow>, row: SpoolRow)
    requires SortedUnion(applied, orders, executions) && Later(applied, row)
    ensures SortedUnion(applied + [row], orders + [row], executions)
    ensures SortedUnion(applied + [row], orders, executions + [row])
  {
    hide Increasing, Later;
    IncreasingMore(applied, row);
  }

  lemma LaterMore(applied: seq<SpoolRow>, row: SpoolRow, next: SpoolRow)
    requires Later(applied, row) && row.common.sequence < next.common.sequence
    ensures Later(applied + [row], next)
  {
  }

  lemma MergedOrder(applied: seq<SpoolRow>, orders: seq<SpoolRow>, i: nat, executions: seq<SpoolRow>, j: nat)
    requires Merged(applied, orders, i, executions, j) && Increasing(orders) && i < |orders|
    requires j < |executions| ==> orders[i].common.sequence < executions[j].common.sequence
    ensures Merged(applied + [orders[i]], orders, i + 1, executions, j)
  {
    hide SortedUnion, Later;
    UnionMore(applied, orders[..i], executions[..j], orders[i]);
    assert orders[..i + 1] == orders[..i] + [orders[i]];
    if i + 1 < |orders| {
      LaterMore(applied, orders[i], orders[i + 1]);
    }
    if j < |executions| {
      LaterMore(applied, orders[i], executions[j]);
    }
  }

  lemma MergedExecution(applied: seq<SpoolRow>, orders: seq<SpoolRow>, i: nat, executions: seq<SpoolRow>, j: nat)
    requires Merged(applied, orders, i, executions, j) && Increasing(executions) && j < |executions|
    requires i < |orders| ==> executions[j].common.sequence < orders[i].common.sequence
    ensures Merged(applied + [executions[j]], orders, i, executions, j + 1)
  {
    hide SortedUnion, Later;
    UnionMore(applied, orders[..i], executions[..j], executions[j]);
    assert executions[..j + 1] == executions[..j] + [executions[j]];
    if i < |orders| {
      LaterMore(applied, executions[j], orders[i]);
    }
    if j + 1 < |executions| {
      LaterMore(applied, executions[j], executions[j + 1]);
    }
  }

  /** A whole group joins the merge. */
  lemma {:induction false} MergedGroup(applied: seq<SpoolRow>, orders: seq<SpoolRow>, i: nat, executions: seq<SpoolRow>,
                                       j: nat, next: nat)
    requires Merged(applied, orders, i, executions, j) && Increasing(executions) && j <= next <= |executions|
    requires forall k | j <= k < next :: i < |orders| ==> executions[k].common.sequence < orders[i].common.sequence
    ensures Merged(applied + executions[j..next], orders, i, executions, next)
    decreases next - j
  {
    hide Merged, Increasing;
    if j == next {
      assert applied + executions[j..next] == applied;
    } else {
      MergedGroup(applied, orders, i, executions, j, next - 1);
      MergedExecution(applied + executions[j..next - 1], orders, i, executions, next - 1);
      assert applied + executions[j..next] == applied + executions[j..next - 1] + [executions[next - 1]];
    }
  }

  lemma NothingMerged(orders: seq<SpoolRow>, executions: seq<SpoolRow>)
    ensures Merged([], orders, 0, executions, 0)
  {
    assert orders[..0] == [] && executions[..0] == [];
  }

  lemma AllMerged(applied: seq<SpoolRow>, orders: seq<SpoolRow>, executions: seq<SpoolRow>)
    requires Merged(applied, orders, |orders|, executions, |executions|)
    ensures SortedUnion(applied, orders, executions)
  {
    assert orders[..|orders|] == orders && executions[..|executions|] == executions;
  }

  lemma SharedRow(orders: seq<SpoolRow>, executions: seq<SpoolRow>, i: nat, j: nat)
    requires i < |orders| && j < |executions| && orders[i].common.sequence == executions[j].common.sequence
    ensures !Disjoint(orders, executions)
  {
  }

  /** Only disjoint streams have a strictly increasing union. */
  lemma UnionDisjoint(applied: seq<SpoolRow>, orders: seq<OrderRow>, executions: seq<ExecutionRow>)
    requires SortedUnion(applied, orders, executions)
    ensures Disjoint(orders, executions)
  {
    forall i, j | 0 <= i < |orders| && 0 <= j < |executions|
      ensures orders[i].common.sequence != executions[j].common.sequence
    {
      var o: SpoolRow, e: SpoolRow := orders[i], executions[j];
      assert o in orders && e in executions;
      assert o in multiset(applied) && e in multiset(applied);
      var a :| 0 <= a < |applied| && applied[a] == o;
      var b :| 0 <= b < |applied| && applied[b] == e;
      assert a != b;
    }
  }

  /** Of given rows, the one with the highest sequence stands last. */
  lemma SameLast(a: seq<SpoolRow>, b: seq<SpoolRow>)
    requires Increasing(a) && Increasing(b) && multiset(a) == multiset(b) && a != []
    ensures b != [] && a[|a| - 1] == b[|b| - 1]
  {
    var x := a[|a| - 1];
    assert x in multiset(b);
    var y := b[|b| - 1];
    assert y in multiset(a);
    var i :| 0 <= i < |b| && b[i] == x;
    var j :| 0 <= j < |a| && a[j] == y;
  }

  lemma FrontOf(rows: seq<SpoolRow>)
    requires Increasing(rows) && rows != []
    ensures var front := rows[..|rows| - 1];
            && Increasing(front) && rows == front + [rows[|rows| - 1]]
            && multiset(rows) == multiset(front) + multiset{rows[|rows| - 1]}
  {
    assert rows == rows[..|rows| - 1] + [rows[|rows| - 1]];
  }

  /** There is only one strictly increasing arrangement of given rows. */
  lemma {:induction false} UnionUnique(a: seq<SpoolRow>, b: seq<SpoolRow>)
    requires Increasing(a) && Increasing(b) && multiset(a) == multiset(b)
    ensures a == b
    decreases |a|
  {
    hide Increasing;
    assert |a| == |multiset(a)| == |multiset(b)| == |b|;
    if a != [] {
      SameLast(a, b);
      FrontOf(a);
      FrontOf(b);
      assert multiset(a[..|a| - 1]) == multiset(a) - multiset{a[|a| - 1]};
      assert multiset(b[..|b| - 1]) == multiset(b) - multiset{b[|b| - 1]};
      UnionUnique(a[..|a| - 1], b[..|b| - 1]);
    }
  }

  // ----- the rows of one symbol -----

  ghost function Of(applied: seq<SpoolRow>, symbol: Symbol): seq<SpoolRow> {
    if applied == [] then []
    else
      var last := applied[|applied| - 1];
      Of(applied[..|applied| - 1], symbol) + if last.common.symbol == symbol then [last] else []
  }

  /** Rows of one symbol extend its own list and no other. */
  lemma {:induction false} OfMore(applied: seq<SpoolRow>, more: seq<SpoolRow>, at: Symbol, symbol: Symbol)
    requires forall row | row in more :: row.common.symbol == at
    ensures Of(applied + more, symbol) == Of(applied, symbol) + if at == symbol then more else []
    decreases |more|
  {
    hide Of;
    if more == [] {
      assert applied + more == applied;
    } else {
      var before, last := more[..|more| - 1], more[|more| - 1];
      OfMore(applied, before, at, symbol);
      OfLast(applied + before, last, symbol);
      assert applied + more == applied + before + [last];
      assert last in more && before + [last] == more;
    }
  }

  lemma OfLast(applied: seq<SpoolRow>, row: SpoolRow, symbol: Symbol)
    ensures Of(applied + [row], symbol) == Of(applied, symbol) + if row.common.symbol == symbol then [row] else []
  {
    assert (applied + [row])[..|applied|] == applied;
  }
}
