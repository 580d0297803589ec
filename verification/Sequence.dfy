/** Offline repair of one stream (src/production/sequence.rs): natural runs are recorded while the
    rows are written, and merged up to 32 at a time until one strictly increasing run is left. */
module Sequence {
  import opened Wrappers
  import opened MarketData

  const FAN_IN := 32

  /** One encoded record; the merge reads its native sequence and copies the rest. */
  datatype Row = Row(sequence: nat, body: seq<byte>)

  datatype Run = Run(start: nat, rows: nat)

  datatype SequenceError = AmbiguousSequence(channel: nat, sequence: nat) | Arithmetic

  datatype SequenceRepair = SequenceRepair(channel: nat, rows: nat, naturalRuns: nat, mergePasses: nat)

  ghost predicate Increasing(rows: seq<Row>) {
    forall i, j | 0 <= i < j < |rows| :: rows[i].sequence < rows[j].sequence
  }

  ghost predicate DistinctSequences(rows: seq<Row>) {
    forall i, j | 0 <= i < j < |rows| :: rows[i].sequence != rows[j].sequence
  }

  /** Two rows carry this sequence. */
  ghost predicate Repeats(rows: seq<Row>, sequence: nat) {
    exists i, j :: 0 <= i < j < |rows| && rows[i].sequence == sequence && rows[j].sequence == sequence
  }

  // ----- permutations -----

  lemma {:induction false} TwoPlaces(rows: seq<Row>, row: Row) returns (i: nat, j: nat)
    requires multiset(rows)[row] >= 2
    ensures i < j < |rows| && rows[i] == row && rows[j] == row
  {
    var last := |rows| - 1;
    assert rows == rows[..last] + [rows[last]];
    if rows[last] == row {
      j := last;
      assert row in multiset(rows[..last]);
      i :| 0 <= i < last && rows[..last][i] == row;
    } else {
      i, j := TwoPlaces(rows[..last], row);
    }
  }

  /** Two rows of one sequence stay two rows of one sequence under any rearrangement. */
  lemma SharedSequence(a: seq<Row>, b: seq<Row>, i: nat, j: nat) returns (p: nat, q: nat)
    requires multiset(a) == multiset(b) && i < j < |b| && b[i].sequence == b[j].sequence
    ensures p < |a| && q < |a| && p != q && a[p].sequence == a[q].sequence == b[i].sequence
  {
    if b[i] == b[j] {
      assert b == b[..j] + [b[j]] + b[j + 1..];
      assert multiset(b[..j])[b[i]] >= 1 by { assert b[..j][i] == b[i]; }
      p, q := TwoPlaces(a, b[i]);
    } else {
      assert b[i] in multiset(a) && b[j] in multiset(a);
      p :| 0 <= p < |a| && a[p] == b[i];
      q :| 0 <= q < |a| && a[q] == b[j];
    }
  }

  /** A rearrangement has distinct sequences when the original has. */
  lemma PermutationDistinct(a: seq<Row>, b: seq<Row>)
    requires multiset(a) == multiset(b) && DistinctSequences(a)
    ensures DistinctSequences(b)
  {
    forall i, j | 0 <= i < j < |b| ensures b[i].sequence != b[j].sequence {
      if b[i].sequence == b[j].sequence {
        var p, q := SharedSequence(a, b, i, j);
      }
    }
  }

  /** A rearrangement repeats what the original repeats. */
  lemma PermutationRepeats(a: seq<Row>, b: seq<Row>, sequence: nat)
    requires multiset(a) == multiset(b) && Repeats(b, sequence)
    ensures Repeats(a, sequence) && !DistinctSequences(a)
  {
    var i, j :| 0 <= i < j < |b| && b[i].sequence == sequence && b[j].sequence == sequence;
    var p, q := SharedSequence(a, b, i, j);
    var first, second := if p < q then p else q, if p < q then q else p;
    assert a[first].sequence == sequence && a[second].sequence == sequence;
  }

  /** What a stretch of the file repeats, the file repeats. */
  lemma PartRepeats(file: seq<Row>, lo: nat, hi: nat, sequence: nat)
    requires lo <= hi <= |file| && Repeats(file[lo..hi], sequence)
    ensures Repeats(file, sequence) && !DistinctSequences(file)
  {
    var i, j :| 0 <= i < j < hi - lo && file[lo..hi][i].sequence == sequence && file[lo..hi][j].sequence == sequence;
    assert file[lo + i].sequence == sequence && file[lo + j].sequence == sequence;
  }

  // ----- several cursors at once -----

  ghost function Flat(lists: seq<seq<Row>>): seq<Row> {
    if lists == [] then [] else lists[0] + Flat(lists[1..])
  }

  lemma {:induction false} FlatTake(lists: seq<seq<Row>>, i: nat)
    requires i < |lists| && lists[i] != []
    ensures multiset(Flat(lists)) == multiset(Flat(lists[i := lists[i][1..]])) + multiset{lists[i][0]}
    ensures |Flat(lists)| == |Flat(lists[i := lists[i][1..]])| + 1
  {
    var taken := lists[i := lists[i][1..]];
    assert lists[i] == [lists[i][0]] + lists[i][1..];
    if i == 0 {
      assert taken[1..] == lists[1..];
    } else {
      FlatTake(lists[1..], i - 1);
      assert taken[1..] == lists[1..][i - 1 := lists[i][1..]];
    }
  }

  lemma {:induction false} FlatMember(lists: seq<seq<Row>>, row: Row) returns (i: nat)
    requires row in Flat(lists)
    ensures i < |lists| && row in lists[i]
  {
    if row in lists[0] {
      i := 0;
    } else {
      i := FlatMember(lists[1..], row);
      i := i + 1;
    }
  }

  lemma {:induction false} FlatEmpty(lists: seq<seq<Row>>)
    requires forall i | 0 <= i < |lists| :: lists[i] == []
    ensures Flat(lists) == []
  {
    if lists == [] {
    } else {
      FlatEmpty(lists[1..]);
    }
  }

  // ----- runs that tile a file -----

  ghost function Offset(runs: seq<Run>, i: nat): nat
    requires i <= |runs|
  {
    if i == 0 then 0 else Offset(runs, i - 1) + runs[i - 1].rows
  }

  ghost predicate Tiles(runs: seq<Run>, file: seq<Row>) {
    && Offset(runs, |runs|) == |file|
    && forall i | 0 <= i < |runs| :: RunIn(runs, file, i)
  }

  ghost predicate RunIn(runs: seq<Run>, file: seq<Row>, i: nat)
    requires i < |runs|
  {
    && runs[i].start == Offset(runs, i)
    && runs[i].start + runs[i].rows <= |file|
    && Increasing(file[runs[i].start..runs[i].start + runs[i].rows])
  }

  ghost function Slices(runs: seq<Run>, file: seq<Row>, lo: nat, hi: nat): seq<seq<Row>>
    requires lo <= hi <= |runs| && forall i | lo <= i < hi :: runs[i].start + runs[i].rows <= |file|
  {
    seq(hi - lo, i requires 0 <= i < hi - lo => file[runs[lo + i].start..runs[lo + i].start + runs[lo + i].rows])
  }

  lemma {:induction false} OffsetMonotone(runs: seq<Run>, i: nat, j: nat)
    requires i <= j <= |runs|
    ensures Offset(runs, i) <= Offset(runs, j)
    decreases j
  {
    if i < j {
      OffsetMonotone(runs, i, j - 1);
    }
  }

  lemma FlatFirst(lists: seq<seq<Row>>)
    ensures Flat(lists) == if lists == [] then [] else lists[0] + Flat(lists[1..])
  {
  }

  lemma Adjacent(file: seq<Row>, a: nat, b: nat, c: nat)
    requires a <= b <= c <= |file|
    ensures file[a..b] + file[b..c] == file[a..c]
  {}

  lemma {:induction false} FlatSlices(runs: seq<Run>, file: seq<Row>, lo: nat, hi: nat)
    requires Tiles(runs, file) && lo <= hi <= |runs|
    ensures forall i | lo <= i < hi :: runs[i].start + runs[i].rows <= |file|
    ensures Offset(runs, lo) <= Offset(runs, hi) <= |file|
    ensures Flat(Slices(runs, file, lo, hi)) == file[Offset(runs, lo)..Offset(runs, hi)]
    decreases hi - lo
  {
    hide Increasing, Flat;
    forall i | lo <= i < hi ensures runs[i].start + runs[i].rows <= |file| {
      assert RunIn(runs, file, i);
    }
    FlatFirst(Slices(runs, file, lo, hi));
    OffsetMonotone(runs, lo, hi);
    OffsetMonotone(runs, hi, |runs|);
    if lo < hi {
      assert RunIn(runs, file, lo);
      FlatSlices(runs, file, lo + 1, hi);
      assert Slices(runs, file, lo, hi)[1..] == Slices(runs, file, lo + 1, hi);
      assert runs[lo].start == Offset(runs, lo) && Offset(runs, lo + 1) == Offset(runs, lo) + runs[lo].rows;
      Adjacent(file, Offset(runs, lo), Offset(runs, lo + 1), Offset(runs, hi));
    }
  }

  // ----- merging one group -----

  datatype Cursor = Cursor(position: nat, remaining: nat, row: Row)

  /** `current` is the smallest entry of the heap: by sequence, then by run index. */
  predicate IsLeast(entry: (nat, nat), heap: set<(nat, nat)>) {
    entry in heap && forall e | e in heap :: entry.0 < e.0 || (entry.0 == e.0 && entry.1 <= e.1)
  }

  lemma LeastIn(entry: (nat, nat), heap: set<(nat, nat)>)
    requires IsLeast(entry, heap)
    ensures entry in heap
  {}

  lemma LeastExists(heap: set<(nat, nat)>)
    requires heap != {}
    ensures exists e :: IsLeast(e, heap)
  {
    var e :| e in heap;
    if heap != {e} {
      LeastExists(heap - {e});
      var f :| IsLeast(f, heap - {e});
      var least := if e.0 < f.0 || (e.0 == f.0 && e.1 <= f.1) then e else f;
      assert IsLeast(least, heap);
    } else {
      assert IsLeast(e, heap);
    }
  }

  /** What a cursor still has to deliver: the row in the heap, then the rows not yet read. */
  ghost predicate Pending(file: seq<Row>, cursor: Cursor, inHeap: bool, left: seq<Row>) {
    && cursor.position + cursor.remaining <= |file|
    && left == (if inHeap then [cursor.row] else []) + file[cursor.position..cursor.position + cursor.remaining]
    && (!inHeap ==> left == [])
    && Increasing(left)
  }

  /** The heap holds the first pending row of every cursor that has one, and nothing else. */
  ghost predicate HeapHolds(heap: set<(nat, nat)>, left: seq<seq<Row>>) {
    && (forall e | e in heap :: e.1 < |left| && left[e.1] != [] && left[e.1][0].sequence == e.0)
    && (forall i | 0 <= i < |left| && left[i] != [] :: (left[i][0].sequence, i) in heap)
  }

  method Advance(file: seq<Row>, cursor: Cursor) returns (next: Cursor, sequence: Option<nat>)
    requires cursor.position + cursor.remaining <= |file|
    ensures cursor.remaining == 0 ==> sequence.None? && next == cursor
    ensures cursor.remaining > 0 ==>
      && next == Cursor(cursor.position + 1, cursor.remaining - 1, file[cursor.position])
      && sequence == Some(file[cursor.position].sequence)
  {
    if cursor.remaining == 0 {
      return cursor, None;
    }
    next := Cursor(cursor.position + 1, cursor.remaining - 1, file[cursor.position]);
    sequence := Some(next.row.sequence);
  }

  /** The group's runs lie inside the file and increase. */
  ghost predicate GroupIn(file: seq<Row>, group: seq<Run>) {
    && (forall i | 0 <= i < |group| :: group[i].start + group[i].rows <= |file|)
    && (forall i | 0 <= i < |group| :: Increasing(file[group[i].start..group[i].start + group[i].rows]))
  }

  ghost predicate AllPending(file: seq<Row>, cursors: seq<Cursor>, left: seq<seq<Row>>) {
    |cursors| == |left| && forall k | 0 <= k < |left| :: Pending(file, cursors[k], left[k] != [], left[k])
  }

  ghost function GroupRows(file: seq<Row>, group: seq<Run>): seq<seq<Row>>
    requires GroupIn(file, group)
  {
    seq(|group|, i requires 0 <= i < |group| => file[group[i].start..group[i].start + group[i].rows])
  }

  method OpenCursors(file: seq<Row>, group: seq<Run>) returns (cursors: seq<Cursor>, heap: set<(nat, nat)>)
    requires GroupIn(file, group)
    ensures |cursors| == |group|
    ensures AllPending(file, cursors, GroupRows(file, group))
    ensures HeapHolds(heap, GroupRows(file, group))
  {
    hide HeapHolds, AllPending, Pending;
    cursors, heap := [], {};
    ghost var left: seq<seq<Row>> := GroupRows(file, group);
    NothingOpen(file);
    assert left[..0] == [];
    for i := 0 to |group|
      invariant AllPending(file, cursors, left[..i]) && HeapHolds(heap, left[..i])
    {
      RunOpens(file, group[i], left[i]);
      HeapMore(heap, left[..i], left[i]);
      var cursor, sequence := Advance(file, Cursor(group[i].start, group[i].rows, Row(0, [])));
      if sequence.Some? {
        heap := heap + {(sequence.value, i)};
      }
      PendingMore(file, cursors, left[..i], cursor, left[i]);
      assert left[..i + 1] == left[..i] + [left[i]];
      cursors := cursors + [cursor];
    }
    AllOpen(file, cursors, left[..|group|]);
    assert left[..|group|] == left;
  }

  lemma NothingOpen(file: seq<Row>)
    ensures AllPending(file, [], []) && HeapHolds({}, [])
  {}

  lemma AllOpen(file: seq<Row>, cursors: seq<Cursor>, left: seq<seq<Row>>)
    requires AllPending(file, cursors, left)
    ensures |cursors| == |left|
  {}

  /** The cursor of a run that was just opened. */
  lemma RunOpens(file: seq<Row>, run: Run, rows: seq<Row>)
    requires run.start + run.rows <= |file| && rows == file[run.start..run.start + run.rows] && Increasing(rows)
    ensures rows == [] <==> run.rows == 0
    ensures rows == [] ==> Pending(file, Cursor(run.start, run.rows, Row(0, [])), false, rows)
    ensures rows != [] ==>
      rows[0] == file[run.start] && Pending(file, Cursor(run.start + 1, run.rows - 1, file[run.start]), true, rows)
  {
    if rows != [] {
      assert rows == [file[run.start]] + file[run.start + 1..run.start + run.rows];
    }
  }

  lemma HeapMore(heap: set<(nat, nat)>, left: seq<seq<Row>>, rows: seq<Row>)
    requires HeapHolds(heap, left)
    ensures HeapHolds(if rows == [] then heap else heap + {(rows[0].sequence, |left|)}, left + [rows])
  {}

  lemma PendingMore(file: seq<Row>, cursors: seq<Cursor>, left: seq<seq<Row>>, cursor: Cursor, rows: seq<Row>)
    requires AllPending(file, cursors, left) && Pending(file, cursor, rows != [], rows)
    ensures |cursors| == |left| && AllPending(file, cursors + [cursor], left + [rows])
  {
    hide Pending;
  }

  lemma {:induction false} FlatContains(lists: seq<seq<Row>>, i: nat, row: Row)
    requires i < |lists| && row in lists[i]
    ensures row in Flat(lists)
  {
    if i > 0 {
      FlatContains(lists[1..], i - 1, row);
    }
  }

  /** A popped row that does not exceed its predecessor shares its sequence with it. */
  lemma Ambiguous(merged: seq<Row>, left: seq<seq<Row>>, index: nat, whole: seq<Row>)
    requires multiset(merged) + multiset(Flat(left)) == multiset(whole) && merged != []
    requires index < |left| && left[index] != [] && left[index][0].sequence == merged[|merged| - 1].sequence
    ensures Repeats(whole, left[index][0].sequence)
  {
    var all := merged + Flat(left);
    FlatContains(left, index, left[index][0]);
    var q :| 0 <= q < |Flat(left)| && Flat(left)[q] == left[index][0];
    assert all[|merged| - 1] == merged[|merged| - 1] && all[|merged| + q] == left[index][0];
    assert Repeats(all, left[index][0].sequence);
    PermutationRepeats(whole, all, left[index][0].sequence);
  }

  /** Everything still pending is at least `bound`. */
  ghost predicate AllAtLeast(left: seq<seq<Row>>, bound: nat) {
    forall k, m | 0 <= k < |left| && 0 <= m < |left[k]| :: left[k][m].sequence >= bound
  }

  lemma LeastBounds(file: seq<Row>, cursors: seq<Cursor>, heap: set<(nat, nat)>, left: seq<seq<Row>>, entry: (nat, nat))
    requires HeapHolds(heap, left) && IsLeast(entry, heap) && AllPending(file, cursors, left)
    ensures entry.1 < |left| && left[entry.1] != [] && left[entry.1][0].sequence == entry.0
    ensures cursors[entry.1].row == left[entry.1][0]
    ensures AllAtLeast(left, entry.0)
  {
    assert Pending(file, cursors[entry.1], true, left[entry.1]);
    forall k, m | 0 <= k < |left| && 0 <= m < |left[k]| ensures left[k][m].sequence >= entry.0 {
      assert Pending(file, cursors[k], true, left[k]);
      assert (left[k][0].sequence, k) in heap;
    }
  }

  lemma HeapStep(heap: set<(nat, nat)>, left: seq<seq<Row>>, entry: (nat, nat))
    requires HeapHolds(heap, left) && entry in heap
    ensures var rest := left[entry.1][1..];
            HeapHolds(heap - {entry} + (if rest == [] then {} else {(rest[0].sequence, entry.1)}),
                      left[entry.1 := rest])
  {}

  lemma HeapEmpty(left: seq<seq<Row>>)
    requires HeapHolds({}, left)
    ensures Flat(left) == []
  {
    assert forall i | 0 <= i < |left| :: left[i] == [];
    FlatEmpty(left);
  }

  lemma AtLeastStep(left: seq<seq<Row>>, index: nat, bound: nat)
    requires AllAtLeast(left, bound) && index < |left| && left[index] != []
    ensures AllAtLeast(left[index := left[index][1..]], bound)
  {
    var rest: seq<seq<Row>> := left[index := left[index][1..]];
    forall k, m | 0 <= k < |rest| && 0 <= m < |rest[k]| ensures rest[k][m].sequence >= bound {
      assert rest[k][m] == left[k][if k == index then m + 1 else m];
    }
  }

  lemma PendingStep(file: seq<Row>, cursors: seq<Cursor>, left: seq<seq<Row>>, index: nat, next: Cursor)
    requires AllPending(file, cursors, left) && index < |left| && left[index] != []
    requires if cursors[index].remaining == 0 then next == cursors[index]
             else next == Cursor(cursors[index].position + 1, cursors[index].remaining - 1,
                                 file[cursors[index].position])
    ensures AllPending(file, cursors[index := next], left[index := left[index][1..]])
    ensures cursors[index].position + cursors[index].remaining <= |file|
    ensures left[index][1..] != [] <==> cursors[index].remaining > 0
    ensures cursors[index].remaining > 0 ==> left[index][1] == file[cursors[index].position]
  {
    Popped(file, cursors[index], next, left[index]);
  }

  lemma CursorInside(file: seq<Row>, cursors: seq<Cursor>, left: seq<seq<Row>>, index: nat)
    requires AllPending(file, cursors, left) && index < |left|
    ensures cursors[index].position + cursors[index].remaining <= |file|
  {}

  lemma Popped(file: seq<Row>, cursor: Cursor, next: Cursor, left: seq<Row>)
    requires Pending(file, cursor, left != [], left) && left != []
    requires if cursor.remaining == 0 then next == cursor
             else next == Cursor(cursor.position + 1, cursor.remaining - 1, file[cursor.position])
    ensures Pending(file, next, left[1..] != [], left[1..])
    ensures left[1..] != [] <==> cursor.remaining > 0
    ensures cursor.remaining > 0 ==> left[1] == file[cursor.position]
  {
    var rest := file[cursor.position..cursor.position + cursor.remaining];
    assert left[1..] == rest;
    if cursor.remaining > 0 {
      assert rest == [file[cursor.position]] + file[next.position..next.position + next.remaining];
    }
  }

  /** A row leaves the pending ones for the merged ones. */
  lemma RowMoves(merged: seq<Row>, row: Row, pending: seq<Row>, pending': seq<Row>, whole: seq<Row>)
    requires multiset(merged) + multiset(pending) == multiset(whole)
    requires multiset(pending) == multiset(pending') + multiset{row}
    ensures multiset(merged + [row]) + multiset(pending') == multiset(whole)
  {}

  /** One group of runs becomes one strictly increasing run, unless a sequence occurs twice. */
  method MergeGroup(file: seq<Row>, group: seq<Run>, channel: nat, written: nat)
    returns (r: Result<seq<Row>, SequenceError>)
    requires GroupIn(file, group) && written + |Flat(GroupRows(file, group))| <= MAX_U64
    ensures r.Ok? ==> Increasing(r.value) && multiset(r.value) == multiset(Flat(GroupRows(file, group)))
    ensures r.Err? ==>
      && r.error.AmbiguousSequence? && r.error.channel == channel
      && Repeats(Flat(GroupRows(file, group)), r.error.sequence)
  {
    hide Repeats, DistinctSequences, HeapHolds, AllPending, AllAtLeast, GroupRows, GroupIn, Flat, Increasing, IsLeast;
    EmptyIncreases();
    ghost var whole := Flat(GroupRows(file, group));
    var cursors, heap := OpenCursors(file, group);
    ghost var left: seq<seq<Row>> := GroupRows(file, group);
    var merged: seq<Row> := [];
    var total := written;
    var previous: Option<nat> := None;
    while heap != {}
      invariant AllPending(file, cursors, left)
      invariant HeapHolds(heap, left)
      invariant multiset(merged) + multiset(Flat(left)) == multiset(whole)
      invariant Increasing(merged)
      invariant previous == if merged == [] then None else Some(merged[|merged| - 1].sequence)
      invariant previous.Some? ==> AllAtLeast(left, previous.value)
      invariant total + |Flat(left)| <= MAX_U64
      decreases |Flat(left)|
    {
      LeastExists(heap);
      var entry: (nat, nat) :| IsLeast(entry, heap);
      LeastIn(entry, heap);
      var sequence, index := entry.0, entry.1;
      LeastBounds(file, cursors, heap, left, entry);
      CursorsAlong(file, cursors, left);
      if previous.Some? && sequence <= previous.value {
        Lowest(left, index, previous.value);
        Ambiguous(merged, left, index, whole);
        return Err(AmbiguousSequence(channel, sequence));
      }
      FlatTake(left, index);
      HeapStep(heap, left, entry);
      ghost var rest := left[index][1..];
      ghost var stepped := heap - {entry} + (if rest == [] then {} else {(rest[0].sequence, index)});
      AtLeastStep(left, index, sequence);
      CursorInside(file, cursors, left, index);
      heap := heap - {entry};
      var row := cursors[index].row;
      Extended(merged, row);
      RowMoves(merged, row, Flat(left), Flat(left[index := rest]), whole);
      merged := merged + [row];
      previous := Some(sequence);
      if total + 1 > MAX_U64 {
        return Err(Arithmetic);
      }
      total := total + 1;
      var cursor, next := Advance(file, cursors[index]);
      PendingStep(file, cursors, left, index, cursor);
      cursors := cursors[index := cursor];
      if next.Some? {
        heap := heap + {(next.value, index)};
      }
      assert heap == stepped;
      left := left[index := left[index][1..]];
    }
    HeapEmpty(left);
    return Ok(merged);
  }

  lemma CursorsAlong(file: seq<Row>, cursors: seq<Cursor>, left: seq<seq<Row>>)
    requires AllPending(file, cursors, left)
    ensures |cursors| == |left|
  {}

  lemma Lowest(left: seq<seq<Row>>, index: nat, bound: nat)
    requires AllAtLeast(left, bound) && index < |left| && left[index] != []
    ensures left[index][0].sequence >= bound
  {}

  lemma EmptyIncreases()
    ensures Increasing([])
  {}

  lemma Extended(merged: seq<Row>, row: Row)
    requires Increasing(merged) && (merged != [] ==> merged[|merged| - 1].sequence < row.sequence)
    ensures Increasing(merged + [row])
  {}

  // ----- one pass over all groups -----

  /** The runs `lo..hi` of a tiled file are a contiguous stretch of it. */
  lemma GroupStretch(runs: seq<Run>, file: seq<Row>, lo: nat, hi: nat)
    requires Tiles(runs, file) && lo <= hi <= |runs|
    ensures GroupIn(file, runs[lo..hi]) && Offset(runs, lo) <= Offset(runs, hi) <= |file|
    ensures Flat(GroupRows(file, runs[lo..hi])) == file[Offset(runs, lo)..Offset(runs, hi)]
  {
    hide Increasing, Flat, Offset;
    forall i | 0 <= i < hi - lo
      ensures runs[lo..hi][i].start + runs[lo..hi][i].rows <= |file|
      ensures Increasing(file[runs[lo..hi][i].start..runs[lo..hi][i].start + runs[lo..hi][i].rows])
    {
      assert RunIn(runs, file, lo + i);
    }
    FlatSlices(runs, file, lo, hi);
    assert GroupRows(file, runs[lo..hi]) == Slices(runs, file, lo, hi);
  }

  lemma {:induction false} OffsetPrefix(runs: seq<Run>, run: Run, i: nat)
    requires i <= |runs|
    ensures Offset(runs + [run], i) == Offset(runs, i)
  {
    if i > 0 {
      OffsetPrefix(runs, run, i - 1);
    }
  }

  lemma TilesAppend(runs: seq<Run>, file: seq<Row>, merged: seq<Row>)
    requires Tiles(runs, file) && Increasing(merged)
    ensures Tiles(runs + [Run(|file|, |merged|)], file + merged)
  {
    hide Increasing;
    var run := Run(|file|, |merged|);
    var runs', file' := runs + [run], file + merged;
    OffsetPrefix(runs, run, |runs|);
    forall i | 0 <= i < |runs'| ensures RunIn(runs', file', i) {
      OffsetPrefix(runs, run, if i < |runs| then i else |runs|);
      if i < |runs| {
        assert RunIn(runs, file, i);
        assert file'[runs[i].start..runs[i].start + runs[i].rows] == file[runs[i].start..runs[i].start + runs[i].rows];
      } else {
        assert file'[run.start..run.start + run.rows] == merged;
      }
    }
  }

  function Groups(runs: nat): nat {
    (runs + FAN_IN - 1) / FAN_IN
  }

  /** One pass: at most 32 runs become one, the rows are rearranged, and the new runs tile the output. */
  method MergePass(file: seq<Row>, runs: seq<Run>, channel: nat)
    returns (r: Result<(seq<Row>, seq<Run>), SequenceError>)
    requires Tiles(runs, file) && |file| <= MAX_U64
    ensures r.Ok? ==>
      Tiles(r.value.1, r.value.0) && multiset(r.value.0) == multiset(file) && |r.value.1| == Groups(|runs|)
    ensures r.Err? ==>
      && r.error.AmbiguousSequence? && r.error.channel == channel
      && Repeats(file, r.error.sequence) && !DistinctSequences(file)
  {
    hide Repeats, Tiles, Increasing, DistinctSequences, GroupIn, GroupRows, Flat;
    var output: seq<Row>, result: seq<Run> := [], [];
    var lo := 0;
    EmptyTiles();
    StretchEnds(runs, file);
    while lo < |runs|
      invariant lo <= |runs| && (lo == FAN_IN * |result| || (lo == |runs| && |result| == Groups(|runs|)))
      invariant Offset(runs, lo) <= |file| && multiset(output) == multiset(file[..Offset(runs, lo)])
      invariant |output| == Offset(runs, lo)
      invariant Tiles(result, output)
    {
      var hi := if lo + FAN_IN < |runs| then lo + FAN_IN else |runs|;
      GroupStretch(runs, file, lo, hi);
      var merged := MergeGroup(file, runs[lo..hi], channel, |output|);
      match merged {
        case Err(error) =>
          PartRepeats(file, Offset(runs, lo), Offset(runs, hi), error.sequence);
          return Err(error);
        case Ok(rows) =>
          assert file[..Offset(runs, hi)] == file[..Offset(runs, lo)] + file[Offset(runs, lo)..Offset(runs, hi)];
          SameLength(rows, file[Offset(runs, lo)..Offset(runs, hi)]);
          TilesAppend(result, output, rows);
          result := result + [Run(|output|, |rows|)];
          output := output + rows;
      }
      lo := hi;
    }
    assert file[..|file|] == file;
    return Ok((output, result));
  }

  lemma SameLength(a: seq<Row>, b: seq<Row>)
    requires multiset(a) == multiset(b)
    ensures |a| == |b|
  {
    assert |multiset(a)| == |a| && |multiset(b)| == |b|;
  }

  lemma EmptyTiles()
    ensures Tiles([], [])
  {}

  lemma StretchEnds(runs: seq<Run>, file: seq<Row>)
    requires Tiles(runs, file)
    ensures Offset(runs, |runs|) == |file|
  {}

  // ----- natural runs of the written stream, and the whole repair -----

  /** `starts` are the places where the stream does not continue its run. */
  ghost predicate NaturalStarts(starts: seq<nat>, observed: seq<nat>) {
    && (forall i, j | 0 <= i < j < |starts| :: starts[i] < starts[j])
    && (forall i | 0 <= i < |starts| :: starts[i] < |observed|)
    && (forall p | 0 <= p < |observed| :: p in starts <==> Breaks(observed, p))
    && (forall p, q | 0 <= p && q == p + 1 < |observed| :: observed[p] != observed[q])
  }

  /** A row breaks the run when there is none before it, or when it falls below its predecessor. */
  ghost predicate Breaks(observed: seq<nat>, p: nat)
    requires p < |observed|
  {
    p == 0 || observed[p] < observed[p - 1]
  }

  function RunEnd(starts: seq<nat>, rows: nat, i: nat): nat
    requires i < |starts|
  {
    if i + 1 < |starts| then starts[i + 1] else rows
  }

  /** Inside a run every row exceeds its predecessor. */
  lemma {:induction false} RunIncreases(starts: seq<nat>, file: seq<Row>, observed: seq<nat>, i: nat, lo: nat, hi: nat)
    requires NaturalStarts(starts, observed) && Sequences(file, observed) && i < |starts|
    requires starts[i] <= lo < hi < RunEnd(starts, |file|, i)
    ensures hi < |file| && file[lo].sequence < file[hi].sequence
    decreases hi - lo
  {
    if i + 1 < |starts| {
      assert starts[i + 1] < |observed|;
    }
    NotAStart(starts, observed, i, hi);
    assert !Breaks(observed, hi) && observed[hi - 1] != observed[hi];
    if lo < hi - 1 {
      RunIncreases(starts, file, observed, i, lo, hi - 1);
    }
  }

  lemma NotAStart(starts: seq<nat>, observed: seq<nat>, i: nat, p: nat)
    requires NaturalStarts(starts, observed) && i < |starts| && starts[i] < p < RunEnd(starts, |observed|, i)
    ensures p !in starts
  {
    forall k | 0 <= k < |starts| ensures starts[k] != p {
      if k < i {
        assert starts[k] < starts[i];
      } else if k > i + 1 {
        assert starts[i + 1] < starts[k];
      }
    }
  }

  ghost predicate Sequences(file: seq<Row>, observed: seq<nat>) {
    |file| == |observed| && forall i | 0 <= i < |file| :: file[i].sequence == observed[i]
  }

  function InitialRuns(starts: seq<nat>, rows: nat): seq<Run>
    requires forall i | 0 <= i < |starts| :: starts[i] <= RunEnd(starts, rows, i)
  {
    seq(|starts|, i requires 0 <= i < |starts| => Run(starts[i], RunEnd(starts, rows, i) - starts[i]))
  }

  lemma StartsOrdered(starts: seq<nat>, observed: seq<nat>)
    requires NaturalStarts(starts, observed)
    ensures forall i | 0 <= i < |starts| :: starts[i] <= RunEnd(starts, |observed|, i) <= |observed|
    ensures starts == [] <==> observed == []
    ensures starts != [] ==> starts[0] == 0
  {
    assert starts != [] ==> starts[0] < |observed|;
    if observed != [] {
      assert Breaks(observed, 0);
      assert 0 in starts;
      var k :| 0 <= k < |starts| && starts[k] == 0;
      if k > 0 {
        assert starts[0] < starts[k];
      }
    }
  }

  lemma {:induction false} InitialOffset(starts: seq<nat>, observed: seq<nat>, i: nat)
    requires NaturalStarts(starts, observed) && i <= |starts| && starts != []
    requires forall k | 0 <= k < |starts| :: starts[k] <= RunEnd(starts, |observed|, k)
    ensures Offset(InitialRuns(starts, |observed|), i) == if i < |starts| then starts[i] else |observed|
  {
    StartsOrdered(starts, observed);
    if i > 0 {
      InitialOffset(starts, observed, i - 1);
    }
  }

  /** The recorded starts cut the written stream into strictly increasing runs. */
  lemma InitialTiles(starts: seq<nat>, file: seq<Row>, observed: seq<nat>)
    requires NaturalStarts(starts, observed) && Sequences(file, observed)
    ensures forall i | 0 <= i < |starts| :: starts[i] <= RunEnd(starts, |file|, i)
    ensures Tiles(InitialRuns(starts, |file|), file)
  {
    StartsOrdered(starts, observed);
    var runs := InitialRuns(starts, |file|);
    if starts != [] {
      InitialOffset(starts, observed, |starts|);
    }
    forall i | 0 <= i < |runs| ensures RunIn(runs, file, i) {
      InitialOffset(starts, observed, i);
      InitialRunIncreases(starts, file, observed, i);
    }
  }

  lemma InitialRunIncreases(starts: seq<nat>, file: seq<Row>, observed: seq<nat>, i: nat)
    requires NaturalStarts(starts, observed) && Sequences(file, observed) && i < |starts|
    requires starts[i] <= RunEnd(starts, |file|, i) <= |file|
    ensures Increasing(file[starts[i]..RunEnd(starts, |file|, i)])
  {
    var run := file[starts[i]..RunEnd(starts, |file|, i)];
    forall a, b | 0 <= a < b < |run| ensures run[a].sequence < run[b].sequence {
      RunIncreases(starts, file, observed, i, starts[i] + a, starts[i] + b);
    }
  }

  lemma OneRunIncreases(runs: seq<Run>, file: seq<Row>)
    requires Tiles(runs, file) && |runs| <= 1
    ensures Increasing(file)
  {
    if |runs| == 1 {
      assert RunIn(runs, file, 0);
      assert Offset(runs, 1) == Offset(runs, 0) + runs[0].rows;
      assert file[0..|file|] == file;
    }
  }

  // ----- how many passes -----

  function Power(k: nat): nat {
    if k == 0 then 1 else 32 * Power(k - 1)
  }

  /** How many runs are left after `k` passes. */
  function RunsAfter(runs: nat, k: nat): nat {
    if k == 0 then runs else Groups(RunsAfter(runs, k - 1))
  }

  lemma {:induction false} RunsAfterBound(runs: nat, k: nat, m: nat)
    ensures RunsAfter(runs, k) <= m <==> runs <= m * Power(k)
    decreases k
  {
    if k > 0 {
      RunsAfterBound(runs, k - 1, FAN_IN * m);
      assert (FAN_IN * m) * Power(k - 1) == m * (FAN_IN * Power(k - 1)) by { Regroup(FAN_IN, m, Power(k - 1)); }
    }
  }

  lemma Regroup(a: nat, b: nat, c: nat)
    ensures (a * b) * c == b * (a * c)
  {}

  class NaturalRuns {
    var last: Option<nat>
    var rows: nat
    var starts: seq<nat>
    /** The sequences that were accepted so far. */
    ghost var observed: seq<nat>

    ghost predicate Valid()
      reads this
    {
      && rows == |observed| <= MAX_U64
      && last == (if observed == [] then None else Some(observed[|observed| - 1]))
      && NaturalStarts(starts, observed)
    }

    constructor ()
      ensures Valid() && observed == []
    {
      last, rows, starts, observed := None, 0, [], [];
    }

    /** A repeated sequence is refused; otherwise the row continues the run or starts a new one. */
    method Observe(channel: nat, sequence: nat) returns (r: Result<(), SequenceError>)
      requires Valid()
      modifies this
      ensures old(last) == Some(sequence) ==> r == Err(AmbiguousSequence(channel, sequence)) && unchanged(this)
      ensures old(last) != Some(sequence) && old(rows) == MAX_U64 ==> r == Err(Arithmetic)
      ensures old(last) != Some(sequence) && old(rows) < MAX_U64 ==>
        r == Ok(()) && Valid() && observed == old(observed) + [sequence]
    {
      hide NaturalStarts;
      if last == Some(sequence) {
        return Err(AmbiguousSequence(channel, sequence));
      }
      StartsOrdered(starts, observed);
      if last.None? || sequence < last.value {
        starts := starts + [rows];
      }
      last := Some(sequence);
      if rows + 1 > MAX_U64 {
        return Err(Arithmetic);
      }
      rows := rows + 1;
      observed := observed + [sequence];
      ObservedStarts(old(starts), old(observed), sequence);
      return Ok(());
    }

    /** The repair of the written rows: it succeeds exactly when no sequence occurs twice, it delivers
        the same rows in strictly increasing order, and it takes no more passes than needed. */
    method Repair(file: seq<Row>, channel: nat) returns (r: Result<Option<(seq<Row>, SequenceRepair)>, SequenceError>)
      requires Valid() && Sequences(file, observed)
      ensures r.Ok? <==> DistinctSequences(file)
      ensures r.Err? ==>
        r.error.AmbiguousSequence? && r.error.channel == channel && Repeats(file, r.error.sequence)
      ensures r.Ok? && r.value.None? ==> |starts| <= 1 && Increasing(file)
      ensures r.Ok? && r.value.Some? ==>
        var (output, report) := r.value.value;
        && |starts| > 1 && Increasing(output) && multiset(output) == multiset(file)
        && report.channel == channel && report.rows == |file| && report.naturalRuns == |starts|
        && report.mergePasses > 0 && Power(report.mergePasses - 1) < |starts| <= Power(report.mergePasses)
    {
      hide Tiles, Increasing, DistinctSequences, NaturalStarts, Repeats;
      InitialTiles(starts, file, observed);
      if |starts| <= 1 {
        OneRunIncreases(InitialRuns(starts, |file|), file);
        IncreasingDistinct(file);
        return Ok(None);
      }
      var runs := InitialRuns(starts, rows);
      var input := file;
      var passes := 0;
      while |runs| > 1
        invariant Tiles(runs, input) && multiset(input) == multiset(file) && |input| == |file|
        invariant |runs| == RunsAfter(|starts|, passes)
        invariant passes > 0 ==> RunsAfter(|starts|, passes - 1) > 1
        decreases |runs|
      {
        var merged := MergePass(input, runs, channel);
        match merged {
          case Err(error) =>
            PermutationRepeats(file, input, error.sequence);
            return Err(error);
          case Ok(next) =>
            SameLength(next.0, input);
            input, runs := next.0, next.1;
        }
        passes := passes + 1;
      }
      RunsAfterBound(|starts|, passes, 1);
      RunsAfterBound(|starts|, passes - 1, 1);
      OneRunIncreases(runs, input);
      IncreasingDistinct(input);
      PermutationDistinct(input, file);
      return Ok(Some((input, SequenceRepair(channel, rows, |starts|, passes))));
    }
  }

  lemma IncreasingDistinct(rows: seq<Row>)
    requires Increasing(rows)
    ensures DistinctSequences(rows)
  {}

  lemma ObservedStarts(starts: seq<nat>, observed: seq<nat>, sequence: nat)
    requires NaturalStarts(starts, observed)
    requires observed != [] ==> observed[|observed| - 1] != sequence
    ensures NaturalStarts(
      if observed == [] || sequence < observed[|observed| - 1] then starts + [|observed|] else starts,
        observed + [sequence])
  {
    var observed' := observed + [sequence];
    var starts' := if observed == [] || sequence < observed[|observed| - 1] then starts + [|observed|] else starts;
    forall p | 0 <= p < |observed'| ensures p in starts' <==> Breaks(observed', p) {
      if p < |observed| {
        assert Breaks(observed', p) == Breaks(observed, p);
        assert p in starts' <==> p in starts;
      } else {
        assert p !in starts;
      }
    }
  }
}
