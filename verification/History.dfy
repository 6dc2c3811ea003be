/** Location history: per-target retention of the most recent points, and interval thinning of query results. */
module History {
  import opened Timestamps

  const MAX_POINTS: nat := 20
  const MAX_SCAN: nat := 10000

  datatype Target = Target(kind: string, value: string)

  /** A location_history row: recordedAt is the stored text. */
  datatype Row = Row(target: Target, recordedAt: string, shape: string)

  // ---- the most recent k of a multiset of keys ----------------------------------------------

  /** No key left out of top is above a key in it. */
  ghost predicate Above(top: multiset<string>, all: multiset<string>) {
    top <= all && forall x, y :: x in top && y in all - top ==> TextLeq(y, x)
  }

  /** top holds the k largest keys of all (all of them when there are fewer). */
  ghost predicate IsTop(top: multiset<string>, all: multiset<string>, k: nat) {
    Above(top, all) && |top| == (if |all| < k then |all| else k)
  }

  lemma EqualSizeSubsets(s: multiset<string>, t: multiset<string>)
    requires s <= t && |s| == |t|
    ensures s == t
  {
    assert t == s + (t - s);
    assert |t - s| == 0;
  }

  /** The k largest keys are unique as a multiset, however ties are broken. */
  lemma TopUnique(s: multiset<string>, t: multiset<string>, all: multiset<string>, k: nat)
    requires IsTop(s, all, k) && IsTop(t, all, k)
    ensures s == t
  {
    if s <= t {
      EqualSizeSubsets(s, t);
    } else if t <= s {
      EqualSizeSubsets(t, s);
    } else {
      var a :| a in s && s[a] > t[a];
      var b :| b in t && t[b] > s[b];
      assert a in all - t && b in all - s;
      TextTotal(a, b);
      assert false;
    }
  }

  /** Inserting into the retained keys and pruning again is pruning the whole history. */
  lemma TopIncremental(top: multiset<string>, all: multiset<string>, x: string, top': multiset<string>, k: nat)
    requires IsTop(top, all, k) && IsTop(top', top + multiset{x}, k)
    ensures IsTop(top', all + multiset{x}, k)
  {
    if |all| <= k { EqualSizeSubsets(top, all); }
    forall p, y | p in top' && y in all + multiset{x} - top' ensures TextLeq(y, p) {
      if y !in top + multiset{x} - top' {
        assert y in all - top;
        if p !in top {
          var z := Dropped(top, x, top', k);
          TextTransitive(y, z, p);
        }
      }
    }
  }

  /** A full history drops some key, and drops x only if x was not kept. */
  lemma Dropped(top: multiset<string>, x: string, top': multiset<string>, k: nat) returns (z: string)
    requires |top| == k && IsTop(top', top + multiset{x}, k) && x in top' && x !in top
    ensures z in top && z in top + multiset{x} - top'
  {
    var rest := top + multiset{x} - top';
    assert top + multiset{x} == top' + rest;
    assert |rest| == 1;
    z :| z in rest;
  }

  // ---- the table ----------------------------------------------------------------------------

  function Key(row: Row, t: Target): seq<string> {
    if row.target == t then [row.recordedAt] else []
  }

  /** The recorded_at keys of one target, in table order. */
  function KeyList(rows: seq<Row>, t: Target): seq<string> {
    if rows == [] then [] else Key(rows[0], t) + KeyList(rows[1..], t)
  }

  function Keys(rows: seq<Row>, t: Target): multiset<string> {
    multiset(KeyList(rows, t))
  }

  function Other(row: Row, t: Target): seq<Row> {
    if row.target == t then [] else [row]
  }

  /** The rows of all other targets, in table order. */
  function Others(rows: seq<Row>, t: Target): seq<Row> {
    if rows == [] then [] else Other(rows[0], t) + Others(rows[1..], t)
  }

  lemma KeysSplit(a: seq<Row>, b: seq<Row>, t: Target)
    ensures Keys(a + b, t) == Keys(a, t) + Keys(b, t)
  {
    KeyListSplit(a, b, t);
  }

  lemma {:induction false} KeyListSplit(a: seq<Row>, b: seq<Row>, t: Target)
    ensures KeyList(a + b, t) == KeyList(a, t) + KeyList(b, t)
  {
    if a == [] {
      assert a + b == b;
    } else {
      KeyListSplit(a[1..], b, t);
      assert (a + b)[1..] == a[1..] + b && (a + b)[0] == a[0];
      assert Key(a[0], t) + (KeyList(a[1..], t) + KeyList(b, t)) == Key(a[0], t) + KeyList(a[1..], t) + KeyList(b, t);
    }
  }

  lemma {:induction false} OthersSplit(a: seq<Row>, b: seq<Row>, t: Target)
    ensures Others(a + b, t) == Others(a, t) + Others(b, t)
  {
    if a == [] {
      assert a + b == b;
    } else {
      OthersSplit(a[1..], b, t);
      assert (a + b)[1..] == a[1..] + b && (a + b)[0] == a[0];
      assert Other(a[0], t) + (Others(a[1..], t) + Others(b, t)) == Other(a[0], t) + Others(a[1..], t) + Others(b, t);
    }
  }

  lemma OneRow(row: Row, t: Target)
    ensures Keys([row], t) == multiset(Key(row, t)) && Others([row], t) == Other(row, t)
  {
    assert KeyList([row], t) == Key(row, t);
    assert [row][1..] == [];
  }

  lemma {:induction false} OthersKeepKeys(rows: seq<Row>, t: Target, u: Target)
    requires t != u
    ensures Keys(Others(rows, t), u) == Keys(rows, u)
  {
    if rows != [] {
      OthersKeepKeys(rows[1..], t, u);
      KeysSplit(Other(rows[0], t), Others(rows[1..], t), u);
      OneRow(rows[0], u);
    }
  }

  lemma CutKeys(p: seq<Row>, x: Row, q: seq<Row>)
    ensures Keys(p + [x] + q, x.target) == Keys(p + q, x.target) + multiset{x.recordedAt}
  {
    KeysSplit(p + [x], q, x.target);
    KeysSplit(p, [x], x.target);
    KeysSplit(p, q, x.target);
    OneRow(x, x.target);
    var kp, kx, kq := Keys(p, x.target), multiset{x.recordedAt}, Keys(q, x.target);
    assert kp + kx + kq == kp + kq + kx;
  }

  lemma CutOthers(p: seq<Row>, x: Row, q: seq<Row>)
    ensures Others(p + [x] + q, x.target) == Others(p + q, x.target)
  {
    OthersSplit(p + [x], q, x.target);
    OthersSplit(p, [x], x.target);
    OthersSplit(p, q, x.target);
    OneRow(x, x.target);
  }

  /** What one RecordHistory call does: the target keeps its most recent points, other targets are untouched. */
  ghost predicate Recorded(rows: seq<Row>, row: Row, rows': seq<Row>) {
    && IsTop(Keys(rows', row.target), Keys(rows, row.target) + multiset{row.recordedAt}, MAX_POINTS)
    && Others(rows', row.target) == Others(rows, row.target)
    && multiset(rows') <= multiset(rows) + multiset{row}
  }

  class HistoryTable {
    var rows: seq<Row>

    constructor ()
      ensures rows == []
    {
      rows := [];
    }

    /** Insert, then delete everything but the most recent MAX_POINTS rows of the target. */
    method RecordHistory(row: Row)
      modifies this
      ensures Recorded(old(rows), row, rows)
    {
      ghost var all := Keys(rows, row.target) + multiset{row.recordedAt};
      KeysSplit(rows, [row], row.target);
      OthersSplit(rows, [row], row.target);
      OneRow(row, row.target);
      rows := rows + [row];
      assert multiset(rows) == multiset(old(rows)) + multiset{row};
      var count := CountOf(row.target);
      while count > MAX_POINTS
        invariant count == |Keys(rows, row.target)|
        invariant Above(Keys(rows, row.target), all) && (count < |all| ==> count >= MAX_POINTS)
        invariant Others(rows, row.target) == Others(old(rows), row.target)
        invariant multiset(rows) <= multiset(old(rows)) + multiset{row}
      {
        DropOldest(row.target, all);
        count := count - 1;
      }
    }

    method DropOldest(t: Target, ghost all: multiset<string>)
      requires Above(Keys(rows, t), all) && |Keys(rows, t)| > 0
      modifies this
      ensures Above(Keys(rows, t), all) && |Keys(rows, t)| == |old(Keys(rows, t))| - 1
      ensures Others(rows, t) == old(Others(rows, t)) && multiset(rows) <= old(multiset(rows))
    {
      var i := Oldest(t);
      assert rows == rows[..i] + [rows[i]] + rows[i + 1..];
      PruneOldest(rows[..i], rows[i], rows[i + 1..], all);
      rows := rows[..i] + rows[i + 1..];
    }

    method CountOf(t: Target) returns (n: nat)
      ensures n == |Keys(rows, t)|
    {
      n := 0;
      for k := 0 to |rows|
        invariant n == |Keys(rows[..k], t)|
      {
        KeysNext(rows, k, t);
        if rows[k].target == t { n := n + 1; }
      }
      assert rows[..|rows|] == rows;
    }

    /** Some row of t with the least key; ties are broken arbitrarily by ORDER BY. */
    method Oldest(t: Target) returns (i: nat)
      requires |Keys(rows, t)| > 0
      ensures i < |rows| && rows[i].target == t
      ensures forall y :: y in Keys(rows, t) ==> TextLeq(rows[i].recordedAt, y)
    {
      var best: int := -1;
      for k := 0 to |rows|
        invariant LeastSoFar(rows, k, best, t)
      {
        LeastNext(rows, k, best, t);
        if rows[k].target == t && (best < 0 || TextLess(rows[k].recordedAt, rows[best].recordedAt)) {
          best := k;
        }
      }
      assert rows[..|rows|] == rows;
      i := best;
    }
  }

  /** rows[best] is a row of t with the least key of the first k rows; best is -1 if there is none. */
  ghost predicate LeastSoFar(rows: seq<Row>, k: nat, best: int, t: Target) {
    && -1 <= best < k <= |rows| && (best == -1 ==> Keys(rows[..k], t) == multiset{})
    && (best >= 0 ==>
          rows[best].target == t && forall y :: y in Keys(rows[..k], t) ==> TextLeq(rows[best].recordedAt, y))
  }

  lemma LeastNext(rows: seq<Row>, k: nat, best: int, t: Target)
    requires k < |rows| && LeastSoFar(rows, k, best, t)
    ensures var better := rows[k].target == t && (best < 0 || TextLess(rows[k].recordedAt, rows[best].recordedAt));
            LeastSoFar(rows, k + 1, if better then k else best, t)
  {
    KeysNext(rows, k, t);
    if rows[k].target == t {
      if best < 0 || TextLess(rows[k].recordedAt, rows[best].recordedAt) {
        BetterKey(rows, k, best, t);
      } else {
        TextTotal(rows[k].recordedAt, rows[best].recordedAt);
      }
    }
  }

  lemma KeysNext(rows: seq<Row>, k: nat, t: Target)
    requires k < |rows|
    ensures Keys(rows[..k + 1], t) == Keys(rows[..k], t) + multiset(Key(rows[k], t))
  {
    assert rows[..k + 1] == rows[..k] + [rows[k]];
    KeysSplit(rows[..k], [rows[k]], t);
    OneRow(rows[k], t);
  }

  lemma BetterKey(rows: seq<Row>, k: nat, best: int, t: Target)
    requires -1 <= best < k < |rows| && (best == -1 ==> Keys(rows[..k], t) == multiset{})
    requires best >= 0 ==> TextLess(rows[k].recordedAt, rows[best].recordedAt)
    requires best >= 0 ==> forall y :: y in Keys(rows[..k], t) ==> TextLeq(rows[best].recordedAt, y)
    ensures forall y :: y in Keys(rows[..k], t) ==> TextLeq(rows[k].recordedAt, y)
  {
    forall y | y in Keys(rows[..k], t) ensures TextLeq(rows[k].recordedAt, y) {
      TextTransitive(rows[k].recordedAt, rows[best].recordedAt, y);
    }
  }

  /** Dropping a least key keeps the rest on top. */
  lemma PruneKeys(before: multiset<string>, least: string, after: multiset<string>, all: multiset<string>)
    requires before == after + multiset{least} && Above(before, all)
    requires forall y :: y in before ==> TextLeq(least, y)
    ensures Above(after, all) && |after| == |before| - 1
  {
  }

  lemma PruneOldest(p: seq<Row>, x: Row, q: seq<Row>, all: multiset<string>)
    requires Above(Keys(p + [x] + q, x.target), all)
    requires forall y :: y in Keys(p + [x] + q, x.target) ==> TextLeq(x.recordedAt, y)
    ensures Above(Keys(p + q, x.target), all) && |Keys(p + q, x.target)| == |Keys(p + [x] + q, x.target)| - 1
    ensures Others(p + q, x.target) == Others(p + [x] + q, x.target)
    ensures multiset(p + q) <= multiset(p + [x] + q)
  {
    CutKeys(p, x, q);
    CutOthers(p, x, q);
    PruneKeys(Keys(p + [x] + q, x.target), x.recordedAt, Keys(p + q, x.target), all);
  }

  // ---- any sequence of calls ----------------------------------------------------------------

  /** states[n+1] is a possible table after recording calls[n] in states[n]. */
  ghost predicate Chain(states: seq<seq<Row>>, calls: seq<Row>) {
    && |states| == |calls| + 1 && states[0] == []
    && forall n :: 0 <= n < |calls| ==> Recorded(states[n], calls[n], states[n + 1])
  }

  /**
    Theorem: after any sequence of recordings, over any targets and however ties were broken, each target
    holds exactly the 20 largest keys of everything ever recorded for it.
   */
  lemma {:induction false} IncrementalIsBatch(states: seq<seq<Row>>, calls: seq<Row>, t: Target)
    requires Chain(states, calls)
    ensures IsTop(Keys(states[|calls|], t), Keys(calls, t), 20)
    decreases |calls|
  {
    var n := |calls|;
    if n == 0 {
      assert calls == [];
    } else {
      var init, call := calls[..n - 1], calls[n - 1];
      assert Chain(states[..n], init);
      IncrementalIsBatch(states[..n], init, t);
      assert calls == init + [call];
      KeysSplit(init, [call], t);
      OneRow(call, t);
      assert Recorded(states[n - 1], call, states[n]);
      if call.target == t {
        TopIncremental(Keys(states[n - 1], t), Keys(init, t), call.recordedAt, Keys(states[n], t), MAX_POINTS);
      } else {
        OthersKeepKeys(states[n - 1], call.target, t);
        OthersKeepKeys(states[n], call.target, t);
      }
    }
  }

  /**
    Theorem: once twenty points have been recorded for a target it holds twenty, and none it dropped was
    recorded in a later second than one it kept.
   */
  lemma KeptAreLatest(states: seq<seq<Row>>, calls: seq<Row>, t: Target, kept: Instant, dropped: Instant)
    requires Chain(states, calls) && Valid(kept) && Valid(dropped)
    ensures |Keys(calls, t)| >= 20 ==> |Keys(states[|calls|], t)| == 20
    ensures Utc(kept) in Keys(states[|calls|], t) && Utc(dropped) in Keys(calls, t) - Keys(states[|calls|], t) ==>
              Seconds(dropped) <= Seconds(kept)
  {
    IncrementalIsBatch(states, calls, t);
    if Seconds(dropped) > Seconds(kept) {
      LaterSecondNotReached(dropped, kept);
    }
  }

  // ---- the query ----------------------------------------------------------------------------

  /** WHERE target_kind=? AND target_value=? AND recorded_at>=? AND recorded_at<=? */
  predicate Matches(row: Row, t: Target, start: string, stop: string) {
    row.target == t && TextLeq(start, row.recordedAt) && TextLeq(row.recordedAt, stop)
  }

  /** Theorem: by the second, a query selects the target's points from start to stop, both included. */
  lemma MatchesBySecond(row: Row, t: Target, at: Instant, start: Instant, stop: Instant)
    requires Valid(at) && Valid(start) && Valid(stop) && row.recordedAt == Utc(at)
    ensures Matches(row, t, Utc(start), Utc(stop)) ==>
              row.target == t && Seconds(start) <= Seconds(at) <= Seconds(stop)
    ensures row.target == t && (at == start || Seconds(start) < Seconds(at))
            && (at == stop || Seconds(at) < Seconds(stop)) ==>
              Matches(row, t, Utc(start), Utc(stop))
  {
    if Seconds(at) < Seconds(start) { LaterSecondNotReached(start, at); }
    if Seconds(stop) < Seconds(at) { LaterSecondNotReached(at, stop); }
    if Seconds(start) < Seconds(at) { TextOrderAcrossSeconds(start, at); }
    if Seconds(at) < Seconds(stop) { TextOrderAcrossSeconds(at, stop); }
  }

  function Matching(rows: seq<Row>, t: Target, start: string, stop: string): seq<Row> {
    if rows == [] then []
    else (if Matches(rows[0], t, start, stop) then [rows[0]] else []) + Matching(rows[1..], t, start, stop)
  }

  /** All matching rows ORDER BY recorded_at, ties in any order. */
  ghost predicate Listing(rows: seq<Row>, t: Target, start: string, stop: string, full: seq<Row>) {
    && multiset(full) == multiset(Matching(rows, t, start, stop))
    && forall i, j :: 0 <= i < j < |full| ==> TextLeq(full[i].recordedAt, full[j].recordedAt)
  }

  /** The rows the query fetches: the first maxScan of such a listing. */
  ghost predicate Fetches(rows: seq<Row>, t: Target, start: string, stop: string, out: seq<Row>) {
    exists full :: Listing(rows, t, start, stop, full) && out == if |full| <= MAX_SCAN then full else full[..MAX_SCAN]
  }

  lemma {:induction false} MatchingWithinKeys(rows: seq<Row>, t: Target, start: string, stop: string)
    ensures |Matching(rows, t, start, stop)| <= |Keys(rows, t)|
  {
    if rows != [] {
      MatchingWithinKeys(rows[1..], t, start, stop);
    }
  }

  /**
    Theorem: whatever was recorded before, what a query fetches under its scan cap is what it would fetch
    without one: every matching row, in order of recording.
   */
  lemma ScanNeverTruncates(states: seq<seq<Row>>, calls: seq<Row>, t: Target, start: string, stop: string,
                           out: seq<Row>)
    requires Chain(states, calls)
    ensures |Keys(states[|calls|], t)| <= 20
    ensures Fetches(states[|calls|], t, start, stop, out) <==> Listing(states[|calls|], t, start, stop, out)
  {
    var rows := states[|calls|];
    IncrementalIsBatch(states, calls, t);
    MatchingWithinKeys(rows, t, start, stop);
    forall full | Listing(rows, t, start, stop, full) ensures |full| <= MAX_SCAN {
      assert |multiset(full)| == |full|;
      assert |multiset(Matching(rows, t, start, stop))| == |Matching(rows, t, start, stop)|;
    }
  }
}
