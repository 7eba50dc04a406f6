/**
  The process-tree search of screen capture (src/screen-capture-utils.js): breadth first over
  a table of (pid, parent pid) rows.  The table is whatever the system listed; it may repeat
  rows and its parent links may form cycles.
 */
module ProcessTree {

  datatype Row = Row(pid: nat, ppid: nat)

  /** Each pid of a chain is the parent of the next. */
  ghost predicate Chain(rows: seq<Row>, path: seq<nat>) {
    forall i :: 0 < i < |path| ==> Row(path[i], path[i - 1]) in rows
  }

  ghost predicate ChainFrom(rows: seq<Row>, root: nat, path: seq<nat>, pid: nat) {
    path != [] && path[0] == root && path[|path| - 1] == pid && Chain(rows, path)
  }

  ghost predicate Reachable(rows: seq<Row>, root: nat, pid: nat) {
    exists path :: ChainFrom(rows, root, path, pid)
  }

  ghost predicate Distinct(s: seq<nat>) { forall i, j :: 0 <= i < j < |s| ==> s[i] != s[j] }

  /** Every child of the first `n` pids is in the list. */
  ghost predicate Closed(rows: seq<Row>, seen: seq<nat>, n: nat) {
    forall r :: r in rows && r.ppid in seen[..if n < |seen| then n else |seen|] ==> r.pid in seen
  }

  lemma RootReachable(rows: seq<Row>, root: nat)
    ensures Reachable(rows, root, root)
  {
    assert ChainFrom(rows, root, [root], root);
  }

  lemma ChildReachable(rows: seq<Row>, root: nat, row: Row)
    requires row in rows && Reachable(rows, root, row.ppid)
    ensures Reachable(rows, root, row.pid)
  {
    var path :| ChainFrom(rows, root, path, row.ppid);
    assert ChainFrom(rows, root, path + [row.pid], row.pid);
  }

  /** A list that holds the root and all children of its members holds all that is reachable. */
  lemma {:induction false} ClosedHoldsChain(rows: seq<Row>, seen: seq<nat>, root: nat, path: seq<nat>, pid: nat)
    requires root in seen && Closed(rows, seen, |seen|) && ChainFrom(rows, root, path, pid)
    ensures pid in seen
    decreases |path|
  {
    if |path| > 1 {
      var n := |path| - 1;
      assert ChainFrom(rows, root, path[..n], path[n - 1]);
      ClosedHoldsChain(rows, seen, root, path[..n], path[n - 1]);
      assert seen[..|seen|] == seen;
      assert Row(pid, path[n - 1]) in rows;
    }
  }

  function Pids(rows: seq<Row>, root: nat): set<nat> { {root} + set r | r in rows :: r.pid }

  lemma {:induction false} DistinctFits(s: seq<nat>, all: set<nat>)
    requires Distinct(s) && forall x :: x in s ==> x in all
    ensures |s| <= |all|
  {
    if s != [] {
      var last := s[|s| - 1];
      DistinctFits(s[..|s| - 1], all - {last});
    }
  }

  /** What the search keeps: `head` pids have been taken from the queue, which is the rest. */
  ghost predicate Searching(rows: seq<Row>, root: nat, seen: seq<nat>) {
    && seen != [] && seen[0] == root && Distinct(seen)
    && (forall x :: x in seen ==> Reachable(rows, root, x) && x in Pids(rows, root))
  }

  /** The inner loop: the children of one parent that have not been seen are added. */
  method AddChildren(rows: seq<Row>, root: nat, parent: nat, before: seq<nat>, waiting: seq<nat>)
    returns (seen: seq<nat>, queue: seq<nat>)
    requires Searching(rows, root, before) && parent in before
    ensures Searching(rows, root, seen) && before <= seen
    ensures queue == waiting + seen[|before|..]
    ensures forall r :: r in rows && r.ppid == parent ==> r.pid in seen
  {
    seen, queue := before, waiting;
    for k := 0 to |rows|
      invariant Searching(rows, root, seen) && before <= seen
      invariant queue == waiting + seen[|before|..]
      invariant forall j :: 0 <= j < k && rows[j].ppid == parent ==> rows[j].pid in seen
    {
      var row := rows[k];
      if row.ppid == parent && row.pid !in seen {
        assert row in rows;
        ChildReachable(rows, root, row);
        seen := seen + [row.pid];
        queue := queue + [row.pid];
      }
    }
  }

  /** The search ends on every table and returns, without repetition and the root first, exactly
      the pids reachable from the root. */
  method CollectProcessTreePids(rows: seq<Row>, root: nat) returns (seen: seq<nat>)
    ensures seen != [] && seen[0] == root && Distinct(seen)
    ensures forall pid :: pid in seen <==> Reachable(rows, root, pid)
  {
    seen := [root];
    var queue := [root];
    ghost var head := 0;
    RootReachable(rows, root);
    while |queue| > 0
      invariant Searching(rows, root, seen)
      invariant head <= |seen| <= |Pids(rows, root)| && queue == seen[head..]
      invariant Closed(rows, seen, head)
      decreases |Pids(rows, root)| - head
    {
      var parent := queue[0];
      ghost var before := seen;
      seen, queue := AddChildren(rows, root, parent, seen, queue[1..]);
      DistinctFits(seen, Pids(rows, root));
      assert queue == seen[head + 1..];
      ClosedGrows(rows, before, seen, head);
      head := head + 1;
    }
    assert seen[..|seen|] == seen;
    forall pid | Reachable(rows, root, pid) ensures pid in seen {
      var path :| ChainFrom(rows, root, path, pid);
      ClosedHoldsChain(rows, seen, root, path, pid);
    }
  }

  lemma ClosedGrows(rows: seq<Row>, before: seq<nat>, after: seq<nat>, head: nat)
    requires Closed(rows, before, head) && head < |before| && before <= after
    requires forall r :: r in rows && r.ppid == before[head] ==> r.pid in after
    ensures Closed(rows, after, head + 1)
  {
    assert after[..head + 1] == before[..head] + [before[head]];
  }
}
