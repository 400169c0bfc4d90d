/**
 * Which processes belong to the run's Chrome, and the proof that they are gone
 * (bench/windows-capture-798/owned_processes.py).
 */
module OwnedProcesses {
  import opened Common

  /** A row of the process table; `created` is None when its creation date cannot be read. */
  datatype Process = Process(pid: int, parent: int, name: string, created: Option<int>)

  datatype Failure = RootAbsent | Unconfirmed

  type Table = map<int, Process>

  /** The rows by process id; a later row of the same id replaces an earlier one. */
  function ByPid(rows: seq<Process>): Table {
    if rows == [] then map[] else ByPid(rows[..|rows| - 1])[rows[|rows| - 1].pid := rows[|rows| - 1]]
  }

  lemma {:induction false} ByPidKeys(rows: seq<Process>)
    ensures forall pid | pid in ByPid(rows) :: ByPid(rows)[pid].pid == pid && ByPid(rows)[pid] in rows
    ensures forall p | p in rows :: p.pid in ByPid(rows)
  {
    if rows != [] {
      ByPidKeys(rows[..|rows| - 1]);
    }
  }

  // ---- what belongs to the root ----

  predicate Dated(t: Table, pid: int) { pid in t && t[pid].created.Some? }

  /** `child` names `parent` as its parent and is not older than it. */
  predicate Link(t: Table, parent: int, child: int) {
    && Dated(t, parent) && Dated(t, child)
    && t[child].parent == parent && t[child].created.value >= t[parent].created.value
  }

  ghost predicate Chain(t: Table, path: seq<int>) {
    forall i :: 0 <= i < |path| - 1 ==> Link(t, path[i], path[i + 1])
  }

  ghost predicate ChainBetween(t: Table, root: int, pid: int, path: seq<int>) {
    path != [] && path[0] == root && path[|path| - 1] == pid && Dated(t, root) && Chain(t, path)
  }

  /** A chain of parent links leads from the root to `pid`, and creation time never decreases along it. */
  ghost predicate Reachable(t: Table, root: int, pid: int) {
    exists path :: ChainBetween(t, root, pid, path)
  }

  lemma RootReachable(t: Table, root: int)
    requires Dated(t, root)
    ensures Reachable(t, root, root)
  {
    assert ChainBetween(t, root, root, [root]);
  }

  lemma ReachableStep(t: Table, root: int, parent: int, child: int)
    requires Reachable(t, root, parent) && Link(t, parent, child)
    ensures Reachable(t, root, child)
  {
    var path :| ChainBetween(t, root, parent, path);
    assert ChainBetween(t, root, child, path + [child]);
  }

  lemma {:induction false} ClosedHoldsChain(t: Table, closed: set<int>, path: seq<int>)
    requires path != [] && path[0] in closed && Chain(t, path)
    requires forall a, b :: a in closed && Link(t, a, b) ==> b in closed
    ensures path[|path| - 1] in closed
  {
    if |path| > 1 {
      assert Link(t, path[0], path[1]);
      ClosedHoldsChain(t, closed, path[1..]);
    }
  }

  /** No process older than the root is ever taken for one of its descendants, whatever ids were reused. */
  lemma {:induction false} NeverOlderThanRoot(t: Table, path: seq<int>)
    requires path != [] && Dated(t, path[0]) && Chain(t, path)
    ensures Dated(t, path[|path| - 1]) && t[path[|path| - 1]].created.value >= t[path[0]].created.value
  {
    if |path| > 1 {
      assert Link(t, path[0], path[1]);
      NeverOlderThanRoot(t, path[1..]);
    }
  }

  /** The rows whose id is selected, in snapshot order. */
  function RowsIn(snapshot: seq<Process>, selected: set<int>): seq<Process> {
    if snapshot == [] then []
    else
      RowsIn(snapshot[..|snapshot| - 1], selected)
      + (if snapshot[|snapshot| - 1].pid in selected then [snapshot[|snapshot| - 1]] else [])
  }

  lemma {:induction false} RowsInMembers(snapshot: seq<Process>, selected: set<int>)
    ensures forall p :: p in RowsIn(snapshot, selected) <==> p in snapshot && p.pid in selected
  {
    if snapshot != [] {
      var rest, last := snapshot[..|snapshot| - 1], snapshot[|snapshot| - 1];
      RowsInMembers(rest, selected);
      assert snapshot == rest + [last];
    }
  }

  ghost function Family(t: Table, root: int): set<int> {
    set pid | pid in t && Reachable(t, root, pid)
  }

  /** Some process hangs off the family, or is the root, and its creation date cannot be read. */
  ghost predicate Undated(t: Table, root: int) {
    && root in t
    && (t[root].created.None? || exists pid :: pid in t && t[pid].created.None? && Reachable(t, root, t[pid].parent))
  }

  method Merge(ancestors: seq<Process>, snapshot: seq<Process>) returns (parents: Table)
    ensures parents == ByPid(ancestors + snapshot)
  {
    var rows := ancestors + snapshot;
    parents := map[];
    for i := 0 to |rows|
      invariant parents == ByPid(rows[..i])
    {
      assert rows[..i + 1][..i] == rows[..i];
      parents := parents[rows[i].pid := rows[i]];
    }
    assert rows[..|rows|] == rows;
  }

  method SelectRows(snapshot: seq<Process>, selected: set<int>) returns (rows: seq<Process>)
    ensures rows == RowsIn(snapshot, selected)
  {
    rows := [];
    for i := 0 to |snapshot|
      invariant rows == RowsIn(snapshot[..i], selected)
    {
      assert snapshot[..i + 1][..i] == snapshot[..i];
      if snapshot[i].pid in selected {
        rows := rows + [snapshot[i]];
      }
    }
    assert snapshot[..|snapshot|] == snapshot;
  }

  lemma Shrinks(all: set<int>, small: set<int>, large: set<int>)
    requires small < large <= all
    ensures |all - large| < |all - small|
  {
    assert all - small == (all - large) + (large - small);
    assert large - small != {};
  }

  /** A set of reachable processes that no link leaves is the whole family, and all of it is dated. */
  lemma FixedPointIsFamily(t: Table, root: int, selected: set<int>)
    requires root in selected && selected <= t.Keys
    requires forall pid :: pid in selected ==> Reachable(t, root, pid)
    requires forall a, b :: a in selected && Link(t, a, b) ==> b in selected
    ensures selected == Family(t, root) && forall pid :: Reachable(t, root, pid) ==> pid in selected
  {
    forall pid | Reachable(t, root, pid)
      ensures pid in selected
    {
      var path :| ChainBetween(t, root, pid, path);
      ClosedHoldsChain(t, selected, path);
    }
  }

  /**
   * The rows of the snapshot that are reachable from the root through the table merged from both lists.
   * The two failures are told apart exactly; in particular no parent is ever looked up that is not there.
   */
  method Descendants(snapshot: seq<Process>, root: int, ancestors: seq<Process>)
    returns (r: Result<seq<Process>, Failure>)
    ensures r == Err(RootAbsent) <==> root !in ByPid(ancestors + snapshot)
    ensures r == Err(Unconfirmed) <==> Undated(ByPid(ancestors + snapshot), root)
    ensures r.Ok? ==> r.value == RowsIn(snapshot, Family(ByPid(ancestors + snapshot), root))
  {
    var parents := Merge(ancestors, snapshot);
    if root !in parents {
      return Err(RootAbsent);
    }
    if parents[root].created.None? {
      return Err(Unconfirmed);
    }
    var selected := {root};
    RootReachable(parents, root);
    hide ByPid, Reachable;
    while true
      invariant root in selected && selected <= parents.Keys
      invariant forall pid :: pid in selected ==> Dated(parents, pid) && Reachable(parents, root, pid)
      decreases |parents.Keys - selected|
    {
      if pid :| pid in parents && parents[pid].parent in selected && parents[pid].created.None? {
        return Err(Unconfirmed);
      }
      var children :=
        set pid | pid in parents && Link(parents, parents[pid].parent, pid) && parents[pid].parent in selected;
      var expanded := selected + children;
      forall pid | pid in expanded
        ensures Dated(parents, pid) && Reachable(parents, root, pid)
      {
        if pid !in selected {
          ReachableStep(parents, root, parents[pid].parent, pid);
        }
      }
      if expanded == selected {
        FixedPointIsFamily(parents, root, selected);
        var rows := SelectRows(snapshot, selected);
        return Ok(rows);
      }
      Shrinks(parents.Keys, selected, expanded);
      selected := expanded;
    }
  }

  /**
   * After teardown the check passes the remembered rows as ancestors: an empty answer then says that nothing
   * in the new snapshot hangs off the root, not even through processes that have exited since.
   */
  lemma EmptyMeansNothingLeft(snapshot: seq<Process>, ancestors: seq<Process>, root: int)
    ensures RowsIn(snapshot, Family(ByPid(ancestors + snapshot), root)) == [] <==>
      forall p :: p in snapshot ==> !Reachable(ByPid(ancestors + snapshot), root, p.pid)
  {
    var t := ByPid(ancestors + snapshot);
    var rows := RowsIn(snapshot, Family(t, root));
    RowsInMembers(snapshot, Family(t, root));
    ByPidKeys(ancestors + snapshot);
    if rows != [] {
      assert rows[0] in rows;
    }
    forall p | p in snapshot && Reachable(t, root, p.pid)
      ensures p in rows
    {
      assert p in ancestors + snapshot;
    }
  }

  // ---- the family and its rows, spelled out ----

  /** The row names the other process as its parent and was created no earlier; both dates can be read. */
  ghost predicate HangsOn(t: Table, pid: int, parent: int) {
    && pid in t && parent in t && t[pid].parent == parent
    && t[pid].created.Some? && t[parent].created.Some?
    && t[pid].created.value >= t[parent].created.value
  }

  lemma HangsIff(t: Table, pid: int, parent: int)
    ensures HangsOn(t, pid, parent) <==> Link(t, parent, pid)
  {
  }

  /** A process belongs to the family exactly when it is the root or hangs on one that does. */
  lemma FamilyIff(t: Table, root: int, pid: int)
    requires root in t && t[root].created.Some?
    ensures pid in Family(t, root) <==>
              pid == root || exists parent :: parent in Family(t, root) && HangsOn(t, pid, parent)
  {
    RootReachable(t, root);
    if Reachable(t, root, pid) && pid != root {
      var path :| ChainBetween(t, root, pid, path);
      var n := |path| - 1;
      var front := path[..n];
      assert Link(t, path[n - 1], path[n]);
      assert ChainBetween(t, root, path[n - 1], front);
      HangsIff(t, pid, path[n - 1]);
    }
    if parent :| parent in Family(t, root) && HangsOn(t, pid, parent) {
      ReachableStep(t, root, parent, pid);
    }
  }

  /** The family is the smallest set with the root that everything hanging on a member belongs to. */
  lemma FamilyIsLeast(t: Table, root: int, closed: set<int>)
    requires root in closed && forall pid, parent :: parent in closed && HangsOn(t, pid, parent) ==> pid in closed
    ensures Family(t, root) <= closed
  {
    forall pid | Reachable(t, root, pid)
      ensures pid in closed
    {
      var path :| ChainBetween(t, root, pid, path);
      ClosedHoldsChain(t, closed, path);
    }
  }

  /** Ownership is unconfirmed exactly when the root, or a row under a member of the family, has no readable date. */
  lemma UndatedIff(t: Table, root: int)
    ensures Undated(t, root) <==>
      && root in t
      && (t[root].created.None? || exists pid :: pid in t && t[pid].created.None? && t[pid].parent in Family(t, root))
  {
    forall pid | pid in t && Reachable(t, root, t[pid].parent)
      ensures t[pid].parent in Family(t, root)
    {
      var path :| ChainBetween(t, root, t[pid].parent, path);
      ChainIsDated(t, path);
    }
  }

  lemma ChainIsDated(t: Table, path: seq<int>)
    requires path != [] && Dated(t, path[0]) && Chain(t, path)
    ensures path[|path| - 1] in t
  {
    if |path| > 1 {
      assert Link(t, path[|path| - 2], path[|path| - 1]);
    }
  }

  /** The last row of an id is the one that is kept. */
  lemma {:induction false} LastRowWins(rows: seq<Process>, k: nat)
    requires k < |rows| && forall j :: k < j < |rows| ==> rows[j].pid != rows[k].pid
    ensures rows[k].pid in ByPid(rows) && ByPid(rows)[rows[k].pid] == rows[k]
  {
    if k < |rows| - 1 {
      LastRowWins(rows[..|rows| - 1], k);
    }
  }

  /** The rows are those of the snapshot that are selected: each once, in the snapshot's order, none left out. */
  ghost predicate Standing(snapshot: seq<Process>, selected: set<int>, rows: seq<Process>, places: seq<nat>) {
    && |places| == |rows|
    && (forall i, j :: 0 <= i < j < |places| ==> places[i] < places[j])
    && (forall i :: 0 <= i < |places| ==> places[i] < |snapshot| && rows[i] == snapshot[places[i]])
    && (forall k: nat :: k < |snapshot| ==> (k in places <==> snapshot[k].pid in selected))
  }

  lemma StandingMore(snapshot: seq<Process>, selected: set<int>, rows: seq<Process>, places: seq<nat>, p: Process)
    requires Standing(snapshot, selected, rows, places)
    ensures p.pid !in selected ==> Standing(snapshot + [p], selected, rows, places)
    ensures p.pid in selected ==> Standing(snapshot + [p], selected, rows + [p], places + [|snapshot|])
  {
    var all, n := snapshot + [p], |snapshot|;
    assert all[n] == p && forall k :: 0 <= k < n ==> all[k] == snapshot[k];
    assert n !in places;
    var more := places + [n];
    assert more[|places|] == n && forall i :: 0 <= i < |places| ==> more[i] == places[i];
    forall k: nat | k < |all|
      ensures k in more <==> k in places || k == n
    {
    }
  }

  lemma {:induction false} RowsInOrder(snapshot: seq<Process>, selected: set<int>) returns (places: seq<nat>)
    ensures Standing(snapshot, selected, RowsIn(snapshot, selected), places)
  {
    places := [];
    if snapshot != [] {
      var rest, last := snapshot[..|snapshot| - 1], snapshot[|snapshot| - 1];
      places := RowsInOrder(rest, selected);
      hide Standing;
      StandingMore(rest, selected, RowsIn(rest, selected), places, last);
      assert snapshot == rest + [last];
      if last.pid in selected {
        places := places + [|rest|];
      } else {
        assert RowsIn(rest, selected) + [] == RowsIn(rest, selected);
      }
    }
  }
}
