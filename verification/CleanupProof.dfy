/**
 * Handles on the owned processes and the acknowledgment that they exited
 * (bench/windows-capture-798/owned_processes.py).
 */
module CleanupProof {
  import opened Common
  import opened OwnedProcesses

  /** What the operating system answered when a process was opened; file times count 100 ns since 1601. */
  datatype Binding = NotOpened | NoTimes(handle: nat) | Opened(handle: nat, createdFileTime: nat)

  /** What waiting for a handle gave, and the exit time if it could then be read. */
  datatype Wait = Wait(code: nat, exitFileTime: Option<nat>)

  datatype Row = Row(
    pid: int, parent: int, name: string, bindingConfirmed: bool, signaled: bool, bindError: bool,
    expectedCreated: Option<int>, actualCreated: Option<int>, waitCode: Option<nat>, exitFileTime: Option<nat>,
    observeError: bool, handleClosed: Option<bool>)

  const TIMEOUT: nat := 258

  /** Milliseconds since 1970 of a file time, rounded down. */
  function UnixMillis(fileTime: nat): int {
    fileTime / 10000 - 11644473600000
  }

  function Bind(p: Process, b: Binding): Row {
    var row := Row(p.pid, p.parent, p.name, false, false, false, None, None, None, None, false, None);
    match b
    case NotOpened => row.(bindError := true)
    case NoTimes(_) => row.(bindError := true)
    case Opened(_, created) =>
      row.(expectedCreated := p.created, actualCreated := Some(UnixMillis(created)),
           bindingConfirmed := p.created == Some(UnixMillis(created)))
  }

  function HandleOf(b: Binding): Option<nat> {
    match b
    case NotOpened => None
    case NoTimes(h) => Some(h)
    case Opened(h, _) => Some(h)
  }

  function Observe(row: Row, handle: Option<nat>, w: Wait): Row {
    if handle.None? || !row.bindingConfirmed then row
    else
      var waited := row.(waitCode := Some(w.code));
      if w.code == 0 then
        if w.exitFileTime.Some? then waited.(exitFileTime := w.exitFileTime, signaled := w.exitFileTime.value > 0)
        else waited.(observeError := true)
      else if w.code != TIMEOUT then waited.(observeError := true)
      else waited
  }

  function Close(row: Row, handle: Option<nat>, closed: bool): Row {
    if handle.None? then row else row.(handleClosed := Some(closed))
  }

  /** Handles opened on the rows of a snapshot; `handles` is emptied by closing them. */
  class OwnedProcessHandles {
    var rows: seq<Row>
    var handles: seq<Option<nat>>

    constructor (snapshot: seq<Process>, bindings: seq<Binding>)
      requires |bindings| == |snapshot|
      ensures |rows| == |handles| == |snapshot|
      ensures forall i :: 0 <= i < |snapshot| ==>
                rows[i] == Bind(snapshot[i], bindings[i]) && handles[i] == HandleOf(bindings[i])
    {
      rows, handles := [], [];
      new;
      for i := 0 to |snapshot|
        invariant |rows| == |handles| == i
        invariant forall j :: 0 <= j < i ==>
          rows[j] == Bind(snapshot[j], bindings[j]) && handles[j] == HandleOf(bindings[j])
      {
        var p := snapshot[i];
        var row := Row(p.pid, p.parent, p.name, false, false, false, None, None, None, None, false, None);
        match bindings[i] {
          case NotOpened =>
            row := row.(bindError := true);
            handles := handles + [None];
          case NoTimes(handle) =>
            row := row.(bindError := true);
            handles := handles + [Some(handle)];
          case Opened(handle, created) =>
            var actual := created / 10000 - 11644473600000;
            row := row.(expectedCreated := p.created, actualCreated := Some(actual));
            row := row.(bindingConfirmed := p.created.Some? && actual == p.created.value);
            handles := handles + [Some(handle)];
        }
        rows := rows + [row];
      }
    }

    method ObserveAll(waits: seq<Wait>)
      requires |waits| == |handles| == |rows|
      modifies this`rows
      ensures |rows| == |old(rows)|
      ensures forall i :: 0 <= i < |rows| ==> rows[i] == Observe(old(rows)[i], handles[i], waits[i])
    {
      for i := 0 to |rows|
        invariant |rows| == |old(rows)|
        invariant forall j :: 0 <= j < |rows| ==>
          rows[j] == if j < i then Observe(old(rows)[j], handles[j], waits[j]) else old(rows)[j]
      {
        if handles[i].Some? && rows[i].bindingConfirmed {
          var row, wait := rows[i].(waitCode := Some(waits[i].code)), waits[i].code;
          if wait == 0 {
            match waits[i].exitFileTime {
              case Some(exited) => row := row.(exitFileTime := Some(exited), signaled := exited > 0);
              case None => row := row.(observeError := true);
            }
          } else if wait != TIMEOUT {
            row := row.(observeError := true);
          }
          rows := rows[i := row];
        }
      }
    }

    method CloseAll(closed: seq<bool>)
      requires |closed| == |handles| == |rows|
      modifies this
      ensures handles == [] && |rows| == |old(rows)|
      ensures forall i :: 0 <= i < |rows| ==> rows[i] == Close(old(rows)[i], old(handles)[i], closed[i])
    {
      for i := 0 to |rows|
        invariant handles == old(handles) && |rows| == |old(rows)|
        invariant forall j :: 0 <= j < |rows| ==>
          rows[j] == if j < i then Close(old(rows)[j], handles[j], closed[j]) else old(rows)[j]
      {
        if handles[i].Some? {
          rows := rows[i := rows[i].(handleClosed := Some(closed[i]))];
        }
      }
      handles := [];
    }
  }

  // ---- the acknowledgment ----

  /**
   * The stderr of taskkill as the checks see it: whether it is blank, the (process, parent) pairs of its
   * "no running instance" errors, and whether anything but those errors remains.
   */
  datatype Stderr = Stderr(blank: bool, errors: seq<(int, int)>, residueBlank: bool)

  datatype Taskkill = Taskkill(exit: Option<int>, stderr: Option<Stderr>)

  predicate Proven(h: Row, p: Process) {
    && h.bindingConfirmed && h.signaled && h.handleClosed == Some(true) && h.parent == p.parent
    && h.expectedCreated.Some? && h.expectedCreated == p.created && h.actualCreated == h.expectedCreated
    && h.waitCode == Some(0) && h.exitFileTime.Some? && h.exitFileTime.value > 0 && !h.observeError
  }

  predicate Expects(expected: Table, pid: int, parent: int) {
    pid in expected && expected[pid].parent == parent
  }

  predicate KillAcknowledged(taskkill: Taskkill, expected: Table) {
    && taskkill.exit.Some? && taskkill.stderr.Some?
    && var stderr := taskkill.stderr.value;
       if taskkill.exit.value == 0 then stderr.blank
       else
         taskkill.exit.value == 255 && stderr.errors != [] && stderr.residueBlank
         && forall i :: 0 <= i < |stderr.errors| ==>
              Expects(expected, stderr.errors[i].0, stderr.errors[i].1)
  }

  function Pids(handles: seq<Row>): set<int> {
    set i | 0 <= i < |handles| :: handles[i].pid
  }

  predicate CleanupAcknowledged(taskkill: Taskkill, owned: seq<Process>, handles: seq<Row>, parentExit: Option<int>,
                                postTree: seq<Process>)
  {
    parentExit.Some? && postTree == [] && owned != [] && |handles| == |owned|
    && var expected := ByPid(owned);
       |expected| == |owned| && Pids(handles) == expected.Keys
       && (forall i :: 0 <= i < |handles| ==>
              handles[i].pid in expected && Proven(handles[i], expected[handles[i].pid]))
       && KillAcknowledged(taskkill, expected)
  }

  /**
   The handle was bound to the very process listed, under its parent and creation time; waiting for it
   succeeded with a positive exit time and without an error, and it was closed.
   */
  ghost predicate ShowsExit(h: Row, p: Process) {
    && h.bindingConfirmed && h.parent == p.parent
    && p.created.Some? && h.expectedCreated == p.created && h.actualCreated == p.created
    && h.signaled && h.waitCode == Some(0) && !h.observeError
    && (exists exited: nat :: exited > 0 && h.exitFileTime == Some(exited))
    && h.handleClosed == Some(true)
  }

  lemma ProvenIff(h: Row, p: Process)
    ensures Proven(h, p) <==> ShowsExit(h, p)
  {
    if Proven(h, p) {
      assert h.exitFileTime == Some(h.exitFileTime.value);
    }
  }

  /** `match_` pairs every handle with a process of its own, and the handle proves that process exited. */
  ghost predicate Correspond(owned: seq<Process>, handles: seq<Row>, match_: seq<nat>) {
    && |match_| == |handles| == |owned| && Distinct(match_)
    && (forall k: nat :: k < |owned| ==> k in match_)
    && forall i :: 0 <= i < |handles| ==>
         match_[i] < |owned| && handles[i].pid == owned[match_[i]].pid && ShowsExit(handles[i], owned[match_[i]])
  }

  ghost predicate ListedUnder(owned: seq<Process>, pid: int, parent: int) {
    exists k :: 0 <= k < |owned| && owned[k].pid == pid && owned[k].parent == parent
  }

  /** A process that taskkill could not end is one of the owned ones, under the parent recorded for it. */
  ghost predicate Excused(owned: seq<Process>, taskkill: Taskkill) {
    && taskkill.exit.Some? && taskkill.stderr.Some?
    && var stderr := taskkill.stderr.value;
       if taskkill.exit.value == 0 then stderr.blank
       else
         taskkill.exit.value == 255 && stderr.errors != [] && stderr.residueBlank
         && forall i :: 0 <= i < |stderr.errors| ==>
              ListedUnder(owned, stderr.errors[i].0, stderr.errors[i].1)
  }

  ghost predicate DistinctPids(owned: seq<Process>) {
    forall j, k :: 0 <= j < k < |owned| ==> owned[j].pid != owned[k].pid
  }

  // ---- counting ----

  lemma OneRowMore(rows: seq<Process>)
    requires rows != []
    ensures var rest, last := ByPid(rows[..|rows| - 1]), rows[|rows| - 1];
      && ByPid(rows) == rest[last.pid := last]
      && |ByPid(rows)| == |rest| + (if last.pid in rest then 0 else 1)
  {
    var rest, last := ByPid(rows[..|rows| - 1]), rows[|rows| - 1];
    assert ByPid(rows).Keys == rest.Keys + {last.pid};
  }

  /** The last row's id is new exactly if it is in no earlier row, and then the rows are as distinct as before. */
  lemma LastIsNew(rows: seq<Process>)
    requires rows != []
    ensures var rest, last := rows[..|rows| - 1], rows[|rows| - 1];
      DistinctPids(rows) <==> DistinctPids(rest) && last.pid !in ByPid(rest)
  {
    hide ByPid;
    var rest, last := rows[..|rows| - 1], rows[|rows| - 1];
    ByPidKeys(rest);
    if last.pid in ByPid(rest) {
      var p := ByPid(rest)[last.pid];
      var j :| 0 <= j < |rest| && rest[j] == p;
      assert rows[j].pid == rows[|rest|].pid;
    } else {
      assert forall j :: 0 <= j < |rest| ==> rest[j] in rest && rows[j] == rest[j];
    }
  }

  lemma {:induction false} FullTableIsDistinct(rows: seq<Process>)
    ensures |ByPid(rows)| <= |rows|
    ensures |ByPid(rows)| == |rows| <==> DistinctPids(rows)
  {
    if rows != [] {
      FullTableIsDistinct(rows[..|rows| - 1]);
      OneRowMore(rows);
      LastIsNew(rows);
      hide ByPid, DistinctPids;
    }
  }

  lemma {:induction false} TableHoldsRows(rows: seq<Process>)
    requires DistinctPids(rows)
    ensures forall k :: 0 <= k < |rows| ==> rows[k].pid in ByPid(rows) && ByPid(rows)[rows[k].pid] == rows[k]
  {
    if rows != [] {
      TableHoldsRows(rows[..|rows| - 1]);
      OneRowMore(rows);
      hide ByPid;
    }
  }

  /** As many handles as different ids: no id is held twice. */
  lemma {:induction false} PidsAreDistinct(handles: seq<Row>)
    ensures |Pids(handles)| <= |handles|
    ensures |Pids(handles)| == |handles| <==> forall i, j :: 0 <= i < j < |handles| ==> handles[i].pid != handles[j].pid
  {
    if handles != [] {
      var rest, last := handles[..|handles| - 1], handles[|handles| - 1];
      PidsAreDistinct(rest);
      OnePidMore(handles);
      hide Pids;
      assert forall j :: 0 <= j < |rest| ==> handles[j] == rest[j];
      if j :| 0 <= j < |rest| && rest[j].pid == last.pid {
        assert handles[j].pid == handles[|rest|].pid;
      }
    }
  }

  lemma OnePidMore(handles: seq<Row>)
    requires handles != []
    ensures var rest, last := handles[..|handles| - 1], handles[|handles| - 1];
      && |Pids(handles)| == |Pids(rest)| + (if last.pid in Pids(rest) then 0 else 1)
      && (last.pid in Pids(rest) <==> exists j :: 0 <= j < |rest| && rest[j].pid == last.pid)
  {
    hide Pids;
    var rest, last := handles[..|handles| - 1], handles[|handles| - 1];
    forall pid
      ensures pid in Pids(handles) <==> pid in Pids(rest) || pid == last.pid
    {
      PidOfRow(handles, pid);
      PidOfRow(rest, pid);
      if i :| 0 <= i < |handles| && handles[i].pid == pid {
        assert i < |rest| ==> rest[i] == handles[i];
      }
      if i :| 0 <= i < |rest| && rest[i].pid == pid {
        assert handles[i] == rest[i];
      }
      assert handles[|rest|] == last;
    }
    PidOfRow(rest, last.pid);
    if last.pid in Pids(rest) {
      assert Pids(handles) == Pids(rest);
    } else {
      assert Pids(handles) == Pids(rest) + {last.pid};
    }
  }

  lemma PidOfRow(handles: seq<Row>, pid: int)
    ensures pid in Pids(handles) <==> exists i :: 0 <= i < |handles| && handles[i].pid == pid
  {
  }

  lemma RowOf(owned: seq<Process>, pid: int) returns (k: nat)
    requires pid in ByPid(owned)
    ensures k < |owned| && owned[k] == ByPid(owned)[pid] && owned[k].pid == pid
  {
    hide ByPid;
    ByPidKeys(owned);
    var j :| 0 <= j < |owned| && owned[j] == ByPid(owned)[pid];
    k := j;
  }

  /** The position of each handle's process in `owned`. */
  lemma Pairing(owned: seq<Process>, handles: seq<Row>) returns (match_: seq<nat>)
    requires DistinctPids(owned) && |handles| == |owned|
    requires Pids(handles) == ByPid(owned).Keys
    requires forall i :: 0 <= i < |handles| ==>
               handles[i].pid in ByPid(owned) && Proven(handles[i], ByPid(owned)[handles[i].pid])
    ensures Correspond(owned, handles, match_)
  {
    hide Proven, ByPid, DistinctPids, Pids;
    FullTableIsDistinct(owned);
    PidsAreDistinct(handles);
    match_ := [];
    for i := 0 to |handles|
      invariant |match_| == i
      invariant forall j :: 0 <= j < i ==>
        match_[j] < |owned| && owned[match_[j]].pid == handles[j].pid && Proven(handles[j], owned[match_[j]])
    {
      var k := RowOf(owned, handles[i].pid);
      match_ := match_ + [k];
    }
    EveryRowIsKeyed(owned);
    Corresponds(owned, handles, match_);
  }

  lemma EveryRowIsKeyed(owned: seq<Process>)
    ensures forall k :: 0 <= k < |owned| ==> owned[k].pid in ByPid(owned)
  {
    hide ByPid;
    ByPidKeys(owned);
    assert forall k :: 0 <= k < |owned| ==> owned[k] in owned;
  }

  lemma Corresponds(owned: seq<Process>, handles: seq<Row>, match_: seq<nat>)
    requires DistinctPids(owned) && |match_| == |handles| == |owned|
    requires forall i, j :: 0 <= i < j < |handles| ==> handles[i].pid != handles[j].pid
    requires forall i :: 0 <= i < |match_| ==>
               match_[i] < |owned| && owned[match_[i]].pid == handles[i].pid && Proven(handles[i], owned[match_[i]])
    requires forall k :: 0 <= k < |owned| ==> owned[k].pid in Pids(handles)
    ensures Correspond(owned, handles, match_)
  {
    hide Proven, ShowsExit;
    forall k: nat | k < |owned|
      ensures k in match_
    {
      var i :| 0 <= i < |handles| && handles[i].pid == owned[k].pid;
      assert match_[i] == k;
    }
    forall i | 0 <= i < |handles|
      ensures ShowsExit(handles[i], owned[match_[i]])
    {
      ProvenIff(handles[i], owned[match_[i]]);
    }
  }

  lemma {:induction false} CorrespondCovers(owned: seq<Process>, handles: seq<Row>, match_: seq<nat>)
    requires DistinctPids(owned) && Correspond(owned, handles, match_)
    ensures Pids(handles) == ByPid(owned).Keys && |ByPid(owned)| == |owned|
    ensures forall i :: 0 <= i < |handles| ==>
              handles[i].pid in ByPid(owned) && Proven(handles[i], ByPid(owned)[handles[i].pid])
  {
    hide Proven, ShowsExit;
    FullTableIsDistinct(owned);
    ByPidKeys(owned);
    forall i | 0 <= i < |handles|
      ensures Proven(handles[i], owned[match_[i]])
    {
      ProvenIff(handles[i], owned[match_[i]]);
    }
    forall pid | pid in ByPid(owned)
      ensures pid in Pids(handles)
    {
      var k :| 0 <= k < |owned| && owned[k].pid == pid;
      assert k in match_;
      var i :| 0 <= i < |match_| && match_[i] == k;
      assert handles[i].pid == pid;
    }
  }

  lemma ExcusedByTable(owned: seq<Process>, taskkill: Taskkill)
    requires DistinctPids(owned)
    ensures KillAcknowledged(taskkill, ByPid(owned)) <==> Excused(owned, taskkill)
  {
    if taskkill.exit.Some? && taskkill.stderr.Some? {
      var errors := taskkill.stderr.value.errors;
      forall i | 0 <= i < |errors|
        ensures Expects(ByPid(owned), errors[i].0, errors[i].1) <==> ListedUnder(owned, errors[i].0, errors[i].1)
      {
        InTable(owned, errors[i].0, errors[i].1);
      }
    }
  }

  lemma InTable(owned: seq<Process>, pid: int, parent: int)
    requires DistinctPids(owned)
    ensures Expects(ByPid(owned), pid, parent) <==> ListedUnder(owned, pid, parent)
  {
    hide ByPid;
    FullTableIsDistinct(owned);
    ByPidKeys(owned);
    if pid in ByPid(owned) {
      assert ByPid(owned)[pid] in owned;
    }
  }

  /**
   * What the acknowledgment certifies, and no less: the owned processes are pairwise distinct, each has a handle
   * of its own with the same id, parent and creation time that is signaled with a positive exit time, no handle
   * is left over, and whatever taskkill could not end is one of them.
   */
  lemma AcknowledgedIff(taskkill: Taskkill, owned: seq<Process>, handles: seq<Row>, parentExit: Option<int>,
                        postTree: seq<Process>)
    ensures CleanupAcknowledged(taskkill, owned, handles, parentExit, postTree) <==>
      && parentExit.Some? && postTree == [] && owned != []
      && DistinctPids(owned) && (exists match_ :: Correspond(owned, handles, match_)) && Excused(owned, taskkill)
  {
    hide Proven, KillAcknowledged, Excused, Correspond;
    FullTableIsDistinct(owned);
    if CleanupAcknowledged(taskkill, owned, handles, parentExit, postTree) {
      var match_ := Pairing(owned, handles);
      ExcusedByTable(owned, taskkill);
    }
    if DistinctPids(owned) && exists match_ :: Correspond(owned, handles, match_) {
      var match_ :| Correspond(owned, handles, match_);
      CorrespondCovers(owned, handles, match_);
      SameLength(owned, handles, match_);
      ExcusedByTable(owned, taskkill);
    }
  }

  lemma SameLength(owned: seq<Process>, handles: seq<Row>, match_: seq<nat>)
    requires Correspond(owned, handles, match_)
    ensures |handles| == |owned|
  {
  }

  // ---- the whole life of the handles ----

  /** A row that was bound, observed once and closed. */
  function RowAfter(p: Process, b: Binding, w: Wait, closed: bool): Row {
    Close(Observe(Bind(p, b), HandleOf(b), w), HandleOf(b), closed)
  }

  /**
   Field by field, what a closed row says: the process as listed, what opening it gave, what waiting gave if
   the handle is that process's own, and how closing went.
   */
  lemma RowTells(p: Process, b: Binding, w: Wait, closed: bool)
    ensures var row := RowAfter(p, b, w, closed);
      var created := if b.Opened? then Some(b.createdFileTime / 10000 - 11644473600000) else None;
      var own := b.Opened? && p.created == created;
      && row.pid == p.pid && row.parent == p.parent && row.name == p.name
      && (row.bindError <==> !b.Opened?) && row.actualCreated == created
      && row.expectedCreated == (if b.Opened? then p.created else None) && (row.bindingConfirmed <==> own)
      && row.waitCode == (if own then Some(w.code) else None)
      && row.exitFileTime == (if own && w.code == 0 then w.exitFileTime else None)
      && (row.signaled <==> own && w.code == 0 && w.exitFileTime.Some? && w.exitFileTime.value > 0)
      && (row.observeError <==> own && if w.code == 0 then w.exitFileTime.None? else w.code != 258)
      && row.handleClosed == (if b.NotOpened? then None else Some(closed))
  {
    match b
    case NotOpened =>
    case NoTimes(_) =>
    case Opened(_, _) =>
  }

  /** The operating system's answers prove this process gone: the very one listed, not a later user of its id. */
  predicate Gone(p: Process, b: Binding, w: Wait, closed: bool) {
    && b.Opened? && p.created == Some(UnixMillis(b.createdFileTime))
    && w.code == 0 && w.exitFileTime.Some? && w.exitFileTime.value > 0 && closed
  }

  lemma ProvenIffGone(p: Process, b: Binding, w: Wait, closed: bool)
    ensures Proven(RowAfter(p, b, w, closed), p) <==> Gone(p, b, w, closed)
  {
  }

  /** With the rows the class produces, the acknowledgment depends on the system's answers alone. */
  lemma AcknowledgedRun(taskkill: Taskkill, owned: seq<Process>, bindings: seq<Binding>, waits: seq<Wait>,
                        closed: seq<bool>, handles: seq<Row>, parentExit: Option<int>, postTree: seq<Process>)
    requires |owned| == |bindings| == |waits| == |closed| == |handles|
    requires forall i :: 0 <= i < |owned| ==> handles[i] == RowAfter(owned[i], bindings[i], waits[i], closed[i])
    ensures CleanupAcknowledged(taskkill, owned, handles, parentExit, postTree) <==>
      && parentExit.Some? && postTree == [] && owned != [] && DistinctPids(owned)
      && (forall i :: 0 <= i < |owned| ==> Gone(owned[i], bindings[i], waits[i], closed[i]))
      && Excused(owned, taskkill)
  {
    hide Proven, Excused, Gone, ShowsExit;
    forall i | 0 <= i < |owned|
      ensures ShowsExit(handles[i], owned[i]) <==> Gone(owned[i], bindings[i], waits[i], closed[i])
      ensures handles[i].pid == owned[i].pid
    {
      ProvenIff(handles[i], owned[i]);
      ProvenIffGone(owned[i], bindings[i], waits[i], closed[i]);
    }
    AcknowledgedIff(taskkill, owned, handles, parentExit, postTree);
    if DistinctPids(owned) {
      hide RowAfter, CleanupAcknowledged, DistinctPids, Correspond;
      InPlace(owned, handles);
    }
  }

  /** Handles made of the processes one by one correspond to them in that order or not at all. */
  lemma InPlace(owned: seq<Process>, handles: seq<Row>)
    requires DistinctPids(owned) && |handles| == |owned|
    requires forall i :: 0 <= i < |owned| ==> handles[i].pid == owned[i].pid
    ensures (exists match_ :: Correspond(owned, handles, match_)) <==>
              forall i :: 0 <= i < |owned| ==> ShowsExit(handles[i], owned[i])
  {
    hide ShowsExit;
    if forall i :: 0 <= i < |owned| ==> ShowsExit(handles[i], owned[i]) {
      var match_ := seq(|owned|, i requires 0 <= i < |owned| => i as nat);
      forall k: nat | k < |owned|
        ensures k in match_
      {
        assert match_[k] == k;
      }
      assert Correspond(owned, handles, match_);
    }
    forall match_, i | Correspond(owned, handles, match_) && 0 <= i < |owned|
      ensures ShowsExit(handles[i], owned[i])
    {
      assert owned[match_[i]].pid == owned[i].pid;
      assert match_[i] == i;
    }
  }
}
