/**
 The manifest of build inputs (cli/build_marker.rs): a sorted walk over a directory tree that
 feeds one record per regular file to the hash.
*/
module BuildManifest {
  import opened Common
  import opened ByteStream

  const SLASH: byte := 47
  const DOT_GIT: Bytes := [46, 103, 105, 116]
  const TARGET: Bytes := [116, 97, 114, 103, 101, 116]

  /** What a directory listing shows. `Unreadable` stands for any I/O failure at that entry. */
  datatype Node = File(content: Bytes) | Dir(entries: seq<Entry>) | Symlink | Special | Unreadable

  datatype Entry = Entry(name: Bytes, node: Node)

  datatype Failure = NonUtf8 | SymlinkedInput | NonRegular | Io

  // ---- names ----

  predicate Continuation(b: byte) { 0x80 <= b <= 0xBF }

  /** Length of the UTF-8 sequence at the start of `s`, or 0 when it is not well formed. */
  function Utf8Length(s: Bytes): nat
    requires s != []
  {
    if s[0] <= 0x7F then 1
    else if 0xC2 <= s[0] <= 0xDF && |s| >= 2 && Continuation(s[1]) then 2
    else if 0xE0 <= s[0] <= 0xEF && |s| >= 3 && Continuation(s[1]) && Continuation(s[2])
            && (s[0] == 0xE0 ==> s[1] >= 0xA0) && (s[0] == 0xED ==> s[1] <= 0x9F) then 3
    else if 0xF0 <= s[0] <= 0xF4 && |s| >= 4 && Continuation(s[1]) && Continuation(s[2]) && Continuation(s[3])
            && (s[0] == 0xF0 ==> s[1] >= 0x90) && (s[0] == 0xF4 ==> s[1] <= 0x8F) then 4
    else 0
  }

  predicate Utf8(s: Bytes)
    decreases |s|
  {
    s == [] || (var n := Utf8Length(s); n > 0 && Utf8(s[n..]))
  }

  predicate Excluded(name: Bytes) {
    name == DOT_GIT || name == TARGET
  }

  /** The order of file names: bytewise, a proper prefix first. */
  predicate NameLess(a: Bytes, b: Bytes) {
    b != [] && (a == [] || a[0] < b[0] || (a[0] == b[0] && NameLess(a[1..], b[1..])))
  }

  lemma {:induction false} NameLessIsStrict(a: Bytes, b: Bytes)
    ensures !(NameLess(a, b) && NameLess(b, a)) && !NameLess(a, a)
    ensures NameLess(a, b) || NameLess(b, a) || a == b
  {
    if a != [] {
      NameLessIsStrict(a[1..], if b != [] then b[1..] else []);
      if b != [] && a[0] == b[0] && a[1..] == b[1..] {
        assert a == [a[0]] + a[1..];
        assert b == [b[0]] + b[1..];
      }
    }
  }

  lemma {:induction false} NameLessIsTransitive(a: Bytes, b: Bytes, c: Bytes)
    requires NameLess(a, b) && NameLess(b, c)
    ensures NameLess(a, c)
  {
    if a != [] && a[0] == b[0] == c[0] {
      NameLessIsTransitive(a[1..], b[1..], c[1..]);
    }
  }

  // ---- sorting a listing ----

  function InsertByName(e: Entry, s: seq<Entry>): (r: seq<Entry>)
    ensures |r| == |s| + 1
    ensures forall x :: x in r <==> x == e || x in s
  {
    if s == [] then [e]
    else
      assert s == [s[0]] + s[1..];
      if NameLess(s[0].name, e.name) then [s[0]] + InsertByName(e, s[1..]) else [e] + s
  }

  function SortByName(s: seq<Entry>): (r: seq<Entry>)
    ensures |r| == |s|
    ensures forall x :: x in r <==> x in s
  {
    if s == [] then []
    else
      assert s == [s[0]] + s[1..];
      InsertByName(s[0], SortByName(s[1..]))
  }

  ghost predicate DistinctNames(s: seq<Entry>) {
    forall i, j :: 0 <= i < j < |s| ==> s[i].name != s[j].name
  }

  ghost predicate SortedByName(s: seq<Entry>) {
    forall i, j :: 0 <= i < j < |s| ==> NameLess(s[i].name, s[j].name)
  }

  lemma {:induction false} InsertSorts(e: Entry, s: seq<Entry>)
    requires SortedByName(s) && forall x :: x in s ==> x.name != e.name
    ensures SortedByName(InsertByName(e, s))
  {
    if s != [] {
      NameLessIsStrict(s[0].name, e.name);
      var rest := InsertByName(e, s[1..]);
      if NameLess(s[0].name, e.name) {
        assert s[0] in s && forall x :: x in s[1..] ==> x in s;
        InsertSorts(e, s[1..]);
        forall j | 0 <= j < |rest|
          ensures NameLess(s[0].name, rest[j].name)
        {
          assert rest[j] in rest;
          if rest[j] != e {
            var i :| 0 <= i < |s[1..]| && s[1..][i] == rest[j];
            assert s[i + 1] == rest[j];
          }
        }
      } else {
        assert s[0] in s;
        forall j | 0 <= j < |s|
          ensures NameLess(e.name, s[j].name)
        {
          if j > 0 {
            NameLessIsTransitive(e.name, s[0].name, s[j].name);
          }
        }
      }
    }
  }

  lemma {:induction false} SortSorts(s: seq<Entry>)
    requires DistinctNames(s)
    ensures SortedByName(SortByName(s))
  {
    if s != [] {
      SortSorts(s[1..]);
      forall x | x in SortByName(s[1..])
        ensures x.name != s[0].name
      {
        var i :| 0 <= i < |s[1..]| && s[1..][i] == x;
      }
      InsertSorts(s[0], SortByName(s[1..]));
    }
  }

  // ---- the walk ----

  function Child(tag: Bytes, name: Bytes): Bytes {
    tag + [SLASH] + name
  }

  /** The records that `tree` feeds the hash for a directory, or its first failure in name order. */
  function Walk(tag: Bytes, dir: Node): Result<seq<Record>, Failure>
    requires dir.Dir?
    decreases dir, |dir.entries| + 1
  {
    WalkEntries(tag, dir, SortByName(dir.entries))
  }

  function WalkEntries(tag: Bytes, dir: Node, todo: seq<Entry>): Result<seq<Record>, Failure>
    requires dir.Dir? && |todo| <= |dir.entries| && forall e :: e in todo ==> e in dir.entries
    decreases dir, |todo|
  {
    if todo == [] then Ok([])
    else
      assert todo[0] in dir.entries;
      var first := WalkEntry(tag, dir, todo[0]);
      if first.Err? then first
      else
        var rest := WalkEntries(tag, dir, todo[1..]);
        if rest.Err? then rest else Ok(first.value + rest.value)
  }

  function WalkEntry(tag: Bytes, dir: Node, e: Entry): Result<seq<Record>, Failure>
    requires dir.Dir? && e in dir.entries
    decreases dir, 0
  {
    if !Utf8(e.name) then Err(NonUtf8)
    else if Excluded(e.name) then Ok([])
    else
      match e.node
      case Symlink => Err(SymlinkedInput)
      case Dir(_) => Walk(Child(tag, e.name), e.node)
      case File(content) => Ok([Record(Child(tag, e.name), content)])
      case Special => Err(NonRegular)
      case Unreadable => Err(Io)
  }

  /** `tree`: a root that is not a readable directory is an I/O failure. */
  function Tree(tag: Bytes, root: Node): Result<seq<Record>, Failure> {
    if root.Dir? then Walk(tag, root) else Err(Io)
  }

  // ---- what a tree holds: a definition by lookup, blind to listing order ----

  function Find(entries: seq<Entry>, name: Bytes): Option<Node> {
    if entries == [] then None
    else if entries[0].name == name then Some(entries[0].node)
    else Find(entries[1..], name)
  }

  /** The bytes of the non-excluded regular file at `path`, if there is one. */
  function Lookup(node: Node, path: seq<Bytes>): Option<Bytes>
    decreases |path|
  {
    match node
    case File(content) => if path == [] then Some(content) else None
    case Dir(entries) =>
      if path == [] || Excluded(path[0]) then None
      else
        var child := Find(entries, path[0]);
        if child.None? then None else Lookup(child.value, path[1..])
    case _ => None
  }

  ghost predicate SameFiles(a: Node, b: Node) {
    forall path :: Lookup(a, path) == Lookup(b, path)
  }

  /** What a file system guarantees: names are distinct within a directory and hold no slash. */
  ghost predicate WellFormed(node: Node)
    decreases node
  {
    node.Dir? ==>
      && DistinctNames(node.entries)
      && forall e :: e in node.entries ==> SLASH !in e.name && WellFormed(e.node)
  }

  // ---- the files of a walk, by path components ----

  datatype FileAt = FileAt(path: seq<Bytes>, content: Bytes)

  function Under(name: Bytes, files: seq<FileAt>): (r: seq<FileAt>)
    ensures |r| == |files|
    ensures forall i :: 0 <= i < |r| ==> r[i] == FileAt([name] + files[i].path, files[i].content)
  {
    if files == [] then [] else [FileAt([name] + files[0].path, files[0].content)] + Under(name, files[1..])
  }

  function Files(dir: Node): seq<FileAt>
    requires dir.Dir?
    decreases dir, |dir.entries| + 1
  {
    FilesOf(dir, SortByName(dir.entries))
  }

  function FilesOf(dir: Node, todo: seq<Entry>): seq<FileAt>
    requires dir.Dir? && |todo| <= |dir.entries| && forall e :: e in todo ==> e in dir.entries
    decreases dir, |todo|
  {
    if todo == [] then []
    else
      assert todo[0] in dir.entries;
      FilesAt(dir, todo[0]) + FilesOf(dir, todo[1..])
  }

  function FilesAt(dir: Node, e: Entry): seq<FileAt>
    requires dir.Dir? && e in dir.entries
    decreases dir, 0
  {
    if Excluded(e.name) then []
    else
      match e.node
      case Dir(_) => Under(e.name, Files(e.node))
      case File(content) => [FileAt([e.name], content)]
      case _ => []
  }

  // ---- labels ----

  /** The label a walk from `tag` gives the file at `path`. */
  function PathLabel(tag: Bytes, path: seq<Bytes>): Bytes
    decreases |path|
  {
    if path == [] then tag else PathLabel(Child(tag, path[0]), path[1..])
  }

  function Labelled(tag: Bytes, files: seq<FileAt>): (r: seq<Record>)
    ensures |r| == |files|
    ensures forall i :: 0 <= i < |r| ==> r[i] == Record(PathLabel(tag, files[i].path), files[i].content)
  {
    if files == [] then []
    else [Record(PathLabel(tag, files[0].path), files[0].content)] + Labelled(tag, files[1..])
  }

  lemma LabelledUnder(tag: Bytes, name: Bytes, files: seq<FileAt>)
    ensures Labelled(tag, Under(name, files)) == Labelled(Child(tag, name), files)
  {
    var under := Under(name, files);
    forall i | 0 <= i < |files|
      ensures Labelled(tag, under)[i] == Labelled(Child(tag, name), files)[i]
    {
      assert ([name] + files[i].path)[1..] == files[i].path;
    }
  }

  lemma LabelledConcat(tag: Bytes, a: seq<FileAt>, b: seq<FileAt>)
    ensures Labelled(tag, a + b) == Labelled(tag, a) + Labelled(tag, b)
  {
  }

  /** A successful walk feeds exactly the labelled files. */
  lemma {:induction false} WalkFeedsFiles(tag: Bytes, dir: Node)
    requires dir.Dir? && Walk(tag, dir).Ok?
    ensures Walk(tag, dir).value == Labelled(tag, Files(dir))
    decreases dir, |dir.entries| + 1
  {
    WalkEntriesFeedFiles(tag, dir, SortByName(dir.entries));
  }

  lemma {:induction false} WalkEntriesFeedFiles(tag: Bytes, dir: Node, todo: seq<Entry>)
    requires dir.Dir? && |todo| <= |dir.entries| && forall e :: e in todo ==> e in dir.entries
    requires WalkEntries(tag, dir, todo).Ok?
    ensures WalkEntries(tag, dir, todo).value == Labelled(tag, FilesOf(dir, todo))
    decreases dir, |todo|
  {
    if todo != [] {
      var e := todo[0];
      assert e in dir.entries;
      WalkEntriesFeedFiles(tag, dir, todo[1..]);
      LabelledConcat(tag, FilesAt(dir, e), FilesOf(dir, todo[1..]));
      WalkEntryFeedsFiles(tag, dir, e);
    }
  }

  lemma {:induction false} WalkEntryFeedsFiles(tag: Bytes, dir: Node, e: Entry)
    requires dir.Dir? && e in dir.entries && WalkEntry(tag, dir, e).Ok?
    ensures WalkEntry(tag, dir, e).value == Labelled(tag, FilesAt(dir, e))
    decreases dir, 0
  {
    if !Excluded(e.name) {
      if e.node.Dir? {
        WalkFeedsFiles(Child(tag, e.name), e.node);
        LabelledUnder(tag, e.name, Files(e.node));
      } else {
        assert PathLabel(tag, [e.name]) == Child(tag, e.name);
      }
    }
  }
}
