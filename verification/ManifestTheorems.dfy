/** The manifest is a canonical form: its byte stream and the files it covers determine each other. */
module ManifestTheorems {
  import opened Common
  import opened ByteStream
  import opened BuildManifest

  // ---- the walk lists exactly the files that lookup finds ----

  lemma {:induction false} FindIsUnique(entries: seq<Entry>, e: Entry)
    requires DistinctNames(entries) && e in entries
    ensures Find(entries, e.name) == Some(e.node)
  {
    if entries[0].name != e.name {
      assert e in entries[1..];
      FindIsUnique(entries[1..], e);
    } else {
      var i :| 0 <= i < |entries| && entries[i] == e;
    }
  }

  lemma {:induction false} FindIsMember(entries: seq<Entry>, name: Bytes)
    requires Find(entries, name).Some?
    ensures Entry(name, Find(entries, name).value) in entries
  {
    if entries[0].name != name {
      FindIsMember(entries[1..], name);
      assert forall e :: e in entries[1..] ==> e in entries;
    } else {
      assert entries[0] in entries;
    }
  }

  lemma UnderMember(name: Bytes, files: seq<FileAt>, f: FileAt)
    ensures f in Under(name, files) <==> f.path != [] && f.path[0] == name && FileAt(f.path[1..], f.content) in files
  {
    var under := Under(name, files);
    if f in under {
      var i :| 0 <= i < |under| && under[i] == f;
      assert ([name] + files[i].path)[1..] == files[i].path;
    }
    if f.path != [] && f.path[0] == name && FileAt(f.path[1..], f.content) in files {
      var i :| 0 <= i < |files| && files[i] == FileAt(f.path[1..], f.content);
      assert [name] + f.path[1..] == f.path;
      assert under[i] == f;
    }
  }

  lemma {:induction false} FilesAreFound(dir: Node, f: FileAt)
    requires dir.Dir? && WellFormed(dir)
    ensures f in Files(dir) <==> Lookup(dir, f.path) == Some(f.content)
    decreases dir, |dir.entries| + 1
  {
    var todo := SortByName(dir.entries);
    FilesOfMember(dir, todo, f);
    if Lookup(dir, f.path) == Some(f.content) {
      FindIsMember(dir.entries, f.path[0]);
      var e := Entry(f.path[0], Find(dir.entries, f.path[0]).value);
      assert e in todo;
      FilesAtMember(dir, e, f);
    }
    if f in Files(dir) {
      var e :| e in todo && f in FilesAt(dir, e);
      FilesAtMember(dir, e, f);
      FindIsUnique(dir.entries, e);
    }
  }

  lemma {:induction false} FilesOfMember(dir: Node, todo: seq<Entry>, f: FileAt)
    requires dir.Dir? && |todo| <= |dir.entries| && forall e :: e in todo ==> e in dir.entries
    ensures f in FilesOf(dir, todo) <==> exists e :: e in todo && f in FilesAt(dir, e)
    decreases dir, |todo|
  {
    if todo != [] {
      assert todo == [todo[0]] + todo[1..];
      FilesOfMember(dir, todo[1..], f);
      assert FilesOf(dir, todo) == FilesAt(dir, todo[0]) + FilesOf(dir, todo[1..]);
    }
  }

  lemma {:induction false} FilesAtMember(dir: Node, e: Entry, f: FileAt)
    requires dir.Dir? && WellFormed(dir) && e in dir.entries
    ensures f in FilesAt(dir, e) <==>
      !Excluded(e.name) && f.path != [] && f.path[0] == e.name && Lookup(e.node, f.path[1..]) == Some(f.content)
    decreases dir, 0
  {
    match e.node
    case Dir(_) =>
      if f.path != [] {
        FilesAreFound(e.node, FileAt(f.path[1..], f.content));
      }
      UnderMember(e.name, Files(e.node), f);
    case File(content) =>
      if f.path != [] && f.path[0] == e.name && f.path[1..] == [] {
        assert f.path == [e.name];
      }
      assert FilesAt(dir, e) == if Excluded(e.name) then [] else [FileAt([e.name], content)];
    case _ =>
  }

  // ---- the walk lists files in path order ----

  /** Componentwise order of paths; a directory's own path comes before what is in it. */
  ghost predicate PathLess(p: seq<Bytes>, q: seq<Bytes>)
    decreases |p|
  {
    q != [] && (p == [] || NameLess(p[0], q[0]) || (p[0] == q[0] && PathLess(p[1..], q[1..])))
  }

  lemma {:induction false} PathLessIsStrict(p: seq<Bytes>, q: seq<Bytes>)
    ensures !(PathLess(p, q) && PathLess(q, p)) && !PathLess(p, p)
    decreases |p|
  {
    if p != [] {
      PathLessIsStrict(p[1..], if q != [] then q[1..] else []);
      NameLessIsStrict(p[0], if q != [] then q[0] else []);
      NameLessIsStrict(p[0], p[0]);
    }
  }

  ghost predicate InPathOrder(files: seq<FileAt>) {
    forall i, j :: 0 <= i < j < |files| ==> PathLess(files[i].path, files[j].path)
  }

  lemma UnderKeepsOrder(name: Bytes, files: seq<FileAt>)
    requires InPathOrder(files)
    ensures InPathOrder(Under(name, files))
  {
    var under := Under(name, files);
    forall i, j | 0 <= i < j < |under|
      ensures PathLess(under[i].path, under[j].path)
    {
      assert ([name] + files[i].path)[1..] == files[i].path;
      assert ([name] + files[j].path)[1..] == files[j].path;
    }
  }

  lemma OrderConcat(a: seq<FileAt>, b: seq<FileAt>)
    requires InPathOrder(a) && InPathOrder(b)
    requires forall x, y :: x in a && y in b ==> PathLess(x.path, y.path)
    ensures InPathOrder(a + b)
  {
    var c := a + b;
    forall i, j | 0 <= i < j < |c|
      ensures PathLess(c[i].path, c[j].path)
    {
      if i < |a| <= j {
        assert a[i] in a && b[j - |a|] in b;
      }
    }
  }

  lemma {:induction false} FilesAreOrdered(dir: Node)
    requires dir.Dir? && WellFormed(dir)
    ensures InPathOrder(Files(dir))
    decreases dir, |dir.entries| + 1
  {
    SortSorts(dir.entries);
    FilesOfAreOrdered(dir, SortByName(dir.entries));
  }

  lemma {:induction false} FilesOfAreOrdered(dir: Node, todo: seq<Entry>)
    requires dir.Dir? && WellFormed(dir) && |todo| <= |dir.entries| && forall e :: e in todo ==> e in dir.entries
    requires SortedByName(todo)
    ensures InPathOrder(FilesOf(dir, todo))
    decreases dir, |todo|
  {
    if todo != [] {
      var e, rest := todo[0], todo[1..];
      assert e in dir.entries;
      FilesOfAreOrdered(dir, rest);
      FilesAtAreOrdered(dir, e);
      forall x, y | x in FilesAt(dir, e) && y in FilesOf(dir, rest)
        ensures PathLess(x.path, y.path)
      {
        FilesAtMember(dir, e, x);
        FilesOfMember(dir, rest, y);
        var d :| d in rest && y in FilesAt(dir, d);
        FilesAtMember(dir, d, y);
        var i :| 0 <= i < |rest| && rest[i] == d;
        assert NameLess(todo[0].name, todo[i + 1].name);
      }
      OrderConcat(FilesAt(dir, e), FilesOf(dir, rest));
    }
  }

  lemma {:induction false} FilesAtAreOrdered(dir: Node, e: Entry)
    requires dir.Dir? && WellFormed(dir) && e in dir.entries
    ensures InPathOrder(FilesAt(dir, e))
    decreases dir, 0
  {
    if !Excluded(e.name) && e.node.Dir? {
      FilesAreOrdered(e.node);
      UnderKeepsOrder(e.name, Files(e.node));
    }
  }

  // ---- ordered lists of files with the same elements are equal ----

  lemma OrderedFirst(s: seq<FileAt>, f: FileAt)
    requires InPathOrder(s) && s != []
    ensures f in s[1..] <==> f in s && f != s[0]
    ensures f in s && f != s[0] ==> PathLess(s[0].path, f.path)
  {
    assert s == [s[0]] + s[1..];
    PathLessIsStrict(s[0].path, s[0].path);
  }

  lemma SameAfterFirst(a: seq<FileAt>, b: seq<FileAt>)
    requires InPathOrder(a) && InPathOrder(b) && SameElements(a, b) && a != [] && b != []
    ensures a[0] == b[0] && SameElements(a[1..], b[1..])
  {
    assert a[0] in b && b[0] in a;
    OrderedFirst(a, b[0]);
    OrderedFirst(b, a[0]);
    PathLessIsStrict(a[0].path, b[0].path);
    forall f: FileAt
      ensures f in a[1..] <==> f in b[1..]
    {
      OrderedFirst(a, f);
      OrderedFirst(b, f);
    }
  }

  lemma {:induction false} OrderedIsUnique(a: seq<FileAt>, b: seq<FileAt>)
    requires InPathOrder(a) && InPathOrder(b) && SameElements(a, b)
    ensures a == b
  {
    if a != [] {
      assert a[0] in b;
    }
    if b != [] {
      assert b[0] in a;
      SameAfterFirst(a, b);
      OrderedIsUnique(a[1..], b[1..]);
      assert a == [a[0]] + a[1..];
      assert b == [b[0]] + b[1..];
    }
  }

  // ---- labels name paths ----

  ghost predicate SlashFree(path: seq<Bytes>) {
    forall i :: 0 <= i < |path| ==> SLASH !in path[i]
  }

  /** A label without its walk's prefix: every component behind a slash. */
  function Tail(path: seq<Bytes>): (r: Bytes)
    ensures path == [] <==> r == []
    ensures r != [] ==> r[0] == SLASH
  {
    if path == [] then [] else [SLASH] + path[0] + Tail(path[1..])
  }

  lemma {:induction false} LabelIsTagAndTail(tag: Bytes, path: seq<Bytes>)
    ensures PathLabel(tag, path) == tag + Tail(path)
    decreases |path|
  {
    if path != [] {
      LabelIsTagAndTail(Child(tag, path[0]), path[1..]);
    }
  }

  lemma NotLonger(a: Bytes, s: Bytes, b: Bytes, t: Bytes)
    requires SLASH !in b && a + s == b + t && (s != [] ==> s[0] == SLASH)
    ensures |b| <= |a|
  {
    assert |a| < |a + s| ==> (a + s)[|a|] == SLASH;
    assert forall i :: 0 <= i < |b| ==> (b + t)[i] in b;
  }

  /** A slash-free name followed by a tail can be cut in one place only. */
  lemma NameEndsAtSlash(a: Bytes, s: Bytes, b: Bytes, t: Bytes)
    requires SLASH !in a && SLASH !in b && a + s == b + t
    requires (s != [] ==> s[0] == SLASH) && (t != [] ==> t[0] == SLASH)
    ensures a == b && s == t
  {
    var whole := a + s;
    NotLonger(a, s, b, t);
    NotLonger(b, t, a, s);
    assert a == whole[..|a|] && b == (b + t)[..|b|];
    assert s == whole[|a|..] && t == (b + t)[|b|..];
  }

  lemma {:induction false} TailIsInjective(p: seq<Bytes>, q: seq<Bytes>)
    requires SlashFree(p) && SlashFree(q) && Tail(p) == Tail(q)
    ensures p == q
    decreases |p|
  {
    if p != [] {
      assert Tail(p)[1..] == p[0] + Tail(p[1..]);
      assert Tail(q)[1..] == q[0] + Tail(q[1..]);
      NameEndsAtSlash(p[0], Tail(p[1..]), q[0], Tail(q[1..]));
      TailIsInjective(p[1..], q[1..]);
      assert p == [p[0]] + p[1..];
      assert q == [q[0]] + q[1..];
    }
  }

  lemma LabelIsInjective(tag: Bytes, p: seq<Bytes>, q: seq<Bytes>)
    requires SlashFree(p) && SlashFree(q) && PathLabel(tag, p) == PathLabel(tag, q)
    ensures p == q
  {
    LabelIsTagAndTail(tag, p);
    LabelIsTagAndTail(tag, q);
    assert Tail(p) == (tag + Tail(p))[|tag|..];
    assert Tail(q) == (tag + Tail(q))[|tag|..];
    TailIsInjective(p, q);
  }

  lemma {:induction false} LookupIsSlashFree(node: Node, path: seq<Bytes>)
    requires WellFormed(node) && Lookup(node, path).Some?
    ensures SlashFree(path)
    decreases |path|
  {
    if path != [] {
      FindIsMember(node.entries, path[0]);
      var child := Find(node.entries, path[0]).value;
      assert Entry(path[0], child) in node.entries;
      LookupIsSlashFree(child, path[1..]);
      assert path == [path[0]] + path[1..];
    }
  }

  lemma LabelledIsInjective(tag: Bytes, a: Node, b: Node)
    requires a.Dir? && b.Dir? && WellFormed(a) && WellFormed(b)
    requires Labelled(tag, Files(a)) == Labelled(tag, Files(b))
    ensures Files(a) == Files(b)
  {
    var fa, fb := Files(a), Files(b);
    assert |fa| == |Labelled(tag, fa)| == |fb|;
    forall i | 0 <= i < |fa|
      ensures fa[i] == fb[i]
    {
      assert fa[i] in fa && fb[i] in fb;
      FilesAreFound(a, fa[i]);
      FilesAreFound(b, fb[i]);
      LookupIsSlashFree(a, fa[i].path);
      LookupIsSlashFree(b, fb[i].path);
      assert Labelled(tag, fa)[i] == Labelled(tag, fb)[i];
      LabelIsInjective(tag, fa[i].path, fb[i].path);
    }
  }

  // ---- the main results ----

  lemma SameFilesSameWalk(a: Node, b: Node)
    requires a.Dir? && b.Dir? && WellFormed(a) && WellFormed(b)
    ensures SameFiles(a, b) <==> Files(a) == Files(b)
  {
    FilesAreOrdered(a);
    FilesAreOrdered(b);
    if SameFiles(a, b) {
      forall f: FileAt
        ensures f in Files(a) <==> f in Files(b)
      {
        FilesAreFound(a, f);
        FilesAreFound(b, f);
        assert Lookup(a, f.path) == Lookup(b, f.path);
      }
      OrderedIsUnique(Files(a), Files(b));
    }
    if Files(a) == Files(b) {
      forall path: seq<Bytes>
        ensures Lookup(a, path) == Lookup(b, path)
      {
        SameLookup(a, b, path);
      }
    }
  }

  lemma SameLookup(a: Node, b: Node, path: seq<Bytes>)
    requires a.Dir? && b.Dir? && WellFormed(a) && WellFormed(b) && Files(a) == Files(b)
    ensures Lookup(a, path) == Lookup(b, path)
  {
    if Lookup(a, path).Some? {
      FilesAreFound(a, FileAt(path, Lookup(a, path).value));
      FilesAreFound(b, FileAt(path, Lookup(a, path).value));
    }
    if Lookup(b, path).Some? {
      FilesAreFound(a, FileAt(path, Lookup(b, path).value));
      FilesAreFound(b, FileAt(path, Lookup(b, path).value));
    }
  }

  lemma TreeIsCanonical(tag: Bytes, a: Node, b: Node)
    requires WellFormed(a) && WellFormed(b) && Tree(tag, a).Ok? && Tree(tag, b).Ok?
    ensures Tree(tag, a).value == Tree(tag, b).value <==> SameFiles(a, b)
  {
    WalkFeedsFiles(tag, a);
    WalkFeedsFiles(tag, b);
    SameFilesSameWalk(a, b);
    if Tree(tag, a).value == Tree(tag, b).value {
      LabelledIsInjective(tag, a, b);
    }
  }

  /**
   Canonical manifest: of two trees that can be walked, the byte streams are equal exactly when
   every path holds the same bytes in both. Listing order, empty directories and excluded
   directories leave no trace; everything else does.
   */
  lemma CanonicalManifest(tag: Bytes, a: Node, b: Node)
    requires WellFormed(a) && WellFormed(b) && Tree(tag, a).Ok? && Tree(tag, b).Ok?
    requires AllRepresentable(Tree(tag, a).value) && AllRepresentable(Tree(tag, b).value)
    ensures Encode(Tree(tag, a).value) == Encode(Tree(tag, b).value) <==> SameFiles(a, b)
  {
    UniquelyDecodable(Tree(tag, a).value, Tree(tag, b).value);
    TreeIsCanonical(tag, a, b);
  }

  /** No entry the walk reaches is misnamed, linked, special or unreadable. */
  ghost predicate Clean(node: Node)
    decreases node
  {
    node.Dir? && forall e :: e in node.entries ==>
      Utf8(e.name) && (Excluded(e.name) || e.node.File? || Clean(e.node))
  }

  /** The walk succeeds exactly on clean trees. */
  lemma {:induction false} TreeSucceeds(tag: Bytes, root: Node)
    ensures Tree(tag, root).Ok? <==> Clean(root)
    decreases root, if root.Dir? then |root.entries| + 1 else 0
  {
    if root.Dir? {
      EntriesSucceed(tag, root, SortByName(root.entries));
      assert forall e :: e in SortByName(root.entries) <==> e in root.entries;
    }
  }

  lemma {:induction false} EntriesSucceed(tag: Bytes, dir: Node, todo: seq<Entry>)
    requires dir.Dir? && |todo| <= |dir.entries| && forall e :: e in todo ==> e in dir.entries
    ensures WalkEntries(tag, dir, todo).Ok? <==>
      forall e :: e in todo ==> Utf8(e.name) && (Excluded(e.name) || e.node.File? || Clean(e.node))
    decreases dir, |todo|
  {
    if todo != [] {
      var e := todo[0];
      assert todo == [e] + todo[1..];
      assert e in dir.entries;
      EntriesSucceed(tag, dir, todo[1..]);
      if e.node.Dir? {
        TreeSucceeds(Child(tag, e.name), e.node);
      }
    }
  }
}
