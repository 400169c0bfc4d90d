/** Everything `emit` feeds the hash, one input after another (cli/build_marker.rs). */
module BuildInputs {
  import opened Common
  import opened ByteStream
  import opened BuildManifest
  import opened ManifestTheorems

  /** One input: a record of its own, which cannot be made when its bytes cannot be read, or a whole directory tree. */
  datatype Input = Single(tag: Bytes, content: Option<Bytes>) | Whole(tag: Bytes, root: Node)

  function RecordsOf(input: Input): Result<seq<Record>, Failure> {
    match input
    case Single(tag, content) => if content.Some? then Ok([Record(tag, content.value)]) else Err(Io)
    case Whole(tag, root) => Tree(tag, root)
  }

  /** The records of all inputs, or the first failure. */
  function Manifest(inputs: seq<Input>): Result<seq<Record>, Failure> {
    if inputs == [] then Ok([])
    else
      var first := RecordsOf(inputs[0]);
      if first.Err? then first
      else
        var rest := Manifest(inputs[1..]);
        if rest.Err? then rest else Ok(first.value + rest.value)
  }

  // ---- which labels an input can write ----

  /** The label is one of a file below `tree`. */
  predicate IsBelow(tree: Bytes, tag: Bytes) { tree + [SLASH] <= tag }

  /** The input may write the label. */
  predicate Claims(input: Input, tag: Bytes) {
    if input.Single? then tag == input.tag else IsBelow(input.tag, tag)
  }

  /** Some label below `tree` may be written by the input too. */
  predicate Overlaps(tree: Bytes, input: Input) {
    || IsBelow(tree, input.tag)
    || (input.Whole? && (tree == input.tag || IsBelow(input.tag, tree)))
  }

  /** No input behind a tree may write a label below it. */
  ghost predicate Separate(inputs: seq<Input>) {
    forall i, j :: 0 <= i < j < |inputs| && inputs[i].Whole? ==> !Overlaps(inputs[i].tag, inputs[j])
  }

  lemma SameLength(a: Bytes, b: Bytes, tag: Bytes)
    requires IsBelow(a, tag) && IsBelow(b, tag)
    ensures a == b || IsBelow(a, b) || IsBelow(b, a)
  {
    assert a == tag[..|a|] && b == tag[..|b|] && tag[|a|] == SLASH && tag[|b|] == SLASH;
    if |a| < |b| {
      assert a + [SLASH] == tag[..|a| + 1] == b[..|a| + 1];
    } else if |b| < |a| {
      assert b + [SLASH] == tag[..|b| + 1] == a[..|b| + 1];
    }
  }

  lemma OverlapIsShown(tree: Bytes, input: Input, tag: Bytes)
    requires IsBelow(tree, tag) && Claims(input, tag)
    ensures Overlaps(tree, input)
  {
    if input.Whole? {
      SameLength(tree, input.tag, tag);
    }
  }

  lemma WrittenByTree(tag: Bytes, root: Node, r: Record)
    requires WellFormed(root) && Tree(tag, root).Ok? && r in Tree(tag, root).value
    ensures IsBelow(tag, r.tag)
  {
    hide Labelled, Files, WellFormed;
    var files := Files(root);
    WalkFeedsFiles(tag, root);
    var i :| 0 <= i < |Labelled(tag, files)| && Labelled(tag, files)[i] == r;
    assert files[i] in files;
    FilesAreFound(root, files[i]);
    FileIsBelow(tag, files[i].path);
  }

  lemma FileIsBelow(tag: Bytes, path: seq<Bytes>)
    requires path != []
    ensures IsBelow(tag, PathLabel(tag, path))
  {
    var tail := Tail(path);
    LabelIsTagAndTail(tag, path);
    assert (tag + tail)[..|tag| + 1] == tag + [SLASH];
  }

  ghost predicate AllWellFormed(inputs: seq<Input>) {
    forall i :: 0 <= i < |inputs| && inputs[i].Whole? ==> WellFormed(inputs[i].root)
  }

  lemma WrittenByInput(input: Input, r: Record)
    requires input.Whole? ==> WellFormed(input.root)
    requires RecordsOf(input).Ok? && r in RecordsOf(input).value
    ensures Claims(input, r.tag)
  {
    if input.Whole? {
      WrittenByTree(input.tag, input.root, r);
    }
  }

  /** A record of the manifest was written by one of the inputs. */
  lemma {:induction false} WrittenBySome(inputs: seq<Input>, r: Record) returns (j: nat)
    requires AllWellFormed(inputs) && Manifest(inputs).Ok? && r in Manifest(inputs).value
    ensures j < |inputs| && Claims(inputs[j], r.tag)
  {
    if r in RecordsOf(inputs[0]).value {
      WrittenByInput(inputs[0], r);
      j := 0;
    } else {
      var k := WrittenBySome(inputs[1..], r);
      j := k + 1;
    }
  }

  /** What follows a tree writes nothing below it. */
  lemma NothingBelow(inputs: seq<Input>, r: Record)
    requires inputs != [] && inputs[0].Whole? && Separate(inputs) && AllWellFormed(inputs)
    requires Manifest(inputs[1..]).Ok? && r in Manifest(inputs[1..]).value
    ensures !IsBelow(inputs[0].tag, r.tag)
  {
    var j := WrittenBySome(inputs[1..], r);
    if IsBelow(inputs[0].tag, r.tag) {
      OverlapIsShown(inputs[0].tag, inputs[j + 1], r.tag);
    }
  }

  // ---- the list of inputs can be read back ----

  /** The same label on the same kind of input. */
  predicate Alike(a: Input, b: Input) {
    a.Single? == b.Single? && a.tag == b.tag
  }

  ghost predicate SameShape(a: seq<Input>, b: seq<Input>) {
    |a| == |b| && forall i :: 0 <= i < |a| ==> Alike(a[i], b[i])
  }

  ghost predicate SameContent(a: Input, b: Input) {
    if a.Single? && b.Single? then a.content == b.content
    else a.Whole? && b.Whole? && SameFiles(a.root, b.root)
  }

  ghost predicate SameInputs(a: seq<Input>, b: seq<Input>) {
    |a| == |b| && forall i :: 0 <= i < |a| ==> SameContent(a[i], b[i])
  }

  lemma InputIsCanonical(a: Input, b: Input)
    requires Alike(a, b) && RecordsOf(a).Ok? && RecordsOf(b).Ok?
    requires a.Whole? ==> WellFormed(a.root) && WellFormed(b.root)
    ensures RecordsOf(a) == RecordsOf(b) <==> SameContent(a, b)
  {
    if a.Whole? {
      TreeIsCanonical(a.tag, a.root, b.root);
    }
  }

  lemma NotShorter(x: seq<Record>, s: seq<Record>, y: seq<Record>, t: seq<Record>, tree: Bytes)
    requires x + s == y + t
    requires forall r :: r in y ==> IsBelow(tree, r.tag)
    requires forall r :: r in s ==> !IsBelow(tree, r.tag)
    ensures |y| <= |x|
  {
    hide IsBelow;
    assert forall i :: 0 <= i < |y| ==> (y + t)[i] in y;
    assert |x| < |x + s| ==> (x + s)[|x|] in s;
  }

  /** Where the records below a tree end is seen from the records. */
  lemma CutIsUnique(x: seq<Record>, s: seq<Record>, y: seq<Record>, t: seq<Record>, tree: Bytes)
    requires x + s == y + t
    requires forall r :: r in x || r in y ==> IsBelow(tree, r.tag)
    requires forall r :: r in s || r in t ==> !IsBelow(tree, r.tag)
    ensures x == y && s == t
  {
    hide IsBelow;
    NotShorter(x, s, y, t, tree);
    NotShorter(y, t, x, s, tree);
    assert x == (x + s)[..|x|] && y == (y + t)[..|y|];
    assert s == (x + s)[|x|..] && t == (y + t)[|y|..];
  }

  lemma ShapeOfRest(a: seq<Input>, b: seq<Input>)
    requires a != [] && SameShape(a, b)
    ensures b != [] && Alike(a[0], b[0]) && SameShape(a[1..], b[1..])
    ensures SameInputs(a, b) <==> SameContent(a[0], b[0]) && SameInputs(a[1..], b[1..])
  {
    hide SameContent;
    if SameContent(a[0], b[0]) && SameInputs(a[1..], b[1..]) {
      forall i | 0 <= i < |a|
        ensures SameContent(a[i], b[i])
      {
        assert i > 0 ==> a[1..][i - 1] == a[i] && b[1..][i - 1] == b[i];
      }
    }
  }

  lemma SeparateFromShape(a: seq<Input>, b: seq<Input>)
    requires SameShape(a, b) && Separate(a)
    ensures Separate(b)
  {
    forall i, j | 0 <= i < j < |b| && b[i].Whole?
      ensures !Overlaps(b[i].tag, b[j])
    {
      assert Alike(a[i], b[i]) && Alike(a[j], b[j]) && !Overlaps(a[i].tag, a[j]);
    }
  }

  lemma RestOfInputs(inputs: seq<Input>)
    requires inputs != [] && Separate(inputs) && AllWellFormed(inputs) && Manifest(inputs).Ok?
    ensures Separate(inputs[1..]) && AllWellFormed(inputs[1..]) && Manifest(inputs[1..]).Ok? && RecordsOf(inputs[0]).Ok?
    ensures Manifest(inputs).value == RecordsOf(inputs[0]).value + Manifest(inputs[1..]).value
    ensures inputs[0].Whole? ==>
              && (forall r :: r in RecordsOf(inputs[0]).value ==> IsBelow(inputs[0].tag, r.tag))
              && (forall r :: r in Manifest(inputs[1..]).value ==> !IsBelow(inputs[0].tag, r.tag))
  {
    hide RecordsOf, IsBelow, Overlaps, WellFormed;
    var rest := inputs[1..];
    assert forall i :: 0 <= i < |rest| ==> rest[i] == inputs[i + 1];
    if inputs[0].Whole? {
      forall r | r in RecordsOf(inputs[0]).value
        ensures IsBelow(inputs[0].tag, r.tag)
      {
        WrittenByInput(inputs[0], r);
      }
      forall r | r in Manifest(rest).value
        ensures !IsBelow(inputs[0].tag, r.tag)
      {
        NothingBelow(inputs, r);
      }
    }
  }

  /** The first input's records and the rest are found again in the manifest. */
  lemma FirstIsCutOff(a: seq<Input>, b: seq<Input>)
    requires a != [] && SameShape(a, b) && Separate(a) && AllWellFormed(a) && AllWellFormed(b)
    requires Manifest(a).Ok? && Manifest(b).Ok? && Manifest(a) == Manifest(b)
    ensures RecordsOf(a[0]) == RecordsOf(b[0]) && Manifest(a[1..]) == Manifest(b[1..])
  {
    SeparateFromShape(a, b);
    RestOfInputs(a);
    RestOfInputs(b);
    hide Manifest, IsBelow, Separate, AllWellFormed;
    var x, s := RecordsOf(a[0]).value, Manifest(a[1..]).value;
    var y, t := RecordsOf(b[0]).value, Manifest(b[1..]).value;
    if a[0].Whole? {
      CutIsUnique(x, s, y, t, a[0].tag);
    } else {
      assert x == (x + s)[..1] && y == (y + t)[..1] && s == (x + s)[1..] && t == (y + t)[1..];
    }
  }

  lemma {:induction false} ManifestsAgree(a: seq<Input>, b: seq<Input>)
    requires SameShape(a, b) && Separate(a) && AllWellFormed(a) && AllWellFormed(b)
    requires Manifest(a).Ok? && Manifest(b).Ok?
    ensures Manifest(a) == Manifest(b) <==> SameInputs(a, b)
  {
    if a != [] {
      ShapeOfRest(a, b);
      SeparateFromShape(a, b);
      RestOfInputs(a);
      RestOfInputs(b);
      ManifestsAgree(a[1..], b[1..]);
      InputIsCanonical(a[0], b[0]);
      if Manifest(a) == Manifest(b) {
        FirstIsCutOff(a, b);
      }
      hide Manifest, RecordsOf, SameInputs, SameContent;
    }
  }

  /**
   The whole manifest is canonical: between two builds with the same labels, where nothing behind a
   tree can write below it, the byte streams are equal exactly when every single input has the same
   bytes in both and every tree holds the same files in both.
   */
  lemma InputsAreCanonical(a: seq<Input>, b: seq<Input>)
    requires SameShape(a, b) && Separate(a) && AllWellFormed(a) && AllWellFormed(b)
    requires Manifest(a).Ok? && Manifest(b).Ok?
    requires AllRepresentable(Manifest(a).value) && AllRepresentable(Manifest(b).value)
    ensures Encode(Manifest(a).value) == Encode(Manifest(b).value) <==> SameInputs(a, b)
  {
    hide Manifest, SameInputs, Separate, SameShape, AllWellFormed;
    UniquelyDecodable(Manifest(a).value, Manifest(b).value);
    ManifestsAgree(a, b);
  }

  // ---- labels that are not kept apart ----

  /** A directory that holds one thing. */
  function Holding(name: Bytes, node: Node): Node { Dir([Entry(name, node)]) }

  lemma OnlyEntry(tag: Bytes, name: Bytes, node: Node)
    requires Utf8(name) && !Excluded(name) && SLASH !in name && WellFormed(node)
    ensures WellFormed(Holding(name, node))
    ensures node.Dir? ==> Tree(tag, Holding(name, node)) == Tree(Child(tag, name), node)
    ensures node.File? ==> Tree(tag, Holding(name, node)) == Ok([Record(Child(tag, name), node.content)])
  {
    var e := Entry(name, node);
    var dir := Holding(name, node);
    assert SortByName([e]) == [e] by {
      assert [e][1..] == [] && SortByName([]) == [];
    }
    var walk := WalkEntry(tag, dir, e);
    assert WalkEntries(tag, dir, [e]) == walk by {
      assert [e][1..] == [] && WalkEntries(tag, dir, []) == Ok([]);
      assert walk.Ok? ==> walk.value + [] == walk.value;
    }
  }

  lemma EmptyTree(tag: Bytes)
    ensures WellFormed(Dir([])) && Tree(tag, Dir([])) == Ok([])
    ensures forall name :: Lookup(Dir([]), [name]) == None
  {
    assert SortByName([]) == [];
  }

  lemma FoundInside(name: Bytes, content: Bytes)
    requires !Excluded(name)
    ensures Lookup(Holding(name, File(content)), [name]) == Some(content)
  {
    assert [name][1..] == [];
    assert Lookup(File(content), []) == Some(content);
  }

  /** A tree with one file, in a directory that is fed once more, empty, as a tree of its own. */
  function Nested(tag: Bytes, name: Bytes, content: Bytes): seq<Input> {
    [Whole(tag, Holding(name, Holding(name, File(content)))), Whole(Child(tag, name), Dir([]))]
  }

  /** The file moved from the first tree to the second. */
  function Moved(tag: Bytes, name: Bytes, content: Bytes): seq<Input> {
    [Whole(tag, Holding(name, Dir([]))), Whole(Child(tag, name), Holding(name, File(content)))]
  }

  lemma NestedRecords(tag: Bytes, name: Bytes, content: Bytes)
    requires Utf8(name) && !Excluded(name) && SLASH !in name
    ensures AllWellFormed(Nested(tag, name, content))
    ensures Manifest(Nested(tag, name, content)) == Ok([Record(Child(Child(tag, name), name), content)])
  {
    EmptyTree(Child(tag, name));
    OnlyEntry(Child(tag, name), name, File(content));
    OnlyEntry(tag, name, Holding(name, File(content)));
    var inputs := Nested(tag, name, content);
    assert inputs[0].Whole? && inputs[1].Whole? && WellFormed(inputs[0].root) && WellFormed(inputs[1].root);
    hide Tree, Utf8, WellFormed, Manifest, Holding;
    TwoTrees(inputs);
    var file := [Record(Child(Child(tag, name), name), content)];
    assert file + [] == file && [] + file == file;
  }

  lemma MovedRecords(tag: Bytes, name: Bytes, content: Bytes)
    requires Utf8(name) && !Excluded(name) && SLASH !in name
    ensures AllWellFormed(Moved(tag, name, content))
    ensures Manifest(Moved(tag, name, content)) == Ok([Record(Child(Child(tag, name), name), content)])
  {
    EmptyTree(Child(tag, name));
    OnlyEntry(Child(tag, name), name, File(content));
    OnlyEntry(tag, name, Dir([]));
    var inputs := Moved(tag, name, content);
    assert inputs[0].Whole? && inputs[1].Whole? && WellFormed(inputs[0].root) && WellFormed(inputs[1].root);
    hide Tree, Utf8, WellFormed, Manifest, Holding;
    TwoTrees(inputs);
    var file := [Record(Child(Child(tag, name), name), content)];
    assert file + [] == file && [] + file == file;
  }

  /** Of two trees of which one's label lies below the other's a file can move from one to the other unseen. */
  lemma LabelsMustBeApart(tag: Bytes, name: Bytes, content: Bytes)
    requires Utf8(name) && !Excluded(name) && SLASH !in name
    ensures var a, b := Nested(tag, name, content), Moved(tag, name, content);
      && SameShape(a, b) && AllWellFormed(a) && AllWellFormed(b) && !Separate(a)
      && Manifest(a).Ok? && Manifest(a) == Manifest(b) && !SameInputs(a, b)
  {
    var a, b := Nested(tag, name, content), Moved(tag, name, content);
    NestedRecords(tag, name, content);
    MovedRecords(tag, name, content);
    EmptyTree(tag);
    FoundInside(name, content);
    hide Lookup, Utf8, WellFormed, Manifest, Holding, AllWellFormed;
    assert Overlaps(a[0].tag, a[1]);
    assert Lookup(a[1].root, [name]) != Lookup(b[1].root, [name]);
    assert !SameContent(a[1], b[1]);
  }

  lemma TwoTrees(inputs: seq<Input>)
    requires |inputs| == 2 && RecordsOf(inputs[0]).Ok? && RecordsOf(inputs[1]).Ok?
    ensures Manifest(inputs) == Ok(RecordsOf(inputs[0]).value + RecordsOf(inputs[1]).value)
  {
    hide RecordsOf;
    assert inputs[1..][1..] == [] && inputs[1..][0] == inputs[1];
    assert Manifest([]) == Ok([]);
    var second := RecordsOf(inputs[1]).value;
    assert second + [] == second;
  }

  // ---- the inputs of a build ----

  /** The bytes of an ASCII text. */
  function Ascii(s: string): (r: Bytes)
    ensures |r| == |s| && forall i :: 0 <= i < |s| ==> r[i] == (s[i] as int % 256) as byte
  {
    seq(|s|, i requires 0 <= i < |s| => (s[i] as int % 256) as byte)
  }

  /** What a tool printed, its errors and its exit status. */
  datatype Version = Version(output: Bytes, errors: Bytes, status: Bytes)

  /**
   What `emit` finds: the files and trees of the repository, the optional Cargo settings that exist, the
   dependencies in the order of their ids, the resolved graph, the chosen variables and the two tools.
   */
  datatype Build = Build(
    cargo: Option<Bytes>, lock: Option<Bytes>, script: Option<Bytes>, marker: Option<Bytes>,
    source: Node, protocol: Node, skills: Node, skillData: Node, dashboard: Node,
    extension: Option<Bytes>, recorder: Option<Bytes>, generated: Option<Bytes>,
    settings: seq<(Bytes, Option<Bytes>)>, dependencies: seq<(Bytes, Node)>, graph: Bytes,
    variables: seq<(Bytes, Bytes)>, compiler: Version, linker: Version)

  function First(b: Build): seq<Input> {
    [Single(Ascii("schema"), Some(Ascii("chrome-use-cufg-input" + "-manifest-v1"))),
     Single(Ascii("cli/Cargo.toml"), b.cargo), Single(Ascii("cli/Cargo.lock"), b.lock),
     Single(Ascii("cli/build.rs"), b.script), Single(Ascii("cli/build_marker.rs"), b.marker)]
  }

  function SourceTag(): Bytes { Ascii("cli/s") + Ascii("rc") }
  function ProtocolTag(): Bytes { Ascii("cli/c") + Ascii("dp-protocol") }
  function SkillsTag(): Bytes { Ascii("skills") }
  function SkillDataTag(): Bytes { Ascii("skill-") + Ascii("data") }
  function DashboardTag(): Bytes { Ascii("p") + Ascii("ackages/dashboard/out") }

  function Trees(b: Build): seq<Input> {
    [Whole(SourceTag(), b.source), Whole(ProtocolTag(), b.protocol), Whole(SkillsTag(), b.skills),
     Whole(SkillDataTag(), b.skillData), Whole(DashboardTag(), b.dashboard)]
  }

  function ExtensionTag(): Bytes { Ascii("e") + Ascii("xtensions/ab-connect/") }

  /** The files between the trees of the repository and those of the dependencies. */
  function Between(b: Build): seq<Input> {
    [Single(ExtensionTag() + Ascii("manifest.json"), b.extension),
     Single(ExtensionTag() + Ascii("teach-recorder.js"), b.recorder),
     Single(Ascii("g") + Ascii("enerated/cdp_generated.rs"), b.generated)]
    + seq(|b.settings|, i requires 0 <= i < |b.settings| =>
            Single(Ascii(".") + Ascii("cargo/config") + b.settings[i].0, b.settings[i].1))
  }

  function DependencyTag(id: Bytes): Bytes { Ascii("d") + Ascii("ependency/") + id }

  function Dependencies(b: Build): seq<Input> {
    seq(|b.dependencies|, i requires 0 <= i < |b.dependencies| =>
          Whole(DependencyTag(b.dependencies[i].0), b.dependencies[i].1))
  }

  function Printed(tag: Bytes, v: Version): seq<Input> {
    [Single(tag, Some(v.output)), Single(tag + Ascii("/stderr"), Some(v.errors)),
     Single(tag + Ascii("/status"), Some(v.status))]
  }

  function Last(b: Build): seq<Input> {
    [Single(Ascii("r") + Ascii("esolved-graph"), Some(b.graph))]
    + seq(|b.variables|, i requires 0 <= i < |b.variables| => Single(b.variables[i].0, Some(b.variables[i].1)))
    + Printed(Ascii("r") + Ascii("ustc-vV"), b.compiler) + Printed(Ascii("l") + Ascii("inker-version"), b.linker)
  }

  /** Everything that is fed, in order. */
  function Fed(b: Build): seq<Input> {
    First(b) + (Trees(b) + (Between(b) + (Dependencies(b) + Last(b))))
  }

  /** The variables that are chosen: Cargo's and the compiler's, in capitals, and the selected linker. */
  predicate IsVariable(name: Bytes) {
    (name != [] && 65 <= name[0] <= 90) || name == Ascii("se") + Ascii("lected-linker")
  }

  /** No dependency's id extends that of another by a slash, or is the same. */
  ghost predicate IdsAreApart(b: Build) {
    forall i, j :: 0 <= i < j < |b.dependencies| ==>
      !Overlaps(DependencyTag(b.dependencies[i].0), Whole(DependencyTag(b.dependencies[j].0), b.dependencies[j].1))
  }

  // ---- the labels of a build are kept apart ----

  /** Labels whose beginnings differ somewhere do not overlap. */
  lemma HeadsApart(h: Bytes, tree: Bytes, g: Bytes, input: Input, k: nat)
    requires h <= tree && g <= input.tag && k < |h| && k < |g| && h[k] != g[k]
    ensures !Overlaps(tree, input)
  {
    assert tree[k] == h[k] && input.tag[k] == g[k];
  }

  ghost predicate ApartFrom(a: seq<Input>, b: seq<Input>) {
    forall x, y :: x in a && y in b && x.Whole? ==> !Overlaps(x.tag, y)
  }

  lemma SeparateConcat(a: seq<Input>, b: seq<Input>)
    requires Separate(a) && Separate(b) && ApartFrom(a, b)
    ensures Separate(a + b)
  {
    hide Overlaps;
    var c := a + b;
    forall i, j | 0 <= i < j < |c| && c[i].Whole?
      ensures !Overlaps(c[i].tag, c[j])
    {
      if i < |a| && j < |a| {
        assert a[i] == c[i] && a[j] == c[j];
      } else if i < |a| {
        assert c[i] in a && c[j] in b;
      } else {
        assert b[i - |a|] == c[i] && b[j - |a|] == c[j];
      }
    }
  }

  lemma SinglesAreSeparate(a: seq<Input>, b: seq<Input>)
    requires forall x :: x in a ==> x.Single?
    ensures Separate(a) && ApartFrom(a, b)
  {
    assert forall i :: 0 <= i < |a| ==> a[i] in a;
  }

  /** How every label behind the repository's own trees begins. */
  predicate Foreign(tag: Bytes) {
    && tag != []
    && (tag[0] in {46, 100, 101, 103, 108, 114} || 65 <= tag[0] <= 90 || (|tag| > 1 && tag[0] == 115 && tag[1] == 101))
  }

  lemma BetweenIsForeign(b: Build, y: Input)
    requires y in Between(b)
    ensures y.Single? && Foreign(y.tag)
  {
    hide Foreign;
    LetterIsForeign('e', y.tag);
    LetterIsForeign('g', y.tag);
    LetterIsForeign('.', y.tag);
    Begins(Ascii("e"), Ascii("xtensions/ab-connect/"), Ascii("manifest.json"));
    Begins(Ascii("e"), Ascii("xtensions/ab-connect/"), Ascii("teach-recorder.js"));
    hide Ascii;
    var own := |Between(b)| - |b.settings|;
    var i :| 0 <= i < |Between(b)| && Between(b)[i] == y;
    if i >= own {
      Begins(Ascii("."), Ascii("cargo/config"), b.settings[i - own].0);
    }
  }

  lemma Begins(head: Bytes, middle: Bytes, rest: Bytes)
    ensures head <= head + middle + rest && head <= head + middle
  {
  }

  lemma LetterIsForeign(c: char, tag: Bytes)
    requires c in {'e', 'g', '.', 'd', 'r', 'l'}
    ensures Ascii([c]) <= tag ==> Foreign(tag)
  {
    assert |Ascii([c])| == 1;
  }

  lemma DependencyIsForeign(b: Build, y: Input)
    requires y in Dependencies(b)
    ensures Foreign(y.tag) && Ascii("d") <= y.tag
  {
    hide Foreign;
    LetterIsForeign('d', y.tag);
    hide Ascii;
    var i :| 0 <= i < |b.dependencies| && Dependencies(b)[i] == y;
    Begins(Ascii("d"), Ascii("ependency/"), b.dependencies[i].0);
  }

  lemma PrintedBegins(head: Bytes, middle: Bytes, v: Version, y: Input)
    requires y in Printed(head + middle, v)
    ensures y.Single? && head <= y.tag
  {
    hide Ascii;
    Begins(head, middle, Ascii("/stderr"));
    Begins(head, middle, Ascii("/status"));
  }

  lemma VariableIsForeign(name: Bytes)
    requires IsVariable(name)
    ensures Foreign(name) && name[0] != 100
  {
    var se, rest := Ascii("se"), Ascii("lected-linker");
    assert se[0] == 115 && se[1] == 101;
    if name == se + rest {
      assert name[0] == se[0] && name[1] == se[1];
    }
  }

  lemma LetterIs(c: char, tag: Bytes)
    requires Ascii([c]) <= tag
    ensures tag != [] && tag[0] == (c as int % 256) as byte
  {
    assert |Ascii([c])| == 1 && tag[0] == Ascii([c])[0];
  }

  lemma LastIsForeign(b: Build, y: Input)
    requires y in Last(b) && forall i :: 0 <= i < |b.variables| ==> IsVariable(b.variables[i].0)
    ensures y.Single? && Foreign(y.tag) && y.tag[0] != 100
  {
    hide Foreign, IsVariable;
    LetterIsForeign('r', y.tag);
    LetterIsForeign('l', y.tag);
    var r, l := Ascii("r"), Ascii("l");
    var compiler := Printed(r + Ascii("ustc-vV"), b.compiler);
    var linker := Printed(l + Ascii("inker-version"), b.linker);
    if y in compiler {
      PrintedBegins(r, Ascii("ustc-vV"), b.compiler, y);
      LetterIs('r', y.tag);
    } else if y in linker {
      PrintedBegins(l, Ascii("inker-version"), b.linker, y);
      LetterIs('l', y.tag);
    } else if y == Single(r + Ascii("esolved-graph"), Some(b.graph)) {
      LetterIs('r', y.tag);
    } else {
      var i :| 0 <= i < |b.variables| && y == Single(b.variables[i].0, Some(b.variables[i].1));
      VariableIsForeign(b.variables[i].0);
    }
  }

  /** The labels of the repository's trees, by their beginnings. */
  lemma TreeHeads()
    ensures Ascii("cli/s") <= SourceTag() && Ascii("cli/c") <= ProtocolTag() && Ascii("skill-") <= SkillDataTag()
    ensures Ascii("p") <= DashboardTag()
    ensures Ascii("cli/s")[4] != Ascii("cli/c")[4] && Ascii("skills")[5] != Ascii("skill-")[5]
    ensures Ascii("cli/s")[0] == Ascii("cli/c")[0] == 99 && Ascii("skills")[0] == Ascii("skill-")[0] == 115
    ensures Ascii("p")[0] == 112
  {
  }

  lemma TreesAreSeparate(b: Build)
    ensures Separate(Trees(b))
  {
    TreeHeads();
    hide Ascii, SourceTag, ProtocolTag, SkillDataTag, DashboardTag;
    var t := Trees(b);
    HeadsApart(Ascii("cli/s"), t[0].tag, Ascii("cli/c"), t[1], 4);
    HeadsApart(Ascii("skills"), t[2].tag, Ascii("skill-"), t[3], 5);
    FirstLetterApart(t[0], t[2]);
    FirstLetterApart(t[0], t[3]);
    FirstLetterApart(t[0], t[4]);
    FirstLetterApart(t[1], t[2]);
    FirstLetterApart(t[1], t[3]);
    FirstLetterApart(t[1], t[4]);
    FirstLetterApart(t[2], t[4]);
    FirstLetterApart(t[3], t[4]);
  }

  lemma FirstLetterApart(x: Input, y: Input)
    requires x.tag != [] && y.tag != [] && x.tag[0] != y.tag[0]
    ensures !Overlaps(x.tag, y)
  {
    HeadsApart(x.tag[..1], x.tag, y.tag[..1], y, 0);
  }

  lemma TreeFromForeign(b: Build, x: Input, y: Input)
    requires x in Trees(b) && Foreign(y.tag)
    ensures !Overlaps(x.tag, y)
  {
    TreeHeads();
    SkillHeads();
    hide Ascii, SourceTag, ProtocolTag, SkillDataTag, DashboardTag;
    if x.tag[0] != y.tag[0] {
      FirstLetterApart(x, y);
    } else {
      HeadsApart(x.tag[..2], x.tag, y.tag[..2], y, 1);
    }
  }

  lemma SkillHeads()
    ensures |Ascii("skills")| == 6 == |Ascii("skill-")| && Ascii("skills")[1] == Ascii("skill-")[1] == 107
  {
  }

  lemma DependenciesAreSeparate(b: Build)
    requires IdsAreApart(b)
    ensures Separate(Dependencies(b))
  {
    hide Overlaps, Ascii;
  }

  lemma DependenciesFromLast(b: Build)
    requires forall i :: 0 <= i < |b.variables| ==> IsVariable(b.variables[i].0)
    ensures ApartFrom(Dependencies(b), Last(b))
  {
    hide Overlaps, Foreign, IsVariable, Last, Dependencies;
    forall x, y | x in Dependencies(b) && y in Last(b)
      ensures !Overlaps(x.tag, y)
    {
      DependencyIsForeign(b, x);
      LetterIs('d', x.tag);
      LastIsForeign(b, y);
      ForeignIsSome(y.tag);
      FirstLetterApart(x, y);
    }
  }

  lemma ForeignIsSome(tag: Bytes)
    ensures Foreign(tag) ==> tag != []
  {
  }

  lemma RestIsForeign(b: Build, y: Input)
    requires y in Between(b) + (Dependencies(b) + Last(b))
    requires forall i :: 0 <= i < |b.variables| ==> IsVariable(b.variables[i].0)
    ensures Foreign(y.tag)
  {
    hide Foreign, IsVariable, Between, Last, Dependencies;
    if y in Between(b) {
      BetweenIsForeign(b, y);
    } else if y in Dependencies(b) {
      DependencyIsForeign(b, y);
    } else {
      LastIsForeign(b, y);
    }
  }

  /** Behind each tree of a build nothing can write below it, if no dependency's id extends another's by a slash. */
  lemma FedIsSeparate(b: Build)
    requires IdsAreApart(b) && forall i :: 0 <= i < |b.variables| ==> IsVariable(b.variables[i].0)
    ensures Separate(Fed(b))
  {
    var last := Last(b);
    var dependencies := Dependencies(b) + last;
    var between := Between(b) + dependencies;
    hide Overlaps, Foreign, IsVariable, Last, Dependencies, Between, Separate, ApartFrom, First, Trees;
    forall y | y in last ensures y.Single? { LastIsForeign(b, y); }
    SinglesAreSeparate(last, []);
    DependenciesAreSeparate(b);
    DependenciesFromLast(b);
    SeparateConcat(Dependencies(b), last);
    forall y | y in Between(b) ensures y.Single? { BetweenIsForeign(b, y); }
    SinglesAreSeparate(Between(b), dependencies);
    SeparateConcat(Between(b), dependencies);
    TreesAreSeparate(b);
    TreesFromRest(b);
    SeparateConcat(Trees(b), between);
    FirstAreSingle(b);
    SinglesAreSeparate(First(b), Trees(b) + between);
    SeparateConcat(First(b), Trees(b) + between);
  }

  lemma FirstAreSingle(b: Build)
    ensures forall x :: x in First(b) ==> x.Single?
  {
    hide Ascii;
  }

  lemma TreesFromRest(b: Build)
    requires forall i :: 0 <= i < |b.variables| ==> IsVariable(b.variables[i].0)
    ensures ApartFrom(Trees(b), Between(b) + (Dependencies(b) + Last(b)))
  {
    hide Overlaps, Foreign, IsVariable, Last, Dependencies, Between, Trees;
    forall x, y | x in Trees(b) && y in Between(b) + (Dependencies(b) + Last(b))
      ensures !Overlaps(x.tag, y)
    {
      RestIsForeign(b, y);
      TreeFromForeign(b, x, y);
    }
  }
}
