/** The manifest of a build, label by label, and the marker made from it (cli/build_marker.rs). */
module BuildRecords {
  import opened Common
  import opened ByteStream
  import opened BuildManifest
  import opened ManifestTheorems
  import opened BuildInputs
  import opened BuildMarker

  // ---- the labels ----

  lemma AsciiConcat(s: string, t: string)
    ensures Ascii(s + t) == Ascii(s) + Ascii(t)
  {
  }

  lemma SourceLabels()
    ensures SourceTag() == Ascii("cli/src") && ProtocolTag() == Ascii("cli/cdp-protocol")
  {
    AsciiConcat("cli/s", "rc");
    AsciiConcat("cli/c", "dp-protocol");
    hide Ascii;
    assert "cli/s" + "rc" == "cli/src" && "cli/c" + "dp-protocol" == "cli/cdp-protocol";
  }

  lemma TreeLabels()
    ensures SourceTag() == Ascii("cli/src") && ProtocolTag() == Ascii("cli/cdp-protocol")
    ensures SkillsTag() == Ascii("skills") && SkillDataTag() == Ascii("skill-data")
    ensures DashboardTag() == Ascii("packages/dashboard/out")
  {
    SourceLabels();
    AsciiConcat("skill-", "data");
    AsciiConcat("p", "ackages/dashboard/out");
    hide Ascii;
    assert "skill-" + "data" == "skill-data" && "p" + "ackages/dashboard/out" == "packages/dashboard/out";
  }

  // ---- the records of a list of inputs ----

  lemma {:induction false} ManifestConcat(a: seq<Input>, b: seq<Input>)
    ensures Manifest(a + b).Ok? <==> Manifest(a).Ok? && Manifest(b).Ok?
    ensures Manifest(a + b).Ok? ==> Manifest(a + b).value == Manifest(a).value + Manifest(b).value
  {
    hide RecordsOf;
    if a == [] {
      assert a + b == b;
    } else {
      assert (a + b)[1..] == a[1..] + b && (a + b)[0] == a[0];
      ManifestConcat(a[1..], b);
    }
  }

  /** Records of their own are made when all their bytes can be read. */
  lemma {:induction false} SinglesSucceed(inputs: seq<Input>)
    requires forall i :: 0 <= i < |inputs| ==> inputs[i].Single?
    ensures Manifest(inputs).Ok? <==> forall i :: 0 <= i < |inputs| ==> inputs[i].content.Some?
    ensures Manifest(inputs).Ok? ==>
              Manifest(inputs).value == seq(|inputs|, i requires 0 <= i < |inputs| && inputs[i].Single?
                                                        && inputs[i].content.Some? =>
                                              Record(inputs[i].tag, inputs[i].content.value))
  {
    if inputs != [] {
      SinglesSucceed(inputs[1..]);
    }
  }

  lemma AllGiven(inputs: seq<Input>, records: seq<Record>)
    requires |inputs| == |records|
    requires forall i :: 0 <= i < |inputs| ==> inputs[i] == Single(records[i].tag, Some(records[i].bytes))
    ensures Manifest(inputs) == Ok(records)
  {
    hide Manifest;
    SinglesSucceed(inputs);
    assert Manifest(inputs).value == records;
  }

  /** The label of a file: the tree's, and the names on the way to the file, each after a slash. */
  lemma {:induction false} LabelGrows(tag: Bytes, path: seq<Bytes>, name: Bytes)
    ensures PathLabel(tag, []) == tag && PathLabel(tag, path + [name]) == PathLabel(tag, path) + Ascii("/") + name
    decreases |path|
  {
    if path == [] {
      assert [name][1..] == [] && path + [name] == [name];
    } else {
      assert (path + [name])[1..] == path[1..] + [name];
      LabelGrows(Child(tag, path[0]), path[1..], name);
    }
  }

  /** The names a walk skips. */
  lemma ExcludedNames(name: Bytes)
    ensures Excluded(name) <==> name == Ascii(".git") || name == Ascii("target")
  {
  }

  // ---- the records of a build ----

  /** The records of the files of a tree, each under the tree's label and the file's path. */
  ghost function Below(tag: Bytes, root: Node): seq<Record>
    requires root.Dir?
  {
    Labelled(tag, Files(root))
  }

  ghost function BelowAll(dependencies: seq<(Bytes, Node)>): seq<Record>
    requires forall d :: d in dependencies ==> d.1.Dir?
  {
    if dependencies == [] then []
    else
      assert dependencies[0] in dependencies;
      Below(Ascii("dependency/") + dependencies[0].0, dependencies[0].1) + BelowAll(dependencies[1..])
  }

  /** What a tool printed, under its label. */
  ghost function Answers(tag: string, v: Version): seq<Record> {
    [Record(Ascii(tag), v.output), Record(Ascii(tag + "/stderr"), v.errors), Record(Ascii(tag + "/status"), v.status)]
  }

  /** All files of a build can be read and all its trees be walked. */
  ghost predicate Readable(b: Build) {
    && b.cargo.Some? && b.lock.Some? && b.script.Some? && b.marker.Some?
    && Clean(b.source) && Clean(b.protocol) && Clean(b.skills) && Clean(b.skillData) && Clean(b.dashboard)
    && b.extension.Some? && b.recorder.Some? && b.generated.Some?
    && (forall i :: 0 <= i < |b.settings| ==> b.settings[i].1.Some?)
    && (forall i :: 0 <= i < |b.dependencies| ==> Clean(b.dependencies[i].1))
  }

  lemma FirstRecords(b: Build)
    ensures Manifest(First(b)).Ok? <==> b.cargo.Some? && b.lock.Some? && b.script.Some? && b.marker.Some?
    ensures Manifest(First(b)).Ok? ==>
              Manifest(First(b)).value ==
              [Record(Ascii("schema"), Ascii("chrome-use-cufg-input" + "-manifest-v1")),
               Record(Ascii("cli/Cargo.toml"), b.cargo.value), Record(Ascii("cli/Cargo.lock"), b.lock.value),
               Record(Ascii("cli/build.rs"), b.script.value), Record(Ascii("cli/build_marker.rs"), b.marker.value)]
  {
    hide Ascii, Manifest;
    SinglesSucceed(First(b));
    assert First(b)[1].content == b.cargo && First(b)[2].content == b.lock;
    assert First(b)[3].content == b.script && First(b)[4].content == b.marker;
  }

  lemma OneTree(tag: Bytes, root: Node, rest: seq<Input>)
    ensures Manifest([Whole(tag, root)] + rest).Ok? <==> Clean(root) && Manifest(rest).Ok?
    ensures Manifest([Whole(tag, root)] + rest).Ok? ==>
              Manifest([Whole(tag, root)] + rest).value == Below(tag, root) + Manifest(rest).value
  {
    hide Labelled, Files, Clean, Tree;
    TreeSucceeds(tag, root);
    assert ([Whole(tag, root)] + rest)[1..] == rest;
    if Tree(tag, root).Ok? {
      TreeFeedsFiles(tag, root);
    }
  }

  lemma TreeFeedsFiles(tag: Bytes, root: Node)
    requires Tree(tag, root).Ok?
    ensures root.Dir? && Tree(tag, root).value == Below(tag, root)
  {
    WalkFeedsFiles(tag, root);
  }

  lemma TreeRecords(b: Build)
    ensures Manifest(Trees(b)).Ok? <==>
              Clean(b.source) && Clean(b.protocol) && Clean(b.skills) && Clean(b.skillData) && Clean(b.dashboard)
    ensures Manifest(Trees(b)).Ok? ==>
              Manifest(Trees(b)).value ==
              Below(Ascii("cli/src"), b.source) + (Below(Ascii("cli/cdp-protocol"), b.protocol)
              + (Below(Ascii("skills"), b.skills) + (Below(Ascii("skill-data"), b.skillData)
              + Below(Ascii("packages/dashboard/out"), b.dashboard))))
  {
    TreeLabels();
    hide Ascii, Manifest, Below, Clean, SourceTag, ProtocolTag, SkillsTag, SkillDataTag, DashboardTag;
    var t := Trees(b);
    assert Manifest([]) == Ok([]) by { NoInputs(); }
    OneTree(DashboardTag(), b.dashboard, []);
    OneTree(SkillDataTag(), b.skillData, [t[4]]);
    OneTree(SkillsTag(), b.skills, [t[3], t[4]]);
    OneTree(ProtocolTag(), b.protocol, [t[2], t[3], t[4]]);
    OneTree(SourceTag(), b.source, [t[1], t[2], t[3], t[4]]);
    assert [t[4]] == [t[4]] + [] && [t[3], t[4]] == [t[3]] + [t[4]];
    assert [t[2], t[3], t[4]] == [t[2]] + [t[3], t[4]];
    assert [t[1], t[2], t[3], t[4]] == [t[1]] + [t[2], t[3], t[4]];
    assert t == [t[0]] + [t[1], t[2], t[3], t[4]];
  }

  lemma NoInputs()
    ensures Manifest([]) == Ok([])
  {
  }

  lemma ExtensionLabels()
    ensures ExtensionTag() + Ascii("manifest.json") == Ascii("extensions/ab-connect/" + "manifest.json")
    ensures ExtensionTag() + Ascii("teach-recorder.js") == Ascii("extensions/ab-connect/" + "teach-recorder.js")
  {
    AsciiConcat("extensions/ab-connect/", "manifest.json");
    AsciiConcat("extensions/ab-connect/", "teach-recorder.js");
    AsciiConcat("e", "xtensions/ab-connect/");
    hide Ascii;
    assert "e" + "xtensions/ab-connect/" == "extensions/ab-connect/";
  }

  lemma FileLabels()
    ensures ExtensionTag() + Ascii("manifest.json") == Ascii("extensions/ab-connect/" + "manifest.json")
    ensures ExtensionTag() + Ascii("teach-recorder.js") == Ascii("extensions/ab-connect/" + "teach-recorder.js")
    ensures Ascii("g") + Ascii("enerated/cdp_generated.rs") == Ascii("generated/cdp_generated.rs")
    ensures Ascii(".") + Ascii("cargo/config") == Ascii(".cargo/config")
  {
    ExtensionLabels();
    AsciiConcat("g", "enerated/cdp_generated.rs");
    AsciiConcat(".", "cargo/config");
    hide Ascii, ExtensionTag;
    assert "." + "cargo/config" == ".cargo/config";
    assert "g" + "enerated/cdp_generated.rs" == "generated/cdp_generated.rs";
  }

  ghost function SettingRecords(settings: seq<(Bytes, Option<Bytes>)>): seq<Record>
    requires forall i :: 0 <= i < |settings| ==> settings[i].1.Some?
  {
    seq(|settings|, i requires 0 <= i < |settings| =>
          Record(Ascii(".cargo/config") + settings[i].0, settings[i].1.value))
  }

  ghost function FileRecords(b: Build): seq<Record>
    requires b.extension.Some? && b.recorder.Some? && b.generated.Some?
  {
    [Record(Ascii("extensions/ab-connect/" + "manifest.json"), b.extension.value),
     Record(Ascii("extensions/ab-connect/" + "teach-recorder.js"), b.recorder.value),
     Record(Ascii("generated/cdp_generated.rs"), b.generated.value)]
  }

  /** The three files that are always there. */
  ghost function FileInputs(b: Build): seq<Input> {
    [Single(Ascii("extensions/ab-connect/" + "manifest.json"), b.extension),
     Single(Ascii("extensions/ab-connect/" + "teach-recorder.js"), b.recorder),
     Single(Ascii("generated/cdp_generated.rs"), b.generated)]
  }

  ghost function SettingInputs(settings: seq<(Bytes, Option<Bytes>)>): seq<Input> {
    seq(|settings|, i requires 0 <= i < |settings| => Single(Ascii(".cargo/config") + settings[i].0, settings[i].1))
  }

  lemma BetweenInputs(b: Build)
    ensures Between(b) == FileInputs(b) + SettingInputs(b.settings)
  {
    FileLabels();
    hide Ascii, ExtensionTag;
  }

  lemma BetweenRecords(b: Build)
    ensures Manifest(Between(b)).Ok? <==>
              b.extension.Some? && b.recorder.Some? && b.generated.Some?
              && forall i :: 0 <= i < |b.settings| ==> b.settings[i].1.Some?
    ensures Manifest(Between(b)).Ok? ==> Manifest(Between(b)).value == FileRecords(b) + SettingRecords(b.settings)
  {
    BetweenInputs(b);
    hide Ascii, Manifest, Between;
    var files, settings := FileInputs(b), SettingInputs(b.settings);
    ManifestConcat(files, settings);
    SinglesSucceed(files);
    SinglesSucceed(settings);
    assert files[0].content == b.extension && files[1].content == b.recorder && files[2].content == b.generated;
    assert forall i :: 0 <= i < |b.settings| ==> settings[i].content == b.settings[i].1;
  }

  lemma {:induction false} DependencyRecords(b: Build)
    ensures Manifest(Dependencies(b)).Ok? <==> forall i :: 0 <= i < |b.dependencies| ==> Clean(b.dependencies[i].1)
    ensures Manifest(Dependencies(b)).Ok? ==>
              && (forall d :: d in b.dependencies ==> d.1.Dir?)
              && Manifest(Dependencies(b)).value == BelowAll(b.dependencies)
    decreases |b.dependencies|
  {
    AsciiConcat("d", "ependency/");
    assert "d" + "ependency/" == "dependency/";
    hide Ascii, Below;
    if b.dependencies != [] {
      var first, rest := b.dependencies[0], b.(dependencies := b.dependencies[1..]);
      DependencyRecords(rest);
      assert b.dependencies == [first] + rest.dependencies;
      assert Dependencies(b) == [Whole(DependencyTag(first.0), first.1)] + Dependencies(rest);
      hide Manifest;
      OneTree(DependencyTag(first.0), first.1, Dependencies(rest));
    }
  }

  ghost function VariableRecords(variables: seq<(Bytes, Bytes)>): seq<Record> {
    seq(|variables|, i requires 0 <= i < |variables| => Record(variables[i].0, variables[i].1))
  }

  lemma AnswerLabels(head: string, middle: string)
    ensures Ascii(head) + Ascii(middle) == Ascii(head + middle)
    ensures Ascii(head) + Ascii(middle) + Ascii("/stderr") == Ascii(head + middle + "/stderr")
    ensures Ascii(head) + Ascii(middle) + Ascii("/status") == Ascii(head + middle + "/status")
  {
    AsciiConcat(head, middle);
    AsciiConcat(head + middle, "/stderr");
    AsciiConcat(head + middle, "/status");
  }

  lemma PrintedRecords(head: string, middle: string, v: Version)
    ensures Manifest(Printed(Ascii(head) + Ascii(middle), v)) == Ok(Answers(head + middle, v))
  {
    AnswerLabels(head, middle);
    hide Ascii, Manifest;
    AllGiven(Printed(Ascii(head) + Ascii(middle), v), Answers(head + middle, v));
  }

  ghost function VariableInputs(variables: seq<(Bytes, Bytes)>): seq<Input> {
    seq(|variables|, i requires 0 <= i < |variables| => Single(variables[i].0, Some(variables[i].1)))
  }

  lemma GraphAndVariables(b: Build)
    ensures Manifest([Single(Ascii("resolved-graph"), Some(b.graph))] + VariableInputs(b.variables))
         == Ok([Record(Ascii("resolved-graph"), b.graph)] + VariableRecords(b.variables))
  {
    hide Ascii, Manifest;
    AllGiven([Single(Ascii("resolved-graph"), Some(b.graph))] + VariableInputs(b.variables),
             [Record(Ascii("resolved-graph"), b.graph)] + VariableRecords(b.variables));
  }

  lemma LastRecords(b: Build)
    ensures Manifest(Last(b)) == Ok([Record(Ascii("resolved-graph"), b.graph)]
                                    + VariableRecords(b.variables) + Answers("rustc-vV", b.compiler)
                                    + Answers("linker-version", b.linker))
  {
    AsciiConcat("r", "esolved-graph");
    assert "r" + "esolved-graph" == "resolved-graph" && "r" + "ustc-vV" == "rustc-vV";
    assert "l" + "inker-version" == "linker-version";
    PrintedRecords("r", "ustc-vV", b.compiler);
    PrintedRecords("l", "inker-version", b.linker);
    GraphAndVariables(b);
    hide Ascii, Manifest, Printed, Answers, VariableRecords;
    var front := [Single(Ascii("resolved-graph"), Some(b.graph))] + VariableInputs(b.variables);
    var compiler := Printed(Ascii("r") + Ascii("ustc-vV"), b.compiler);
    var linker := Printed(Ascii("l") + Ascii("inker-version"), b.linker);
    assert Last(b) == front + compiler + linker;
    ManifestConcat(front, compiler);
    ManifestConcat(front + compiler, linker);
  }

  /** A build can be hashed exactly when all its files can be read and all its trees be walked. */
  lemma BuildSucceeds(b: Build)
    ensures Manifest(Fed(b)).Ok? <==> Readable(b)
  {
    FirstRecords(b);
    TreeRecords(b);
    BetweenRecords(b);
    DependencyRecords(b);
    LastRecords(b);
    hide Manifest, Ascii, Clean, First, Trees, Between, Dependencies, Last;
    ManifestConcat(Dependencies(b), Last(b));
    ManifestConcat(Between(b), Dependencies(b) + Last(b));
    ManifestConcat(Trees(b), Between(b) + (Dependencies(b) + Last(b)));
    ManifestConcat(First(b), Trees(b) + (Between(b) + (Dependencies(b) + Last(b))));
  }

  /** Under which label, and in which order, everything a build consists of is hashed. */
  lemma ManifestIs(b: Build)
    requires Readable(b)
    ensures Manifest(Fed(b)).Ok? && forall d :: d in b.dependencies ==> d.1.Dir?
    ensures Manifest(Fed(b)).value ==
            [Record(Ascii("schema"), Ascii("chrome-use-cufg-input" + "-manifest-v1")),
             Record(Ascii("cli/Cargo.toml"), b.cargo.value), Record(Ascii("cli/Cargo.lock"), b.lock.value),
             Record(Ascii("cli/build.rs"), b.script.value), Record(Ascii("cli/build_marker.rs"), b.marker.value)]
            + Below(Ascii("cli/src"), b.source) + Below(Ascii("cli/cdp-protocol"), b.protocol)
            + Below(Ascii("skills"), b.skills) + Below(Ascii("skill-data"), b.skillData)
            + Below(Ascii("packages/dashboard/out"), b.dashboard)
            + [Record(Ascii("extensions/ab-connect/" + "manifest.json"), b.extension.value),
               Record(Ascii("extensions/ab-connect/" + "teach-recorder.js"), b.recorder.value),
               Record(Ascii("generated/cdp_generated.rs"), b.generated.value)]
            + seq(|b.settings|, i requires 0 <= i < |b.settings| =>
                    Record(Ascii(".cargo/config") + b.settings[i].0, b.settings[i].1.value))
            + BelowAll(b.dependencies)
            + [Record(Ascii("resolved-graph"), b.graph)]
            + seq(|b.variables|, i requires 0 <= i < |b.variables| => Record(b.variables[i].0, b.variables[i].1))
            + Answers("rustc-vV", b.compiler) + Answers("linker-version", b.linker)
  {
    FirstRecords(b);
    TreeRecords(b);
    BetweenRecords(b);
    DependencyRecords(b);
    LastRecords(b);
    hide Manifest, Ascii, Clean, First, Trees, Between, Dependencies, Last, Below, BelowAll, Answers;
    ManifestConcat(Dependencies(b), Last(b));
    ManifestConcat(Between(b), Dependencies(b) + Last(b));
    ManifestConcat(Trees(b), Between(b) + (Dependencies(b) + Last(b)));
    ManifestConcat(First(b), Trees(b) + (Between(b) + (Dependencies(b) + Last(b))));
  }

  // ---- settings and variables are read off the manifest ----

  /** What a file system and Cargo guarantee: well-formed trees, and variables under the names of variables. */
  ghost predicate Proper(b: Build) {
    && WellFormed(b.source) && WellFormed(b.protocol) && WellFormed(b.skills) && WellFormed(b.skillData)
    && WellFormed(b.dashboard) && (forall i :: 0 <= i < |b.dependencies| ==> WellFormed(b.dependencies[i].1))
    && (forall i :: 0 <= i < |b.variables| ==> IsVariable(b.variables[i].0))
  }

  /** The beginnings of the labels that are neither a settings file's nor a variable's. */
  predicate IsFixed(tag: Bytes) {
    && tag != [] && tag[0] in {99, 100, 101, 103, 108, 112, 114, 115}
    && (tag[0] == 115 ==> |tag| > 1 && tag[1] in {99, 107})
  }

  const IS_SETTING := (r: Record) => r.tag != [] && r.tag[0] == 46

  const IS_VARIABLE := (r: Record) => IsVariable(r.tag)

  lemma FixedIsNeither(x: Input, r: Record)
    requires IsFixed(x.tag) && Claims(x, r.tag)
    ensures !IS_SETTING(r) && !IS_VARIABLE(r)
  {
    assert x.tag <= r.tag;
    assert (Ascii("se") + Ascii("lected-linker"))[1] == 101;
    assert r.tag[0] == x.tag[0] && (|x.tag| > 1 ==> r.tag[1] == x.tag[1]);
  }

  lemma FixedAreNeither(inputs: seq<Input>)
    requires AllWellFormed(inputs) && Manifest(inputs).Ok? && forall x :: x in inputs ==> IsFixed(x.tag)
    ensures Filter(Manifest(inputs).value, IS_SETTING) == [] == Filter(Manifest(inputs).value, IS_VARIABLE)
  {
    hide IsFixed, Manifest;
    forall r | r in Manifest(inputs).value
      ensures !IS_SETTING(r) && !IS_VARIABLE(r)
    {
      var j := WrittenBySome(inputs, r);
      FixedIsNeither(inputs[j], r);
    }
    FilterNone(Manifest(inputs).value, IS_SETTING);
    FilterNone(Manifest(inputs).value, IS_VARIABLE);
  }

  lemma FirstAreFixed(b: Build)
    ensures forall x :: x in First(b) ==> IsFixed(x.tag)
  {
  }

  lemma TreesAreFixed(b: Build)
    ensures forall x :: x in Trees(b) ==> IsFixed(x.tag)
  {
    TreeLabels();
    hide SourceTag, ProtocolTag, SkillsTag, SkillDataTag, DashboardTag;
  }

  lemma FilesAreFixed(b: Build)
    ensures forall x :: x in FileInputs(b) ==> IsFixed(x.tag)
  {
  }

  lemma DependenciesAreFixed(b: Build)
    ensures forall x :: x in Dependencies(b) ==> IsFixed(x.tag)
  {
    hide Ascii, Dependencies, IsFixed;
    forall x | x in Dependencies(b)
      ensures IsFixed(x.tag)
    {
      DependencyIsForeign(b, x);
      LetterIs('d', x.tag);
      assert x.tag[0] == 100;
      OtherLetter(x.tag);
    }
  }

  lemma OtherLetter(tag: Bytes)
    requires tag != [] && tag[0] in {99, 100, 101, 103, 108, 112, 114}
    ensures IsFixed(tag)
  {
  }

  lemma ToolsAreFixed(b: Build)
    ensures forall x :: x in Printed(Ascii("rustc-vV"), b.compiler) ==> IsFixed(x.tag)
    ensures forall x :: x in Printed(Ascii("linker-version"), b.linker) ==> IsFixed(x.tag)
    ensures IsFixed(Ascii("resolved-graph"))
  {
    var r, l := Ascii("rustc-vV"), Ascii("linker-version");
    assert r[0] == 114 && l[0] == 108;
    hide Ascii;
  }

  ghost function Kept(inputs: seq<Input>, p: Record -> bool): seq<Record>
    requires Manifest(inputs).Ok?
  {
    Filter(Manifest(inputs).value, p)
  }

  lemma KeptConcat(a: seq<Input>, b: seq<Input>, p: Record -> bool)
    requires Manifest(a + b).Ok?
    ensures Manifest(a).Ok? && Manifest(b).Ok? && Kept(a + b, p) == Kept(a, p) + Kept(b, p)
  {
    ManifestConcat(a, b);
    FilterAppend(Manifest(a).value, Manifest(b).value, p);
  }

  lemma {:induction false} FilterAll(s: seq<Record>, p: Record -> bool)
    requires forall r :: r in s ==> p(r)
    ensures Filter(s, p) == s
  {
    if s != [] {
      FilterAll(s[1..], p);
    }
  }

  lemma NothingKept(inputs: seq<Input>, p: Record -> bool)
    requires AllWellFormed(inputs) && Manifest(inputs).Ok? && forall x :: x in inputs ==> IsFixed(x.tag)
    requires p == IS_SETTING || p == IS_VARIABLE
    ensures Kept(inputs, p) == []
  {
    FixedAreNeither(inputs);
  }

  lemma SettingsKept(settings: seq<(Bytes, Option<Bytes>)>)
    requires Manifest(SettingInputs(settings)).Ok?
    ensures forall i :: 0 <= i < |settings| ==> settings[i].1.Some?
    ensures Kept(SettingInputs(settings), IS_SETTING) == SettingRecords(settings)
    ensures Kept(SettingInputs(settings), IS_VARIABLE) == []
  {
    var inputs := SettingInputs(settings);
    hide Manifest;
    assert Ascii(".cargo/config")[0] == 46;
    SinglesSucceed(inputs);
    assert forall i :: 0 <= i < |settings| ==> inputs[i].content == settings[i].1;
    var records := Manifest(inputs).value;
    assert records == SettingRecords(settings);
    assert (Ascii("se") + Ascii("lected-linker"))[0] == 115;
    hide Ascii;
    forall r | r in records
      ensures IS_SETTING(r) && !IS_VARIABLE(r)
    {
    }
    FilterAll(records, IS_SETTING);
    FilterNone(records, IS_VARIABLE);
  }

  lemma VariablesKept(variables: seq<(Bytes, Bytes)>)
    requires forall i :: 0 <= i < |variables| ==> IsVariable(variables[i].0)
    ensures Manifest(VariableInputs(variables)) == Ok(VariableRecords(variables))
    ensures Kept(VariableInputs(variables), IS_SETTING) == []
    ensures Kept(VariableInputs(variables), IS_VARIABLE) == VariableRecords(variables)
  {
    AllGiven(VariableInputs(variables), VariableRecords(variables));
    assert (Ascii("se") + Ascii("lected-linker"))[0] == 115;
    hide Ascii, Manifest;
    FilterAll(VariableRecords(variables), IS_VARIABLE);
    FilterNone(VariableRecords(variables), IS_SETTING);
  }

  /** The settings are found again in the manifest, and so are the variables. */
  lemma ReadOff(b: Build, p: Record -> bool)
    requires Proper(b) && Readable(b) && (p == IS_SETTING || p == IS_VARIABLE)
    ensures Manifest(Fed(b)).Ok?
    ensures Kept(Fed(b), p) == if p == IS_SETTING then SettingRecords(b.settings) else VariableRecords(b.variables)
  {
    BuildSucceeds(b);
    BetweenInputs(b);
    LastInputs(b);
    hide Ascii, Manifest, Kept, First, Trees, Between, Dependencies, Last, Printed, IsFixed;
    var graph, compiler := [Single(Ascii("resolved-graph"), Some(b.graph))], Printed(Ascii("rustc-vV"), b.compiler);
    var linker := Printed(Ascii("linker-version"), b.linker);
    var files, settings, variables := FileInputs(b), SettingInputs(b.settings), VariableInputs(b.variables);
    KeptConcat(First(b), Trees(b) + (Between(b) + (Dependencies(b) + Last(b))), p);
    KeptConcat(Trees(b), Between(b) + (Dependencies(b) + Last(b)), p);
    KeptConcat(Between(b), Dependencies(b) + Last(b), p);
    KeptConcat(files, settings, p);
    KeptConcat(Dependencies(b), Last(b), p);
    KeptConcat(graph + variables, compiler + linker, p);
    KeptConcat(graph, variables, p);
    KeptConcat(compiler, linker, p);
    FixedParts(b);
    PartsAreWellFormed(b);
    hide FileInputs, SettingInputs, VariableInputs;
    NothingKept(First(b), p);
    NothingKept(Trees(b), p);
    NothingKept(files, p);
    NothingKept(Dependencies(b), p);
    NothingKept(graph, p);
    NothingKept(compiler, p);
    NothingKept(linker, p);
    SettingsKept(b.settings);
    VariablesKept(b.variables);
  }

  lemma LastInputs(b: Build)
    ensures Last(b) == ([Single(Ascii("resolved-graph"), Some(b.graph))] + VariableInputs(b.variables))
                       + (Printed(Ascii("rustc-vV"), b.compiler) + Printed(Ascii("linker-version"), b.linker))
  {
    AsciiConcat("r", "esolved-graph");
    AsciiConcat("r", "ustc-vV");
    AsciiConcat("l", "inker-version");
    hide Ascii, Printed;
    assert "r" + "esolved-graph" == "resolved-graph" && "r" + "ustc-vV" == "rustc-vV";
    assert "l" + "inker-version" == "linker-version";
  }

  lemma PartsAreWellFormed(b: Build)
    requires Proper(b)
    ensures AllWellFormed(First(b)) && AllWellFormed(Trees(b)) && AllWellFormed(FileInputs(b))
    ensures AllWellFormed(Dependencies(b)) && AllWellFormed(Printed(Ascii("rustc-vV"), b.compiler))
    ensures AllWellFormed(Printed(Ascii("linker-version"), b.linker))
  {
    hide Ascii, WellFormed, SourceTag, ProtocolTag, SkillsTag, SkillDataTag, DashboardTag;
  }

  lemma FixedParts(b: Build)
    ensures forall x :: x in First(b) || x in Trees(b) || x in FileInputs(b) || x in Dependencies(b) ==> IsFixed(x.tag)
    ensures forall x :: x in Printed(Ascii("rustc-vV"), b.compiler) ==> IsFixed(x.tag)
    ensures forall x :: x in Printed(Ascii("linker-version"), b.linker) ==> IsFixed(x.tag)
    ensures IsFixed(Ascii("resolved-graph"))
  {
    FirstAreFixed(b);
    TreesAreFixed(b);
    FilesAreFixed(b);
    DependenciesAreFixed(b);
    ToolsAreFixed(b);
    hide Ascii, IsFixed, First, Trees, FileInputs, Dependencies, Printed;
  }

  // ---- two builds ----

  /** The same dependencies by id, in the same order. */
  ghost predicate SameIds(a: Build, b: Build) {
    && |a.dependencies| == |b.dependencies|
    && forall i :: 0 <= i < |a.dependencies| ==> a.dependencies[i].0 == b.dependencies[i].0
  }

  /** No dependency's id is that of another, or extends it by a slash. */
  ghost predicate IdsApart(b: Build) {
    forall i, j :: 0 <= i < j < |b.dependencies| ==>
      var x, y := b.dependencies[i].0, b.dependencies[j].0;
      x != y && !(x + [SLASH] <= y) && !(y + [SLASH] <= x)
  }

  lemma BelowById(x: Bytes, y: Bytes)
    ensures IsBelow(DependencyTag(x), DependencyTag(y)) <==> x + [SLASH] <= y
  {
    hide Ascii;
    var head := Ascii("d") + Ascii("ependency/");
    assert head + x + [SLASH] == head + (x + [SLASH]);
    assert (head + y)[|head|..] == y && (head + (x + [SLASH]))[|head|..] == x + [SLASH];
    if head + (x + [SLASH]) <= head + y {
      var rest := (head + y)[|head| + |x + [SLASH]|..];
      assert head + y == head + (x + [SLASH]) + rest;
      assert y == (head + y)[|head|..] == (x + [SLASH]) + rest;
    }
  }

  lemma ApartById(b: Build)
    requires IdsApart(b)
    ensures IdsAreApart(b)
  {
    hide DependencyTag;
    forall i, j | 0 <= i < j < |b.dependencies|
      ensures !Overlaps(DependencyTag(b.dependencies[i].0),
                        Whole(DependencyTag(b.dependencies[j].0), b.dependencies[j].1))
    {
      var x, y := b.dependencies[i].0, b.dependencies[j].0;
      BelowById(x, y);
      BelowById(y, x);
      TagsDiffer(x, y);
    }
  }

  lemma TagsDiffer(x: Bytes, y: Bytes)
    requires x != y
    ensures DependencyTag(x) != DependencyTag(y)
  {
    hide Ascii;
    var head := Ascii("d") + Ascii("ependency/");
    assert (head + x)[|head|..] == x && (head + y)[|head|..] == y;
  }

  lemma SameSettings(a: Build, b: Build)
    requires Readable(a) && Readable(b) && SettingRecords(a.settings) == SettingRecords(b.settings)
    ensures a.settings == b.settings
  {
    hide Ascii, Clean;
    var head := Ascii(".cargo/config");
    var x, y := SettingRecords(a.settings), SettingRecords(b.settings);
    assert |x| == |a.settings| && |y| == |b.settings|;
    forall i | 0 <= i < |a.settings|
      ensures a.settings[i] == b.settings[i]
    {
      assert x[i] == y[i];
      assert (head + a.settings[i].0)[|head|..] == a.settings[i].0;
      assert (head + b.settings[i].0)[|head|..] == b.settings[i].0;
    }
  }

  lemma SameVariables(a: Build, b: Build)
    requires VariableRecords(a.variables) == VariableRecords(b.variables)
    ensures a.variables == b.variables
  {
    var x, y := VariableRecords(a.variables), VariableRecords(b.variables);
    assert |x| == |a.variables| && |y| == |b.variables|;
    forall i | 0 <= i < |a.variables|
      ensures a.variables[i] == b.variables[i]
    {
      assert x[i] == y[i];
    }
  }

  lemma SettingsAreSeen(a: Build, b: Build)
    requires Proper(a) && Proper(b) && Readable(a) && Readable(b) && Manifest(Fed(a)) == Manifest(Fed(b))
    ensures a.settings == b.settings && a.variables == b.variables
  {
    hide Proper, Readable, Manifest, Fed, SettingRecords, VariableRecords;
    ReadOff(a, IS_SETTING);
    ReadOff(b, IS_SETTING);
    OneIsNot();
    ReadOff(a, IS_VARIABLE);
    ReadOff(b, IS_VARIABLE);
    SameSettings(a, b);
    SameVariables(a, b);
  }

  lemma OneIsNot()
    ensures IS_SETTING != IS_VARIABLE
  {
    var r := Record([46], []);
    assert (Ascii("se") + Ascii("lected-linker"))[0] == 115;
    assert IS_SETTING(r) && !IS_VARIABLE(r);
  }

  lemma ShapeConcat(a: seq<Input>, b: seq<Input>, c: seq<Input>, d: seq<Input>)
    requires SameShape(a, c) && SameShape(b, d)
    ensures SameShape(a + b, c + d)
  {
    hide Alike;
  }

  lemma InputsConcat(a: seq<Input>, b: seq<Input>, c: seq<Input>, d: seq<Input>)
    requires |a| == |c|
    ensures SameInputs(a + b, c + d) <==> SameInputs(a, c) && SameInputs(b, d)
  {
    hide SameContent;
    var x, y := a + b, c + d;
    if SameInputs(x, y) {
      forall i | 0 <= i < |a| ensures SameContent(a[i], c[i]) { assert x[i] == a[i] && y[i] == c[i]; }
      forall i | 0 <= i < |b|
        ensures SameContent(b[i], d[i])
      {
        assert x[|a| + i] == b[i] && y[|a| + i] == d[i];
      }
    }
  }

  lemma PartsAlike(a: Build, b: Build)
    requires SameIds(a, b)
    ensures SameShape(First(a), First(b)) && SameShape(Trees(a), Trees(b))
    ensures SameShape(FileInputs(a), FileInputs(b)) && SameShape(Dependencies(a), Dependencies(b))
  {
    hide Ascii, SourceTag, ProtocolTag, SkillsTag, SkillDataTag, DashboardTag;
  }

  lemma RestAlike(a: Build, b: Build)
    requires a.settings == b.settings && a.variables == b.variables
    ensures SameShape(SettingInputs(a.settings), SettingInputs(b.settings)) && SameShape(Last(a), Last(b))
  {
    LastInputs(a);
    LastInputs(b);
    hide Ascii;
  }

  lemma BuildsAlike(a: Build, b: Build)
    requires SameIds(a, b) && a.settings == b.settings && a.variables == b.variables
    ensures SameShape(Fed(a), Fed(b))
  {
    PartsAlike(a, b);
    RestAlike(a, b);
    BetweenInputs(a);
    BetweenInputs(b);
    hide SameShape, First, Trees, Between, FileInputs, SettingInputs, Dependencies, Last;
    ShapeConcat(FileInputs(a), SettingInputs(a.settings), FileInputs(b), SettingInputs(b.settings));
    ShapeConcat(Dependencies(a), Last(a), Dependencies(b), Last(b));
    ShapeConcat(Between(a), Dependencies(a) + Last(a), Between(b), Dependencies(b) + Last(b));
    ShapeConcat(Trees(a), Between(a) + (Dependencies(a) + Last(a)), Trees(b), Between(b) + (Dependencies(b) + Last(b)));
    ShapeConcat(First(a), Trees(a) + (Between(a) + (Dependencies(a) + Last(a))),
                First(b), Trees(b) + (Between(b) + (Dependencies(b) + Last(b))));
  }

  // ---- what it means for the inputs of two builds to be the same ----

  lemma SameFirst(a: Build, b: Build)
    ensures SameInputs(First(a), First(b)) <==>
              a.cargo == b.cargo && a.lock == b.lock && a.script == b.script && a.marker == b.marker
  {
    hide Ascii;
    var x, y := First(a), First(b);
    assert SameContent(x[0], y[0]);
    assert SameContent(x[1], y[1]) <==> a.cargo == b.cargo;
    assert SameContent(x[2], y[2]) <==> a.lock == b.lock;
    assert SameContent(x[3], y[3]) <==> a.script == b.script;
    assert SameContent(x[4], y[4]) <==> a.marker == b.marker;
  }

  lemma SameTrees(a: Build, b: Build)
    ensures SameInputs(Trees(a), Trees(b)) <==>
              SameFiles(a.source, b.source) && SameFiles(a.protocol, b.protocol) && SameFiles(a.skills, b.skills)
              && SameFiles(a.skillData, b.skillData) && SameFiles(a.dashboard, b.dashboard)
  {
    hide Ascii, SameFiles, SourceTag, ProtocolTag, SkillsTag, SkillDataTag, DashboardTag;
    var x, y := Trees(a), Trees(b);
    assert SameContent(x[0], y[0]) <==> SameFiles(a.source, b.source);
    assert SameContent(x[1], y[1]) <==> SameFiles(a.protocol, b.protocol);
    assert SameContent(x[2], y[2]) <==> SameFiles(a.skills, b.skills);
    assert SameContent(x[3], y[3]) <==> SameFiles(a.skillData, b.skillData);
    assert SameContent(x[4], y[4]) <==> SameFiles(a.dashboard, b.dashboard);
  }

  lemma SameFixedFiles(a: Build, b: Build)
    ensures SameInputs(FileInputs(a), FileInputs(b)) <==>
              a.extension == b.extension && a.recorder == b.recorder && a.generated == b.generated
  {
    hide Ascii;
    var x, y := FileInputs(a), FileInputs(b);
    assert SameContent(x[0], y[0]) <==> a.extension == b.extension;
    assert SameContent(x[1], y[1]) <==> a.recorder == b.recorder;
    assert SameContent(x[2], y[2]) <==> a.generated == b.generated;
  }

  ghost predicate SameDependencies(a: Build, b: Build)
    requires SameIds(a, b)
  {
    forall i :: 0 <= i < |a.dependencies| ==> SameFiles(a.dependencies[i].1, b.dependencies[i].1)
  }

  lemma SameDependencyInputs(a: Build, b: Build)
    requires SameIds(a, b)
    ensures SameInputs(Dependencies(a), Dependencies(b)) <==> SameDependencies(a, b)
  {
    hide Ascii, SameFiles;
    var x, y := Dependencies(a), Dependencies(b);
    assert forall i :: 0 <= i < |x| ==>
      (SameContent(x[i], y[i]) <==> SameFiles(a.dependencies[i].1, b.dependencies[i].1));
  }

  lemma SamePrinted(tag: Bytes, v: Version, w: Version)
    ensures SameInputs(Printed(tag, v), Printed(tag, w)) <==> v == w
  {
    hide Ascii;
    var x, y := Printed(tag, v), Printed(tag, w);
    assert SameContent(x[0], y[0]) <==> v.output == w.output;
    assert SameContent(x[1], y[1]) <==> v.errors == w.errors;
    assert SameContent(x[2], y[2]) <==> v.status == w.status;
  }

  lemma SameLast(a: Build, b: Build)
    requires a.variables == b.variables
    ensures SameInputs(Last(a), Last(b)) <==> a.graph == b.graph && a.compiler == b.compiler && a.linker == b.linker
  {
    LastInputs(a);
    LastInputs(b);
    SamePrinted(Ascii("rustc-vV"), a.compiler, b.compiler);
    SamePrinted(Ascii("linker-version"), a.linker, b.linker);
    hide Ascii, Last;
    var tag, variables := Ascii("resolved-graph"), VariableInputs(a.variables);
    var x, y := [Single(tag, Some(a.graph))], [Single(tag, Some(b.graph))];
    assert SameInputs(x, y) <==> a.graph == b.graph by {
      assert SameContent(x[0], y[0]) <==> a.graph == b.graph;
    }
    assert SameInputs(variables, variables);
    hide SameInputs, Printed, VariableInputs;
    var compilerA, linkerA := Printed(Ascii("rustc-vV"), a.compiler), Printed(Ascii("linker-version"), a.linker);
    var compilerB, linkerB := Printed(Ascii("rustc-vV"), b.compiler), Printed(Ascii("linker-version"), b.linker);
    ThreeAnswers(Ascii("rustc-vV"), a.compiler, b.compiler);
    InputsConcat(x, variables, y, variables);
    InputsConcat(compilerA, linkerA, compilerB, linkerB);
    InputsConcat(x + variables, compilerA + linkerA, y + variables, compilerB + linkerB);
  }

  lemma ThreeAnswers(tag: Bytes, v: Version, w: Version)
    ensures |Printed(tag, v)| == 3 == |Printed(tag, w)|
  {
  }

  /** Every file, tree, value and tool answer is the same in both builds. */
  ghost predicate SameBuild(a: Build, b: Build)
    requires SameIds(a, b)
  {
    && a.cargo == b.cargo && a.lock == b.lock && a.script == b.script && a.marker == b.marker
    && SameFiles(a.source, b.source) && SameFiles(a.protocol, b.protocol) && SameFiles(a.skills, b.skills)
    && SameFiles(a.skillData, b.skillData) && SameFiles(a.dashboard, b.dashboard)
    && a.extension == b.extension && a.recorder == b.recorder && a.generated == b.generated
    && a.settings == b.settings && SameDependencies(a, b) && a.graph == b.graph && a.variables == b.variables
    && a.compiler == b.compiler && a.linker == b.linker
  }

  lemma SameByField(a: Build, b: Build)
    requires SameIds(a, b) && a.settings == b.settings && a.variables == b.variables
    ensures SameInputs(Fed(a), Fed(b)) <==> SameBuild(a, b)
  {
    SameFirst(a, b);
    SameTrees(a, b);
    SameFixedFiles(a, b);
    SameDependencyInputs(a, b);
    SameLast(a, b);
    BetweenInputs(a);
    BetweenInputs(b);
    PartsAlike(a, b);
    var settings := SettingInputs(a.settings);
    assert SameInputs(settings, settings);
    hide SameInputs, SameFiles, First, Trees, Between, FileInputs, SettingInputs, Dependencies, Last, SameDependencies;
    InputsConcat(FileInputs(a), settings, FileInputs(b), settings);
    InputsConcat(Dependencies(a), Last(a), Dependencies(b), Last(b));
    InputsConcat(Between(a), Dependencies(a) + Last(a), Between(b), Dependencies(b) + Last(b));
    InputsConcat(Trees(a), Between(a) + (Dependencies(a) + Last(a)),
                 Trees(b), Between(b) + (Dependencies(b) + Last(b)));
    InputsConcat(First(a), Trees(a) + (Between(a) + (Dependencies(a) + Last(a))),
                 First(b), Trees(b) + (Between(b) + (Dependencies(b) + Last(b))));
  }

  lemma FieldsAreWellFormed(b: Build)
    requires Proper(b)
    ensures AllWellFormed(Fed(b))
  {
    PartsAreWellFormed(b);
    LastInputs(b);
    BetweenInputs(b);
    hide Ascii, First, Trees, Dependencies, WellFormed, Last, Between, FileInputs;
    WellConcat(Dependencies(b), Last(b));
    WellConcat(FileInputs(b), SettingInputs(b.settings));
    WellConcat(Between(b), Dependencies(b) + Last(b));
    WellConcat(Trees(b), Between(b) + (Dependencies(b) + Last(b)));
    WellConcat(First(b), Trees(b) + (Between(b) + (Dependencies(b) + Last(b))));
  }

  lemma WellConcat(a: seq<Input>, b: seq<Input>)
    requires AllWellFormed(a) && AllWellFormed(b)
    ensures AllWellFormed(a + b)
  {
    hide WellFormed;
  }

  /**
   The marker's hash covers its build: between two builds with the same dependency ids, the bytes that
   are hashed are equal exactly when every file, tree, setting, variable, value and tool answer is the
   same in both. Settings files and variables that only one of them has are seen too.
   */
  lemma BuildIsCanonical(a: Build, b: Build)
    requires Proper(a) && Proper(b) && Readable(a) && Readable(b) && SameIds(a, b) && IdsApart(a)
    ensures Manifest(Fed(a)).Ok? && Manifest(Fed(b)).Ok?
    ensures AllRepresentable(Manifest(Fed(a)).value) && AllRepresentable(Manifest(Fed(b)).value) ==>
              (Encode(Manifest(Fed(a)).value) == Encode(Manifest(Fed(b)).value) <==> SameBuild(a, b))
  {
    BuildSucceeds(a);
    BuildSucceeds(b);
    ApartById(a);
    FieldsAreWellFormed(a);
    FieldsAreWellFormed(b);
    FedIsSeparate(a);
    hide Fed, Manifest, Separate, SameShape, SameInputs, AllWellFormed, IsVariable, Readable, IdsApart, IdsAreApart;
    if AllRepresentable(Manifest(Fed(a)).value) && AllRepresentable(Manifest(Fed(b)).value) {
      UniquelyDecodable(Manifest(Fed(a)).value, Manifest(Fed(b)).value);
      if Manifest(Fed(a)) == Manifest(Fed(b)) {
        SettingsAreSeen(a, b);
      }
      if a.settings == b.settings && a.variables == b.variables {
        BuildsAlike(a, b);
        InputsAreCanonical(Fed(a), Fed(b));
        SameByField(a, b);
      }
    }
  }

  // ---- the marker ----

  datatype Refusal = BadGeneration(failure: GenerationFailure) | BadInput(failed: Failure)

  /** The text gives a generation: 32 hex digits, not all of them zeros. */
  predicate IsGeneration(text: Option<Bytes>) {
    && text.Some? && |text.value| == 32 && AllHex(text.value)
    && exists i :: 0 <= i < 32 && text.value[i] != 48
  }

  /**
   `emit`: the generation is read first, then all inputs are hashed, then the marker is laid out. It
   succeeds exactly for a text that gives a generation and a build that can be read.
   */
  method EmitMarker(b: Build, text: Option<Bytes>, sha: Bytes -> Bytes) returns (r: Result<Bytes, Refusal>)
    requires forall x :: |sha(x)| == 32
    ensures r.Ok? <==> IsGeneration(text) && Readable(b)
    ensures r.Err? ==> (r.error.BadGeneration? <==> !IsGeneration(text))
    ensures r.Ok? ==>
      && Manifest(Fed(b)).Ok?
      && exists g :: Writes(text.value, g) && IsMarker(r.value, sha(Encode(Manifest(Fed(b)).value)), g)
  {
    BuildSucceeds(b);
    hide Manifest, Fed, Encode, Readable, IsMarker;
    var generation := Generation(text);
    GenerationIff(text, generation);
    if generation.Err? {
      return Err(BadGeneration(generation.error));
    }
    hide IsGeneration, Writes, AllZero, AllHex;
    var hasher := new Hasher();
    var added := hasher.AddInputs(Fed(b));
    if added.Err? {
      return Err(BadInput(added.error));
    }
    assert [] + Encode(Manifest(Fed(b)).value) == Encode(Manifest(Fed(b)).value);
    var m := FillMarker(sha(hasher.fed), generation.value);
    r := Ok(m[..]);
  }

  /** Zero digits write the zero bytes, and nothing else does. */
  lemma ZeroDigits(text: Bytes, g: Bytes)
    ensures Writes(text, g) ==> (AllZero(g) <==> forall i :: 0 <= i < 32 ==> text[i] == 48)
  {
    if Writes(text, g) {
      forall i | 0 <= i < 16
        ensures g[i] == 0 <==> text[2 * i] == 48 && text[2 * i + 1] == 48
      {
        assert ToHex(g)[2 * i] == LowerHex(text[2 * i]) && ToHex(g)[2 * i + 1] == LowerHex(text[2 * i + 1]);
        assert g[i] as int == 16 * (g[i] as int / 16) + g[i] as int % 16;
        ZeroDigit(g[i] / 16, text[2 * i]);
        ZeroDigit(g[i] % 16, text[2 * i + 1]);
      }
      hide ToHex, HexDigit, LowerHex;
      forall i | 0 <= i < 32
        ensures AllZero(g) ==> text[i] == 48
      {
        var half := i / 2;
        assert i == 2 * half || i == 2 * half + 1;
        assert g[half] == 0 <==> text[2 * half] == 48 && text[2 * half + 1] == 48;
      }
      assert (forall i :: 0 <= i < 32 ==> text[i] == 48) ==> forall i :: 0 <= i < 16 ==> g[i] == 0;
    }
  }

  lemma ZeroDigit(v: byte, c: byte)
    requires v < 16 && IsHexDigit(c) && HexDigit(v) == LowerHex(c)
    ensures v == 0 <==> c == 48
  {
  }

  lemma GenerationIff(text: Option<Bytes>, r: Result<Bytes, GenerationFailure>)
    requires r.Ok? ==> text.Some? && Writes(text.value, r.value) && !AllZero(r.value)
    requires r == Err(Missing) <==> text.None?
    requires r == Err(NotHex) <==> text.Some? && (|text.value| != 32 || !AllHex(text.value))
    requires r == Err(Zero) ==> text.Some? && Writes(text.value, seq(16, i => 0))
    ensures r.Ok? <==> IsGeneration(text)
  {
    var zeros: Bytes := seq(16, i => 0);
    assert AllZero(zeros);
    if text.Some? {
      ZeroDigits(text.value, zeros);
      if r.Ok? {
        ZeroDigits(text.value, r.value);
      }
    }
    hide AllZero;
    match r {
      case Ok(_) =>
      case Err(e) =>
        match e {
          case Missing => assert r == Err(Missing);
          case NotHex => assert r == Err(NotHex);
          case Zero => assert r == Err(Zero);
        }
    }
  }

  /**
   The marker tells the build: of two builds with the same dependency ids and two markers made under
   hashes that do not collide, the markers are the same exactly when generation and build are.
   */
  lemma MarkerTellsBuild(a: Build, b: Build, g: Bytes, h: Bytes, m: Bytes, n: Bytes, sha: Bytes -> Bytes)
    requires Proper(a) && Proper(b) && Readable(a) && Readable(b) && SameIds(a, b) && IdsApart(a)
    requires Manifest(Fed(a)).Ok? && Manifest(Fed(b)).Ok?
    requires AllRepresentable(Manifest(Fed(a)).value) && AllRepresentable(Manifest(Fed(b)).value)
    requires var x, y := Encode(Manifest(Fed(a)).value), Encode(Manifest(Fed(b)).value);
      (sha(x) == sha(y) ==> x == y) && IsMarker(m, sha(x), g) && IsMarker(n, sha(y), h)
    ensures m == n <==> g == h && SameBuild(a, b)
  {
    BuildIsCanonical(a, b);
    hide Proper, Readable, SameIds, IdsApart, Manifest, Fed, Encode, SameBuild;
    var x, y := Encode(Manifest(Fed(a)).value), Encode(Manifest(Fed(b)).value);
    if x == y && g == h {
      MarkerIsUnique(m, n, sha(x), g);
    }
  }

  /** The literal marker: "CUFGPE01", 1, 64, 0x8664 and 1 in two bytes each, the digest and the generation. */
  lemma MarkerBytes(m: Bytes, digest: Bytes, generation: Bytes)
    requires IsMarker(m, digest, generation)
    ensures m == Ascii("CUFGPE01") + [1, 0, 64, 0, 0x64, 0x86, 1, 0] + digest + generation
  {
    TwoBytes(m[8..10], 1, 0);
    TwoBytes(m[10..12], 64, 0);
    TwoBytes(m[12..14], 0x64, 0x86);
    TwoBytes(m[14..16], 1, 0);
    assert MAGIC == Ascii("CUFGPE01");
    hide Ascii, FromLittleEndian;
    assert m == m[..8] + m[8..10] + m[10..12] + m[12..14] + m[14..16] + m[16..48] + m[48..];
  }

  lemma TwoBytes(s: Bytes, low: byte, high: byte)
    requires |s| == 2 && FromLittleEndian(s) == low as int + 256 * high as int
    ensures s == [low, high]
  {
    assert s[1..][0] == s[1] && s[1..][1..] == [];
    assert FromLittleEndian(s[1..]) == s[1] as int;
    assert FromLittleEndian(s) == s[0] as int + 256 * s[1] as int;
  }

  lemma MarkerIsUnique(m: Bytes, n: Bytes, digest: Bytes, generation: Bytes)
    requires IsMarker(m, digest, generation) && IsMarker(n, digest, generation)
    ensures m == n
  {
    MarkerBytes(m, digest, generation);
    MarkerBytes(n, digest, generation);
  }
}
