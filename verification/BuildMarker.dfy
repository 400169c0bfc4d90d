/** The build script itself (cli/build_marker.rs): feeding the hash, reading the generation, laying out the marker. */
module BuildMarker {
  import opened Common
  import opened ByteStream
  import opened BuildManifest
  import opened BuildInputs

  /** The hash, as the bytes it has been fed so far. */
  class Hasher {
    var fed: Bytes

    constructor ()
      ensures fed == []
    {
      fed := [];
    }

    /** `record`: four updates. */
    method Add(tag: Bytes, bytes: Bytes)
      modifies this
      ensures fed == old(fed) + EncodeRecord(Record(tag, bytes))
    {
      hide LittleEndian;
      fed := fed + LittleEndian(|tag| % WORD, 8);
      fed := fed + tag;
      fed := fed + LittleEndian(|bytes| % WORD, 8);
      fed := fed + bytes;
      FourUpdates(old(fed), LittleEndian(|tag| % WORD, 8), tag, LittleEndian(|bytes| % WORD, 8), bytes);
    }

    /** One input of a build. */
    method AddInput(input: Input) returns (r: Result<(), Failure>)
      modifies this
      ensures r == Verdict(RecordsOf(input))
      ensures r.Ok? ==> fed == old(fed) + Encode(RecordsOf(input).value)
    {
      match input
      case Single(tag, content) =>
        if content.None? {
          return Err(Io);
        }
        Add(tag, content.value);
        OneRecord(Record(tag, content.value));
        r := Ok(());
      case Whole(tag, root) =>
        r := AddTree(tag, root);
    }

    /** The part of `emit` that feeds the hash: its inputs one after another, up to the first failure. */
    method AddInputs(inputs: seq<Input>) returns (r: Result<(), Failure>)
      modifies this
      ensures r == Verdict(Manifest(inputs))
      ensures r.Ok? ==> fed == old(fed) + Encode(Manifest(inputs).value)
    {
      hide Encode, RecordsOf, Manifest;
      ghost var done: seq<Record> := [];
      assert inputs[0..] == inputs;
      NothingFed(Manifest(inputs), fed);
      for i := 0 to |inputs|
        invariant fed == old(fed) + Encode(done)
        invariant Manifest(inputs) == Onward(done, Manifest(inputs[i..]))
      {
        OneInput(inputs, i);
        ghost var step := RecordsOf(inputs[i]);
        var added := AddInput(inputs[i]);
        if added.Err? {
          return added;
        }
        EncodeConcat(done, step.value);
        Regroup(old(fed), Encode(done), Encode(step.value));
        OnwardStep(done, step.value, Manifest(inputs[i + 1..]));
        done := done + step.value;
      }
      NoInputLeft();
      assert inputs[|inputs|..] == [] && done + [] == done;
      r := Ok(());
    }

    /** `tree`: on success the hash was fed the walk's records; on failure the build stops. */
    method AddTree(tag: Bytes, root: Node) returns (r: Result<(), Failure>)
      modifies this
      ensures r == Verdict(Tree(tag, root))
      ensures r.Ok? ==> fed == old(fed) + Encode(Tree(tag, root).value)
      decreases root, 1
    {
      if !root.Dir? {
        return Err(Io);
      }
      hide Encode, WalkEntry, WalkEntries, SortByName, Tree;
      var entries := SortByName(root.entries);
      ghost var done: seq<Record> := [];
      var i := 0;
      WalkBegins(tag, root);
      while i < |entries|
        invariant i <= |entries|
        invariant fed == old(fed) + Encode(done)
        invariant Tree(tag, root) == Onward(done, WalkEntries(tag, root, entries[i..]))
      {
        var e := entries[i];
        assert e in entries;
        ghost var step := WalkEntry(tag, root, e);
        OneEntry(tag, root, entries, i);
        var added := AddEntry(tag, root, e);
        if added.Err? {
          return added;
        }
        EntryTaken(tag, root, entries, i, done, old(fed));
        done := done + step.value;
        i := i + 1;
      }
      NoEntryLeft(tag, root, entries);
      assert done + [] == done;
      return Ok(());
    }

    /** What `tree` does with one directory entry. */
    method AddEntry(tag: Bytes, ghost dir: Node, e: Entry) returns (r: Result<(), Failure>)
      requires dir.Dir? && e in dir.entries
      modifies this
      ensures r == Verdict(WalkEntry(tag, dir, e))
      ensures r.Ok? ==> fed == old(fed) + Encode(WalkEntry(tag, dir, e).value)
      decreases dir, 0
    {
      if !Utf8(e.name) {
        return Err(NonUtf8);
      }
      if Excluded(e.name) {
        return Ok(());
      }
      if e.node.Symlink? {
        return Err(SymlinkedInput);
      }
      if e.node.Dir? {
        r := AddTree(Child(tag, e.name), e.node);
      } else if e.node.File? {
        Add(Child(tag, e.name), e.node.content);
        r := Ok(());
        assert Encode([Record(Child(tag, e.name), e.node.content)])
            == EncodeRecord(Record(Child(tag, e.name), e.node.content)) + Encode([]);
      } else if e.node.Special? {
        return Err(NonRegular);
      } else {
        return Err(Io);
      }
    }
  }

  function Verdict(walk: Result<seq<Record>, Failure>): Result<(), Failure> {
    if walk.Ok? then Ok(()) else Err(walk.error)
  }

  ghost function Onward(done: seq<Record>, rest: Result<seq<Record>, Failure>): Result<seq<Record>, Failure> {
    if rest.Ok? then Ok(done + rest.value) else rest
  }

  lemma OnwardStep(done: seq<Record>, step: seq<Record>, rest: Result<seq<Record>, Failure>)
    ensures Onward(done, Onward(step, rest)) == Onward(done + step, rest)
  {
    if rest.Ok? {
      assert done + (step + rest.value) == done + step + rest.value;
    }
  }

  lemma FourUpdates(fed: Bytes, a: Bytes, b: Bytes, c: Bytes, d: Bytes)
    ensures fed + a + b + c + d == fed + ((a + b) + (c + d))
  {
    Regroup(fed + a, b, c + d);
    Regroup(fed + a + b, c, d);
    Regroup(fed, a, b + (c + d));
    Regroup(a, b, c + d);
  }

  lemma OneRecord(r: Record)
    ensures Encode([r]) == EncodeRecord(r)
  {
    assert Encode([r]) == EncodeRecord(r) + Encode([]);
  }

  lemma NothingFed(manifest: Result<seq<Record>, Failure>, fed: Bytes)
    ensures Onward([], manifest) == manifest && fed + Encode([]) == fed
  {
    assert manifest.Ok? ==> [] + manifest.value == manifest.value;
  }

  lemma OneInput(inputs: seq<Input>, i: nat)
    requires i < |inputs|
    ensures var step := RecordsOf(inputs[i]);
      Manifest(inputs[i..]) == if step.Err? then step else Onward(step.value, Manifest(inputs[i + 1..]))
  {
    hide RecordsOf;
    assert inputs[i..][1..] == inputs[i + 1..];
  }

  lemma NoInputLeft()
    ensures Manifest([]) == Ok([])
  {
  }

  lemma WalkBegins(tag: Bytes, root: Node)
    requires root.Dir?
    ensures |SortByName(root.entries)| <= |root.entries|
    ensures forall e | e in SortByName(root.entries) :: e in root.entries
    ensures Tree(tag, root) == Onward([], WalkEntries(tag, root, SortByName(root.entries)[0..]))
  {
    hide WalkEntries, SortByName;
    var entries := SortByName(root.entries);
    assert entries[0..] == entries;
    var walk := Tree(tag, root);
    assert walk.Ok? ==> [] + walk.value == walk.value;
  }

  /** The walk of what is left begins with the next entry. */
  lemma OneEntry(tag: Bytes, root: Node, entries: seq<Entry>, i: nat)
    requires root.Dir? && |entries| <= |root.entries| && i < |entries| && forall e :: e in entries ==> e in root.entries
    ensures forall e :: e in entries[i + 1..] ==> e in root.entries
    ensures var step := WalkEntry(tag, root, entries[i]);
      WalkEntries(tag, root, entries[i..])
      == if step.Err? then step else Onward(step.value, WalkEntries(tag, root, entries[i + 1..]))
  {
    hide WalkEntry;
    assert entries[i..][1..] == entries[i + 1..];
  }

  lemma NoEntryLeft(tag: Bytes, root: Node, entries: seq<Entry>)
    requires root.Dir? && |entries| <= |root.entries|
    ensures WalkEntries(tag, root, entries[|entries|..]) == Ok([])
  {
  }

  lemma EntryTaken(tag: Bytes, root: Node, entries: seq<Entry>, i: nat, done: seq<Record>, fed: Bytes)
    requires root.Dir? && |entries| <= |root.entries| && i < |entries| && forall e :: e in entries ==> e in root.entries
    requires WalkEntry(tag, root, entries[i]).Ok?
    ensures var step, rest := WalkEntry(tag, root, entries[i]).value, WalkEntries(tag, root, entries[i + 1..]);
      && fed + Encode(done) + Encode(step) == fed + Encode(done + step)
      && Onward(done, Onward(step, rest)) == Onward(done + step, rest)
  {
    hide Encode, WalkEntry, WalkEntries;
    var step := WalkEntry(tag, root, entries[i]).value;
    EncodeConcat(done, step);
    Regroup(fed, Encode(done), Encode(step));
    OnwardStep(done, step, WalkEntries(tag, root, entries[i + 1..]));
  }

  // ---- the generation ----

  datatype GenerationFailure = Missing | NotHex | Zero

  predicate IsHexDigit(c: byte) {
    0x30 <= c <= 0x39 || 0x41 <= c <= 0x46 || 0x61 <= c <= 0x66
  }

  function HexValue(c: byte): (v: byte)
    requires IsHexDigit(c)
    ensures v < 16
  {
    if c <= 0x39 then c - 0x30 else if c <= 0x46 then c - 0x41 + 10 else c - 0x61 + 10
  }

  function HexDigit(v: byte): (c: byte)
    requires v < 16
    ensures IsHexDigit(c)
  {
    if v < 10 then 0x30 + v else 0x61 + (v - 10)
  }

  function LowerHex(c: byte): byte {
    if 0x41 <= c <= 0x46 then c + 0x20 else c
  }

  function Pair(text: Bytes, i: nat): byte
    requires 2 * i + 1 < |text| && IsHexDigit(text[2 * i]) && IsHexDigit(text[2 * i + 1])
  {
    HexValue(text[2 * i]) * 16 + HexValue(text[2 * i + 1])
  }

  predicate AllHex(text: Bytes) {
    forall i :: 0 <= i < |text| ==> IsHexDigit(text[i])
  }

  predicate AllZero(bytes: Bytes) {
    forall i :: 0 <= i < |bytes| ==> bytes[i] == 0
  }

  /** The text of 16 bytes in lower-case hex. */
  function ToHex(bytes: Bytes): (r: Bytes)
    ensures |r| == 2 * |bytes|
    ensures forall i :: 0 <= i < |bytes| ==>
              r[2 * i] == HexDigit(bytes[i] / 16) && r[2 * i + 1] == HexDigit(bytes[i] % 16)
  {
    if bytes == [] then []
    else ToHex(bytes[..|bytes| - 1]) + [HexDigit(bytes[|bytes| - 1] / 16), HexDigit(bytes[|bytes| - 1] % 16)]
  }

  /** `g` is the generation that `text` writes out, in either case. */
  predicate Writes(text: Bytes, g: Bytes) {
    |g| == 16 && |text| == 32 && AllHex(text) && forall i :: 0 <= i < 32 ==> ToHex(g)[i] == LowerHex(text[i])
  }

  lemma PairHasHex(text: Bytes, i: nat)
    requires 2 * i + 1 < |text| && IsHexDigit(text[2 * i]) && IsHexDigit(text[2 * i + 1])
    ensures HexDigit(Pair(text, i) / 16) == LowerHex(text[2 * i])
    ensures HexDigit(Pair(text, i) % 16) == LowerHex(text[2 * i + 1])
  {
    var high, low := HexValue(text[2 * i]) as int, HexValue(text[2 * i + 1]) as int;
    assert (high * 16 + low) / 16 == high && (high * 16 + low) % 16 == low;
  }

  /** `generation`: accepts exactly 32 hex digits that are not all zero, and returns what they write. */
  method Generation(text: Option<Bytes>) returns (r: Result<Bytes, GenerationFailure>)
    ensures r.Ok? ==> text.Some? && Writes(text.value, r.value) && !AllZero(r.value)
    ensures r == Err(Missing) <==> text.None?
    ensures r == Err(NotHex) <==> text.Some? && (|text.value| != 32 || !AllHex(text.value))
    ensures r == Err(Zero) ==> text.Some? && Writes(text.value, seq(16, i => 0))
  {
    if text.None? {
      return Err(Missing);
    }
    if |text.value| != 32 || !AllHex(text.value) {
      return Err(NotHex);
    }
    var result := new byte[16](_ => 0);
    for i := 0 to 16
      invariant forall j :: 0 <= j < i ==> result[j] == Pair(text.value, j)
    {
      result[i] := Pair(text.value, i);
    }
    var g := result[..];
    hide Writes, Pair, AllHex, AllZero;
    PairsAreWritten(text.value, g);
    if AllZero(g) {
      ZeroIsZeros(g);
      return Err(Zero);
    }
    return Ok(g);
  }

  lemma PairsAreWritten(text: Bytes, g: Bytes)
    requires |text| == 32 && AllHex(text) && |g| == 16 && forall j :: 0 <= j < 16 ==> g[j] == Pair(text, j)
    ensures Writes(text, g)
  {
    hide Pair;
    forall i | 0 <= i < 32
      ensures ToHex(g)[i] == LowerHex(text[i])
    {
      PairHasHex(text, i / 2);
      assert i == 2 * (i / 2) || i == 2 * (i / 2) + 1;
    }
  }

  lemma ZeroIsZeros(g: Bytes)
    requires |g| == 16 && AllZero(g)
    ensures g == seq(16, i => 0)
  {
  }

  /** Every generation has a text: its own hex digits. */
  lemma HexIsWritten(g: Bytes)
    requires |g| == 16
    ensures Writes(ToHex(g), g)
  {
    var text := ToHex(g);
    forall i | 0 <= i < 32
      ensures IsHexDigit(text[i]) && LowerHex(text[i]) == text[i]
    {
      assert i == 2 * (i / 2) || i == 2 * (i / 2) + 1;
      assert text[2 * (i / 2)] == HexDigit(g[i / 2] / 16);
    }
  }

  /** Distinct generations are written differently, so accepted text identifies its generation. */
  lemma WritesIsFunctional(text: Bytes, g: Bytes, h: Bytes)
    requires Writes(text, g) && Writes(text, h)
    ensures g == h
  {
    forall i | 0 <= i < 16
      ensures g[i] == h[i]
    {
      assert ToHex(g)[2 * i] == ToHex(h)[2 * i] && ToHex(g)[2 * i + 1] == ToHex(h)[2 * i + 1];
      HexDigitIsInjective(g[i] / 16, h[i] / 16);
      HexDigitIsInjective(g[i] % 16, h[i] % 16);
      assert g[i] as int == 16 * (g[i] as int / 16) + g[i] as int % 16;
      assert h[i] as int == 16 * (h[i] as int / 16) + h[i] as int % 16;
    }
  }

  lemma HexDigitIsInjective(v: byte, w: byte)
    requires v < 16 && w < 16 && HexDigit(v) == HexDigit(w)
    ensures v == w
  {
  }

  // ---- the marker ----

  const MAGIC: Bytes := [67, 85, 70, 71, 80, 69, 48, 49]

  /** The 64 bytes, field by field: magic, version, size, machine, kind, digest, generation. */
  ghost predicate IsMarker(m: Bytes, digest: Bytes, generation: Bytes) {
    && |m| == 64 && |digest| == 32 && |generation| == 16
    && m[..8] == MAGIC
    && FromLittleEndian(m[8..10]) == 1 && FromLittleEndian(m[10..12]) == 64
    && FromLittleEndian(m[12..14]) == 0x8664 && FromLittleEndian(m[14..16]) == 1
    && m[16..48] == digest && m[48..] == generation
  }

  /** Writes a 16-bit field in place. */
  method PutU16(m: array<byte>, offset: nat, value: nat)
    requires offset + 2 <= m.Length && value < 65536
    modifies m
    ensures FromLittleEndian(m[offset..offset + 2]) == value
    ensures forall i | 0 <= i < m.Length && !(offset <= i < offset + 2) :: m[i] == old(m[i])
  {
    var bytes := LittleEndian(value, 2);
    m[offset], m[offset + 1] := bytes[0], bytes[1];
    assert m[offset..offset + 2] == bytes;
    assert Pow256(2) == 65536;
    LittleEndianRoundTrip(value, 2);
  }

  method FillMarker(digest: Bytes, generation: Bytes) returns (m: array<byte>)
    requires |digest| == 32 && |generation| == 16
    ensures fresh(m) && IsMarker(m[..], digest, generation)
  {
    m := new byte[64](_ => 0);
    PutU16(m, 8, 1);
    ghost var version := m[8..10];
    PutU16(m, 10, 64);
    ghost var size := m[10..12];
    PutU16(m, 12, 0x8664);
    ghost var machine := m[12..14];
    PutU16(m, 14, 1);
    ghost var kind := m[14..16];
    forall i | 0 <= i < 8 {
      m[i] := MAGIC[i];
    }
    forall i | 16 <= i < 48 {
      m[i] := digest[i - 16];
    }
    forall i | 48 <= i < 64 {
      m[i] := generation[i - 48];
    }
    ghost var all := m[..];
    assert all[8..10] == version && all[10..12] == size;
    assert all[12..14] == machine && all[14..16] == kind;
    assert all[..8] == MAGIC && all[16..48] == digest && all[48..] == generation;
  }
}
