/**
 The byte stream that the build manifest feeds its hash (cli/build_marker.rs): a sequence of
 length-prefixed records. The hash itself is an opaque function of this stream.
*/
module ByteStream {
  import opened Common

  newtype byte = b: int | 0 <= b < 256

  type Bytes = seq<byte>

  const WORD: nat := 0x1_0000_0000_0000_0000

  datatype Record = Record(tag: Bytes, bytes: Bytes)

  /** The `count` low-order bytes of `n`, least significant first (`to_le_bytes` of a wrapped value). */
  function LittleEndian(n: nat, count: nat): (r: Bytes)
    ensures |r| == count
  {
    if count == 0 then [] else [(n % 256) as byte] + LittleEndian(n / 256, count - 1)
  }

  function FromLittleEndian(s: Bytes): nat {
    if s == [] then 0 else s[0] as nat + 256 * FromLittleEndian(s[1..])
  }

  function Pow256(count: nat): (r: nat)
    ensures r > 0
  {
    if count == 0 then 1 else 256 * Pow256(count - 1)
  }

  lemma {:induction false} LittleEndianRoundTrip(n: nat, count: nat)
    requires n < Pow256(count)
    ensures FromLittleEndian(LittleEndian(n, count)) == n
  {
    if count > 0 {
      LittleEndianRoundTrip(n / 256, count - 1);
    }
  }

  lemma WordRoundTrip(n: nat)
    requires n < WORD
    ensures FromLittleEndian(LittleEndian(n, 8)) == n
  {
    assert Pow256(8) == WORD by {
      assert Pow256(2) == 65536;
      assert Pow256(4) == 65536 * 65536;
      assert Pow256(6) == 65536 * 65536 * 65536;
    }
    LittleEndianRoundTrip(n, 8);
  }

  /** One length-prefixed field. */
  function Field(s: Bytes): Bytes {
    LittleEndian(|s| % WORD, 8) + s
  }

  lemma {:induction false} Digits(n: nat, count: nat)
    requires count > 0
    ensures LittleEndian(n, count)[0] as int == n % 256
    ensures LittleEndian(n, count)[1..] == LittleEndian(n / 256, count - 1)
  {
  }

  lemma TwoDigits(n: nat, count: nat)
    requires count >= 2
    ensures var b := LittleEndian(n, count);
      && b[0] as int == n % 0x100 && b[1] as int == n / 0x100 % 0x100
      && b[2..] == LittleEndian(n / 0x1_0000, count - 2)
  {
    Digits(n, count);
    Digits(n / 256, count - 1);
    hide LittleEndian;
    var b := LittleEndian(n, count);
    assert b[2..] == b[1..][1..] && b[1] == b[1..][0];
    assert n / 256 / 256 == n / 0x1_0000;
  }

  lemma FourDigits(n: nat, count: nat)
    requires count >= 4
    ensures var b := LittleEndian(n, count);
      && b[0] as int == n % 0x100 && b[1] as int == n / 0x100 % 0x100
      && b[2] as int == n / 0x1_0000 % 0x100 && b[3] as int == n / 0x100_0000 % 0x100
      && b[4..] == LittleEndian(n / 0x1_0000_0000, count - 4)
  {
    var m := n / 0x1_0000;
    TwoDigits(n, count);
    TwoDigits(m, count - 2);
    hide LittleEndian;
    var b := LittleEndian(n, count);
    assert b[4..] == b[2..][2..] && b[2] == b[2..][0] && b[3] == b[2..][1];
    assert m / 0x1_0000 == n / 0x1_0000_0000 && m / 0x100 == n / 0x100_0000;
  }

  /** A field is its length in eight bytes, the lowest first, and then its bytes. */
  lemma FieldIsCounted(s: Bytes)
    requires |s| < WORD
    ensures var f, n, high := Field(s), |s|, |s| / 0x1_0000_0000;
      && |f| == 8 + n && f[8..] == s
      && f[0] as int == n % 0x100 && f[1] as int == n / 0x100 % 0x100
      && f[2] as int == n / 0x1_0000 % 0x100 && f[3] as int == n / 0x100_0000 % 0x100
      && f[4] as int == high % 0x100 && f[5] as int == high / 0x100 % 0x100
      && f[6] as int == high / 0x1_0000 % 0x100 && f[7] as int == high / 0x100_0000 % 0x100
  {
    var n, b := |s|, LittleEndian(|s|, 8);
    assert n % WORD == n;
    FourDigits(n, 8);
    FourDigits(n / 0x1_0000_0000, 4);
    hide LittleEndian;
    var high := b[4..];
    assert high[0] == b[4] && high[1] == b[5] && high[2] == b[6] && high[3] == b[7];
    var f := Field(s);
    assert f == b + s;
    assert f[..8] == b && f[8..] == s;
  }

  function EncodeRecord(r: Record): Bytes {
    Field(r.tag) + Field(r.bytes)
  }

  function Encode(records: seq<Record>): Bytes {
    if records == [] then [] else EncodeRecord(records[0]) + Encode(records[1..])
  }

  /** Lengths that fit the 64-bit prefix, as every allocated byte slice does. */
  predicate Representable(r: Record) {
    |r.tag| < WORD && |r.bytes| < WORD
  }

  predicate AllRepresentable(records: seq<Record>) {
    forall r :: r in records ==> Representable(r)
  }

  /** Reads one field: its bytes and the rest of the stream. */
  function DecodeField(s: Bytes): Option<(Bytes, Bytes)> {
    if |s| < 8 then None
    else
      var length := FromLittleEndian(s[..8]);
      if |s| < 8 + length then None else Some((s[8..8 + length], s[8 + length..]))
  }

  function Decode(s: Bytes): Option<seq<Record>>
    decreases |s|
  {
    if s == [] then Some([])
    else
      var tag := DecodeField(s);
      if tag.None? then None
      else
        var bytes := DecodeField(tag.value.1);
        if bytes.None? then None
        else
          var rest := Decode(bytes.value.1);
          if rest.None? then None else Some([Record(tag.value.0, bytes.value.0)] + rest.value)
  }

  lemma FieldRoundTrip(s: Bytes, rest: Bytes)
    requires |s| < WORD
    ensures DecodeField(Field(s) + rest) == Some((s, rest))
  {
    hide LittleEndian, FromLittleEndian;
    var stream := Field(s) + rest;
    assert stream[..8] == LittleEndian(|s|, 8);
    WordRoundTrip(|s|);
    assert stream[8..8 + |s|] == s;
    assert stream[8 + |s|..] == rest;
  }

  /** The decoder undoes the encoder. */
  lemma {:induction false} DecodeEncode(records: seq<Record>)
    requires AllRepresentable(records)
    ensures Decode(Encode(records)) == Some(records)
  {
    if records != [] {
      var r, rest := records[0], Encode(records[1..]);
      assert r in records;
      DecodeEncode(records[1..]);
      FieldRoundTrip(r.tag, Field(r.bytes) + rest);
      FieldRoundTrip(r.bytes, rest);
      Regroup(Field(r.tag), Field(r.bytes), rest);
      assert |Encode(records)| >= 8;
      assert [r] + records[1..] == records;
    }
  }

  /** Unique decodability: a stream is the encoding of at most one sequence of records. */
  lemma UniquelyDecodable(a: seq<Record>, b: seq<Record>)
    requires AllRepresentable(a) && AllRepresentable(b)
    ensures Encode(a) == Encode(b) <==> a == b
  {
    DecodeEncode(a);
    DecodeEncode(b);
  }

  lemma EncodeFirst(records: seq<Record>)
    requires records != []
    ensures Encode(records) == EncodeRecord(records[0]) + Encode(records[1..])
  {
  }

  lemma EncodeNothing(stream: Bytes)
    ensures Encode([]) + stream == stream
  {
  }

  lemma {:induction false} EncodeConcat(a: seq<Record>, b: seq<Record>)
    ensures Encode(a + b) == Encode(a) + Encode(b)
  {
    if a == [] {
      assert a + b == b;
      EncodeNothing(Encode(b));
    } else {
      hide EncodeRecord, Encode;
      EncodeConcat(a[1..], b);
      assert (a + b)[1..] == a[1..] + b && (a + b)[0] == a[0];
      EncodeFirst(a);
      EncodeFirst(a + b);
      Regroup(EncodeRecord(a[0]), Encode(a[1..]), Encode(b));
    }
  }
}
