/** Percent-encoding of request paths (`encode_path`) and its inverse. */
module PathEncoding {
  import opened Common

  const SLASH: byte := 0x2F
  const PERCENT: byte := 0x25
  const QUESTION: byte := 0x3F

  /** The bytes that `encode_path` escapes. */
  predicate Escaped(b: byte) {
    b == 0x3F || b == 0x23 || b == 0x25 || b == 0x20 || b == 0x5B || b == 0x5D
    || b <= 0x1F || b == 0x7F || b >= 0x80
  }

  /** An upper-case hexadecimal digit, as `{:02X}` prints it. */
  function HexDigit(n: int): byte
    requires 0 <= n < 16
  {
    if n < 10 then (0x30 + n) as byte else (0x37 + n) as byte
  }

  function EncodeByte(b: byte): Bytes {
    if Escaped(b) then [PERCENT, HexDigit(b as int / 16), HexDigit(b as int % 16)] else [b]
  }

  function Encode(raw: Bytes): Bytes {
    if raw == [] then [] else EncodeByte(raw[0]) + Encode(raw[1..])
  }

  lemma {:induction false} EncodeConcat(a: Bytes, b: Bytes)
    ensures Encode(a + b) == Encode(a) + Encode(b)
  {
    if a == [] {
      assert a + b == b;
    } else {
      EncodeConcat(a[1..], b);
      assert (a + b)[1..] == a[1..] + b;
    }
  }

  /** The loop of `encode_path`: append one byte, or one escape, at a time. */
  method EncodePath(raw: Bytes) returns (out: Bytes)
    ensures out == Encode(raw)
  {
    out := [];
    for i := 0 to |raw|
      invariant out == Encode(raw[..i])
    {
      assert raw[..i + 1] == raw[..i] + [raw[i]];
      EncodeConcat(raw[..i], [raw[i]]);
      assert Encode([raw[i]]) == EncodeByte(raw[i]) + Encode([]);
      var byte := raw[i];
      if Escaped(byte) {
        out := out + [PERCENT, HexDigit(byte as int / 16), HexDigit(byte as int % 16)];
      } else {
        out := out + [byte];
      }
    }
    assert raw[..|raw|] == raw;
  }

  // --- Percent-decoding (section 2.1 of RFC 3986) ---

  /** The value of a hexadecimal digit in either case. */
  function HexValue(b: byte): Option<int> {
    if 0x30 <= b <= 0x39 then Some(b as int - 0x30)
    else if 0x41 <= b <= 0x46 then Some(b as int - 0x37)
    else if 0x61 <= b <= 0x66 then Some(b as int - 0x57)
    else None
  }

  /** `s` starts with `%` and two hexadecimal digits. */
  predicate StartsWithTriplet(s: Bytes) {
    |s| >= 3 && s[0] == PERCENT && HexValue(s[1]).Some? && HexValue(s[2]).Some?
  }

  function TripletValue(s: Bytes): byte
    requires StartsWithTriplet(s)
  {
    (16 * HexValue(s[1]).value + HexValue(s[2]).value) as byte
  }

  /** One round of decoding; a `%` that starts no triplet stands for itself. */
  function Decode(s: Bytes): Bytes {
    if s == [] then []
    else if StartsWithTriplet(s) then [TripletValue(s)] + Decode(s[3..])
    else [s[0]] + Decode(s[1..])
  }

  lemma DecodeEncodedByte(b: byte, rest: Bytes)
    ensures Decode(EncodeByte(b) + rest) == [b] + Decode(rest)
  {
  }

  /** Decoding undoes encoding, for every byte string. */
  lemma {:induction false} DecodeUndoesEncode(raw: Bytes)
    ensures Decode(Encode(raw)) == raw
  {
    if raw != [] {
      DecodeEncodedByte(raw[0], Encode(raw[1..]));
      DecodeUndoesEncode(raw[1..]);
    }
  }

  lemma EncodeInjective(a: Bytes, b: Bytes)
    ensures Encode(a) == Encode(b) <==> a == b
  {
    DecodeUndoesEncode(a);
    DecodeUndoesEncode(b);
  }

  /** Printable ASCII without the space and without `#`, `%`, `?`, `[` and `]`. */
  predicate Printable(b: byte) {
    0x21 <= b <= 0x7E && b !in {0x23, 0x25, 0x3F, 0x5B, 0x5D}
  }

  predicate UpperHex(b: byte) {
    0x30 <= b <= 0x39 || 0x41 <= b <= 0x46
  }

  /** The byte at `i` is printable, or it is a `%` that starts an escape in upper case. */
  predicate WellEscapedAt(s: Bytes, i: nat)
    requires i < |s|
  {
    Printable(s[i]) || (s[i] == 0x25 && i + 2 < |s| && UpperHex(s[i + 1]) && UpperHex(s[i + 2]))
  }

  /** The output is printable, and every `%` in it starts an escape. */
  lemma {:induction false} EncodeAlphabet(raw: Bytes)
    ensures forall i :: 0 <= i < |Encode(raw)| ==> WellEscapedAt(Encode(raw), i)
    ensures forall i :: 0 <= i < |Encode(raw)| ==> Encode(raw)[i] == 0x25 || Printable(Encode(raw)[i])
  {
    if raw != [] {
      var first, rest := EncodeByte(raw[0]), Encode(raw[1..]);
      EncodeAlphabet(raw[1..]);
      forall i | 0 <= i < |Encode(raw)|
        ensures WellEscapedAt(Encode(raw), i)
      {
        if i >= |first| {
          assert WellEscapedAt(rest, i - |first|);
        }
      }
    }
  }

  /** An output is never shorter, and as long as its input only if nothing had to be escaped. */
  lemma {:induction false} EncodeLength(raw: Bytes)
    ensures |raw| <= |Encode(raw)| <= 3 * |raw|
    ensures |Encode(raw)| == |raw| <==> Encode(raw) == raw
    ensures Encode(raw) == raw <==> forall i :: 0 <= i < |raw| ==> Printable(raw[i])
  {
    if raw != [] {
      var tail := raw[1..];
      EncodeLength(tail);
      assert raw == [raw[0]] + tail;
      if Escaped(raw[0]) {
        assert |Encode(raw)| > |raw|;
      } else {
        assert Encode(raw) == [raw[0]] + Encode(tail);
        assert Encode(raw) == raw ==> Encode(raw)[1..] == tail;
      }
    }
  }

  /** A second encoding changes nothing exactly when the first one changed nothing. */
  lemma EncodeTwice(raw: Bytes)
    ensures Encode(Encode(raw)) == Encode(raw) <==> Encode(raw) == raw
  {
    EncodeInjective(Encode(raw), raw);
  }

  // --- Segments ---

  /** The pieces of `s` between `/` separators; there is always at least one. */
  function Segments(s: Bytes): (segs: seq<Bytes>)
    ensures |segs| >= 1
  {
    if s == [] then [[]]
    else
      var rest := Segments(s[1..]);
      if s[0] == SLASH then [[]] + rest
      else [[s[0]] + rest[0]] + rest[1..]
  }

  function EncodeAll(segs: seq<Bytes>): seq<Bytes> {
    if segs == [] then [] else [Encode(segs[0])] + EncodeAll(segs[1..])
  }

  lemma {:induction false} SegmentsOfPlainPrefix(p: Bytes, s: Bytes)
    requires SLASH !in p
    ensures Segments(p + s) == [p + Segments(s)[0]] + Segments(s)[1..]
  {
    if p == [] {
      assert p + s == s && p + Segments(s)[0] == Segments(s)[0];
    } else {
      var tail := Segments(p[1..] + s);
      SegmentsOfPlainPrefix(p[1..], s);
      assert (p + s)[1..] == p[1..] + s;
      assert [p[0]] + (p[1..] + Segments(s)[0]) == p + Segments(s)[0];
      assert tail[1..] == Segments(s)[1..];
    }
  }

  /** A text without `/` is one segment. */
  lemma SegmentsOfWord(a: Bytes)
    requires SLASH !in a
    ensures Segments(a) == [a]
  {
    SegmentsOfPlainPrefix(a, []);
    assert a + [] == a;
  }

  /** The segments of a text with one more byte in front. */
  function PutInFront(b: byte, segs: seq<Bytes>): seq<Bytes>
    requires segs != []
  {
    if b == SLASH then [[]] + segs else [[b] + segs[0]] + segs[1..]
  }

  lemma SegmentsOfOneMore(b: byte, s: Bytes)
    ensures Segments([b] + s) == PutInFront(b, Segments(s))
  {
    assert ([b] + s)[1..] == s;
  }

  lemma PutInFrontOfMore(b: byte, segs: seq<Bytes>, more: seq<Bytes>)
    requires segs != []
    ensures PutInFront(b, segs + more) == PutInFront(b, segs) + more
  {
  }

  /** A `/` joins segments. */
  lemma {:induction false} SegmentsJoin(a: Bytes, b: Bytes)
    ensures Segments(a + ([SLASH] + b)) == Segments(a) + Segments(b)
    ensures Segments(a + [SLASH] + b) == Segments(a) + Segments(b)
    decreases |a| + 1, 0
  {
    assert a + [SLASH] + b == a + ([SLASH] + b);
    if a == [] {
      SegmentsOfOneMore(SLASH, b);
      assert a + ([SLASH] + b) == [SLASH] + b;
    } else {
      JoinOneMore(a[0], a[1..], b);
      assert a == [a[0]] + a[1..];
    }
  }

  lemma {:induction false} JoinOneMore(first: byte, rest: Bytes, b: Bytes)
    ensures Segments([first] + rest + ([SLASH] + b)) == Segments([first] + rest) + Segments(b)
    decreases |rest| + 1, 1
  {
    var joined := rest + ([SLASH] + b);
    SegmentsJoin(rest, b);
    SegmentsOfOneMore(first, joined);
    SegmentsOfOneMore(first, rest);
    PutInFrontOfMore(first, Segments(rest), Segments(b));
    assert [first] + rest + ([SLASH] + b) == [first] + joined;
  }

  /** Encoding keeps the `/` structure: it encodes each segment on its own. */
  lemma {:induction false} EncodeKeepsSegments(raw: Bytes)
    ensures Segments(Encode(raw)) == EncodeAll(Segments(raw))
  {
    if raw != [] {
      var rest := raw[1..];
      EncodeKeepsSegments(rest);
      var segs := Segments(rest);
      if raw[0] == SLASH {
        assert Encode(raw) == [SLASH] + Encode(rest);
        assert Encode(raw)[1..] == Encode(rest);
        assert ([[]] + segs)[1..] == segs;
      } else {
        SegmentsOfPlainPrefix(EncodeByte(raw[0]), Encode(rest));
        var first := [raw[0]] + segs[0];
        assert first[1..] == segs[0];
        assert Segments(raw)[1..] == segs[1..];
        assert EncodeAll(segs) == [Encode(segs[0])] + EncodeAll(segs[1..]);
      }
    } else {
      assert Encode([]) == [];
      assert EncodeAll([[]]) == [Encode([])] + EncodeAll([[]][1..]);
    }
  }
}
