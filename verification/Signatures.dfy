/** The signature tuple, its 66-byte packing and the hex text around both.
    Models apps/api/src/matching/raw-order.util.ts. */
module Signatures {
  import opened Prelude

  type Byte = n: nat | n < 256

  datatype SigTuple = SigTuple(signatureType: nat, v: nat, r: string, s: string)

  /** What a caller may pass for a signature: text, an object with those fields, or neither.
      `None` stands for a field that is missing or not a finite number. */
  datatype SigInput = Text(text: string)
                    | Fields(signatureType: Option<int>, v: Option<int>, r: string, s: string)
                    | Neither

  // ---------------------------------------------------------------------------
  // Hex text
  // ---------------------------------------------------------------------------

  predicate IsHexDigit(c: char) {
    '0' <= c <= '9' || 'a' <= c <= 'f' || 'A' <= c <= 'F'
  }

  function DigitValue(c: char): (n: nat)
    requires IsHexDigit(c)
    ensures n < 16
  {
    if c <= '9' then (c - '0') as nat
    else if c <= 'F' then 10 + (c - 'A') as nat
    else 10 + (c - 'a') as nat
  }

  function DigitChar(n: nat): (c: char)
    requires n < 16
    ensures IsHexDigit(c) && DigitValue(c) == n && !('A' <= c <= 'F')
  {
    if n < 10 then '0' + n as char else 'a' + (n - 10) as char
  }

  function LowerChar(c: char): char {
    if 'A' <= c <= 'Z' then c - 'A' + 'a' else c
  }

  function Lower(s: string): (r: string)
    ensures |r| == |s| && forall i :: 0 <= i < |s| ==> r[i] == LowerChar(s[i])
  {
    seq(|s|, i requires 0 <= i < |s| => LowerChar(s[i]))
  }

  predicate AllHex(s: string) {
    forall i :: 0 <= i < |s| ==> IsHexDigit(s[i])
  }

  function ByteAt(hex: string, i: nat): Byte
    requires AllHex(hex) && 2 * i + 1 < |hex|
  {
    16 * DigitValue(hex[2 * i]) + DigitValue(hex[2 * i + 1])
  }

  function BytesOfHex(hex: string): (b: seq<Byte>)
    requires AllHex(hex)
    ensures |b| == |hex| / 2
  {
    seq(|hex| / 2, i requires 0 <= i < |hex| / 2 => ByteAt(hex, i))
  }

  function HexOfBytes(b: seq<Byte>): (h: string)
    ensures |h| == 2 * |b| && AllHex(h)
    ensures forall i :: 0 <= i < |b| ==> h[2 * i] == DigitChar(b[i] / 16) && h[2 * i + 1] == DigitChar(b[i] % 16)
  {
    if b == [] then "" else HexOfBytes(b[..|b| - 1]) + [DigitChar(b[|b| - 1] / 16), DigitChar(b[|b| - 1] % 16)]
  }

  /** Bytes survive being written as hex and read back. */
  lemma BytesRoundTrip(b: seq<Byte>)
    ensures BytesOfHex(HexOfBytes(b)) == b
  {
    forall i | 0 <= i < |b| ensures BytesOfHex(HexOfBytes(b))[i] == b[i] {
    }
  }

  lemma DigitRoundTrip(c: char)
    requires IsHexDigit(c)
    ensures DigitChar(DigitValue(c)) == LowerChar(c)
  {
  }

  lemma PairRoundTrip(hex: string, i: nat)
    requires AllHex(hex) && |hex| % 2 == 0 && 2 * i + 1 < |hex|
    ensures HexOfBytes(BytesOfHex(hex))[2 * i] == LowerChar(hex[2 * i])
    ensures HexOfBytes(BytesOfHex(hex))[2 * i + 1] == LowerChar(hex[2 * i + 1])
  {
    DigitRoundTrip(hex[2 * i]);
    DigitRoundTrip(hex[2 * i + 1]);
    SplitByte(DigitValue(hex[2 * i]), DigitValue(hex[2 * i + 1]));
    assert BytesOfHex(hex)[i] == ByteAt(hex, i);
  }

  lemma SplitByte(high: nat, low: nat)
    requires low < 16
    ensures (16 * high + low) / 16 == high && (16 * high + low) % 16 == low
  {
  }

  lemma PairsDecide(a: string, b: string)
    requires |a| == |b| && |a| % 2 == 0
    requires forall i: nat :: 2 * i + 1 < |a| ==> a[2 * i] == b[2 * i] && a[2 * i + 1] == b[2 * i + 1]
    ensures a == b
  {
    forall k | 0 <= k < |a| ensures a[k] == b[k] {
      var i := k / 2;
      assert k == 2 * i || k == 2 * i + 1;
    }
  }

  /** Hex text of whole bytes comes back in lower case. */
  lemma HexRoundTrip(hex: string)
    requires AllHex(hex) && |hex| % 2 == 0
    ensures HexOfBytes(BytesOfHex(hex)) == Lower(hex)
  {
    var back := HexOfBytes(BytesOfHex(hex));
    forall i: nat | 2 * i + 1 < |hex| ensures back[2 * i] == Lower(hex)[2 * i] && back[2 * i + 1] == Lower(hex)[2 * i + 1] {
      PairRoundTrip(hex, i);
    }
    PairsDecide(back, Lower(hex));
  }

  method HexToBytes(hex: string) returns (out: array<Byte>)
    requires AllHex(hex)
    ensures fresh(out) && out[..] == BytesOfHex(hex)
  {
    out := new Byte[|hex| / 2];
    var i := 0;
    while i < out.Length
      invariant 0 <= i <= out.Length
      invariant forall k :: 0 <= k < i ==> out[k] == ByteAt(hex, k)
    {
      out[i] := 16 * DigitValue(hex[2 * i]) + DigitValue(hex[2 * i + 1]);
      i := i + 1;
    }
  }

  method BytesToHex(b: seq<Byte>) returns (out: string)
    ensures out == HexOfBytes(b)
  {
    out := "";
    var i := 0;
    while i < |b|
      invariant 0 <= i <= |b|
      invariant out == HexOfBytes(b[..i])
    {
      out := out + [DigitChar(b[i] / 16), DigitChar(b[i] % 16)];
      assert b[..i + 1][..i] == b[..i];
      i := i + 1;
    }
    assert b[..i] == b;
  }

  // ---------------------------------------------------------------------------
  // Tuples
  // ---------------------------------------------------------------------------

  predicate IsHex32(s: string) {
    |s| == 66 && s[0] == '0' && s[1] == 'x' && AllHex(s[2..])
  }

  predicate ValidTuple(t: SigTuple) {
    (t.signatureType == 2 || t.signatureType == 3) && (t.v == 27 || t.v == 28) && IsHex32(t.r) && IsHex32(t.s)
  }

  function Lifted(v: int): int {
    if v == 0 || v == 1 then v + 27 else v
  }

  function SignatureToTuple(x: SigInput): (r: Option<SigTuple>)
    ensures r.Some? ==> ValidTuple(r.value)
  {
    match x
    case Text(text) =>
      var hex := if |text| >= 2 && text[..2] == "0x" then text[2..] else text;
      if |hex| != 130 || !AllHex(hex) then None
      else
        var v := Lifted(16 * DigitValue(hex[128]) + DigitValue(hex[129]));
        if v != 27 && v != 28 then None
        else
          assert ("0x" + hex[..64])[2..] == hex[..64] && ("0x" + hex[64..128])[2..] == hex[64..128];
          Some(SigTuple(2, v, "0x" + hex[..64], "0x" + hex[64..128]))
    case Fields(st, v, r, s) =>
      if !IsHex32(r) || !IsHex32(s) || v.None? then None
      else
        var lifted := Lifted(v.value);
        var signatureType := if st.Some? then st.value else 2;
        if (lifted != 27 && lifted != 28) || (signatureType != 2 && signatureType != 3) then None
        else Some(SigTuple(signatureType, lifted, r, s))
    case Neither => None
  }

  function AsInput(t: SigTuple): SigInput {
    Fields(Some(t.signatureType), Some(t.v), t.r, t.s)
  }

  /** Exactly the valid tuples come out, and each of them is accepted again unchanged. */
  lemma AcceptedTuplesAreFixed(t: SigTuple)
    ensures ValidTuple(t) <==> SignatureToTuple(AsInput(t)) == Some(t)
    ensures (exists x :: SignatureToTuple(x) == Some(t)) <==> ValidTuple(t)
  {
    if ValidTuple(t) {
      assert SignatureToTuple(AsInput(t)) == Some(t);
    }
  }

  /** Which fields are accepted, and as what: both words well-formed, the recovery value 27 or 28, or 0 or 1 for
      the same, and the type 2 or 3, or none for 2. */
  lemma FieldsAcceptedAs(st: Option<int>, v: Option<int>, r: string, s: string)
    ensures var accepted := IsHex32(r) && IsHex32(s) && v.Some? && v.value in {0, 1, 27, 28} && (st.None? || st.value in {2, 3});
            SignatureToTuple(Fields(st, v, r, s))
            == if accepted then
                 Some(SigTuple(if st == Some(3) then 3 else 2, if v.value == 0 || v.value == 27 then 27 else 28, r, s))
               else None
  {
  }

  /** Which text is accepted: 65 bytes of hex, with or without 0x, the last of them such a recovery value; it is
      read as an EIP-712 signature. */
  lemma TextAcceptedAs(hex: string, prefixed: bool)
    requires prefixed || |hex| < 2 || hex[..2] != "0x"
    ensures var accepted := |hex| == 130 && AllHex(hex) && ByteAt(hex, 64) in {0, 1, 27, 28};
            SignatureToTuple(Text(if prefixed then "0x" + hex else hex))
            == if accepted then
                 Some(SigTuple(2, if ByteAt(hex, 64) in {0, 27} then 27 else 28, "0x" + hex[..64], "0x" + hex[64..128]))
               else None
  {
    assert ("0x" + hex)[..2] == "0x" && ("0x" + hex)[2..] == hex;
  }

  /** The text form r, s, v of an EIP-712 tuple is read back as that tuple. */
  lemma TextRoundTrip(t: SigTuple)
    requires ValidTuple(t) && t.signatureType == 2
    ensures SignatureToTuple(Text(t.r + t.s[2..] + HexOfBytes([t.v]))) == Some(t)
  {
    var text := t.r + t.s[2..] + HexOfBytes([t.v]);
    assert text[..2] == "0x" && text[2..] == t.r[2..] + t.s[2..] + HexOfBytes([t.v]);
    var hex := text[2..];
    assert hex[..64] == t.r[2..] && hex[64..128] == t.s[2..];
    assert t.r == "0x" + t.r[2..] && t.s == "0x" + t.s[2..];
    assert HexOfBytes([t.v])[0] == DigitChar([t.v][0] / 16) && HexOfBytes([t.v])[1] == DigitChar([t.v][0] % 16);
    assert hex[128] == HexOfBytes([t.v])[0] && hex[129] == HexOfBytes([t.v])[1];
  }

  // ---------------------------------------------------------------------------
  // Packing
  // ---------------------------------------------------------------------------

  function Packed(t: SigTuple): seq<Byte>
    requires ValidTuple(t)
  {
    [t.signatureType] + BytesOfHex(t.r[2..]) + BytesOfHex(t.s[2..]) + [t.v]
  }

  lemma LaidOut(buf: seq<Byte>, first: Byte, r: seq<Byte>, s: seq<Byte>, last: Byte)
    requires |buf| == 66 && |r| == 32 && |s| == 32
    requires buf[0] == first && buf[1..33] == r && buf[33..65] == s && buf[65] == last
    ensures buf == [first] + r + s + [last]
  {
    assert buf == [buf[0]] + buf[1..33] + buf[33..65] + [buf[65]];
  }

  method TupleToPackedBytes(t: SigTuple) returns (buf: array<Byte>)
    requires ValidTuple(t)
    ensures fresh(buf) && buf[..] == Packed(t)
  {
    buf := new Byte[66];
    buf[0] := t.signatureType;
    var r := HexToBytes(t.r[2..]);
    var s := HexToBytes(t.s[2..]);
    forall i | 0 <= i < 32 { buf[1 + i] := r[i]; }
    forall i | 0 <= i < 32 { buf[33 + i] := s[i]; }
    buf[65] := t.v;
    assert buf[1..33] == r[..];
    assert buf[33..65] == s[..];
    LaidOut(buf[..], t.signatureType, r[..], s[..], t.v);
  }

  function PackedBytesToTuple(buf: seq<Byte>): Option<SigTuple> {
    if |buf| != 66 then None
    else if buf[0] != 2 && buf[0] != 3 then None
    else if buf[65] != 27 && buf[65] != 28 then None
    else Some(SigTuple(buf[0], buf[65], "0x" + HexOfBytes(buf[1..33]), "0x" + HexOfBytes(buf[33..65])))
  }

  lemma WordRoundTrip(w: string)
    requires IsHex32(w)
    ensures "0x" + HexOfBytes(BytesOfHex(w[2..])) == Lower(w)
  {
    HexRoundTrip(w[2..]);
    assert "0x" + Lower(w[2..]) == Lower(w);
  }

  lemma PackedParts(t: SigTuple)
    requires ValidTuple(t)
    ensures |Packed(t)| == 66 && Packed(t)[0] == t.signatureType && Packed(t)[65] == t.v
    ensures Packed(t)[1..33] == BytesOfHex(t.r[2..]) && Packed(t)[33..65] == BytesOfHex(t.s[2..])
  {
    var r, s := BytesOfHex(t.r[2..]), BytesOfHex(t.s[2..]);
    assert |r| == 32 && |s| == 32;
    assert ([t.signatureType] + r + s + [t.v])[1..33] == r;
    assert ([t.signatureType] + r + s + [t.v])[33..65] == s;
  }

  /** Unpacking what was packed gives the tuple back, with r and s in lower case. */
  lemma UnpackPacked(t: SigTuple)
    requires ValidTuple(t)
    ensures PackedBytesToTuple(Packed(t)) == Some(t.(r := Lower(t.r), s := Lower(t.s)))
  {
    PackedParts(t);
    WordRoundTrip(t.r);
    WordRoundTrip(t.s);
  }

  predicate Unpackable(buf: seq<Byte>) {
    |buf| == 66 && (buf[0] == 2 || buf[0] == 3) && (buf[65] == 27 || buf[65] == 28)
  }

  /** Exactly the 66-byte buffers with a known type and recovery byte are accepted, and each is
      what its tuple packs to, so no two buffers are read alike. */
  lemma PackUnpacked(buf: seq<Byte>)
    ensures PackedBytesToTuple(buf).Some? <==> Unpackable(buf)
    ensures Unpackable(buf) ==> ValidTuple(PackedBytesToTuple(buf).value) && Packed(PackedBytesToTuple(buf).value) == buf
  {
    if Unpackable(buf) {
      var t := PackedBytesToTuple(buf).value;
      BytesRoundTrip(buf[1..33]);
      BytesRoundTrip(buf[33..65]);
      assert t.r[2..] == HexOfBytes(buf[1..33]) && t.s[2..] == HexOfBytes(buf[33..65]);
      assert buf == [buf[0]] + buf[1..33] + buf[33..65] + [buf[65]];
    }
  }

  /** What a row stores is what placement accepted: the type byte survives, and the tuple read
      back is accepted again as it stands. */
  lemma StoredSignatureIsTheAcceptedOne(x: SigInput)
    requires SignatureToTuple(x).Some?
    ensures var back := PackedBytesToTuple(Packed(SignatureToTuple(x).value));
            && back.Some?
            && back.value.signatureType == SignatureToTuple(x).value.signatureType
            && SignatureToTuple(AsInput(back.value)) == back
            && Packed(back.value) == Packed(SignatureToTuple(x).value)
  {
    UnpackPacked(SignatureToTuple(x).value);
    PackUnpacked(Packed(SignatureToTuple(x).value));
    AcceptedTuplesAreFixed(PackedBytesToTuple(Packed(SignatureToTuple(x).value)).value);
  }
}
