/** The DER form of an ECDSA signature turned into the two 32-byte halves WebCrypto
    takes. The encoder (section 2.2.3 of RFC 3279, INTEGER as section 8.3 of
    X.690) is the specification's, not the source's. */
module Signature {
  import opened Wrappers
  import opened Octets

  /** 256 to the n. */
  function Pow(n: nat): nat {
    if n == 0 then 1 else Pow(n - 1) * 256
  }

  /** One INTEGER at `at`: its content bytes and where it ends. */
  datatype Part = Part(content: seq<byte>, end: nat)

  function PartAt(der: seq<byte>, at: nat): (r: Option<Part>)
    ensures r.Some? ==> at + 2 <= r.value.end <= |der|
  {
    if at >= |der| || der[at] != 0x02 || at + 1 >= |der| then None
    else
      var end := at + 2 + der[at + 1];
      if end > |der| then None else Some(Part(der[at + 2..end], end))
  }

  /** The content bytes of both INTEGERs, when the structure reads. */
  function Contents(der: seq<byte>): Option<(seq<byte>, seq<byte>)> {
    if der == [] || der[0] != 0x30 then None
    else match PartAt(der, 2)
      case None => None
      case Some(r) =>
        match PartAt(der, r.end)
        case None => None
        case Some(s) => Some((r.content, s.content))
  }

  // --- byte strings as numbers ---

  lemma {:induction false} ValueFront(b: byte, s: seq<byte>)
    ensures Number([b] + s) == b * Pow(|s|) + Number(s)
  {
    if s == [] {
      assert [b][..0] == [];
    } else {
      var front, last := s[..|s| - 1], s[|s| - 1];
      ValueFront(b, front);
      assert ([b] + s)[..|s|] == [b] + front;
      assert Number([b] + s) == Number([b] + front) * 256 + last;
      assert b * Pow(|front|) * 256 == b * Pow(|s|) by { assert Pow(|s|) == Pow(|front|) * 256; }
    }
  }

  lemma {:induction false} ValueBelow(s: seq<byte>)
    ensures Number(s) < Pow(|s|)
  {
    if s != [] { ValueBelow(s[..|s| - 1]); }
  }

  lemma {:induction false} PowGrows(m: nat, n: nat)
    requires m <= n
    ensures 0 < Pow(m) <= Pow(n)
  {
    if m < n { PowGrows(m, n - 1); } else if m > 0 { PowGrows(m - 1, m - 1); }
  }

  lemma DropsZero(s: seq<byte>)
    requires s != [] && s[0] == 0
    ensures Number(s[1..]) == Number(s)
  {
    assert s == [s[0]] + s[1..];
    ValueFront(0, s[1..]);
  }

  /** More than 32 bytes with a leading one that counts denote too large a number. */
  lemma TooLong(s: seq<byte>)
    requires |s| > 32 && s[0] != 0
    ensures Number(s) >= Pow(32)
  {
    assert s == [s[0]] + s[1..];
    ValueFront(s[0], s[1..]);
    PowGrows(32, |s| - 1);
    assert s[0] * Pow(|s| - 1) >= Pow(|s| - 1) by { Times(s[0], Pow(|s| - 1)); }
  }

  lemma Times(a: nat, b: nat)
    requires a >= 1
    ensures a * b >= b
  {
    assert a * b == b + (a - 1) * b;
  }

  function Zeros(n: nat): seq<byte> {
    seq(n, _ => 0)
  }

  lemma {:induction false} Padded(n: nat, s: seq<byte>)
    ensures Number(Zeros(n) + s) == Number(s)
  {
    if n == 0 {
      assert Zeros(n) + s == s;
    } else {
      Padded(n - 1, s);
      assert (Zeros(n) + s)[1..] == Zeros(n - 1) + s;
      DropsZero(Zeros(n) + s);
    }
  }

  /** A half is settled by the number it denotes. */
  lemma {:induction false} SameValue(a: seq<byte>, b: seq<byte>)
    requires |a| == |b| && Number(a) == Number(b)
    ensures a == b
  {
    if a != [] {
      SameValue(a[..|a| - 1], b[..|b| - 1]);
      assert a == a[..|a| - 1] + [a[|a| - 1]] && b == b[..|b| - 1] + [b[|b| - 1]];
    }
  }

  // --- the conversion ---

  /** Leading sign bytes dropped until 32 are left, if that can be. */
  method Trimmed(content: seq<byte>) returns (part: seq<byte>)
    ensures Number(part) == Number(content)
    ensures |part| <= 32 <==> Number(content) < Pow(32)
  {
    part := content;
    while |part| > 32 && part[0] == 0
      invariant Number(part) == Number(content)
    {
      DropsZero(part);
      part := part[1..];
    }
    if |part| > 32 { TooLong(part); } else { ValueBelow(part); PowGrows(|part|, 32); }
  }

  /** One turn of its loop: the INTEGER at `at`, trimmed, if it fits. */
  method NextPart(der: seq<byte>, at: nat) returns (part: Option<Part>)
    ensures part.Some? <==> PartAt(der, at).Some? && Number(PartAt(der, at).value.content) < Pow(32)
    ensures part.Some? ==>
      && part.value.end == PartAt(der, at).value.end && |part.value.content| <= 32
      && Number(part.value.content) == Number(PartAt(der, at).value.content)
  {
    if at >= |der| || der[at] != 0x02 { return None; }
    if at + 1 >= |der| { return None; }
    var start, length := at + 2, der[at + 1];
    var end := start + length;
    if end > |der| { return None; }
    var content := Trimmed(der[start..end]);
    if |content| > 32 { return None; }
    return Some(Part(content, end));
  }

  /** `rawEcdsaSignature`: it answers exactly when the structure reads and both
      integers fit, and each half denotes the integer it stands for. */
  method RawSignature(der: seq<byte>) returns (raw: Option<seq<byte>>)
    ensures raw.Some? <==> Contents(der).Some? && Number(Contents(der).value.0) < Pow(32) && Number(Contents(der).value.1) < Pow(32)
    ensures raw.Some? ==>
      && |raw.value| == 64
      && Number(raw.value[..32]) == Number(Contents(der).value.0)
      && Number(raw.value[32..]) == Number(Contents(der).value.1)
  {
    if der == [] || der[0] != 0x30 { return None; }
    var at, parts, i := 2, [], 0;
    while i < 2
      invariant 0 <= i <= 2 && |parts| == i && forall k :: 0 <= k < i ==> |parts[k]| <= 32
      invariant i == 0 ==> at == 2
      invariant i >= 1 ==> PartAt(der, 2).Some? && Number(parts[0]) == Number(PartAt(der, 2).value.content) < Pow(32)
      invariant i == 1 ==> at == PartAt(der, 2).value.end
      invariant i == 2 ==>
        && PartAt(der, PartAt(der, 2).value.end).Some?
        && Number(parts[1]) == Number(PartAt(der, PartAt(der, 2).value.end).value.content) < Pow(32)
    {
      var part := NextPart(der, at);
      if part.None? { return None; }
      parts := parts + [part.value.content];
      at := part.value.end;
      i := i + 1;
    }
    var joined := Joined(parts[0], parts[1]);
    return Some(joined);
  }

  /** Both parts in one buffer, each at the end of its 32 bytes. */
  method Joined(r: seq<byte>, s: seq<byte>) returns (raw: seq<byte>)
    requires |r| <= 32 && |s| <= 32
    ensures |raw| == 64 && Number(raw[..32]) == Number(r) && Number(raw[32..]) == Number(s)
  {
    var buffer := new byte[64](_ => 0);
    Set(buffer, r, 32 - |r|);
    Set(buffer, s, 64 - |s|);
    raw := buffer[..];
    assert raw[..32] == Zeros(32 - |r|) + r;
    assert raw[32..] == Zeros(32 - |s|) + s;
    Padded(32 - |r|, r);
    Padded(32 - |s|, s);
  }

  /** `Uint8Array.set`. */
  method Set(buffer: array<byte>, part: seq<byte>, offset: nat)
    requires offset + |part| <= buffer.Length
    modifies buffer
    ensures forall k :: 0 <= k < buffer.Length ==>
      buffer[k] == if offset <= k < offset + |part| then part[k - offset] else old(buffer[k])
  {
    var i := 0;
    while i < |part|
      invariant 0 <= i <= |part|
      invariant forall k :: 0 <= k < buffer.Length ==>
        buffer[k] == if offset <= k < offset + i then part[k - offset] else old(buffer[k])
    {
      buffer[offset + i] := part[i];
      i := i + 1;
    }
  }

  // --- the encoder, and the round trip ---

  /** The shortest byte string denoting `n`. */
  function Shortest(n: nat): (r: seq<byte>)
    ensures Number(r) == n && (r != [] ==> r[0] != 0)
  {
    if n == 0 then [] else Shortest(n / 256) + [(n % 256) as byte]
  }

  lemma {:induction false} ShortestFits(n: nat, k: nat)
    requires n < Pow(k)
    ensures |Shortest(n)| <= k
  {
    if n > 0 { ShortestFits(n / 256, k - 1); }
  }

  /** The content of a DER INTEGER: a zero ahead of a set top bit, or of nothing. */
  function IntegerContent(n: nat): seq<byte> {
    var s := Shortest(n);
    if s == [] || s[0] >= 0x80 then [0] + s else s
  }

  function Integer(n: nat): seq<byte>
    requires |IntegerContent(n)| < 256
  {
    [0x02, |IntegerContent(n)|] + IntegerContent(n)
  }

  lemma ContentDenotes(n: nat)
    requires n < Pow(32)
    ensures Number(IntegerContent(n)) == n && 1 <= |IntegerContent(n)| <= 33
  {
    ShortestFits(n, 32);
    ValueFront(0, Shortest(n));
  }

  function DerSignature(r: nat, s: nat): seq<byte>
    requires |IntegerContent(r)| < 100 && |IntegerContent(s)| < 100
  {
    [0x30, |Integer(r) + Integer(s)|] + Integer(r) + Integer(s)
  }

  lemma PartRead(before: seq<byte>, content: seq<byte>, after: seq<byte>)
    requires |content| < 256
    ensures PartAt(before + ([0x02, |content|] + content) + after, |before|) == Some(Part(content, |before| + 2 + |content|))
  {
    var der := before + ([0x02, |content|] + content) + after;
    assert der[|before|] == 0x02 && der[|before| + 1] == |content|;
    assert der[|before| + 2..|before| + 2 + |content|] == content;
  }

  /** What is accepted as a structure, exactly: a sequence tag and any length byte,
      two INTEGERs with one-byte lengths of any content, and anything after. */
  ghost predicate Framed(der: seq<byte>, r: seq<byte>, s: seq<byte>) {
    |r| < 256 && |s| < 256 && exists length: byte, after: seq<byte> :: der == Frame(length, r, s, after)
  }

  function Frame(length: byte, r: seq<byte>, s: seq<byte>, after: seq<byte>): seq<byte>
    requires |r| < 256 && |s| < 256
  {
    [0x30, length] + ([0x02, |r|] + r) + ([0x02, |s|] + s) + after
  }

  lemma FrameReads(length: byte, r: seq<byte>, s: seq<byte>, after: seq<byte>)
    requires |r| < 256 && |s| < 256
    ensures Contents(Frame(length, r, s, after)) == Some((r, s))
  {
    var der := Frame(length, r, s, after);
    assert der == [0x30, length] + ([0x02, |r|] + r) + (([0x02, |s|] + s) + after);
    PartRead([0x30, length], r, ([0x02, |s|] + s) + after);
    var before := [0x30, length] + ([0x02, |r|] + r);
    assert der == before + ([0x02, |s|] + s) + after;
    PartRead(before, s, after);
  }

  lemma PartFrames(der: seq<byte>, at: nat)
    requires at <= |der| && PartAt(der, at).Some?
    ensures var p := PartAt(der, at).value;
      |p.content| < 256 && p.end == at + 2 + |p.content| && der[at..p.end] == [0x02, |p.content|] + p.content
  {
  }

  lemma ContentsExactly(der: seq<byte>, r: seq<byte>, s: seq<byte>)
    ensures Contents(der) == Some((r, s)) <==> Framed(der, r, s)
  {
    if Framed(der, r, s) {
      var length: byte, after: seq<byte> :| der == Frame(length, r, s, after);
      FrameReads(length, r, s, after);
    }
    if Contents(der) == Some((r, s)) {
      var first := PartAt(der, 2).value;
      PartFrames(der, 2);
      PartFrames(der, first.end);
      var end := PartAt(der, first.end).value.end;
      assert der[..2] == [0x30, der[1]];
      assert der == der[..2] + der[2..first.end] + der[first.end..end] + der[end..];
      assert der == Frame(der[1], r, s, der[end..]);
    }
  }

  /** Every DER encoding of r, s < 2^256 reads back as r and s, so the conversion
      answers it, and the halves it answers are those of r and s and no others. */
  lemma EncodedIsRead(r: nat, s: nat)
    requires r < Pow(32) && s < Pow(32)
    ensures |IntegerContent(r)| < 100 && |IntegerContent(s)| < 100
    ensures Contents(DerSignature(r, s)) == Some((IntegerContent(r), IntegerContent(s)))
    ensures Number(IntegerContent(r)) == r && Number(IntegerContent(s)) == s
  {
    ContentDenotes(r);
    ContentDenotes(s);
    var der := DerSignature(r, s);
    var head := [0x30, |Integer(r) + Integer(s)|];
    assert der == head + Integer(r) + Integer(s);
    PartRead(head, IntegerContent(r), Integer(s));
    assert der == (head + Integer(r)) + Integer(s) + [];
    PartRead(head + Integer(r), IntegerContent(s), []);
  }
}
