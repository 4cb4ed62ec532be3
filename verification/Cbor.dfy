/** The depth-bounded CBOR reader: section 3 of RFC 8949 without 64-bit arguments,
    indefinite lengths and tags. The encoder is the specification's, and writes
    the shortest head, as section 4.2.1 of RFC 8949 asks. */
module Cbor {
  import opened Wrappers
  import opened Octets
  import opened CborTree

  // --- one head, as a function of the bytes ---

  /** The `n` bytes from `at` on. */
  function Span(b: seq<byte>, at: nat, n: nat): (r: seq<byte>)
    requires at + n <= |b|
    ensures |r| == n
    decreases n
  {
    if n == 0 then [] else [b[at]] + Span(b, at + 1, n - 1)
  }

  /** How many bytes of argument follow an initial byte with these low bits. */
  function Width(minor: nat): Option<nat> {
    if minor < 24 then Some(0)
    else if minor == 24 then Some(1)
    else if minor == 25 then Some(2)
    else if minor == 26 then Some(4)
    else None
  }

  function Argument(b: seq<byte>, at: nat, minor: nat): (r: Option<Read<nat>>)
    requires at <= |b|
    ensures r.Some? ==> at <= r.value.next <= |b|
  {
    match Width(minor)
    case None => None
    case Some(width) =>
      if at + width > |b| then None
      else Some(Read(if width == 0 then minor else Number(Span(b, at, width)), at + width))
  }

  function StringEnd(b: seq<byte>, arg: Read<nat>): Option<Read<seq<byte>>>
    requires arg.next <= |b|
  {
    if arg.next + arg.value > |b| then None
    else Some(Read(Span(b, arg.next, arg.value), arg.next + arg.value))
  }

  /** What the byte at `at` introduces, with the bytes of a string. */
  function TokenAt(b: seq<byte>, at: nat): (r: Option<Read<Token>>)
    ensures r.Some? ==> at < r.value.next <= |b|
  {
    if at >= |b| then None
    else
      var major, minor := b[at] / 32, b[at] % 32;
      if major == 7 then
        if minor == 20 then Some(Read(Leaf(Bool(false)), at + 1))
        else if minor == 21 then Some(Read(Leaf(Bool(true)), at + 1))
        else if minor == 22 then Some(Read(Leaf(Null), at + 1))
        else None
      else if major == 6 then None
      else match Argument(b, at + 1, minor)
        case None => None
        case Some(arg) =>
          match major
          case 0 => Some(Read(Leaf(Num(arg.value)), arg.next))
          case 1 => Some(Read(Leaf(Num(-1 - arg.value)), arg.next))
          case 2 => (match StringEnd(b, arg) case None => None case Some(s) => Some(Read(Leaf(Bytes(s.value)), s.next)))
          case 3 => (match StringEnd(b, arg) case None => None case Some(s) => Some(Read(Leaf(Text(s.value)), s.next)))
          case 4 => Some(Read(Items(arg.value), arg.next))
          case _ => Some(Read(Pairs(arg.value), arg.next))
  }

  function On(b: seq<byte>): Reader { (at: nat) => TokenAt(b, at) }

  // --- the encoder ---

  function Digits(n: nat, width: nat): (r: seq<byte>)
    ensures |r| == width
  {
    if width == 0 then [] else Digits(n / 0x100, width - 1) + [n % 0x100]
  }

  /** The low bits of the shortest head; total, and meant for arguments below 2^32. */
  function Minor(n: nat): (minor: nat)
    ensures minor <= 26 && Width(minor).Some?
  {
    if n < 24 then n else if n < 0x100 then 24 else if n < 0x1_0000 then 25 else 26
  }

  function Head(major: nat, n: nat): (r: seq<byte>)
    requires major <= 7
    ensures 1 <= |r|
  {
    [major * 32 + Minor(n)] + Digits(n, Width(Minor(n)).value)
  }

  function EncodeToken(t: Token): seq<byte> {
    match t
    case Leaf(Num(n)) => if n >= 0 then Head(0, n) else Head(1, -1 - n)
    case Leaf(Bytes(bytes)) => Head(2, |bytes|) + bytes
    case Leaf(Text(text)) => Head(3, |text|) + text
    case Leaf(Bool(b)) => [if b then 0xf5 else 0xf4]
    case Leaf(_) => [0xf6]
    case Items(n) => Head(4, n)
    case Pairs(n) => Head(5, n)
  }

  function Concat(write: Token -> seq<byte>, tokens: seq<Token>): seq<byte> {
    if tokens == [] then [] else write(tokens[0]) + Concat(write, tokens[1..])
  }

  function Writer(): Token -> seq<byte> { (t: Token) => EncodeToken(t) }

  function Encode(v: Value): seq<byte> { Concat(Writer(), Tokens(v)) }

  /** Section 3.1 of RFC 8949, major types 4 and 5: a count, then the encodings of
      the items, or of each key and its value, one after the other. */
  function EncodeAll(items: seq<Value>): seq<byte> {
    if items == [] then [] else Encode(items[0]) + EncodeAll(items[1..])
  }

  function EncodePairs(entries: seq<Entry>): seq<byte> {
    if entries == [] then []
    else Encode(KeyValue(entries[0].key)) + Encode(entries[0].held) + EncodePairs(entries[1..])
  }

  lemma {:induction false} ConcatApart(write: Token -> seq<byte>, x: seq<Token>, y: seq<Token>)
    ensures Concat(write, x + y) == Concat(write, x) + Concat(write, y)
  {
    if x == [] {
      assert x + y == y;
    } else {
      assert (x + y)[1..] == x[1..] + y;
      ConcatApart(write, x[1..], y);
    }
  }

  lemma ConcatOne(write: Token -> seq<byte>, t: Token)
    ensures Concat(write, [t]) == write(t)
  {
    assert [t][1..] == [];
  }

  lemma {:induction false} ItemsConcat(items: seq<Value>)
    ensures Concat(Writer(), ItemTokens(items)) == EncodeAll(items)
  {
    if items != [] {
      ConcatApart(Writer(), Tokens(items[0]), ItemTokens(items[1..]));
      ItemsConcat(items[1..]);
    }
  }

  lemma {:induction false} PairsConcat(entries: seq<Entry>)
    ensures Concat(Writer(), PairTokens(entries)) == EncodePairs(entries)
  {
    if entries != [] {
      var e := entries[0];
      ConcatApart(Writer(), EntryTokens(e), PairTokens(entries[1..]));
      ConcatApart(Writer(), [Leaf(KeyValue(e.key))], Tokens(e.held));
      PairsConcat(entries[1..]);
    }
  }

  /** The encoder, value by value. */
  lemma EncodingNests(items: seq<Value>, entries: seq<Entry>)
    ensures Encode(List(items)) == Head(4, |items|) + EncodeAll(items)
    ensures Encode(Dict(entries)) == Head(5, |entries|) + EncodePairs(entries)
  {
    ConcatApart(Writer(), [Items(|items|)], ItemTokens(items));
    ConcatOne(Writer(), Items(|items|));
    ItemsConcat(items);
    ConcatApart(Writer(), [Pairs(|entries|)], PairTokens(entries));
    ConcatOne(Writer(), Pairs(|entries|));
    PairsConcat(entries);
  }

  // --- the round trip ---

  /** `x` stands in `b` at `at`. */
  ghost predicate Stands(b: seq<byte>, at: nat, x: seq<byte>) {
    at + |x| <= |b| && Span(b, at, |x|) == x
  }

  lemma {:induction false} SpanIsSlice(b: seq<byte>, at: nat, n: nat)
    requires at + n <= |b|
    ensures Span(b, at, n) == b[at..at + n]
    decreases n
  {
    if n > 0 {
      SpanIsSlice(b, at + 1, n - 1);
      assert b[at..at + n] == [b[at]] + b[at + 1..at + n];
    }
  }

  lemma StandsApart(b: seq<byte>, at: nat, x: seq<byte>, y: seq<byte>)
    requires Stands(b, at, x + y)
    ensures Stands(b, at, x) && Stands(b, at + |x|, y)
  {
    var m, n := |x|, |y|;
    SpanIsSlice(b, at, m + n);
    SpanIsSlice(b, at, m);
    SpanIsSlice(b, at + m, n);
    assert b[at..at + m] == b[at..at + (m + n)][..m];
    assert b[at + m..at + m + n] == b[at..at + (m + n)][m..];
  }

  lemma NumberSplits(n: nat, width: nat)
    requires width > 0
    ensures Number(Digits(n, width)) == Number(Digits(n / 0x100, width - 1)) * 0x100 + n % 0x100
  {
    assert Digits(n, width)[..width - 1] == Digits(n / 0x100, width - 1);
  }

  /** One, two and four bytes state every number they have room for. */
  lemma DigitsRead(n: nat)
    ensures n < 0x100 ==> Number(Digits(n, 1)) == n
    ensures n < 0x1_0000 ==> Number(Digits(n, 2)) == n
    ensures n < LIMIT ==> Number(Digits(n, 4)) == n
  {
    NumberSplits(n, 1);
    NumberSplits(n, 2);
    NumberSplits(n / 0x100, 1);
    NumberSplits(n, 4);
    NumberSplits(n / 0x100, 3);
    NumberSplits(n / 0x100 / 0x100, 2);
    NumberSplits(n / 0x100 / 0x100 / 0x100, 1);
  }

  /** A head reads back as its major type and argument. */
  lemma HeadReads(b: seq<byte>, at: nat, major: nat, n: nat)
    requires major <= 7 && n < LIMIT && Stands(b, at, Head(major, n))
    ensures at < |b| && b[at] / 32 == major
    ensures Argument(b, at + 1, b[at] % 32) == Some(Read(n, at + |Head(major, n)|))
  {
    var digits := Digits(n, Width(Minor(n)).value);
    StandsApart(b, at, [major * 32 + Minor(n)], digits);
    StandsFirst(b, at, [major * 32 + Minor(n)]);
    DigitsRead(n);
  }

  lemma StandsFirst(b: seq<byte>, at: nat, x: seq<byte>)
    requires x != [] && Stands(b, at, x)
    ensures b[at] == x[0]
  {
    assert Span(b, at, |x|)[0] == b[at];
  }

  lemma StringReads(b: seq<byte>, at: nat, major: nat, s: seq<byte>)
    requires 2 <= major <= 3 && |s| < LIMIT && Stands(b, at, Head(major, |s|) + s)
    ensures TokenAt(b, at) == Some(Read(Leaf(if major == 2 then Bytes(s) else Text(s)), at + |Head(major, |s|) + s|))
  {
    StandsApart(b, at, Head(major, |s|), s);
    HeadReads(b, at, major, |s|);
  }

  lemma NumReads(b: seq<byte>, at: nat, n: int)
    requires FitsNum(n) && Stands(b, at, EncodeToken(Leaf(Num(n))))
    ensures TokenAt(b, at) == Some(Read(Leaf(Num(n)), at + |EncodeToken(Leaf(Num(n)))|))
  {
    if n >= 0 { HeadReads(b, at, 0, n); } else { HeadReads(b, at, 1, -1 - n); }
  }

  lemma CountReads(b: seq<byte>, at: nat, major: nat, n: nat)
    requires 4 <= major <= 5 && n < LIMIT && Stands(b, at, Head(major, n))
    ensures TokenAt(b, at) == Some(Read(if major == 4 then Items(n) else Pairs(n), at + |Head(major, n)|))
  {
    HeadReads(b, at, major, n);
  }

  lemma TokenReads(b: seq<byte>, at: nat, t: Token)
    requires TokenFits(t) && Stands(b, at, EncodeToken(t))
    ensures TokenAt(b, at) == Some(Read(t, at + |EncodeToken(t)|))
  {
    match t
    case Leaf(Num(n)) => NumReads(b, at, n);
    case Leaf(Bytes(s)) => StringReads(b, at, 2, s);
    case Leaf(Text(s)) => StringReads(b, at, 3, s);
    case Leaf(_) => StandsFirst(b, at, EncodeToken(t));
    case Items(n) => CountReads(b, at, 4, n);
    case Pairs(n) => CountReads(b, at, 5, n);
  }

  predicate AllTokensFit(tokens: seq<Token>) { forall i :: 0 <= i < |tokens| ==> TokenFits(tokens[i]) }

  /** Wherever a supported head is written in `b`, it reads back. */
  ghost predicate ReadsBack(read: Reader, write: Token -> seq<byte>, b: seq<byte>) {
    forall at: nat, t :: TokenFits(t) && Stands(b, at, write(t)) ==> read(at) == Some(Read(t, at + |write(t)|))
  }

  lemma HeadsReadBack(b: seq<byte>)
    ensures ReadsBack(On(b), Writer(), b)
  {
    forall at: nat, t | TokenFits(t) && Stands(b, at, EncodeToken(t))
      ensures TokenAt(b, at) == Some(Read(t, at + |EncodeToken(t)|))
    {
      TokenReads(b, at, t);
    }
  }

  lemma {:induction false} TokensFlow(read: Reader, write: Token -> seq<byte>, b: seq<byte>, at: nat, tokens: seq<Token>)
    requires ReadsBack(read, write, b) && AllTokensFit(tokens) && Stands(b, at, Concat(write, tokens))
    ensures Flows(read, at, tokens, at + |Concat(write, tokens)|)
    decreases |tokens|
  {
    if tokens != [] {
      StandsApart(b, at, write(tokens[0]), Concat(write, tokens[1..]));
      assert read(at) == Some(Read(tokens[0], at + |write(tokens[0])|));
      TokensFlow(read, write, b, at + |write(tokens[0])|, tokens[1..]);
    }
  }

  lemma {:induction false} TokensFit(v: Value, depth: nat)
    requires Fits(v, depth)
    ensures AllTokensFit(Tokens(v))
    decreases Left(depth), 0, 0
  {
    match v
    case List(items) => ItemTokensFit(items, depth + 1);
    case Dict(entries) => PairTokensFit(entries, depth + 1);
    case _ =>
  }

  lemma {:induction false} ItemTokensFit(items: seq<Value>, depth: nat)
    requires AllFit(items, depth)
    ensures AllTokensFit(ItemTokens(items))
    decreases Left(depth), 1, |items|
  {
    if items != [] {
      TokensFit(items[0], depth);
      ItemTokensFit(items[1..], depth);
    }
  }

  lemma {:induction false} PairTokensFit(entries: seq<Entry>, depth: nat)
    requires EachFits(entries, depth)
    ensures AllTokensFit(PairTokens(entries))
    decreases Left(depth), 1, |entries|
  {
    if entries != [] {
      TokensFit(entries[0].held, depth);
      PairTokensFit(entries[1..], depth);
    }
  }

  lemma WrittenReads(read: Reader, write: Token -> seq<byte>, v: Value, t: seq<byte>)
    requires Fits(v, 0) && ReadsBack(read, write, Concat(write, Tokens(v)) + t)
    ensures Parse(read, 0, 0) == Some(Read(v, |Concat(write, Tokens(v))|))
  {
    var x := Concat(write, Tokens(v));
    SpanIsSlice(x + t, 0, |x|);
    TokensFit(v, 0);
    TokensFlow(read, write, x + t, 0, Tokens(v));
    ValueReads(read, v, 0, |x|, 0);
  }

  /** CBOR round trip: every supported value, followed by anything at all, reads
      back as itself with exactly what follows left over. */
  lemma RoundTrip(v: Value, t: seq<byte>)
    requires Fits(v, 0)
    ensures Parse(On(Encode(v) + t), 0, 0) == Some(Read(v, |Encode(v)|))
  {
    HeadsReadBack(Encode(v) + t);
    WrittenReads(On(Encode(v) + t), Writer(), v, t);
  }

  // --- and nothing else is ever read ---

  lemma ArgumentFits(b: seq<byte>, at: nat, minor: nat)
    requires at <= |b| && Argument(b, at, minor).Some?
    ensures Argument(b, at, minor).value.value < LIMIT
  {
    NumberFits(Span(b, at, Width(minor).value));
  }

  lemma NumberFits(s: seq<byte>)
    ensures |s| == 1 ==> Number(s) < 0x100
    ensures |s| == 2 ==> Number(s) < 0x1_0000
    ensures |s| == 4 ==> Number(s) < LIMIT
  {
    if |s| == 2 {
      NumberFits(s[..1]);
    } else if |s| == 4 {
      NumberFits(s[..2]);
      assert s[..3][..2] == s[..2];
      assert s[..3] == s[..|s| - 1];
    }
  }

  lemma OnIsSound(b: seq<byte>)
    ensures Sound(On(b), |b|)
  {
    forall at: nat | TokenAt(b, at).Some? ensures TokenFits(TokenAt(b, at).value.value) {
      if b[at] / 32 <= 5 { ArgumentFits(b, at + 1, b[at] % 32); }
    }
  }

  lemma OneByte(b: seq<byte>, at: nat)
    requires at < |b|
    ensures Number(Span(b, at, 1)) == b[at]
  {
    SpanIsSlice(b, at, 1);
  }

  lemma LastByte(b: seq<byte>, at: nat, n: nat)
    requires 0 < n && at + n <= |b|
    ensures Number(Span(b, at, n)) == Number(Span(b, at, n - 1)) * 0x100 + b[at + n - 1]
  {
    SpanIsSlice(b, at, n);
    SpanIsSlice(b, at, n - 1);
    assert b[at..at + n][..n - 1] == b[at..at + (n - 1)];
  }

  lemma TwoBytes(b: seq<byte>, at: nat)
    requires at + 1 < |b|
    ensures Number(Span(b, at, 2)) == b[at] as int * 0x100 + b[at + 1]
  {
    LastByte(b, at, 2);
    OneByte(b, at);
  }

  lemma FourBytes(b: seq<byte>, at: nat)
    requires at + 3 < |b|
    ensures Number(Span(b, at, 4)) ==
            b[at] as int * 0x100_0000 + b[at + 1] as int * 0x1_0000 + b[at + 2] as int * 0x100 + b[at + 3]
  {
    LastByte(b, at, 4);
    LastByte(b, at, 3);
    TwoBytes(b, at);
  }

  /** Every argument, byte by byte, shortest or not. */
  lemma ArgumentExactly(b: seq<byte>, at: nat, minor: nat)
    requires at <= |b|
    ensures minor < 24 ==> Argument(b, at, minor) == Some(Read(minor, at))
    ensures minor == 24 ==> Argument(b, at, minor) == if at < |b| then Some(Read(b[at], at + 1)) else None
    ensures minor == 25 && at + 1 >= |b| ==> Argument(b, at, minor) == None
    ensures minor == 25 && at + 1 < |b| ==> Argument(b, at, minor) == Some(Read(b[at] as int * 0x100 + b[at + 1], at + 2))
    ensures minor == 26 && at + 3 >= |b| ==> Argument(b, at, minor) == None
    ensures minor == 26 && at + 3 < |b| ==>
      Argument(b, at, minor)
      == Some(Read(b[at] as int * 0x100_0000 + b[at + 1] as int * 0x1_0000 + b[at + 2] as int * 0x100 + b[at + 3], at + 4))
    ensures minor > 26 ==> Argument(b, at, minor) == None
  {
    if at < |b| { OneByte(b, at); }
    if at + 1 < |b| { TwoBytes(b, at); }
    if at + 3 < |b| { FourBytes(b, at); }
  }

  /** What is refused where a value should start, exactly: the end of the input,
      tags, the simple values other than false, true and null, arguments that are
      missing or of no kind read here, and strings that run past the end. */
  lemma RefusedExactly(b: seq<byte>, at: nat)
    requires at < |b|
    ensures var major, minor := b[at] / 32, b[at] % 32;
      TokenAt(b, at).None? <==>
      || major == 6 || (major == 7 && minor != 20 && minor != 21 && minor != 22)
      || (major <= 5 && Argument(b, at + 1, minor).None?)
      || (2 <= major <= 3 && Argument(b, at + 1, minor).Some?
          && Argument(b, at + 1, minor).value.next + Argument(b, at + 1, minor).value.value > |b|)
  {
  }

  lemma PairsWrittenRead(read: Reader, write: Token -> seq<byte>, v: Value, t: seq<byte>)
    requires v.Dict? && |v.entries| < LIMIT && EachFits(v.entries, 1) && ReadsBack(read, write, Concat(write, Tokens(v)) + t)
    ensures Parse(read, 0, 0) == Some(Read(Dict(Collect(v.entries)), |Concat(write, Tokens(v))|))
  {
    var tokens := Tokens(v);
    var x := Concat(write, tokens);
    SpanIsSlice(x + t, 0, |x|);
    PairTokensFit(v.entries, 1);
    TokensFlow(read, write, x + t, 0, tokens);
    PairsRead(read, v.entries, 0, |x|, 0);
  }

  /** Repeated keys read too: a map written with any pairs is what they collect to,
      in which each key has the last value written for it. */
  lemma RepeatedKeysRead(v: Value, t: seq<byte>)
    requires v.Dict? && |v.entries| < LIMIT && EachFits(v.entries, 1)
    ensures Parse(On(Encode(v) + t), 0, 0) == Some(Read(Dict(Collect(v.entries)), |Encode(v)|))
  {
    HeadsReadBack(Encode(v) + t);
    PairsWrittenRead(On(Encode(v) + t), Writer(), v, t);
  }

  /** Nine arrays one inside the other are refused, whatever the innermost holds. */
  lemma TooDeepIsRefused(t: seq<byte>)
    ensures Decode(seq(9, _ => 0x81) + t) == None
  {
    var b: seq<byte> := seq(9, _ => 0x81) + t;
    forall i: nat | i < 9 ensures On(b)(i) == Some(Read(Items(1), i + 1)) {}
    NestedTooDeep(On(b), 0, 0);
  }

  /** The reader's range, exactly: a value is what some bytes read as if and only
      if it is supported. */
  lemma RangeIsSupported(v: Value)
    ensures (exists b: seq<byte> :: Parse(On(b), 0, 0).Some? && Parse(On(b), 0, 0).value.value == v) <==> Fits(v, 0)
  {
    if Fits(v, 0) { RoundTrip(v, []); }
    forall b: seq<byte> | Parse(On(b), 0, 0).Some? ensures Fits(Parse(On(b), 0, 0).value.value, 0) {
      OnIsSound(b);
      ReadFits(On(b), |b|, 0, 0);
    }
  }

  /** No encoding is the beginning of another's: what follows a value cannot change
      which value it is. */
  lemma EncodingIsPrefixFree(v: Value, t: seq<byte>, w: Value, u: seq<byte>)
    requires Fits(v, 0) && Fits(w, 0) && Encode(v) + t == Encode(w) + u
    ensures v == w && t == u
  {
    RoundTrip(v, t);
    RoundTrip(w, u);
    assert t == (Encode(v) + t)[|Encode(v)|..];
    assert u == (Encode(w) + u)[|Encode(w)|..];
  }

  // --- the two ways in ---

  datatype Decoded = Decoded(value: Value, rest: nat)

  function Decode(b: seq<byte>): Option<Decoded> {
    match Parse(On(b), 0, 0)
    case None => None
    case Some(r) => if r.next <= |b| then Some(Decoded(r.value, |b| - r.next)) else None
  }

  function DecodeWhole(b: seq<byte>): Option<Value> {
    match Decode(b)
    case None => None
    case Some(d) => if d.rest == 0 then Some(d.value) else None
  }

  /** The value and what is left after it; and read as a whole, exactly when
      nothing follows. */
  lemma DecodeEncoded(v: Value, t: seq<byte>)
    requires Fits(v, 0)
    ensures Decode(Encode(v) + t) == Some(Decoded(v, |t|))
    ensures DecodeWhole(Encode(v) + t) == if t == [] then Some(v) else None
  {
    RoundTrip(v, t);
  }
}
