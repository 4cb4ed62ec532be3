/** The reader as it runs: recursion over the nesting, a cursor moved in loops over
    the parts of an array or a map. `begun` counts the values begun. */
module CborReader {
  import opened Wrappers
  import opened Octets
  import opened CborTree
  import Cbor

  method ReadArgument(b: seq<byte>, at: nat, minor: nat) returns (r: Option<Read<nat>>)
    requires at <= |b|
    ensures r == Cbor.Argument(b, at, minor)
  {
    Cbor.ArgumentExactly(b, at, minor);
    if minor < 24 { return Some(Read(minor, at)); }
    if minor == 24 {
      if at >= |b| { return None; }
      return Some(Read(b[at], at + 1));
    }
    if minor == 25 {
      if at + 1 >= |b| { return None; }
      return Some(Read(b[at] as int * 0x100 + b[at + 1], at + 2));
    }
    if minor == 26 {
      if at + 3 >= |b| { return None; }
      return Some(Read(b[at] as int * 0x100_0000 + b[at + 1] as int * 0x1_0000 + b[at + 2] as int * 0x100 + b[at + 3], at + 4));
    }
    return None;
  }

  /** Bytes there are from `at` on. */
  function Rest(b: seq<byte>, at: nat): nat { if at < |b| then |b| - at else 0 }

  /** Values begun never outnumber the bytes they took; where the reading fails, the
      value it failed on is one more. */
  predicate Paid<T>(b: seq<byte>, at: nat, r: Option<Read<T>>, begun: nat) {
    match r
    case Some(x) => at + begun <= x.next <= |b|
    case None => begun <= Rest(b, at) + 1
  }

  method ReadHead(b: seq<byte>, at: nat) returns (r: Option<Read<Token>>)
    ensures r == Cbor.TokenAt(b, at)
  {
    if at >= |b| { return None; }
    var major, minor := b[at] / 32, b[at] % 32;
    if major == 7 {
      if minor == 20 { return Some(Read(Leaf(Bool(false)), at + 1)); }
      if minor == 21 { return Some(Read(Leaf(Bool(true)), at + 1)); }
      if minor == 22 { return Some(Read(Leaf(Null), at + 1)); }
      return None;
    }
    if major == 6 { return None; }
    var arg := ReadArgument(b, at + 1, minor);
    if arg.None? { return None; }
    var n, next := arg.value.value, arg.value.next;
    if major == 0 { return Some(Read(Leaf(Num(n)), next)); }
    if major == 1 { return Some(Read(Leaf(Num(-1 - n)), next)); }
    if major == 4 { return Some(Read(Items(n), next)); }
    if major == 5 { return Some(Read(Pairs(n), next)); }
    if next + n > |b| { return None; }
    Cbor.SpanIsSlice(b, next, n);
    var s := b[next..next + n];
    return Some(Read(Leaf(if major == 2 then Bytes(s) else Text(s)), next + n));
  }

  method ReadValue(b: seq<byte>, at: nat, depth: nat) returns (r: Option<Read<Value>>, begun: nat)
    ensures r == Parse(Cbor.On(b), at, depth) && Paid(b, at, r, begun)
    decreases Left(depth), 0
  {
    if depth > MAX_DEPTH { return None, 1; }
    var head := ReadHead(b, at);
    assert head == Cbor.On(b)(at);
    if head.None? { return None, 1; }
    match head.value.value
    case Leaf(v) =>
      return Some(Read(v, head.value.next)), 1;
    case Items(n) =>
      var items, more := ReadItems(b, head.value.next, n, depth + 1);
      return if items.None? then None else Some(Read(List(items.value.value), items.value.next)), more + 1;
    case Pairs(n) =>
      var entries, more := ReadEntries(b, head.value.next, n, depth + 1);
      return if entries.None? then None else Some(Read(Dict(entries.value.value), entries.value.next)), more + 1;
  }

  method ReadItems(b: seq<byte>, at: nat, n: nat, depth: nat) returns (r: Option<Read<seq<Value>>>, begun: nat)
    requires at <= |b|
    ensures r == ParseItems(Cbor.On(b), at, n, depth) && Paid(b, at, r, begun)
    decreases Left(depth), 1
  {
    ghost var read := Cbor.On(b);
    ghost var whole := ParseItems(read, at, n, depth);
    var items: seq<Value>, cursor: nat := [], at;
    begun := 0;
    AfterNothing(whole);
    for i := 0 to n
      invariant whole == After(items, ParseItems(read, cursor, n - i, depth))
      invariant at + begun <= cursor <= |b|
    {
      OneItemOn(read, cursor, n - i, depth, items);
      var item, more := ReadValue(b, cursor, depth);
      begun := begun + more;
      if item.None? { return None, begun; }
      items, cursor := items + [item.value.value], item.value.next;
    }
    assert items + [] == items;
    r := Some(Read(items, cursor));
  }

  method ReadEntries(b: seq<byte>, at: nat, n: nat, depth: nat) returns (r: Option<Read<seq<Entry>>>, begun: nat)
    requires at <= |b|
    ensures r == Collected(ParseEntries(Cbor.On(b), at, n, depth)) && Paid(b, at, r, begun)
    decreases Left(depth), 2
  {
    ghost var read := Cbor.On(b);
    ghost var whole := ParseEntries(read, at, n, depth);
    ghost var pairs: seq<Entry> := [];
    var entries: seq<Entry>, cursor: nat := [], at;
    begun := 0;
    AfterNothing(whole);
    for i := 0 to n
      invariant whole == After(pairs, ParseEntries(read, cursor, n - i, depth)) && entries == Collect(pairs)
      invariant at + begun <= cursor <= |b|
    {
      OneEntryOn(read, cursor, n - i, depth, pairs);
      var entry, more := ReadEntry(b, cursor, depth);
      begun := begun + more;
      if entry.None? { return None, begun; }
      var e := entry.value.value;
      CollectOne(pairs, e);
      pairs := pairs + [e];
      entries, cursor := Put(entries, e), entry.value.next;
    }
    assert pairs + [] == pairs;
    r := Some(Read(entries, cursor));
  }

  /** One turn of that loop: a key, which is an integer or text, and its value. */
  method ReadEntry(b: seq<byte>, at: nat, depth: nat) returns (r: Option<Read<Entry>>, begun: nat)
    ensures r == ParseEntry(Cbor.On(b), at, depth) && Paid(b, at, r, begun)
    decreases Left(depth), 1
  {
    var key, more := ReadValue(b, at, depth);
    if key.None? || KeyOf(key.value.value).None? { return None, more; }
    var held, rest := ReadValue(b, key.value.next, depth);
    if held.None? { return None, more + rest; }
    return Some(Read(Entry(KeyOf(key.value.value).value, held.value.value), held.value.next)), more + rest;
  }

  function Collected(pairs: Option<Read<seq<Entry>>>): Option<Read<seq<Entry>>> {
    match pairs
    case None => None
    case Some(p) => Some(Read(Collect(p.value), p.next))
  }

  lemma CollectOne(pairs: seq<Entry>, e: Entry)
    ensures Collect(pairs + [e]) == Put(Collect(pairs), e)
  {
    assert (pairs + [e])[..|pairs + [e]| - 1] == pairs;
  }

  /** Any input at all: the answer is the specification's, and no more values are
      begun than the input has bytes, and one. */
  method DecodeCbor(b: seq<byte>) returns (r: Option<Cbor.Decoded>, begun: nat)
    ensures r == Cbor.Decode(b) && begun <= |b| + 1
    ensures r.Some? ==> begun + r.value.rest <= |b|
  {
    var read, n := ReadValue(b, 0, 0);
    if read.None? { return None, n; }
    return Some(Cbor.Decoded(read.value.value, |b| - read.value.next)), n;
  }

  method DecodeCborWhole(b: seq<byte>) returns (r: Option<Value>)
    ensures r == Cbor.DecodeWhole(b)
  {
    var decoded, _ := DecodeCbor(b);
    if decoded.None? || decoded.value.rest != 0 { return None; }
    return Some(decoded.value.value);
  }
}
