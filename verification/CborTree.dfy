/** CBOR values over a stream of heads. A reader answers the head that starts at a
    position; how heads are written in bytes is module Cbor's. */
module CborTree {
  import opened Wrappers
  import opened Octets

  const MAX_DEPTH := 8
  const LIMIT := 0x1_0000_0000

  datatype Key = NumKey(n: int) | TextKey(text: seq<byte>)

  /** A map is its entries in the order their keys were first set. Text is taken
      as its bytes. */
  datatype Value =
    | Num(n: int)
    | Bytes(bytes: seq<byte>)
    | Text(text: seq<byte>)
    | List(items: seq<Value>)
    | Dict(entries: seq<Entry>)
    | Bool(b: bool)
    | Null

  datatype Entry = Entry(key: Key, held: Value)

  /** A value read, and where the next one starts. */
  datatype Read<T> = Read(value: T, next: nat)

  /** What one initial byte introduces: a value that holds no others, or how many
      items or pairs follow. */
  datatype Token = Leaf(value: Value) | Items(n: nat) | Pairs(n: nat)

  type Reader = nat -> Option<Read<Token>>

  function Left(depth: nat): nat { if depth > MAX_DEPTH then 0 else MAX_DEPTH + 1 - depth }

  function Parse(read: Reader, at: nat, depth: nat): Option<Read<Value>>
    decreases Left(depth), 0, 0
  {
    if depth > MAX_DEPTH || read(at).None? then None
    else
      var next := read(at).value.next;
      match read(at).value.value
      case Leaf(v) => Some(Read(v, next))
      case Items(n) =>
        (match ParseItems(read, next, n, depth + 1)
         case None => None
         case Some(items) => Some(Read(List(items.value), items.next)))
      case Pairs(n) =>
        (match ParseEntries(read, next, n, depth + 1)
         case None => None
         case Some(entries) => Some(Read(Dict(Collect(entries.value)), entries.next)))
  }

  function ParseItems(read: Reader, at: nat, n: nat, depth: nat): Option<Read<seq<Value>>>
    decreases Left(depth), 2, n
  {
    if n == 0 then Some(Read([], at))
    else match Parse(read, at, depth)
      case None => None
      case Some(item) =>
        match ParseItems(read, item.next, n - 1, depth)
        case None => None
        case Some(rest) => Some(Read([item.value] + rest.value, rest.next))
  }

  function KeyOf(v: Value): Option<Key> {
    match v
    case Num(n) => Some(NumKey(n))
    case Text(text) => Some(TextKey(text))
    case _ => None
  }

  function ParseEntry(read: Reader, at: nat, depth: nat): Option<Read<Entry>>
    decreases Left(depth), 1, 0
  {
    match Parse(read, at, depth)
    case None => None
    case Some(key) =>
      if KeyOf(key.value).None? then None
      else match Parse(read, key.next, depth)
        case None => None
        case Some(held) => Some(Read(Entry(KeyOf(key.value).value, held.value), held.next))
  }

  /** The pairs of a map as they are read, before a repeated key overwrites. */
  function ParseEntries(read: Reader, at: nat, n: nat, depth: nat): Option<Read<seq<Entry>>>
    decreases Left(depth), 2, n
  {
    if n == 0 then Some(Read([], at))
    else match ParseEntry(read, at, depth)
      case None => None
      case Some(e) =>
        match ParseEntries(read, e.next, n - 1, depth)
        case None => None
        case Some(rest) => Some(Read([e.value] + rest.value, rest.next))
  }

  /** `Map.set`: in place when the key is there, at the end otherwise. */
  function Put(entries: seq<Entry>, e: Entry): seq<Entry> {
    if entries == [] then [e]
    else if entries[0].key == e.key then [e] + entries[1..]
    else [entries[0]] + Put(entries[1..], e)
  }

  function Collect(pairs: seq<Entry>): seq<Entry> {
    if pairs == [] then [] else Put(Collect(pairs[..|pairs| - 1]), pairs[|pairs| - 1])
  }

  // --- the values the format can state ---

  predicate DistinctKeys(entries: seq<Entry>) {
    forall i, j :: 0 <= i < j < |entries| ==> entries[i].key != entries[j].key
  }

  predicate FitsNum(n: int) { -LIMIT <= n < LIMIT }

  predicate FitsKey(k: Key) {
    match k case NumKey(n) => FitsNum(n) case TextKey(text) => |text| < LIMIT
  }

  /** A value the format can state, nested no deeper than the reader goes. */
  predicate Fits(v: Value, depth: nat)
    decreases v
  {
    depth <= MAX_DEPTH &&
    match v
    case Num(n) => FitsNum(n)
    case Bytes(bytes) => |bytes| < LIMIT
    case Text(text) => |text| < LIMIT
    case List(items) => |items| < LIMIT && AllFit(items, depth + 1)
    case Dict(entries) => |entries| < LIMIT && DistinctKeys(entries) && EachFits(entries, depth + 1)
    case Bool(_) => true
    case Null => true
  }

  predicate AllFit(items: seq<Value>, depth: nat)
    decreases items
  {
    items == [] || (Fits(items[0], depth) && AllFit(items[1..], depth))
  }

  predicate EachFits(entries: seq<Entry>, depth: nat)
    decreases entries
  {
    entries == [] || (EntryFits(entries[0], depth) && EachFits(entries[1..], depth))
  }

  predicate EntryFits(e: Entry, depth: nat)
    decreases e
  {
    FitsKey(e.key) && Fits(e.held, depth)
  }

  /** A head the format can state. */
  predicate TokenFits(t: Token) {
    match t
    case Leaf(v) => !v.List? && !v.Dict? && Fits(v, 0)
    case Items(n) => n < LIMIT
    case Pairs(n) => n < LIMIT
  }

  // --- the heads a value is written with ---

  function Tokens(v: Value): seq<Token>
    decreases v
  {
    match v
    case List(items) => [Items(|items|)] + ItemTokens(items)
    case Dict(entries) => [Pairs(|entries|)] + PairTokens(entries)
    case _ => [Leaf(v)]
  }

  function ItemTokens(items: seq<Value>): seq<Token>
    decreases items
  {
    if items == [] then [] else Tokens(items[0]) + ItemTokens(items[1..])
  }

  function PairTokens(entries: seq<Entry>): seq<Token>
    decreases entries
  {
    if entries == [] then [] else EntryTokens(entries[0]) + PairTokens(entries[1..])
  }

  function EntryTokens(e: Entry): seq<Token>
    decreases e
  {
    [Leaf(KeyValue(e.key))] + Tokens(e.held)
  }

  function KeyValue(k: Key): Value {
    match k case NumKey(n) => Num(n) case TextKey(text) => Text(text)
  }

  // --- reading back what was written ---

  /** Reading from `at` gives these heads one after the other, up to `end`. */
  predicate Flows(read: Reader, at: nat, tokens: seq<Token>, end: nat)
    decreases |tokens|
  {
    if tokens == [] then at == end
    else read(at).Some? && read(at).value.value == tokens[0] && Flows(read, read(at).value.next, tokens[1..], end)
  }

  lemma {:induction false} FlowsApart(read: Reader, at: nat, x: seq<Token>, y: seq<Token>, end: nat) returns (mid: nat)
    requires Flows(read, at, x + y, end)
    ensures Flows(read, at, x, mid) && Flows(read, mid, y, end)
    decreases |x|
  {
    if x == [] {
      assert x + y == y;
      mid := at;
    } else {
      assert (x + y)[1..] == x[1..] + y;
      mid := FlowsApart(read, read(at).value.next, x[1..], y, end);
    }
  }

  /** A head, then what it introduces. */
  lemma FlowsFrom(read: Reader, at: nat, t: Token, rest: seq<Token>, end: nat)
    requires Flows(read, at, [t] + rest, end)
    ensures read(at).Some? && read(at).value.value == t && Flows(read, read(at).value.next, rest, end)
  {
    assert ([t] + rest)[1..] == rest;
  }

  /** Every supported value reads back from its own heads. */
  lemma {:induction false} ValueReads(read: Reader, v: Value, at: nat, end: nat, depth: nat)
    requires Fits(v, depth) && Flows(read, at, Tokens(v), end)
    ensures Parse(read, at, depth) == Some(Read(v, end))
    decreases Left(depth), 0, 0
  {
    match v
    case List(items) =>
      FlowsFrom(read, at, Items(|items|), ItemTokens(items), end);
      ItemsRead(read, items, read(at).value.next, end, depth + 1);
    case Dict(entries) =>
      FlowsFrom(read, at, Pairs(|entries|), PairTokens(entries), end);
      EntriesRead(read, entries, read(at).value.next, end, depth + 1);
      CollectDistinct(entries);
    case _ => FlowsFrom(read, at, Leaf(v), [], end);
  }

  lemma {:induction false} ItemsRead(read: Reader, items: seq<Value>, at: nat, end: nat, depth: nat)
    requires AllFit(items, depth) && Flows(read, at, ItemTokens(items), end)
    ensures ParseItems(read, at, |items|, depth) == Some(Read(items, end))
    decreases Left(depth), 2, |items|
  {
    if items != [] {
      var mid := FlowsApart(read, at, Tokens(items[0]), ItemTokens(items[1..]), end);
      ValueReads(read, items[0], at, mid, depth);
      ItemsRead(read, items[1..], mid, end, depth);
      assert items == [items[0]] + items[1..];
    }
  }

  lemma {:induction false} EntryReads(read: Reader, e: Entry, at: nat, end: nat, depth: nat)
    requires EntryFits(e, depth) && Flows(read, at, EntryTokens(e), end)
    ensures ParseEntry(read, at, depth) == Some(Read(e, end))
    decreases Left(depth), 1, 0
  {
    FlowsFrom(read, at, Leaf(KeyValue(e.key)), Tokens(e.held), end);
    ValueReads(read, e.held, read(at).value.next, end, depth);
  }

  lemma {:induction false} EntriesRead(read: Reader, entries: seq<Entry>, at: nat, end: nat, depth: nat)
    requires EachFits(entries, depth) && Flows(read, at, PairTokens(entries), end)
    ensures ParseEntries(read, at, |entries|, depth) == Some(Read(entries, end))
    decreases Left(depth), 2, |entries|
  {
    if entries != [] {
      var mid := FlowsApart(read, at, EntryTokens(entries[0]), PairTokens(entries[1..]), end);
      EntryReads(read, entries[0], at, mid, depth);
      EntriesRead(read, entries[1..], mid, end, depth);
      assert entries == [entries[0]] + entries[1..];
    }
  }

  lemma {:induction false} PutNew(entries: seq<Entry>, e: Entry)
    requires forall x :: x in entries ==> x.key != e.key
    ensures Put(entries, e) == entries + [e]
  {
    if entries != [] {
      assert entries[0] in entries && forall x :: x in entries[1..] ==> x in entries;
      PutNew(entries[1..], e);
      assert entries == [entries[0]] + entries[1..];
    }
  }

  lemma {:induction false} CollectDistinct(entries: seq<Entry>)
    requires DistinctKeys(entries)
    ensures Collect(entries) == entries
  {
    if entries != [] {
      var front, last := entries[..|entries| - 1], entries[|entries| - 1];
      CollectDistinct(front);
      PutNew(front, last);
      assert entries == front + [last];
    }
  }

  /** Setting a key leaves the order of the keys: in place when it is there, last
      when it is new. */
  lemma {:induction false} PutKeys(entries: seq<Entry>, e: Entry)
    ensures forall i :: 0 <= i < |entries| ==> i < |Put(entries, e)| && Put(entries, e)[i].key == entries[i].key
    ensures |Put(entries, e)| == |entries| + if exists x :: x in entries && x.key == e.key then 0 else 1
    ensures |Put(entries, e)| > |entries| ==> Put(entries, e)[|entries|] == e
  {
    if entries != [] {
      assert entries == [entries[0]] + entries[1..];
      if entries[0].key != e.key { PutKeys(entries[1..], e); }
    }
  }

  lemma {:induction false} PutHolds(entries: seq<Entry>, e: Entry, x: Entry)
    requires DistinctKeys(entries)
    ensures x in Put(entries, e) <==> x == e || (x in entries && x.key != e.key)
  {
    if entries != [] {
      var first, rest := entries[0], entries[1..];
      assert entries == [first] + rest;
      assert forall i :: 0 <= i < |rest| ==> rest[i] == entries[i + 1];
      if first.key != e.key { PutHolds(rest, e, x); }
    }
  }

  /** No pair after this one has its key. */
  predicate IsLast(pairs: seq<Entry>, i: nat) {
    i < |pairs| && forall j :: i < j < |pairs| ==> pairs[j].key != pairs[i].key
  }

  ghost predicate LastIs(pairs: seq<Entry>, x: Entry) {
    exists i: nat :: IsLast(pairs, i) && pairs[i] == x
  }

  lemma LastSnoc(front: seq<Entry>, last: Entry, x: Entry)
    ensures LastIs(front + [last], x) <==> x == last || (LastIs(front, x) && x.key != last.key)
  {
    var pairs := front + [last];
    assert IsLast(pairs, |front|) && pairs[|front|] == last;
    forall i: nat | i < |front| ensures IsLast(pairs, i) <==> IsLast(front, i) && front[i].key != last.key {
      assert forall j :: 0 <= j < |front| ==> pairs[j] == front[j];
    }
  }

  /** Of the pairs with one key, the last is held. */
  lemma {:induction false} LastPairIsHeld(pairs: seq<Entry>, x: Entry)
    ensures x in Collect(pairs) <==> LastIs(pairs, x)
  {
    if pairs != [] {
      var front, last := pairs[..|pairs| - 1], pairs[|pairs| - 1];
      assert pairs == front + [last];
      LastPairIsHeld(front, x);
      LastSnoc(front, last, x);
      CollectDistinctKeys(front);
      PutHolds(Collect(front), last, x);
    }
  }

  lemma {:induction false} CollectDistinctKeys(pairs: seq<Entry>)
    ensures DistinctKeys(Collect(pairs))
  {
    if pairs != [] {
      CollectDistinctKeys(pairs[..|pairs| - 1]);
      PutKeeps(Collect(pairs[..|pairs| - 1]), pairs[|pairs| - 1]);
    }
  }

  /** A map written with any pairs, repeated keys and all, reads as what they
      collect to. */
  lemma PairsRead(read: Reader, entries: seq<Entry>, at: nat, end: nat, depth: nat)
    requires depth <= MAX_DEPTH && EachFits(entries, depth + 1) && Flows(read, at, [Pairs(|entries|)] + PairTokens(entries), end)
    ensures Parse(read, at, depth) == Some(Read(Dict(Collect(entries)), end))
  {
    FlowsFrom(read, at, Pairs(|entries|), PairTokens(entries), end);
    EntriesRead(read, entries, read(at).value.next, end, depth + 1);
  }

  /** Nothing is read past the depth bound. */
  lemma {:induction false} NestedTooDeep(read: Reader, at: nat, depth: nat)
    requires depth <= MAX_DEPTH + 1
    requires forall i: nat :: at <= i < at + (MAX_DEPTH + 1 - depth) ==> read(i) == Some(Read(Items(1), i + 1))
    ensures Parse(read, at, depth) == None
    decreases MAX_DEPTH + 1 - depth
  {
    if depth <= MAX_DEPTH {
      NestedTooDeep(read, at + 1, depth + 1);
      assert ParseItems(read, at + 1, 1, depth + 1) == None;
    }
  }

  // --- one step of the reader ---

  /** A reading of several parts, of which `done` are behind. */
  function After<T>(done: seq<T>, rest: Option<Read<seq<T>>>): Option<Read<seq<T>>> {
    match rest
    case None => None
    case Some(r) => Some(Read(done + r.value, r.next))
  }

  lemma OneItemOn(read: Reader, at: nat, n: nat, depth: nat, done: seq<Value>)
    requires n > 0
    ensures Parse(read, at, depth).None? ==> After(done, ParseItems(read, at, n, depth)) == None
    ensures Parse(read, at, depth).Some? ==>
      && var item := Parse(read, at, depth).value;
      && After(done, ParseItems(read, at, n, depth)) == After(done + [item.value], ParseItems(read, item.next, n - 1, depth))
  {
    if Parse(read, at, depth).Some? {
      var item := Parse(read, at, depth).value;
      var rest := ParseItems(read, item.next, n - 1, depth);
      if rest.Some? { assert done + ([item.value] + rest.value.value) == done + [item.value] + rest.value.value; }
    }
  }

  lemma OneEntryOn(read: Reader, at: nat, n: nat, depth: nat, done: seq<Entry>)
    requires n > 0
    ensures ParseEntry(read, at, depth).None? ==> After(done, ParseEntries(read, at, n, depth)) == None
    ensures ParseEntry(read, at, depth).Some? ==>
      && var e := ParseEntry(read, at, depth).value;
      && After(done, ParseEntries(read, at, n, depth)) == After(done + [e.value], ParseEntries(read, e.next, n - 1, depth))
  {
    if ParseEntry(read, at, depth).Some? {
      var e := ParseEntry(read, at, depth).value;
      var rest := ParseEntries(read, e.next, n - 1, depth);
      if rest.Some? { assert done + ([e.value] + rest.value.value) == done + [e.value] + rest.value.value; }
    }
  }

  lemma AfterNothing<T>(rest: Option<Read<seq<T>>>)
    ensures After([], rest) == rest
  {
    if rest.Some? { assert [] + rest.value.value == rest.value.value; }
  }

  // --- nothing else is ever read ---

  /** Every head the reader answers is one the format can state, and moves on
      within the bytes there are. */
  ghost predicate Sound(read: Reader, size: nat) {
    forall at: nat :: read(at).Some? ==> TokenFits(read(at).value.value) && at < read(at).value.next <= size
  }

  lemma {:induction false} PutKeeps(entries: seq<Entry>, e: Entry)
    requires DistinctKeys(entries)
    ensures DistinctKeys(Put(entries, e)) && |Put(entries, e)| <= |entries| + 1
    ensures forall x :: x in Put(entries, e) ==> x == e || x in entries
  {
    if entries != [] {
      var first, rest := entries[0], entries[1..];
      assert forall x :: x in rest ==> x in entries && x.key != first.key by {
        assert forall i :: 0 <= i < |rest| ==> rest[i] == entries[i + 1];
      }
      if first.key == e.key {
        assert Put(entries, e)[1..] == rest;
      } else {
        PutKeeps(rest, e);
        var put := Put(rest, e);
        forall i | 0 <= i < |put| ensures put[i].key != first.key { assert put[i] in put; }
      }
    }
  }

  lemma {:induction false} PutFits(entries: seq<Entry>, e: Entry, depth: nat)
    requires EachFits(entries, depth) && EntryFits(e, depth)
    ensures EachFits(Put(entries, e), depth)
  {
    if entries != [] && entries[0].key != e.key { PutFits(entries[1..], e, depth); }
  }

  lemma {:induction false} FrontFits(pairs: seq<Entry>, depth: nat)
    requires pairs != [] && EachFits(pairs, depth)
    ensures EachFits(pairs[..|pairs| - 1], depth)
    ensures EntryFits(pairs[|pairs| - 1], depth)
  {
    if |pairs| > 1 {
      FrontFits(pairs[1..], depth);
      assert pairs[..|pairs| - 1][1..] == pairs[1..][..|pairs| - 2];
    }
  }

  lemma {:induction false} CollectKeeps(pairs: seq<Entry>, depth: nat)
    requires EachFits(pairs, depth)
    ensures DistinctKeys(Collect(pairs)) && |Collect(pairs)| <= |pairs| && EachFits(Collect(pairs), depth)
  {
    if pairs != [] {
      var front, last := pairs[..|pairs| - 1], pairs[|pairs| - 1];
      FrontFits(pairs, depth);
      CollectKeeps(front, depth);
      PutKeeps(Collect(front), last);
      PutFits(Collect(front), last, depth);
    }
  }

  /** Whatever is read is a supported value, takes at least a byte, and ends within
      the input. */
  lemma {:induction false} ReadFits(read: Reader, size: nat, at: nat, depth: nat)
    requires Sound(read, size) && Parse(read, at, depth).Some?
    ensures Fits(Parse(read, at, depth).value.value, depth)
    ensures at < Parse(read, at, depth).value.next <= size
    decreases Left(depth), 0, 0
  {
    var next := read(at).value.next;
    match read(at).value.value
    case Leaf(_) =>
    case Items(n) => ItemsFit(read, size, next, n, depth + 1);
    case Pairs(n) =>
      EntriesFit(read, size, next, n, depth + 1);
      CollectKeeps(ParseEntries(read, next, n, depth + 1).value.value, depth + 1);
  }

  lemma {:induction false} ItemsFit(read: Reader, size: nat, at: nat, n: nat, depth: nat)
    requires Sound(read, size) && at <= size && ParseItems(read, at, n, depth).Some?
    ensures AllFit(ParseItems(read, at, n, depth).value.value, depth) && |ParseItems(read, at, n, depth).value.value| == n
    ensures at <= ParseItems(read, at, n, depth).value.next <= size
    decreases Left(depth), 2, n
  {
    if n > 0 {
      ReadFits(read, size, at, depth);
      ItemsFit(read, size, Parse(read, at, depth).value.next, n - 1, depth);
    }
  }

  lemma {:induction false} EntryFitsIn(read: Reader, size: nat, at: nat, depth: nat)
    requires Sound(read, size) && ParseEntry(read, at, depth).Some?
    ensures EntryFits(ParseEntry(read, at, depth).value.value, depth)
    ensures at < ParseEntry(read, at, depth).value.next <= size
    decreases Left(depth), 1, 0
  {
    ReadFits(read, size, at, depth);
    ReadFits(read, size, Parse(read, at, depth).value.next, depth);
  }

  lemma {:induction false} EntriesFit(read: Reader, size: nat, at: nat, n: nat, depth: nat)
    requires Sound(read, size) && at <= size && ParseEntries(read, at, n, depth).Some?
    ensures EachFits(ParseEntries(read, at, n, depth).value.value, depth) && |ParseEntries(read, at, n, depth).value.value| == n
    ensures at <= ParseEntries(read, at, n, depth).value.next <= size
    decreases Left(depth), 2, n
  {
    if n > 0 {
      EntryFitsIn(read, size, at, depth);
      EntriesFit(read, size, ParseEntry(read, at, depth).value.next, n - 1, depth);
    }
  }
}
