/** The DHCP option walk, against the option layout of RFC 2132, section 2. */
module Dhcp {
  import opened Seqs

  type Byte = x: int | 0 <= x < 256

  const PAD := 0
  const END := 255
  const HOST_NAME := 12

  /** A Pad option (section 3.1) or a code, length and data option. */
  datatype Item = Pad | Option(code: Byte, data: seq<Byte>)

  /** Codes 0 and 255 are Pad and End; the length is one byte. */
  predicate WellFormed(item: Item) {
    item.Option? ==> item.code != PAD && item.code != END && |item.data| < 256
  }

  function EncodeItem(item: Item): seq<Byte>
    requires WellFormed(item)
  {
    match item
    case Pad => [PAD]
    case Option(code, data) => [code, |data|] + data
  }

  predicate AllWellFormed(items: seq<Item>) {
    forall item :: item in items ==> WellFormed(item)
  }

  function Encode(items: seq<Item>): seq<Byte>
    requires AllWellFormed(items)
  {
    if items == [] then [] else EncodeItem(items[0]) + Encode(items[1..])
  }

  /** Bytes no further option can be read from: none, End and anything, or an option cut short. */
  predicate Stopped(rest: seq<Byte>) {
    || rest == []
    || rest[0] == END
    || (rest[0] != PAD && (|rest| == 1 || 2 + rest[1] > |rest|))
  }

  ghost predicate Layout(bytes: seq<Byte>, items: seq<Item>, rest: seq<Byte>) {
    AllWellFormed(items) && Stopped(rest) && bytes == Encode(items) + rest
  }

  /** The data of the first Host Name option (section 3.14), or the empty string. */
  function HostName(items: seq<Item>): seq<Byte> {
    if items == [] then []
    else if items[0].Option? && items[0].code == HOST_NAME then items[0].data
    else HostName(items[1..])
  }

  /** What the walk returns from a given position on. */
  function Walk(bytes: seq<Byte>): seq<Byte> {
    if |bytes| <= 1 || bytes[0] == END then []
    else if bytes[0] == PAD then Walk(bytes[1..])
    else if 2 + bytes[1] > |bytes| then []
    else if bytes[0] == HOST_NAME then bytes[2..2 + bytes[1]]
    else Walk(bytes[2 + bytes[1]..])
  }

  lemma {:induction false} LayoutTail(bytes: seq<Byte>, items: seq<Item>, rest: seq<Byte>) returns (tail: seq<Byte>)
    requires Layout(bytes, items, rest) && items != []
    ensures WellFormed(items[0]) && Layout(tail, items[1..], rest) && bytes == EncodeItem(items[0]) + tail
  {
    assert items[0] in items && AllWellFormed(items[1..]);
    tail := Encode(items[1..]) + rest;
    Associate(EncodeItem(items[0]), Encode(items[1..]), rest);
  }

  /** However the bytes divide into options and a stop, the walk returns the first host name. */
  lemma {:induction false} WalkFindsFirst(bytes: seq<Byte>, items: seq<Item>, rest: seq<Byte>)
    requires Layout(bytes, items, rest)
    ensures Walk(bytes) == HostName(items)
    decreases |items|
  {
    if items == [] {
      assert bytes == rest;
    } else {
      var tail := LayoutTail(bytes, items, rest);
      WalkFindsFirst(tail, items[1..], rest);
      WalkOverItem(items[0], tail);
    }
  }

  lemma WalkOverItem(item: Item, tail: seq<Byte>)
    requires WellFormed(item)
    ensures Walk(EncodeItem(item) + tail)
         == if item.Option? && item.code == HOST_NAME then item.data else Walk(tail)
  {
  }

  /** Byte 0 is skipped, 255 ends the options, 12 holds the name, and any other code is passed over whole. */
  lemma OptionBytes(code: Byte, data: seq<Byte>, tail: seq<Byte>)
    requires 0 < code < 255 && |data| < 256
    ensures Walk([0] + tail) == Walk(tail) && Walk([255] + tail) == []
    ensures Walk([code, |data|] + data + tail) == if code == 12 then data else Walk(tail)
  {
    WalkOverItem(Pad, tail);
    WalkOverItem(Option(code, data), tail);
  }

  /** Every byte string divides into options and a stop. */
  lemma {:induction false} LayoutExists(bytes: seq<Byte>) returns (items: seq<Item>, rest: seq<Byte>)
    ensures Layout(bytes, items, rest)
    decreases |bytes|
  {
    if Stopped(bytes) {
      items, rest := [], bytes;
    } else {
      var item := if bytes[0] == PAD then Pad else Option(bytes[0], bytes[2..2 + bytes[1]]);
      var n := |EncodeItem(item)|;
      assert bytes[..n] == EncodeItem(item);
      var later, stop := LayoutExists(bytes[n..]);
      items, rest := [item] + later, stop;
      assert items[1..] == later;
      assert bytes == bytes[..n] + bytes[n..];
    }
  }

  /** The division is unique, so the returned name is a function of the layout alone. */
  lemma {:induction false} LayoutUnique(bytes: seq<Byte>, a: seq<Item>, x: seq<Byte>, b: seq<Item>, y: seq<Byte>)
    requires Layout(bytes, a, x) && Layout(bytes, b, y)
    ensures a == b && x == y
    decreases |a|
  {
    if a == [] || b == [] {
      EmptyLayout(bytes, a, x);
      EmptyLayout(bytes, b, y);
    } else {
      var s := LayoutTail(bytes, a, x);
      var t := LayoutTail(bytes, b, y);
      FirstItemUnique(a[0], s, b[0], t);
      LayoutUnique(s, a[1..], x, b[1..], y);
      assert a == [a[0]] + a[1..] && b == [b[0]] + b[1..];
    }
  }

  /** No option begins where the options have stopped. */
  lemma EmptyLayout(bytes: seq<Byte>, items: seq<Item>, rest: seq<Byte>)
    requires Layout(bytes, items, rest)
    ensures items == [] <==> Stopped(bytes)
    ensures items == [] ==> rest == bytes
  {
    if items != [] {
      var tail := LayoutTail(bytes, items, rest);
    }
  }

  lemma FirstItemUnique(a: Item, s: seq<Byte>, b: Item, t: seq<Byte>)
    requires WellFormed(a) && WellFormed(b) && EncodeItem(a) + s == EncodeItem(b) + t
    ensures a == b && s == t
  {
    var x, y := EncodeItem(a) + s, EncodeItem(b) + t;
    assert x[0] == EncodeItem(a)[0] && y[0] == EncodeItem(b)[0];
    assert s == x[|EncodeItem(a)|..] && t == y[|EncodeItem(b)|..];
    if a.Option? {
      assert x[1] == |a.data| && y[1] == |b.data|;
      assert a.data == x[2..2 + |a.data|] && b.data == y[2..2 + |b.data|];
    }
  }

  /** Encoding any options, with or without End and whatever follows End, and walking gives the first host name. */
  lemma RoundTrip(items: seq<Item>, ended: bool, after: seq<Byte>)
    requires AllWellFormed(items)
    ensures Walk(Encode(items) + (if ended then [255] + after else [])) == HostName(items)
  {
    var rest := if ended then [END] + after else [];
    WalkFindsFirst(Encode(items) + rest, items, rest);
  }

  /** The bytes hold `name` in a complete option 12, preceded by complete options of other codes. */
  ghost predicate Holds(bytes: seq<Byte>, items: seq<Item>, name: seq<Byte>, rest: seq<Byte>) {
    && AllWellFormed(items) && (forall item :: item in items && item.Option? ==> item.code != 12)
    && |name| < 256 && bytes == Encode(items) + ([12, |name|] + name + rest)
  }

  predicate HoldsItem(bytes: seq<Byte>, items: seq<Item>, name: seq<Byte>, rest: seq<Byte>) {
    && AllWellFormed(items) && HostFree(items) && WellFormed(Option(HOST_NAME, name))
    && bytes == Encode(items) + (EncodeItem(Option(HOST_NAME, name)) + rest)
  }

  lemma HoldsIff(bytes: seq<Byte>, items: seq<Item>, name: seq<Byte>, rest: seq<Byte>)
    ensures Holds(bytes, items, name, rest) <==> HoldsItem(bytes, items, name, rest)
  {
  }

  /** A non-empty name is returned exactly when the bytes hold it. */
  lemma NameFoundIff(bytes: seq<Byte>, name: seq<Byte>)
    requires name != []
    ensures Walk(bytes) == name <==> exists items, rest :: Holds(bytes, items, name, rest)
  {
    if Walk(bytes) == name {
      var items, stop := LayoutExists(bytes);
      WalkFindsFirst(bytes, items, stop);
      var before, rest := HoldsFirst(bytes, items, stop);
      HoldsIff(bytes, before, name, rest);
    }
    if items, rest :| Holds(bytes, items, name, rest) {
      HoldsIff(bytes, items, name, rest);
      HeldIsFound(bytes, items, name, rest);
    }
  }

  lemma {:induction false} HeldIsFound(bytes: seq<Byte>, items: seq<Item>, name: seq<Byte>, rest: seq<Byte>)
    requires HoldsItem(bytes, items, name, rest)
    ensures Walk(bytes) == name
    decreases |items|
  {
    var host := EncodeItem(Option(HOST_NAME, name)) + rest;
    if items == [] {
      assert bytes == host;
      WalkOverItem(Option(HOST_NAME, name), rest);
    } else {
      assert items[0] in items && AllWellFormed(items[1..]) && HostFree(items[1..]);
      Associate(EncodeItem(items[0]), Encode(items[1..]), host);
      HeldIsFound(Encode(items[1..]) + host, items[1..], name, rest);
      WalkOverItem(items[0], Encode(items[1..]) + host);
    }
  }

  lemma {:induction false} HoldsFirst(bytes: seq<Byte>, items: seq<Item>, stop: seq<Byte>)
    returns (before: seq<Item>, rest: seq<Byte>)
    requires Layout(bytes, items, stop) && HostName(items) != []
    ensures HoldsItem(bytes, before, HostName(items), rest)
    decreases |items|
  {
    var tail := LayoutTail(bytes, items, stop);
    if items[0].Option? && items[0].code == HOST_NAME {
      before, rest := [], tail;
      assert Encode(before) + (EncodeItem(items[0]) + rest) == bytes;
    } else {
      var later, more := HoldsFirst(tail, items[1..], stop);
      before, rest := [items[0]] + later, more;
      assert before[1..] == later;
      Associate(EncodeItem(items[0]), Encode(later), EncodeItem(Option(HOST_NAME, HostName(items))) + rest);
    }
  }

  predicate HostFree(items: seq<Item>) {
    forall item :: item in items ==> !(item.Option? && item.code == HOST_NAME)
  }

  /** The walk itself: no index is ever out of range, and however the bytes divide, the name is the first one. */
  method ParseHostname(opts: array<Byte>) returns (name: seq<Byte>)
    ensures name == Walk(opts[..])
    ensures forall items, rest :: Layout(opts[..], items, rest) ==> name == HostName(items)
  {
    name := [];
    var i := 0;
    while i < opts.Length - 1
      invariant 0 <= i <= opts.Length
      invariant name == [] && Walk(opts[..]) == Walk(opts[..][i..])
    {
      ghost var here := opts[..][i..];
      if opts[i] == END {
        break;
      }
      if opts[i] == PAD {
        assert here[1..] == opts[..][i + 1..];
        i := i + 1;
        continue;
      }
      var optLen := opts[i + 1];
      if i + 2 + optLen > opts.Length {
        break;
      }
      if opts[i] == HOST_NAME {
        assert here[2..2 + optLen] == opts[i + 2..i + 2 + optLen];
        name := opts[i + 2..i + 2 + optLen];
        break;
      }
      assert here[2 + optLen..] == opts[..][i + 2 + optLen..];
      i := i + 2 + optLen;
    }
    assert name == Walk(opts[..]);
    forall items, rest | Layout(opts[..], items, rest)
      ensures name == HostName(items)
    {
      WalkFindsFirst(opts[..], items, rest);
    }
  }
}
