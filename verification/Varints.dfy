/** Base-128 varints: the run lengths of a run-length block are stored with them. */
module Varints {
  import opened Common
  import opened Bytes

  /** The decoder takes a fifth byte only below 0x0f, which caps what it accepts. */
  const LIMIT: nat := 0xF000_0000

  function Encode(v: nat): (b: seq<Byte>)
    ensures |b| > 0
  {
    if v < 0x80 then [v] else [v % 0x80 + 0x80] + Encode(v / 0x80)
  }

  method EncodeInto(v: nat, buf: seq<Byte>) returns (out: seq<Byte>)
    ensures out == buf + Encode(v)
  {
    var value := v;
    out := buf;
    while value >= 0x80
      invariant out + Encode(value) == buf + Encode(v)
    {
      out := out + [value % 0x80 + 0x80];
      value := value / 0x80;
    }
    out := out + [value];
  }

  /** One varint from the front: its value and its length.  `None` stands for the
      decoder's error and for a slice that ends inside a varint. */
  function DecodeSlice(bytes: seq<Byte>): (r: Option<(nat, nat)>)
    ensures r.Some? ==> 1 <= r.value.1 <= 5 && r.value.1 <= |bytes| && r.value.0 < LIMIT
  {
    var at := (i: nat) requires i < |bytes| => bytes[i] as int;
    if |bytes| == 0 then None
    else if at(0) < 0x80 then Some((at(0), 1))
    else if |bytes| == 1 then None
    else
      var part1 := at(0) - 0x80 + at(1) * 0x80;
      if at(1) < 0x80 then Some((part1, 2))
      else if |bytes| == 2 then None
      else
        var part2 := part1 - 0x80 * 0x80 + at(2) * 0x4000;
        if at(2) < 0x80 then Some((part2, 3))
        else if |bytes| == 3 then None
        else
          var part3 := part2 - 0x80 * 0x4000 + at(3) * 0x20_0000;
          if at(3) < 0x80 then Some((part3, 4))
          else if |bytes| == 4 then None
          else if at(4) < 0x0f then Some((part3 - 0x80 * 0x20_0000 + at(4) * 0x1000_0000, 5))
          else None
  }

  function DecodeAll(bytes: seq<Byte>): (r: Option<seq<nat>>)
    decreases |bytes|
  {
    if bytes == [] then Some([])
    else match DecodeSlice(bytes)
      case None => None
      case Some((v, n)) =>
        match DecodeAll(bytes[n..])
        case None => None
        case Some(rest) => Some([v] + rest)
  }

  /** `decode_u32`: every varint of the buffer; an empty buffer is an error. */
  method Decode(bytes: seq<Byte>) returns (r: Option<seq<nat>>)
    ensures r == if bytes == [] then None else DecodeAll(bytes)
  {
    if |bytes| == 0 {
      return None;
    }
    var ret: seq<nat> := [];
    var tot := 0;
    assert bytes[0..] == bytes;
    assert forall rest: seq<nat> :: ret + rest == rest;
    while tot < |bytes|
      invariant 0 <= tot <= |bytes|
      invariant DecodeAll(bytes) == match DecodeAll(bytes[tot..]) {
          case None => None
          case Some(rest) => Some(ret + rest)
        }
    {
      match DecodeSlice(bytes[tot..]) {
        case None => return None;
        case Some((v, n)) =>
          assert bytes[tot..][n..] == bytes[tot + n..];
          ghost var later := DecodeAll(bytes[tot + n..]);
          assert later.Some? ==> ret + ([v] + later.value) == (ret + [v]) + later.value;
          ret := ret + [v];
          tot := tot + n;
      }
    }
    assert bytes[tot..] == [] && ret + [] == ret;
    return Some(ret);
  }

  function EncodeAll(vs: seq<nat>): seq<Byte> {
    if vs == [] then [] else Encode(vs[0]) + EncodeAll(vs[1..])
  }

  predicate AllBelow(vs: seq<nat>, limit: nat) {
    forall i :: 0 <= i < |vs| ==> vs[i] < limit
  }

  lemma {:induction false} Groups(v: nat)
    requires v < U32
    ensures Encode(v) ==
      var q1 := v / 0x80; var q2 := q1 / 0x80; var q3 := q2 / 0x80; var q4 := q3 / 0x80;
      if v < 0x80 then [v]
      else if v < 0x4000 then [v % 0x80 + 0x80, q1]
      else if v < 0x20_0000 then [v % 0x80 + 0x80, q1 % 0x80 + 0x80, q2]
      else if v < 0x1000_0000 then [v % 0x80 + 0x80, q1 % 0x80 + 0x80, q2 % 0x80 + 0x80, q3]
      else [v % 0x80 + 0x80, q1 % 0x80 + 0x80, q2 % 0x80 + 0x80, q3 % 0x80 + 0x80, q4]
  {
    var q1 := v / 0x80;
    var q2 := q1 / 0x80;
    var q3 := q2 / 0x80;
    if v >= 0x80 {
      assert Encode(v) == [v % 0x80 + 0x80] + Encode(q1);
    }
    if v >= 0x4000 {
      assert Encode(q1) == [q1 % 0x80 + 0x80] + Encode(q2);
    }
    if v >= 0x20_0000 {
      assert Encode(q2) == [q2 % 0x80 + 0x80] + Encode(q3);
    }
    if v >= 0x1000_0000 {
      assert Encode(q3) == [q3 % 0x80 + 0x80] + Encode(q3 / 0x80);
    }
  }

  /** Each 32-bit value takes one to five bytes. */
  lemma {:induction false} EncodedSize(v: nat)
    requires v < U32
    ensures 1 <= |Encode(v)| <= 5
  {
    Groups(v);
  }

  /** Whatever follows a varint, it decodes back — exactly when it is below the limit. */
  lemma {:induction false} SliceRoundTrip(v: nat, rest: seq<Byte>)
    requires v < U32
    ensures DecodeSlice(Encode(v) + rest) == if v < LIMIT then Some((v, |Encode(v)|)) else None
  {
    Groups(v);
    var b := Encode(v) + rest;
    assert forall i :: 0 <= i < |Encode(v)| ==> b[i] == Encode(v)[i];
  }

  /** A non-empty list of 32-bit values survives the round trip if and only if every
      one of them is below the limit; otherwise decoding reports an error. */
  lemma {:induction false} ListRoundTripIff(vs: seq<nat>)
    requires AllBelow(vs, U32)
    ensures DecodeAll(EncodeAll(vs)) == if AllBelow(vs, LIMIT) then Some(vs) else None
  {
    if vs != [] {
      var rest := EncodeAll(vs[1..]);
      SliceRoundTrip(vs[0], rest);
      ListRoundTripIff(vs[1..]);
      assert (Encode(vs[0]) + rest)[|Encode(vs[0])|..] == rest;
      assert vs == [vs[0]] + vs[1..];
    }
  }

  /** The first run length that is written but cannot be read. */
  lemma {:induction false} FirstUnreadable()
    ensures LIMIT < U32 && DecodeAll(EncodeAll([LIMIT - 1])) == Some([LIMIT - 1])
    ensures DecodeAll(EncodeAll([LIMIT])) == None
  {
    ListRoundTripIff([LIMIT - 1]);
    ListRoundTripIff([LIMIT]);
    assert [LIMIT][0] == LIMIT;
  }

  /** No varint is a proper prefix of another one, whatever their sizes. */
  lemma {:induction false} PrefixFree(v: nat, w: nat)
    requires Encode(v) <= Encode(w)
    ensures v == w
  {
    var a, b := Encode(v), Encode(w);
    assert a[0] == b[0];
    if v >= 0x80 {
      assert w >= 0x80;
      assert a[1..] == Encode(v / 0x80) && b[1..] == Encode(w / 0x80);
      PrefixFree(v / 0x80, w / 0x80);
    }
  }

  lemma {:induction false} EncodeAllAppend(vs: seq<nat>, v: nat)
    ensures EncodeAll(vs + [v]) == EncodeAll(vs) + Encode(v)
  {
    if vs == [] {
      assert EncodeAll([v]) == Encode(v) + EncodeAll([]);
    } else {
      EncodeAllAppend(vs[1..], v);
      assert (vs + [v])[1..] == vs[1..] + [v];
    }
  }
}
