/** Plain and nullable blocks as byte layouts, and why each value can be found again. */
module Blocks {
  import opened Common
  import opened Bytes

  /** How non-null values are laid out: one after the other with a fixed width, or a
      table of end offsets followed by the bytes.  The value codecs are parameters. */
  datatype Layout<!T> =
    | FixedWidth(width: nat, encode: T -> seq<Byte>, decode: seq<Byte> -> T, zero: T)
    | Blob(toBytes: T -> seq<Byte>, fromBytes: seq<Byte> -> T)

  ghost predicate Faithful<T(!new)>(l: Layout<T>) {
    match l
    case FixedWidth(w, enc, dec, _) => forall v: T :: |enc(v)| == w && dec(enc(v)) == v
    case Blob(to, from) => forall v: T :: from(to(v)) == v
  }

  /** The bytes stored for one item; a null takes the slot of a default value. */
  function Piece<T>(l: Layout<T>, item: Option<T>): seq<Byte> {
    match l
    case FixedWidth(_, enc, _, zero) => enc(if item.Some? then item.value else zero)
    case Blob(to, _) => if item.Some? then to(item.value) else []
  }

  function Pieces<T>(l: Layout<T>, items: seq<Option<T>>): (ps: seq<seq<Byte>>)
    ensures |ps| == |items|
  {
    seq(|items|, i requires 0 <= i < |items| => Piece(l, items[i]))
  }

  function ValueOf<T>(l: Layout<T>, piece: seq<Byte>): T {
    match l
    case FixedWidth(_, _, dec, _) => dec(piece)
    case Blob(_, from) => from(piece)
  }

  function Ends(ps: seq<seq<Byte>>): (es: seq<nat>)
    ensures |es| == |ps|
  {
    seq(|ps|, i requires 0 <= i < |ps| => |Flatten(ps[..i + 1])| % U32)
  }

  function Table(es: seq<nat>): (b: seq<Byte>)
    ensures |b| == 4 * |es|
  {
    if es == [] then [] else Table(es[..|es| - 1]) + PutU32(es[|es| - 1])
  }

  function PlainBlock<T>(l: Layout<T>, ps: seq<seq<Byte>>): seq<Byte> {
    (if l.Blob? then Table(Ends(ps)) else []) + Flatten(ps)
  }

  function Flags<T>(items: seq<Option<T>>): seq<bool> {
    seq(|items|, i requires 0 <= i < |items| => items[i].Some?)
  }

  /** The whole block: the values, then for a nullable block the packed validity bits
      and their length. */
  function BlockOf<T>(l: Layout<T>, nullable: bool, items: seq<Option<T>>): seq<Byte> {
    var values := PlainBlock(l, Pieces(l, items));
    if !nullable then values
    else values + PackBits(Flags(items)) + PutU32(|PackBits(Flags(items))|)
  }

  /** The inner block and the bitmap of a nullable block. */
  function DecodeNullable(data: seq<Byte>): (r: Option<(seq<Byte>, seq<Byte>)>)
  {
    if |data| < 4 then None
    else
      var end := |data| - 4;
      var bits := FromLittleEndian(data[end..]);
      if bits > end then None else Some((data[..end - bits], data[end - bits..end]))
  }

  // ---- reading a value by its row number ----

  function End(block: seq<Byte>, i: nat): nat
    requires 4 * i + 4 <= |block|
  {
    FromLittleEndian(block[4 * i..4 * i + 4])
  }

  function Start(block: seq<Byte>, i: nat): nat
    requires 4 * i <= |block|
  {
    if i == 0 then 0 else End(block, i - 1)
  }

  predicate Readable<T>(l: Layout<T>, block: seq<Byte>, rows: nat, i: nat) {
    match l
    case FixedWidth(w, _, _, _) => i * w + w <= |block|
    case Blob(_, _) =>
      i < rows && 4 * rows <= |block| && Start(block, i) <= End(block, i) <= |block| - 4 * rows
  }

  function PieceAt<T>(l: Layout<T>, block: seq<Byte>, rows: nat, i: nat): seq<Byte>
    requires Readable(l, block, rows, i)
  {
    match l
    case FixedWidth(w, _, _, _) => block[i * w..i * w + w]
    case Blob(_, _) => block[4 * rows..][Start(block, i)..End(block, i)]
  }

  ghost predicate AllReadable<T>(l: Layout<T>, block: seq<Byte>, bitmap: Option<seq<Byte>>, rows: nat) {
    && (forall i :: 0 <= i < rows ==> Readable(l, block, rows, i))
    && (bitmap.Some? ==> rows <= 8 * |bitmap.value|)
  }

  function RawAt<T>(l: Layout<T>, block: seq<Byte>, rows: nat, i: nat): T
    requires Readable(l, block, rows, i)
  {
    ValueOf(l, PieceAt(l, block, rows, i))
  }

  predicate ValidAt(bitmap: Option<seq<Byte>>, i: nat)
    requires bitmap.Some? ==> i < 8 * |bitmap.value|
  {
    bitmap.Some? ==> BitAt(bitmap.value, i)
  }

  function Raws<T>(l: Layout<T>, block: seq<Byte>, bitmap: Option<seq<Byte>>, rows: nat): seq<T>
    requires AllReadable(l, block, bitmap, rows)
  {
    seq(rows, i requires 0 <= i < rows => RawAt(l, block, rows, i))
  }

  function Valids<T>(l: Layout<T>, block: seq<Byte>, bitmap: Option<seq<Byte>>, rows: nat): seq<bool>
    requires AllReadable(l, block, bitmap, rows)
  {
    seq(rows, i requires 0 <= i < rows => ValidAt(bitmap, i))
  }

  /** The items an array with these slots and validity bits stands for. */
  function Zip<T>(slots: seq<T>, valid: seq<bool>): (r: seq<Option<T>>)
    requires |slots| == |valid|
    ensures |r| == |slots|
  {
    seq(|slots|, i requires 0 <= i < |slots| => if valid[i] then Some(slots[i]) else None)
  }

  function ItemsOf<T>(l: Layout<T>, block: seq<Byte>, bitmap: Option<seq<Byte>>, rows: nat): (r: seq<Option<T>>)
    requires AllReadable(l, block, bitmap, rows)
    ensures |r| == rows
  {
    Zip(Raws(l, block, bitmap, rows), Valids(l, block, bitmap, rows))
  }

  // ---- every value is where the reader looks for it ----

  lemma {:induction false} PieceInside(ps: seq<seq<Byte>>, i: nat)
    requires i < |ps|
    ensures |Flatten(ps[..i])| + |ps[i]| == |Flatten(ps[..i + 1])| <= |Flatten(ps)|
    ensures Flatten(ps)[|Flatten(ps[..i])|..|Flatten(ps[..i + 1])|] == ps[i]
  {
    assert ps[..i + 1] == ps[..i] + [ps[i]] && ps == ps[..i + 1] + ps[i + 1..];
    FlattenSnoc(ps[..i], ps[i]);
    FlattenAppend(ps[..i + 1], ps[i + 1..]);
  }

  lemma {:induction false} EvenPieces(ps: seq<seq<Byte>>, w: nat)
    requires forall i :: 0 <= i < |ps| ==> |ps[i]| == w
    ensures |Flatten(ps)| == |ps| * w
  {
    if ps != [] {
      EvenPieces(ps[1..], w);
      assert (|ps| - 1) * w + w == |ps| * w;
    }
  }

  lemma {:induction false} TableEntry(es: seq<nat>, i: nat)
    requires i < |es|
    ensures Table(es)[4 * i..4 * i + 4] == PutU32(es[i])
  {
    var n := |es| - 1;
    if i < n {
      TableEntry(es[..n], i);
      assert Table(es)[4 * i..4 * i + 4] == Table(es[..n])[4 * i..4 * i + 4];
    }
  }

  lemma {:induction false} EndsAt(ps: seq<seq<Byte>>, i: nat)
    requires |Flatten(ps)| < U32 && i < |ps|
    ensures Ends(ps)[i] == |Flatten(ps[..i + 1])| < U32
  {
    PieceInside(ps, i);
  }

  lemma {:induction false} EndOfEntry(es: seq<nat>, rest: seq<Byte>, i: nat)
    requires i < |es| && es[i] < U32
    ensures End(Table(es) + rest, i) == es[i]
  {
    TableEntry(es, i);
    PutU32RoundTrip(es[i]);
    assert (Table(es) + rest)[4 * i..4 * i + 4] == Table(es)[4 * i..4 * i + 4];
  }

  lemma {:induction false} EndInTable<T>(l: Layout<T>, ps: seq<seq<Byte>>, i: nat)
    requires l.Blob? && |Flatten(ps)| < U32 && i < |ps|
    ensures |PlainBlock(l, ps)| == 4 * |ps| + |Flatten(ps)|
    ensures End(PlainBlock(l, ps), i) == |Flatten(ps[..i + 1])|
  {
    EndsAt(ps, i);
    EndOfEntry(Ends(ps), Flatten(ps), i);
  }

  ghost predicate Fits<T>(l: Layout<T>, ps: seq<seq<Byte>>) {
    match l
    case FixedWidth(w, _, _, _) => forall i :: 0 <= i < |ps| ==> |ps[i]| == w
    case Blob(_, _) => |Flatten(ps)| < U32
  }

  lemma {:induction false} FixedPieceBack<T>(l: Layout<T>, ps: seq<seq<Byte>>, i: nat)
    requires l.FixedWidth? && Fits(l, ps) && i < |ps|
    ensures Readable(l, PlainBlock(l, ps), |ps|, i)
    ensures PieceAt(l, PlainBlock(l, ps), |ps|, i) == ps[i]
  {
    PieceInside(ps, i);
    EvenPieces(ps[..i], l.width);
    assert [] + Flatten(ps) == Flatten(ps);
  }

  lemma {:induction false} BlobPieceBack<T>(l: Layout<T>, ps: seq<seq<Byte>>, i: nat)
    requires l.Blob? && Fits(l, ps) && i < |ps|
    ensures Readable(l, PlainBlock(l, ps), |ps|, i)
    ensures PieceAt(l, PlainBlock(l, ps), |ps|, i) == ps[i]
  {
    var b := PlainBlock(l, ps);
    PieceInside(ps, i);
    EndInTable(l, ps, i);
    if i > 0 {
      EndInTable(l, ps, i - 1);
    }
    assert Start(b, i) == |Flatten(ps[..i])|;
    assert b[4 * |ps|..] == Flatten(ps);
  }

  lemma {:induction false} PieceBack<T>(l: Layout<T>, ps: seq<seq<Byte>>, i: nat)
    requires Fits(l, ps) && i < |ps|
    ensures Readable(l, PlainBlock(l, ps), |ps|, i)
    ensures PieceAt(l, PlainBlock(l, ps), |ps|, i) == ps[i]
  {
    if l.Blob? {
      BlobPieceBack(l, ps, i);
    } else {
      FixedPieceBack(l, ps, i);
    }
  }

  /** What a block can hold: without a bitmap, only non-null items; the offsets and the
      bitmap length have to fit their 32-bit fields. */
  ghost predicate Storable<T(!new)>(l: Layout<T>, nullable: bool, items: seq<Option<T>>) {
    && Faithful(l)
    && (l.Blob? ==> |Flatten(Pieces(l, items))| < U32)
    && (if nullable then |PackBits(Flags(items))| < U32 else forall i :: 0 <= i < |items| ==> items[i].Some?)
  }

  /** The values and the bitmap a reader is opened with. */
  function Parts(data: seq<Byte>, nullable: bool): (r: Option<(seq<Byte>, Option<seq<Byte>>)>) {
    if !nullable then Some((data, None))
    else match DecodeNullable(data)
      case None => None
      case Some((inner, bits)) => Some((inner, Some(bits)))
  }

  lemma {:induction false} SplitNullable(values: seq<Byte>, bits: seq<Byte>)
    requires |bits| < U32
    ensures DecodeNullable(values + bits + PutU32(|bits|)) == Some((values, bits))
  {
    var data := values + bits + PutU32(|bits|);
    assert data[|data| - 4..] == PutU32(|bits|);
    PutU32RoundTrip(|bits|);
    assert data[..|values|] == values && data[|values|..|data| - 4] == bits;
  }

  lemma {:induction false} PartsOfBlock<T(!new)>(l: Layout<T>, nullable: bool, items: seq<Option<T>>)
    requires Storable(l, nullable, items)
    ensures Parts(BlockOf(l, nullable, items), nullable) ==
            Some((PlainBlock(l, Pieces(l, items)), if nullable then Some(PackBits(Flags(items))) else None))
  {
    if nullable {
      SplitNullable(PlainBlock(l, Pieces(l, items)), PackBits(Flags(items)));
    }
  }

  lemma {:induction false} ItemBack<T(!new)>(l: Layout<T>, nullable: bool, items: seq<Option<T>>, i: nat)
    requires Storable(l, nullable, items) && i < |items|
    ensures var b := PlainBlock(l, Pieces(l, items));
            Readable(l, b, |items|, i) && (items[i].Some? ==> RawAt(l, b, |items|, i) == items[i].value)
    ensures nullable ==> BitAt(PackBits(Flags(items)), i) == items[i].Some?
  {
    var ps := Pieces(l, items);
    assert Fits(l, ps);
    PieceBack(l, ps, i);
    PackedBitAt(Flags(items), i);
  }

  /** A block holds exactly the items it was built from, nulls included. */
  lemma {:induction false} BlockRoundTrip<T(!new)>(l: Layout<T>, nullable: bool, items: seq<Option<T>>)
    requires Storable(l, nullable, items)
    ensures var parts := Parts(BlockOf(l, nullable, items), nullable);
            && parts.Some?
            && AllReadable(l, parts.value.0, parts.value.1, |items|)
            && ItemsOf(l, parts.value.0, parts.value.1, |items|) == items
  {
    PartsOfBlock(l, nullable, items);
    forall i: nat | i < |items|
      ensures var b := PlainBlock(l, Pieces(l, items));
              Readable(l, b, |items|, i) && (items[i].Some? ==> RawAt(l, b, |items|, i) == items[i].value)
      ensures nullable ==> BitAt(PackBits(Flags(items)), i) == items[i].Some?
    {
      ItemBack(l, nullable, items, i);
    }
  }
}
