/** Re-chunking: rows are collected and handed on in chunks of a fixed size. */
module Chunks {
  import opened Common

  /** The number of rows of a full output chunk. */
  const WINDOW: nat := 1024

  class ChunkBuilder {
    const capacity: nat
    var rows: seq<Row>

    constructor (capacity: nat)
      requires capacity != 0
      ensures Valid() && rows == [] && this.capacity == capacity
    {
      this.capacity := capacity;
      rows := [];
    }

    ghost predicate Valid()
      reads this
    {
      |rows| < capacity
    }

    /** Adds a row; gives a chunk away when that fills it. */
    method PushRow(row: Row) returns (chunk: Option<seq<Row>>)
      requires Valid()
      modifies this
      ensures Valid()
      ensures if |old(rows)| + 1 == capacity then chunk == Some(old(rows) + [row]) && rows == []
              else chunk == None && rows == old(rows) + [row]
    {
      rows := rows + [row];
      if |rows| == capacity {
        chunk := Some(rows);
        rows := [];
      } else {
        chunk := None;
      }
    }

    method Take() returns (chunk: Option<seq<Row>>)
      requires Valid()
      modifies this
      ensures Valid() && rows == []
      ensures chunk == if old(rows) == [] then None else Some(old(rows))
    {
      chunk := if rows == [] then None else Some(rows);
      rows := [];
    }
  }

  /** Every chunk holds `size` rows. */
  predicate Full(chunks: seq<seq<Row>>, size: nat) {
    forall i :: 0 <= i < |chunks| ==> |chunks[i]| == size
  }

  /** Every chunk but the last is full, and the last is not empty. */
  predicate Chunked(chunks: seq<seq<Row>>, size: nat) {
    chunks == [] ||
    (Full(chunks[..|chunks| - 1], size) && 0 < |chunks[|chunks| - 1]| <= size)
  }

  /** What an operator has yielded so far, with the rows still being collected. */
  class Output {
    const builder: ChunkBuilder
    var chunks: seq<seq<Row>>

    constructor ()
      ensures Valid() && Sent() == [] && fresh(builder) && chunks == []
    {
      builder := new ChunkBuilder(WINDOW);
      chunks := [];
    }

    ghost predicate Valid()
      reads this, builder
    {
      builder.Valid() && builder.capacity == WINDOW && Full(chunks, WINDOW)
    }

    ghost function Sent(): seq<Row>
      reads this, builder
    {
      Flatten(chunks) + builder.rows
    }

    method Push(row: Row)
      requires Valid()
      modifies this, builder
      ensures Valid() && Sent() == old(Sent()) + [row]
    {
      var chunk := builder.PushRow(row);
      if chunk.Some? {
        FlattenSnoc(chunks, chunk.value);
        chunks := chunks + [chunk.value];
      }
    }

    method Close() returns (all: seq<seq<Row>>)
      requires Valid()
      modifies this, builder
      ensures Flatten(all) == old(Sent()) && Chunked(all, WINDOW)
    {
      var chunk := builder.Take();
      if chunk.Some? {
        FlattenSnoc(chunks, chunk.value);
        chunks := chunks + [chunk.value];
      }
      all := chunks;
    }
  }
}
