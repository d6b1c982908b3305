/** The run-length builder and its cursor. */
module Rle {
  import opened Common
  import opened Bytes
  import opened Varints
  import opened Blocks
  import opened BlockIO
  import opened Runs

  class RleBuilder<T(==,!new)> {
    const inner: BlockBuilder<T>
    var rleCounts: seq<nat>
    var previous: Option<T>
    var curCount: nat
    /** The items appended so far. */
    ghost var items: seq<Option<T>>

    constructor (inner: BlockBuilder<T>)
      requires inner.Valid() && inner.items == []
      ensures Valid() && items == [] && this.inner == inner
    {
      this.inner := inner;
      rleCounts, previous, curCount, items := [], None, 0, [];
    }

    ghost predicate Valid()
      reads this, inner
    {
      && inner.Valid()
      && inner.items == RunHeads(items)
      && (items == [] <==> curCount == 0)
      && (items == [] ==> rleCounts == [])
      && (items != [] ==> RunCounts(items) == rleCounts + [curCount] && previous == items[|items| - 1])
    }

    method Append(item: Option<T>)
      requires Valid()
      modifies this, inner
      ensures Valid() && items == old(items) + [item]
    {
      ghost var next := items + [item];
      if curCount == 0 {
        assert next == [item];
        previous := item;
        inner.Append(item);
        curCount := 1;
        items := next;
        return;
      }
      RunsSnoc(items, item, rleCounts, curCount);
      if item != previous || curCount == MAX_COUNT {
        previous := item;
        inner.Append(item);
        rleCounts := rleCounts + [curCount];
        curCount := 1;
      } else {
        curCount := curCount + 1;
      }
      items := next;
    }

    method Finish() returns (b: seq<Byte>)
      requires Valid()
      modifies this
      ensures b == RleBlockOf(inner.layout, inner.nullable, old(items))
    {
      b := [];
      if curCount == 0 {
        return;
      }
      rleCounts := rleCounts + [curCount];
      var counts: seq<Byte> := [];
      var all := rleCounts;
      for i := 0 to |all|
        invariant counts == EncodeAll(all[..i])
      {
        counts := EncodeInto(all[i], counts);
        assert all[..i + 1] == all[..i] + [all[i]];
        EncodeAllAppend(all[..i], all[i]);
      }
      assert all[..|all|] == all;
      var data := inner.Finish();
      b := PutU32(|all|) + PutU32(|counts|) + counts + data;
    }
  }

  /** A cursor over the rows that the runs stand for. */
  class RleReader<T(!new)> {
    const blockIter: BlockReader<T>
    const rleBlock: seq<nat>
    const rleRowCount: nat
    const rowCount: nat
    const zero: T
    /** The head of every run, as the inner block holds them. */
    ghost const heads: seq<Option<T>>
    var curRow: nat
    var curScannedCount: nat
    var curElement: Option<T>
    var rowScannedCount: nat
    var neverUsed: bool

    constructor (blockIter: BlockReader<T>, rleBlock: seq<nat>, rleRowCount: nat, zero: T)
      requires blockIter.Valid() && blockIter.nextRow == 0
      requires |rleBlock| == rleRowCount == blockIter.rowCount
      ensures Valid() && rowScannedCount == 0 && this.blockIter == blockIter && this.rleBlock == rleBlock
      ensures heads == blockIter.Items()
    {
      var rowCount := 0;
      for i := 0 to |rleBlock|
        invariant rowCount == Total(rleBlock[..i])
      {
        TotalUpTo(rleBlock, i);
        rowCount := rowCount + rleBlock[i];
      }
      assert rleBlock[..|rleBlock|] == rleBlock;
      this.blockIter, this.rleBlock, this.rleRowCount := blockIter, rleBlock, rleRowCount;
      this.rowCount, this.zero, heads := rowCount, zero, blockIter.Items();
      curRow, curScannedCount, curElement, rowScannedCount, neverUsed := 0, 0, None, 0, true;
    }

    /** What never changes: every run has its head in the inner block. */
    ghost predicate Shape() {
      && AllReadable(blockIter.layout, blockIter.block, blockIter.bitmap, blockIter.rowCount)
      && |rleBlock| == rleRowCount == blockIter.rowCount
      && rowCount == Total(rleBlock)
      && heads == blockIter.Items()
    }

    /** Where the cursor is among the runs. */
    ghost predicate AtRow()
      reads this
      requires Shape()
    {
      && curRow <= rleRowCount
      && (if curRow < rleRowCount then curScannedCount <= rleBlock[curRow] else curScannedCount == 0)
      && rowScannedCount == Total(rleBlock[..curRow]) + curScannedCount <= rowCount
    }

    /** The inner cursor stands at the current run until the first batch, and one run
        ahead, with the current head at hand, after it. */
    ghost predicate InStep()
      reads this, blockIter
      requires Shape()
    {
      && blockIter.Valid()
      && (if neverUsed then blockIter.nextRow == curRow
          else
            && blockIter.nextRow == Least(curRow + 1, rleRowCount)
            && (curRow < rleRowCount ==> curElement == heads[curRow]))
    }

    ghost predicate Valid()
      reads this, blockIter
    {
      Shape() && AtRow() && InStep()
    }

    /** All the rows of the block. */
    ghost function Rows(): (r: seq<Option<T>>)
      requires Shape()
      ensures |r| == rowCount
    {
      Expand(rleBlock, heads)
    }

    function RemainingItems(): (n: nat)
      requires Valid()
      reads this, blockIter
      ensures n == |Rows()| - rowScannedCount
    {
      rowCount - rowScannedCount
    }

    method NextElement() returns (e: Option<Option<T>>)
      requires Shape() && blockIter.Valid()
      modifies blockIter
      ensures blockIter.Valid()
      ensures old(blockIter.nextRow) < rleRowCount ==>
                e == Some(heads[old(blockIter.nextRow)]) && blockIter.nextRow == old(blockIter.nextRow) + 1
      ensures old(blockIter.nextRow) >= rleRowCount ==> e == None && blockIter.nextRow == old(blockIter.nextRow)
    {
      var builder := new ArrayBuilder(zero);
      var cnt := ReadInto(blockIter, Some(1), builder);
      if cnt == 0 {
        return None;
      }
      return Some(builder.Contents()[0]);
    }

    /** Reads the first head before the first batch. */
    method Start()
      requires Valid() && curRow < rleRowCount
      modifies this, blockIter
      ensures Valid() && !neverUsed && curRow == old(curRow) && rowScannedCount == old(rowScannedCount)
    {
      if neverUsed {
        neverUsed := false;
        var element := NextElement();
        if element.Some? {
          curElement := element.value;
        }
      }
    }

    /** Pushes one row of the current run. */
    method TakeRow(builder: ArrayBuilder<T>)
      requires Valid() && !neverUsed && builder.Aligned()
      requires curRow < rleRowCount && curScannedCount < rleBlock[curRow]
      modifies this, builder
      ensures Valid() && !neverUsed && builder.Aligned()
      ensures curRow == old(curRow) && curScannedCount == old(curScannedCount) + 1
      ensures rowScannedCount == old(rowScannedCount) + 1
      ensures builder.Contents() == old(builder.Contents()) + [Rows()[old(rowScannedCount)]]
    {
      ExpandAt(rleBlock, heads, curRow, curScannedCount);
      builder.Push(curElement);
      curScannedCount := curScannedCount + 1;
      rowScannedCount := rowScannedCount + 1;
    }

    /** Leaves a finished run for the next one, if there is one. */
    method NextRun() returns (more: bool)
      requires Valid() && !neverUsed && curRow < rleRowCount && curScannedCount == rleBlock[curRow]
      modifies this, blockIter
      ensures Valid() && !neverUsed && curRow == old(curRow) + 1 && rowScannedCount == old(rowScannedCount)
      ensures more == (curRow < rleRowCount)
      ensures !more ==> rowScannedCount == rowCount
    {
      TotalUpTo(rleBlock, curRow);
      assert rleBlock[..rleRowCount] == rleBlock;
      curRow := curRow + 1;
      curScannedCount := 0;
      if curRow >= rleRowCount {
        return false;
      }
      var element := NextElement();
      if element.None? {
        return false;
      }
      curElement := element.value;
      return true;
    }

    /** One turn of the batch loop: a row of the current run, or the next run. */
    method Turn(builder: ArrayBuilder<T>) returns (took: nat)
      requires Valid() && !neverUsed && builder.Aligned() && curRow < rleRowCount
      modifies this, blockIter, builder
      ensures Valid() && !neverUsed && builder.Aligned()
      ensures rowScannedCount == old(rowScannedCount) + took && took <= 1
      ensures builder.Contents() == old(builder.Contents()) + Rows()[old(rowScannedCount)..rowScannedCount]
      ensures curRow == old(curRow) + 1 - took
      ensures took == 1 ==> old(curScannedCount) < curScannedCount
      ensures curRow >= rleRowCount ==> took == 0 && rowScannedCount == rowCount
    {
      if curScannedCount < rleBlock[curRow] {
        TakeRow(builder);
        return 1;
      }
      var _ := NextRun();
      return 0;
    }

    method NextBatch(expected: Option<nat>, builder: ArrayBuilder<T>) returns (cnt: nat)
      requires Valid() && builder.Aligned() && (expected.Some? && curRow < rleRowCount ==> expected.value > 0)
      modifies this, blockIter, builder
      ensures Valid() && builder.Aligned()
      ensures cnt == BatchSize(expected, |Rows()| - old(rowScannedCount))
      ensures rowScannedCount == old(rowScannedCount) + cnt
      ensures builder.Contents() == old(builder.Contents()) + Rows()[old(rowScannedCount)..rowScannedCount]
    {
      cnt := 0;
      if curRow >= rleRowCount {
        assert rleBlock[..rleRowCount] == rleBlock;
        return;
      }
      Start();
      ghost var before, rows, from := builder.Contents(), Rows(), rowScannedCount;
      while curRow < rleRowCount && (expected.Some? ==> cnt < expected.value)
        invariant Valid() && !neverUsed && builder.Aligned()
        invariant expected.Some? ==> cnt <= expected.value
        invariant rowScannedCount == from + cnt
        invariant curRow >= rleRowCount ==> rowScannedCount == rowCount
        invariant builder.Contents() == before + rows[from..rowScannedCount]
        decreases rleRowCount - curRow, if curRow < rleRowCount then rleBlock[curRow] - curScannedCount else 0
      {
        ghost var at := rowScannedCount;
        var took := Turn(builder);
        SliceJoin(before, rows, from, at, rowScannedCount);
        cnt := cnt + took;
      }
    }

    /** Moves the row position over whole runs and into one, counting the runs left. */
    method SkipRuns(cnt: nat) returns (skipCount: nat)
      requires Shape() && AtRow() && (cnt > 0 ==> curRow < rleRowCount)
      modifies this`curRow, this`curScannedCount, this`rowScannedCount
      ensures AtRow() && curRow == old(curRow) + skipCount
      ensures rowScannedCount == Least(old(rowScannedCount) + cnt, rowCount)
    {
      var left := cnt;
      skipCount := 0;
      while left > 0
        invariant AtRow() && curRow == old(curRow) + skipCount
        invariant left >= 0 && (left > 0 ==> curRow < rleRowCount)
        invariant rowScannedCount + left == old(rowScannedCount) + cnt
        decreases rleRowCount - curRow, left
      {
        var curLeft := rleBlock[curRow] - curScannedCount;
        TotalUpTo(rleBlock, curRow);
        if curLeft > left {
          curScannedCount := curScannedCount + left;
          rowScannedCount := rowScannedCount + left;
          return;
        }
        left := left - curLeft;
        rowScannedCount := rowScannedCount + curLeft;
        curScannedCount := 0;
        curRow := curRow + 1;
        skipCount := skipCount + 1;
        if curRow >= rleRowCount {
          assert rleBlock[..rleRowCount] == rleBlock;
          return;
        }
      }
    }

    /** Moves on by `cnt` rows, or to the end when fewer are left. */
    method Skip(cnt: nat)
      requires Valid() && (cnt > 0 ==> curRow < rleRowCount)
      modifies this, blockIter
      ensures Valid()
      ensures rowScannedCount == Least(old(rowScannedCount) + cnt, |Rows()|)
    {
      hide Total, AllReadable, ItemsOf, Expand;
      var skipCount := SkipRuns(cnt);
      if skipCount > 0 {
        blockIter.Skip(skipCount - 1);
        var element := NextElement();
        if element.Some? {
          curElement := element.value;
        }
      }
    }
  }
}
