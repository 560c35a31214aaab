/**
 The block log: an append-only file of packed blocks, each followed by its own position, and
 an index file holding those positions. Reading by number, by position and rebuilding the
 index all agree with the sequence of blocks that was appended.
 */
module BlockLog {
  import opened Common
  import opened Blocks
  import opened LittleEndian

  const TWO64: nat := 0x1_0000_0000_0000_0000

  // ----- positions in the file -----

  function Position(n: nat): (s: seq<byte>)
    ensures |s| == 8
  {
    Bytes(n, 8)
  }

  lemma PositionValue(n: nat)
    requires n < TWO64
    ensures Value(Position(n)) == n
  {
    assert Power(4) == 0x1_0000_0000;
    assert Power(8) == 256 * (256 * (256 * (256 * Power(4))));
    BytesValue(n, 8);
  }

  // ----- packing -----

  /** Serialisation of blocks, as the log uses it. */
  datatype Codec = Codec(pack: Block -> seq<byte>, unpack: seq<byte> -> Option<(Block, nat)>)

  /** A packed block is read back whatever follows it, and is never empty. */
  ghost predicate SelfDelimiting(codec: Codec)
  {
    && (forall b :: |codec.pack(b)| > 0)
    && (forall b, rest :: codec.unpack(codec.pack(b) + rest) == Some((b, |codec.pack(b)|)))
  }

  /** The bytes of the log after appending `blocks`. */
  ghost function Layout(codec: Codec, blocks: seq<Block>): seq<byte>
  {
    if blocks == [] then []
    else
      var before := Layout(codec, blocks[..|blocks| - 1]);
      before + codec.pack(blocks[|blocks| - 1]) + Position(|before|)
  }

  /** Where block number `k + 1` starts. */
  ghost function Start(codec: Codec, blocks: seq<Block>, k: nat): nat
    requires k <= |blocks|
  {
    |Layout(codec, blocks[..k])|
  }

  /** The bytes of the index. */
  ghost function Index(codec: Codec, blocks: seq<Block>): (s: seq<byte>)
    ensures |s| == 8 * |blocks|
  {
    if blocks == [] then []
    else Index(codec, blocks[..|blocks| - 1]) + Position(Start(codec, blocks, |blocks| - 1))
  }

  lemma {:induction false} LayoutPrefix(codec: Codec, blocks: seq<Block>, k: nat)
    requires k <= |blocks|
    ensures Layout(codec, blocks[..k]) <= Layout(codec, blocks)
    decreases |blocks|
  {
    hide Position;
    if k == |blocks| {
      assert blocks[..k] == blocks;
    } else {
      var below := blocks[..|blocks| - 1];
      LayoutPrefix(codec, below, k);
      assert below[..k] == blocks[..k];
    }
  }

  lemma LayoutStep(codec: Codec, blocks: seq<Block>, k: nat)
    requires k < |blocks|
    ensures Layout(codec, blocks[..k + 1])
         == Layout(codec, blocks[..k]) + codec.pack(blocks[k]) + Position(Start(codec, blocks, k))
  {
    hide Position;
    assert blocks[..k + 1][..k] == blocks[..k];
  }

  lemma Slices(a: seq<byte>, b: seq<byte>, c: seq<byte>, log: seq<byte>)
    requires a + b + c <= log
    ensures |a| + |b| + |c| <= |log|
    ensures log[|a|..|a| + |b|] == b
    ensures log[|a| + |b|..|a| + |b| + |c|] == c
    ensures log[|a|..] == b + log[|a| + |b|..]
  {
    var abc := a + b + c;
    forall i | 0 <= i < |abc| ensures log[i] == abc[i] { }
  }

  /** From the start of a block on, the log holds that block, its position, and the rest. */
  lemma LayoutAt(codec: Codec, blocks: seq<Block>, k: nat)
    requires k < |blocks|
    ensures var log, at, b := Layout(codec, blocks), Start(codec, blocks, k), blocks[k];
            var size := |codec.pack(b)|;
            && at + size + 8 == Start(codec, blocks, k + 1) <= |log|
            && log[at..at + size] == codec.pack(b)
            && log[at + size..at + size + 8] == Position(at)
            && log[at..] == codec.pack(b) + log[at + size..]
  {
    hide Position, Layout;
    LayoutStep(codec, blocks, k);
    LayoutPrefix(codec, blocks, k + 1);
    Slices(Layout(codec, blocks[..k]), codec.pack(blocks[k]), Position(Start(codec, blocks, k)), Layout(codec, blocks));
  }

  lemma {:induction false} IndexAt(codec: Codec, blocks: seq<Block>, k: nat)
    requires k < |blocks|
    ensures Index(codec, blocks)[8 * k..8 * k + 8] == Position(Start(codec, blocks, k))
    decreases |blocks|
  {
    hide Position, Layout;
    var last := |blocks| - 1;
    var below := Index(codec, blocks[..last]);
    var end := Position(Start(codec, blocks, last));
    assert Index(codec, blocks) == below + end;
    if k < last {
      IndexAt(codec, blocks[..last], k);
      assert blocks[..last][..k] == blocks[..k];
      assert (below + end)[8 * k..8 * k + 8] == below[8 * k..8 * k + 8];
    } else {
      assert (below + end)[8 * k..8 * k + 8] == end;
    }
  }

  lemma IndexStep(codec: Codec, blocks: seq<Block>, k: nat)
    requires k < |blocks|
    ensures Index(codec, blocks[..k + 1]) == Index(codec, blocks[..k]) + Position(Start(codec, blocks, k))
  {
    assert blocks[..k + 1][..k] == blocks[..k];
  }

  /** Reading what is packed at the start of a block. */
  lemma UnpackAt(codec: Codec, blocks: seq<Block>, k: nat)
    requires SelfDelimiting(codec) && k < |blocks|
    ensures Start(codec, blocks, k) <= |Layout(codec, blocks)|
    ensures codec.unpack(Layout(codec, blocks)[Start(codec, blocks, k)..]) == Some((blocks[k], |codec.pack(blocks[k])|))
  {
    hide Position, Layout;
    LayoutAt(codec, blocks, k);
  }

  lemma AtStart(codec: Codec, blocks: seq<Block>)
    ensures Start(codec, blocks, 0) == 0 && Index(codec, blocks[..0]) == []
  {
  }

  /** Unpacking a block and the position after it moves to the start of the next block. */
  lemma NextAt(codec: Codec, blocks: seq<Block>, k: nat)
    requires SelfDelimiting(codec) && k < |blocks| && |Layout(codec, blocks)| < TWO64
    ensures var log, at := Layout(codec, blocks), Start(codec, blocks, k);
            && at <= |log| && codec.unpack(log[at..]) == Some((blocks[k], |codec.pack(blocks[k])|))
            && var next := at + |codec.pack(blocks[k])|;
               next + 8 == Start(codec, blocks, k + 1) <= |log| && Value(log[next..next + 8]) == at
  {
    hide Position, Value, Layout;
    UnpackAt(codec, blocks, k);
    LayoutAt(codec, blocks, k);
    PositionValue(Start(codec, blocks, k));
  }

  lemma {:induction false} StartsGrow(codec: Codec, blocks: seq<Block>, i: nat, j: nat)
    requires SelfDelimiting(codec) && i < j <= |blocks|
    ensures Start(codec, blocks, i) < Start(codec, blocks, j)
    decreases j
  {
    LayoutAt(codec, blocks, j - 1);
    if i < j - 1 { StartsGrow(codec, blocks, i, j - 1); }
  }

  /** Blocks numbered from one on. */
  ghost predicate Numbered(blocks: seq<Block>)
  {
    forall i :: 0 <= i < |blocks| ==> Height(blocks[i]) == i + 1
  }

  lemma NoBytes(codec: Codec, blocks: seq<Block>)
    requires SelfDelimiting(codec)
    ensures |Layout(codec, blocks)| == 0 <==> blocks == []
  {
  }

  /** The last entry of a cut-off index is that of an earlier block. */
  lemma CutOff(codec: Codec, blocks: seq<Block>, j: nat)
    requires SelfDelimiting(codec) && j <= |blocks| && |Layout(codec, blocks)| < TWO64
    ensures var index := Index(codec, blocks[..j]);
            && |index| == 8 * j
            && (j > 0 ==> (Value(index[|index| - 8..]) == Start(codec, blocks, |blocks| - 1) <==> j == |blocks|))
  {
    hide Position, Value, Layout, Start;
    if j > 0 {
      IndexStep(codec, blocks, j - 1);
      LayoutAt(codec, blocks, j - 1);
      PositionValue(Start(codec, blocks, j - 1));
      var index := Index(codec, blocks[..j]);
      assert index[|index| - 8..] == Position(Start(codec, blocks, j - 1));
      if j < |blocks| { StartsGrow(codec, blocks, j - 1, |blocks| - 1); }
    }
  }

  function Last(blocks: seq<Block>): Option<Block>
  {
    if blocks == [] then None else Some(blocks[|blocks| - 1])
  }

  class Log {
    const codec: Codec
    var log: seq<byte>
    var index: seq<byte>
    var head: Option<Block>
    ghost var blocks: seq<Block>

    /** The log file holds `blocks`. */
    ghost predicate Holds()
      reads this
    {
      && SelfDelimiting(codec)
      && log == Layout(codec, blocks) && |log| < TWO64
      && Numbered(blocks)
    }

    ghost predicate Valid()
      reads this
    {
      && Holds() && index == Index(codec, blocks)
      && head == Last(blocks)
    }

    constructor (codec: Codec)
      requires SelfDelimiting(codec)
      ensures Valid() && blocks == [] && this.codec == codec
    {
      this.codec := codec;
      log, index, head, blocks := [], [], None, [];
    }

    method Append(b: Block) returns (ok: bool)
      requires Valid() && |log| + |codec.pack(b)| + 8 < TWO64
      modifies this
      ensures Valid()
      ensures ok <==> Height(b) == |old(blocks)| + 1
      ensures blocks == if ok then old(blocks) + [b] else old(blocks)
      ensures old(log) <= log && old(index) <= index
    {
      var pos := |log|;
      if |index| != 8 * (Height(b) - 1) { return false; }
      log := log + codec.pack(b);
      log := log + Position(pos);
      index := index + Position(pos);
      head := Some(b);
      blocks := blocks + [b];
      assert blocks[..|blocks| - 1] == old(blocks);
      return true;
    }

    /** `read_block`: the block at a position and the position of the next one. */
    method ReadBlock(pos: nat, ghost k: nat) returns (r: Option<(Block, nat)>)
      requires Holds()
      ensures k < |blocks| && pos == Start(codec, blocks, k) ==> r == Some((blocks[k], Start(codec, blocks, k + 1)))
    {
      if k < |blocks| {
        UnpackAt(codec, blocks, k);
        LayoutAt(codec, blocks, k);
      }
      if pos > |log| { return None; }
      var read := codec.unpack(log[pos..]);
      if read.None? { return None; }
      return Some((read.value.0, pos + read.value.1 + 8));
    }

    /** `get_block_pos` */
    method BlockPosition(n: nat) returns (pos: Option<nat>)
      requires Valid()
      ensures pos == if 1 <= n <= |blocks| then Some(Start(codec, blocks, n - 1)) else None
    {
      if head.None? || n > Height(head.value) || n == 0 { return None; }
      hide Position, Layout, Value;
      IndexAt(codec, blocks, n - 1);
      LayoutAt(codec, blocks, n - 1);
      PositionValue(Start(codec, blocks, n - 1));
      return Some(Value(index[8 * (n - 1)..8 * (n - 1) + 8]));
    }

    /** `read_block_by_num` */
    method ReadBlockByNum(n: nat) returns (r: Outcome<Option<Block>>)
      requires Valid()
      ensures r == Ok(if 1 <= n <= |blocks| then Some(blocks[n - 1]) else None)
    {
      var pos := BlockPosition(n);
      if pos.None? { return Ok(None); }
      var read := ReadBlock(pos.value, n - 1);
      if read.None? || Height(read.value.0) != n { return Aborted; }
      return Ok(Some(read.value.0));
    }

    /** `read_head` */
    method ReadHead() returns (r: Option<Block>)
      requires Holds() && blocks != []
      ensures r == Last(blocks)
    {
      var pos := LastPosition();
      var read := ReadBlock(pos, |blocks| - 1);
      return if read.None? then None else Some(read.value.0);
    }

    /** The position written at the end of the log. */
    method LastPosition() returns (pos: nat)
      requires Holds() && blocks != []
      ensures pos == Start(codec, blocks, |blocks| - 1)
    {
      hide Position, Layout, Value;
      ghost var last := |blocks| - 1;
      LayoutAt(codec, blocks, last);
      PositionValue(Start(codec, blocks, last));
      assert blocks[..last + 1] == blocks;
      assert log[|log| - 8..] == log[|log| - 8..|log|];
      return Value(log[|log| - 8..]);
    }

    /** Following the returned positions from the start visits every block in order. */
    method ReadAll() returns (read: seq<Block>)
      requires Holds()
      ensures read == blocks
    {
      hide Position;
      read := [];
      var pos := 0;
      while pos < |log|
        invariant |read| <= |blocks| && read == blocks[..|read|]
        invariant pos == Start(codec, blocks, |read|)
        decreases |blocks| - |read|
      {
        assert blocks[..|blocks|] == blocks;
        var next := ReadBlock(pos, |read|);
        read := read + [next.value.0];
        pos := next.value.1;
      }
      if |read| < |blocks| { StartsGrow(codec, blocks, |read|, |blocks|); }
      assert blocks[..|blocks|] == blocks;
    }

    /** `construct_index`, for a log that is not empty. */
    method ConstructIndex()
      requires Holds() && blocks != []
      modifies this`index
      ensures index == if |blocks| == 1 then [] else Index(codec, blocks)
    {
      hide Position, Value, Layout, Index, Start;
      index := [];
      var at, pos := 0, 0;
      var end := LastPosition();
      ghost var k := 0;
      AtStart(codec, blocks);
      if |blocks| > 1 { StartsGrow(codec, blocks, 0, |blocks| - 1); }
      while pos < end
        invariant k <= |blocks| && (|blocks| == 1 ==> k == 0)
        invariant at == Start(codec, blocks, k) && index == Index(codec, blocks[..k])
        invariant pos == Start(codec, blocks, if k == 0 then 0 else k - 1)
        decreases |blocks| - k
      {
        NextAt(codec, blocks, k);
        IndexStep(codec, blocks, k);
        var read := codec.unpack(log[at..]);
        at := at + read.value.1;
        pos := Value(log[at..at + 8]);
        at := at + 8;
        index := index + Position(pos);
        k := k + 1;
      }
      if 0 < k < |blocks| { StartsGrow(codec, blocks, k - 1, |blocks| - 1); }
      assert blocks[..|blocks|] == blocks;
    }

    /**
     `open`, with whatever index file is found. An index that was cut off after `j` entries
     is completed, except for the empty index of a log with one block.
     */
    method Open(ghost j: nat) returns (ok: bool)
      requires Holds()
      modifies this`index, this`head
      ensures ok ==> head == Last(blocks)
      ensures ok ==> index == Index(codec, blocks) || (|blocks| == 1 && index == []) || index == old(index)
      ensures j <= |blocks| && old(index) == Index(codec, blocks[..j]) ==>
                ok && (Valid() <==> !(|blocks| == 1 && j == 0))
    {
      hide Position, Value, Layout, Start;
      if j <= |blocks| && index == Index(codec, blocks[..j]) { CutOff(codec, blocks, j); }
      NoBytes(codec, blocks);
      if |log| == 0 {
        head, index := None, [];
        return true;
      }
      head := ReadHead();
      if |index| == 0 {
        ConstructIndex();
      } else if |index| < 8 {
        return false;
      } else {
        var blockPos := LastPosition();
        var indexPos := Value(index[|index| - 8..]);
        if blockPos != indexPos { ConstructIndex(); }
      }
      assert blocks[..|blocks|] == blocks;
      return true;
    }
  }
}
