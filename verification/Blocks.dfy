/** Shuffle blocks, partition identifiers and the sequence algebra shared by all stores. */
module Blocks {
  import opened Bytes

  datatype Option<+T> = None | Some(value: T)

  datatype Block = Block(
    blockId: I64, length: I32, uncompressLength: I32, crc: I64, data: seq<Byte>, taskAttemptId: I64)

  /** PartitionedUId. */
  datatype Uid = Uid(appId: string, shuffleId: I32, partitionId: I32)

  /** BatchMemoryBlock: one inner sequence per append. */
  type Batch = seq<seq<Block>>

  /** The client's length field tells the truth about the payload. */
  predicate Honest(b: Block) { b.length == |b.data| }

  function Flatten<T>(ss: seq<seq<T>>): seq<T> {
    if ss == [] then [] else ss[0] + Flatten(ss[1..])
  }

  lemma {:induction false} FlattenConcat<T>(a: seq<seq<T>>, b: seq<seq<T>>)
    ensures Flatten(a + b) == Flatten(a) + Flatten(b)
  {
    if a == [] {
      assert a + b == b;
    } else {
      assert (a + b)[1..] == a[1..] + b;
      FlattenConcat(a[1..], b);
    }
  }

  lemma FlattenOne<T>(x: seq<T>)
    ensures Flatten([x]) == x
  {
    assert [x][1..] == [];
    assert Flatten([x]) == x + Flatten<T>([]);
  }

  lemma {:induction false} FlattenSnoc<T>(a: seq<seq<T>>, x: seq<T>)
    ensures Flatten(a + [x]) == Flatten(a) + x
  {
    FlattenConcat(a, [x]);
    FlattenOne(x);
  }

  lemma FlattenTake<T>(a: seq<seq<T>>, i: nat)
    requires i < |a|
    ensures Flatten(a[..i + 1]) == Flatten(a[..i]) + a[i]
  {
    assert a[..i + 1] == a[..i] + [a[i]];
    FlattenSnoc(a[..i], a[i]);
  }

  function SumLength(blocks: seq<Block>): int {
    if blocks == [] then 0 else blocks[0].length + SumLength(blocks[1..])
  }

  lemma {:induction false} SumLengthConcat(a: seq<Block>, b: seq<Block>)
    ensures SumLength(a + b) == SumLength(a) + SumLength(b)
  {
    if a == [] {
      assert a + b == b;
    } else {
      assert (a + b)[1..] == a[1..] + b;
      SumLengthConcat(a[1..], b);
    }
  }

  lemma {:induction false} SumLengthSnoc(a: seq<Block>, b: Block)
    ensures SumLength(a + [b]) == SumLength(a) + b.length
  {
    SumLengthConcat(a, [b]);
    assert SumLength([b]) == b.length + SumLength([]);
  }

  /** `WritingViewContext::new`: the lengths are summed as `i32` and the sum is cast to `u64`. */
  function DataSize(blocks: seq<Block>): nat {
    AsU64(WrapI32(SumLength(blocks)))
  }
}
