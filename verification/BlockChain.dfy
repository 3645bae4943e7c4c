/**
  The chain of blocks of the ledger (blockchain/block/blockchain.go): blocks in a map under their
  hashes, linked by parent hashes, with the last block kept apart.

  The hash function is a parameter; blocks in one chain have different hashes, and none has the
  dummy hash that marks the parent of the first block.
 */
module BlockChain {
  import opened Wrappers

  type Hash = string

  datatype Block = Block(number: int, parentHash: Hash, txns: seq<string>)

  datatype Appended = Added | TooNew | Refused | Panics

  type Hasher = Block -> Hash

  /** The hash of block `i`, or the dummy hash before the first block. */
  function LinkTo(hash: Hasher, dummy: Hash, chain: seq<Block>, i: int): (h: Hash)
    requires -1 <= i < |chain|
  {
    if i < 0 then dummy else hash(chain[i])
  }

  ghost predicate BlockOk(hash: Hasher, dummy: Hash, chain: seq<Block>, blocks: map<Hash, Block>, i: int)
    requires 0 <= i < |chain|
  {
    && chain[i].number == i
    && chain[i].parentHash == LinkTo(hash, dummy, chain, i - 1)
    && hash(chain[i]) != dummy
    && hash(chain[i]) in blocks && blocks[hash(chain[i])] == chain[i]
  }

  /** Consecutive numbers from 0, and every parent link leads to the block before. */
  ghost predicate IsChain(hash: Hasher, dummy: Hash, chain: seq<Block>, blocks: map<Hash, Block>) {
    && chain != []
    && (forall i :: 0 <= i < |chain| ==> BlockOk(hash, dummy, chain, blocks, i))
    && (forall h :: h in blocks ==> blocks[h] in chain && hash(blocks[h]) == h)
  }

  /** The block has a hash of its own. */
  ghost predicate OwnHash(hash: Hasher, dummy: Hash, chain: seq<Block>, block: Block) {
    hash(block) != dummy && forall i :: 0 <= i < |chain| && hash(chain[i]) == hash(block) ==> chain[i] == block
  }

  /** A block with the next number that stands on the last block continues the chain. */
  lemma ExtendKeepsChain(hash: Hasher, dummy: Hash, chain: seq<Block>, blocks: map<Hash, Block>, block: Block)
    requires IsChain(hash, dummy, chain, blocks) && OwnHash(hash, dummy, chain, block)
    requires block.number == |chain| && block.parentHash == hash(chain[|chain| - 1])
    ensures IsChain(hash, dummy, chain + [block], blocks[hash(block) := block])
  {
    var chain', blocks' := chain + [block], blocks[hash(block) := block];
    forall i | 0 <= i < |chain'| ensures BlockOk(hash, dummy, chain', blocks', i) {
      if i < |chain| {
        assert BlockOk(hash, dummy, chain, blocks, i);
        assert hash(chain[i]) != hash(block);
      }
    }
  }

  class BlockChain {
    const hash: Hasher
    const dummy: Hash
    var blocksMap: map<Hash, Block>
    var ends: seq<Block>

    /** The blocks from the first to the last. */
    ghost var chain: seq<Block>

    /** One end, which is the last block of a chain. */
    ghost predicate Valid()
      reads this
    {
      IsChain(hash, dummy, chain, blocksMap) && ends == [chain[|chain| - 1]]
    }

    ghost predicate At(i: int)
      requires 0 <= i < |chain|
      reads this
    {
      BlockOk(hash, dummy, chain, blocksMap, i)
    }

    constructor (genesis: Block, hash: Hasher, dummy: Hash)
      requires genesis.number == 0 && genesis.parentHash == dummy && hash(genesis) != dummy
      ensures Valid() && chain == [genesis] && this.hash == hash && this.dummy == dummy
    {
      this.hash, this.dummy := hash, dummy;
      blocksMap, ends, chain := map[hash(genesis) := genesis], [genesis], [genesis];
    }

    /** The block with a number, by walking back from the end; the walk never runs out of blocks. */
    method GetBlock(number: int) returns (r: Result<Block, string>)
      requires Valid()
      ensures 0 <= number < |chain| ==> r == Ok(chain[number])
      ensures !(0 <= number < |chain|) ==> r.Err?
    {
      var end := ends[0];
      assert At(|chain| - 1);
      if number < 0 {
        return Err("number below zero");
      }
      if end.number < number {
        return Err("number too new");
      }
      if end.number == number {
        return Ok(end);
      }
      var ptr := end.parentHash;
      ghost var k := |chain| - 2;
      assert k >= 0 ==> At(k);
      while ptr != dummy
        invariant -1 <= k < |chain| - 1 && ptr == LinkTo(hash, dummy, chain, k)
        invariant 0 <= number <= k && ptr != dummy
        decreases k
      {
        assert At(k);
        var b := blocksMap[ptr];
        if b.number == number {
          return Ok(b);
        }
        ptr := b.parentHash;
        k := k - 1;
        assert k >= 0 ==> At(k);
      }
      assert false;
    }

    /** The number of blocks, counted along the links. */
    method Len() returns (n: int)
      requires Valid()
      ensures n == |chain| == ends[0].number + 1
    {
      n := 1;
      assert At(|chain| - 1);
      var ptr := ends[0].parentHash;
      ghost var k := |chain| - 2;
      assert k >= 0 ==> At(k);
      while ptr != dummy
        invariant -1 <= k < |chain| - 1 && ptr == LinkTo(hash, dummy, chain, k)
        invariant n == |chain| - 1 - k && (k >= 0 ==> ptr != dummy)
        decreases k
      {
        assert At(k);
        n := n + 1;
        ptr := blocksMap[ptr].parentHash;
        k := k - 1;
        assert k >= 0 ==> At(k);
      }
    }

    /** Whether a transaction is in the chain, and how many blocks come after the newest one that holds it. */
    method HasTxn(handle: string) returns (has: bool, after: int)
      requires Valid()
      ensures has <==> exists i :: 0 <= i < |chain| && handle in chain[i].txns
      ensures has ==> 0 <= after < |chain| && handle in chain[|chain| - 1 - after].txns
      ensures has ==> forall i :: |chain| - 1 - after < i < |chain| ==> handle !in chain[i].txns
      ensures !has ==> after == -1
    {
      after := 0;
      assert At(|chain| - 1);
      for i := 0 to |ends|
        invariant i == 1 ==> handle !in ends[0].txns
      {
        if handle in ends[i].txns {
          return true, 0;
        }
      }
      var ptr := ends[0].parentHash;
      ghost var k := |chain| - 2;
      assert k >= 0 ==> At(k);
      while ptr != dummy
        invariant -1 <= k < |chain| - 1 && ptr == LinkTo(hash, dummy, chain, k) && after == |chain| - 2 - k
        invariant k >= 0 ==> ptr != dummy
        invariant forall i :: k < i < |chain| ==> handle !in chain[i].txns
        decreases k
      {
        assert At(k);
        after := after + 1;
        var b := blocksMap[ptr];
        if handle in b.txns {
          return true, after;
        }
        ptr := b.parentHash;
        k := k - 1;
        assert k >= 0 ==> At(k);
      }
      has, after := false, -1;
    }

    /** Whether a block could be appended; if so, the block it stands on. */
    method TryAppend(block: Block) returns (r: Appended, parent: Block)
      requires Valid()
      ensures r == Added <==> block.number == |chain| && block.parentHash == hash(chain[|chain| - 1])
      ensures r == Added ==> parent == chain[|chain| - 1]
      ensures r == TooNew <==> block.number > |chain|
      ensures r != Panics
    {
      parent := block;
      assert At(|chain| - 1);
      var endsNumber := ends[0].number;
      if block.number - endsNumber >= 2 {
        return TooNew, parent;
      }
      if block.number - endsNumber <= 0 {
        return Refused, parent;
      }
      for i := 0 to |ends|
        invariant i == 1 ==> hash(ends[0]) != block.parentHash
      {
        if hash(ends[i]) == block.parentHash {
          if block.number != endsNumber + 1 {
            return Panics, parent;
          }
          return Added, ends[i];
        }
      }
      r := Refused;
    }

    /**
      Appends a block that stands on the end. A block that names the end as its parent and has an
      old number makes the program panic.
     */
    method Append(block: Block) returns (r: Appended)
      requires Valid() && OwnHash(hash, dummy, chain, block)
      modifies this
      ensures Valid()
      ensures r == Added <==> block.number == |old(chain)| && block.parentHash == hash(old(chain)[|old(chain)| - 1])
      ensures chain == if r == Added then old(chain) + [block] else old(chain)
      ensures r == TooNew <==> block.number > |old(chain)|
      ensures r == Panics <==>
                block.number < |old(chain)| && block.parentHash == hash(old(chain)[|old(chain)| - 1])
    {
      assert At(|chain| - 1);
      var endsNumber := ends[0].number;
      if block.number - endsNumber >= 2 {
        return TooNew;
      }
      for i := 0 to |ends|
        invariant ends == old(ends) && chain == old(chain) && Valid()
        invariant i == 1 ==> hash(ends[0]) != block.parentHash
      {
        if hash(ends[i]) == block.parentHash {
          if block.number != endsNumber + 1 {
            return Panics;
          }
          ExtendKeepsChain(hash, dummy, chain, blocksMap, block);
          ends := [];
          ends := ends + [block];
          blocksMap := blocksMap[hash(block) := block];
          chain := chain + [block];
          return Added;
        }
      }
      r := Refused;
    }
  }
}
