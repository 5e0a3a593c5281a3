/** Block identifiers and blocks (libraries/chain/protocol/block.cpp). */
module Blocks {
  /** A block id carries the block number in its first word; the rest is a hash. */
  datatype BlockId = BlockId(num: nat, hash: nat)

  const NO_BLOCK := BlockId(0, 0)

  datatype Transaction = Transaction(id: nat, expiration: nat)

  /** `digest` stands for the hash of the signed header. */
  datatype Block = Block(previous: BlockId, digest: nat, transactions: seq<Transaction>)
  {
    function Num(): nat {
      previous.num + 1
    }

    function Id(): BlockId {
      BlockId(Num(), digest)
    }
  }
}
