/** Blocks, src/block. */
module Blocks {
  import opened Prelude

  datatype Content =
    | Proposer(transactionRefs: seq<Hash>, proposerRefs: seq<Hash>)
    | Voter(chainNumber: nat, voterParent: Hash, votes: seq<Hash>)
    | Transaction(transactions: seq<nat>)

  datatype Header = Header(parent: Hash, timestamp: nat, nonce: nat, contentMerkleRoot: Hash, extraContent: nat, difficulty: nat)

  /** `hash` is the hash of the header, carried along. */
  datatype Block = Block(hash: Hash, header: Header, content: Content, sortitionProof: seq<Hash>)
}
