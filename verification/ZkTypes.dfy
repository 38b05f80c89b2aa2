// What the escrow and the proof verifier exchange.
module ZkTypes {
  import opened Basics

  type Point = (Word, Word)

  type TwistPoint = (Word, Word, Word, Word)

  /** The eight words of a Groth16 proof, in calldata order. */
  datatype Proof = Proof(a: Point, b: TwistPoint, c: Point)

  /** The public signals [nullifier, commitment, escrowId]. */
  datatype Signals = Signals(nullifier: Word, commitment: Word, escrowId: Word)

  /** verifyProof is a view: an oracle that cannot write back. */
  type Verifier = (Proof, Signals) -> bool
}
