// What the memory-free check means once the precompiles are read as EIP-196 and
// EIP-197 describe them, over abstract groups: the Groth16 equation.
module PairingAlgebra {
  import opened Basics
  import opened Wrappers
  import opened ZkTypes
  import opened Groth16Verifier

  /** Source groups, target group, pairing, and how points are written as words. */
  datatype Groups<!G1, !G2, !GT> = Groups(
    add: (G1, G1) -> G1, neg: G1 -> G1, zero: G1, mul: (nat, G1) -> G1,
    times: (GT, GT) -> GT, one: GT,
    e: (G1, G2) -> GT,
    read1: Point -> Option<G1>, write1: G1 -> Point,
    read2: TwistPoint -> Option<G2>)

  // The laws are stated pointwise, so that a proof says which instances it uses.

  ghost predicate Associates<G1, G2, GT>(g: Groups<G1, G2, GT>, a: GT, b: GT, c: GT) {
    g.times(g.times(a, b), c) == g.times(a, g.times(b, c))
  }

  ghost predicate Commutes<G1, G2, GT>(g: Groups<G1, G2, GT>, a: GT, b: GT) {
    g.times(a, b) == g.times(b, a) && g.times(a, g.one) == a
  }

  ghost predicate Cancels<G1, G2, GT>(g: Groups<G1, G2, GT>, p: G1, y: G2) {
    g.add(p, g.neg(p)) == g.zero && g.e(g.zero, y) == g.one
  }

  ghost predicate LinearAt<G1, G2, GT>(g: Groups<G1, G2, GT>, p: G1, p': G1, y: G2) {
    g.e(g.add(p, p'), y) == g.times(g.e(p, y), g.e(p', y))
  }

  ghost predicate WritesBack<G1, G2, GT>(g: Groups<G1, G2, GT>, p: G1) {
    g.read1(g.write1(p)) == Some(p)
  }

  /** The target group is commutative, the pairing linear on the left, and a
      written point reads back. */
  ghost predicate Lawful<G1(!new), G2(!new), GT(!new)>(g: Groups<G1, G2, GT>) {
    && (forall a, b, c :: Associates(g, a, b, c))
    && (forall a, b :: Commutes(g, a, b))
    && (forall p, y :: Cancels(g, p, y))
    && (forall p, p', y :: LinearAt(g, p, p', y))
    && (forall p :: WritesBack(g, p))
  }

  ghost predicate NegatesAt<G1, G2, GT>(g: Groups<G1, G2, GT>, q: Word, p: Point)
    requires q > 0
  {
    p.1 < q ==>
      g.read1((p.0, if p.1 == 0 then 0 else q - p.1)) == match g.read1(p) case None => None case Some(a) => Some(g.neg(a))
  }

  /** Negating the y word of a reduced encoding negates the point. */
  ghost predicate ReadsNegation<G1(!new), G2(!new), GT(!new)>(g: Groups<G1, G2, GT>, q: Word)
    requires q > 0
  {
    forall p: Point :: NegatesAt(g, q, p)
  }

  function PairAt<G1, G2, GT>(g: Groups<G1, G2, GT>, w: seq<Word>, i: nat): Option<GT>
    requires i + 6 <= |w|
  {
    var p := g.read1((w[i], w[i + 1]));
    var t := g.read2((w[i + 2], w[i + 3], w[i + 4], w[i + 5]));
    if p.None? || t.None? then None else Some(g.e(p.value, t.value))
  }

  function Both<GT>(times: (GT, GT) -> GT, a: Option<GT>, b: Option<GT>): Option<GT> {
    if a.None? || b.None? then None else Some(times(a.value, b.value))
  }

  function Product<G1, G2, GT>(g: Groups<G1, G2, GT>, w: seq<Word>): Option<GT>
    requires |w| == 24
  {
    Both(g.times, PairAt(g, w, 0), Both(g.times, PairAt(g, w, 6), Both(g.times, PairAt(g, w, 12), PairAt(g, w, 18))))
  }

  ghost predicate MulAt<G1, G2, GT>(g: Groups<G1, G2, GT>, pre: Precompiles, p: Point, k: Word) {
    pre.ecMul(p, k) == match g.read1(p) case None => None case Some(a) => Some(g.write1(g.mul(k, a)))
  }

  ghost predicate AddAt<G1, G2, GT>(g: Groups<G1, G2, GT>, pre: Precompiles, p: Point, p': Point) {
    pre.ecAdd(p, p') ==
      if g.read1(p).None? || g.read1(p').None? then None
      else Some(g.write1(g.add(g.read1(p).value, g.read1(p').value)))
  }

  ghost predicate PairingAt<G1, G2, GT>(g: Groups<G1, G2, GT>, pre: Precompiles, w: seq<Word>) {
    |w| == 24 ==>
      && pre.ecPairing(w).Some? == Product(g, w).Some?
      && (Product(g, w).Some? ==> (pre.ecPairing(w).value <==> Product(g, w).value == g.one))
  }

  /** The "Specification" sections of EIP-196 and of EIP-197, for four pairs. */
  ghost predicate Implements<G1(!new), G2(!new), GT(!new)>(g: Groups<G1, G2, GT>, pre: Precompiles) {
    && (forall p: Point, k: Word :: MulAt(g, pre, p, k))
    && (forall p: Point, p': Point :: AddAt(g, pre, p, p'))
    && (forall w: seq<Word> :: PairingAt(g, pre, w))
  }

  ghost predicate KeyReads<G1, G2, GT>(g: Groups<G1, G2, GT>, vk: Key) {
    && g.read1(vk.alpha).Some? && g.read2(vk.beta).Some? && g.read2(vk.gamma).Some? && g.read2(vk.delta).Some?
    && g.read1(vk.ic0).Some? && g.read1(vk.ic1).Some? && g.read1(vk.ic2).Some? && g.read1(vk.ic3).Some?
  }

  /** n IC1 + c IC2 + id IC3 + IC0, associated as the program adds it. */
  function PublicPoint<G1, G2, GT>(g: Groups<G1, G2, GT>, vk: Key, s: Signals): G1
    requires g.read1(vk.ic0).Some? && g.read1(vk.ic1).Some? && g.read1(vk.ic2).Some? && g.read1(vk.ic3).Some?
  {
    g.add(g.mul(s.escrowId, g.read1(vk.ic3).value),
      g.add(g.mul(s.commitment, g.read1(vk.ic2).value),
        g.add(g.mul(s.nullifier, g.read1(vk.ic1).value), g.read1(vk.ic0).value)))
  }

  /** e(alpha, beta) e(x, gamma) e(C, delta) */
  ghost function RightHandSide<G1, G2, GT>(g: Groups<G1, G2, GT>, vk: Key, x: G1, c: G1): GT
    requires KeyReads(g, vk)
  {
    g.times(g.e(g.read1(vk.alpha).value, g.read2(vk.beta).value),
      g.times(g.e(x, g.read2(vk.gamma).value), g.e(c, g.read2(vk.delta).value)))
  }

  /** The proof's points are well formed and e(A, B) is the right-hand side. */
  ghost predicate Groth16Equation<G1, G2, GT>(g: Groups<G1, G2, GT>, vk: Key, proof: Proof, s: Signals)
    requires KeyReads(g, vk)
  {
    var a, b, c := g.read1(proof.a), g.read2(proof.b), g.read1(proof.c);
    && a.Some? && b.Some? && c.Some?
    && g.e(a.value, b.value) == RightHandSide(g, vk, PublicPoint(g, vk, s), c.value)
  }

  lemma MulAccAdds<G1(!new), G2(!new), GT(!new)>(g: Groups<G1, G2, GT>, pre: Precompiles, acc: Point, p: Point, k: Word)
    requires Lawful(g) && Implements(g, pre) && g.read1(acc).Some? && g.read1(p).Some?
    ensures var sum := g.add(g.mul(k, g.read1(p).value), g.read1(acc).value);
            MulAcc(pre, Some(acc), p, k) == Some(g.write1(sum)) && g.read1(g.write1(sum)) == Some(sum)
  {
    var m := g.mul(k, g.read1(p).value);
    assert MulAt(g, pre, p, k) && WritesBack(g, m) && AddAt(g, pre, g.write1(m), acc);
    assert WritesBack(g, g.add(m, g.read1(acc).value));
  }

  lemma CombinationIsPublicPoint<G1(!new), G2(!new), GT(!new)>(g: Groups<G1, G2, GT>, pre: Precompiles, vk: Key, s: Signals)
    requires Lawful(g) && Implements(g, pre) && KeyReads(g, vk)
    ensures LinearCombination(pre, vk, s) == Some(g.write1(PublicPoint(g, vk, s)))
    ensures g.read1(g.write1(PublicPoint(g, vk, s))) == Some(PublicPoint(g, vk, s))
  {
    MulAccAdds(g, pre, vk.ic0, vk.ic1, s.nullifier);
    var x1 := MulAcc(pre, Some(vk.ic0), vk.ic1, s.nullifier).value;
    MulAccAdds(g, pre, x1, vk.ic2, s.commitment);
    var x2 := MulAcc(pre, Some(x1), vk.ic2, s.commitment).value;
    MulAccAdds(g, pre, x2, vk.ic3, s.escrowId);
  }

  /** Moving one factor across an equation in the target group. */
  lemma InverseAcross<G1(!new), G2(!new), GT(!new)>(g: Groups<G1, G2, GT>, p: G1, y: G2, rest: GT)
    requires Lawful(g)
    ensures g.times(g.e(g.neg(p), y), rest) == g.one <==> g.e(p, y) == rest
  {
    var x, x' := g.e(p, y), g.e(g.neg(p), y);
    assert Cancels(g, p, y) && LinearAt(g, p, g.neg(p), y);
    assert Associates(g, x, x', rest) && Commutes(g, x, x') && Commutes(g, x, g.one);
    assert Commutes(g, g.one, rest) && Commutes(g, rest, g.one);
  }

  /** With the proof's A.y reduced, the check is the Groth16 equation together
      with the range checks on the three signals. */
  lemma AcceptsIsGroth16<G1(!new), G2(!new), GT(!new)>(g: Groups<G1, G2, GT>, pre: Precompiles, vk: Key, proof: Proof, s: Signals)
    requires vk.q > 0 && proof.a.1 < vk.q
    requires Lawful(g) && ReadsNegation(g, vk.q) && Implements(g, pre) && KeyReads(g, vk)
    ensures Accepts(pre, vk, proof, s) <==>
              s.nullifier < vk.r && s.commitment < vk.r && s.escrowId < vk.r && Groth16Equation(g, vk, proof, s)
  {
    CombinationIsPublicPoint(g, pre, vk, s);
    var x := PublicPoint(g, vk, s);
    var w := PairingInput(vk, proof, g.write1(x));
    ReducedNegation(vk.q, proof.a.1);
    assert PairingAt(g, pre, w) && NegatesAt(g, vk.q, proof.a);
    ProductOfFourPairs(g, vk, proof, x);
    var a, b, c := g.read1(proof.a), g.read2(proof.b), g.read1(proof.c);
    if a.Some? && b.Some? && c.Some? {
      InverseAcross(g, a.value, b.value, RightHandSide(g, vk, x, c.value));
    }
  }

  lemma ProductOfFourPairs<G1, G2, GT>(g: Groups<G1, G2, GT>, vk: Key, proof: Proof, x: G1)
    requires vk.q > 0 && KeyReads(g, vk) && g.read1(g.write1(x)) == Some(x)
    ensures var w := PairingInput(vk, proof, g.write1(x));
            var a', b, c := g.read1((proof.a.0, Negate(vk.q, proof.a.1))), g.read2(proof.b), g.read1(proof.c);
            Product(g, w) ==
              if a'.None? || b.None? || c.None? then None
              else Some(g.times(g.e(a'.value, b.value), RightHandSide(g, vk, x, c.value)))
  {
    PairingInputReads(g, vk, proof, g.write1(x));
  }

  /** The pairs the precompile reads out of the 24 words are the eight points. */
  lemma PairingInputReads<G1, G2, GT>(g: Groups<G1, G2, GT>, vk: Key, proof: Proof, x: Point)
    requires vk.q > 0
    ensures var w := PairingInput(vk, proof, x);
            && |w| == 24
            && (w[0], w[1]) == (proof.a.0, Negate(vk.q, proof.a.1)) && (w[2], w[3], w[4], w[5]) == proof.b
            && (w[6], w[7]) == vk.alpha && (w[8], w[9], w[10], w[11]) == vk.beta
            && (w[12], w[13]) == x && (w[14], w[15], w[16], w[17]) == vk.gamma
            && (w[18], w[19]) == proof.c && (w[20], w[21], w[22], w[23]) == vk.delta
  {}

  /** A.y is never range-checked: every proof is judged as if its A.y were the
      reduced word with the same negation. */
  lemma JudgedByReducedY(pre: Precompiles, vk: Key, proof: Proof, s: Signals)
    requires vk.q > 0
    ensures var y := Negate(vk.q, Negate(vk.q, proof.a.1));
            y < vk.q && Accepts(pre, vk, proof, s) == Accepts(pre, vk, proof.(a := (proof.a.0, y)), s)
    ensures proof.a.1 < vk.q ==> Negate(vk.q, Negate(vk.q, proof.a.1)) == proof.a.1
  {
    NegateTwice(vk.q, proof.a.1);
  }

  /** What the verifier decides for every proof, reduced or not. */
  lemma AcceptsReducedGroth16<G1(!new), G2(!new), GT(!new)>(g: Groups<G1, G2, GT>, pre: Precompiles, vk: Key, proof: Proof, s: Signals)
    requires vk.q > 0
    requires Lawful(g) && ReadsNegation(g, vk.q) && Implements(g, pre) && KeyReads(g, vk)
    ensures var y := Negate(vk.q, Negate(vk.q, proof.a.1));
            Accepts(pre, vk, proof, s) <==>
              && s.nullifier < vk.r && s.commitment < vk.r && s.escrowId < vk.r
              && Groth16Equation(g, vk, proof.(a := (proof.a.0, y)), s)
  {
    hide Lawful, Implements, Groth16Equation, Accepts, ReadsNegation;
    JudgedByReducedY(pre, vk, proof, s);
    AcceptsIsGroth16(g, pre, vk, proof.(a := (proof.a.0, Negate(vk.q, Negate(vk.q, proof.a.1)))), s);
  }

  lemma NegateTwice(q: Word, y: Word)
    requires q > 0
    ensures Negate(q, Negate(q, Negate(q, y))) == Negate(q, y) < q
    ensures y < q ==> Negate(q, Negate(q, y)) == y
  {
    var n := Negate(q, y);
    ReducedNegation(q, n);
    ReducedNegation(q, Negate(q, n));
    if y < q { ReducedNegation(q, y); }
  }

  /** The negation is the EVM's: subtraction modulo 2^256, then modulo q. */
  lemma NegationIsEvm(q: Word, y: Word)
    requires q > 0
    ensures Negate(q, y) == ((q - y) % TWO_256) % q
  {
    var d := if y <= q then q - y else TWO_256 + q - y;
    assert Negate(q, y) == d % q && 0 <= d < TWO_256;
    assert (q - y) % TWO_256 == d by { WrapsOnce(q - y, d, TWO_256); }
  }

  lemma WrapsOnce(x: int, d: nat, m: nat)
    requires d < m && (x == d || x + m == d)
    ensures x % m == d
  {}

  lemma ReducedNegation(q: Word, y: Word)
    requires 0 < q && y < q
    ensures Negate(q, y) == if y == 0 then 0 else q - y
  {
    assert Negate(q, y) == (q - y) % q;
    hide *;
    if y > 0 { SmallMod(q - y, q); } else { SelfMod(q); }
  }

  lemma SmallMod(x: nat, q: nat)
    requires x < q
    ensures x % q == x
  {}

  lemma SelfMod(q: nat)
    requires q > 0
    ensures q % q == 0
  {}
}
