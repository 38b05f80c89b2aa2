// The generated Groth16 verifier: a program over hand-laid EVM memory with an
// accumulator, a pairing buffer, scratch space past the free pointer and early
// returns, proved to compute a check stated without any memory.
module Groth16Verifier {
  import opened Basics
  import opened Wrappers
  import opened ZkTypes

  /** The contracts at addresses 6, 7 and 8; None is a failed call. */
  datatype Precompiles = Precompiles(
    ecAdd: (Point, Point) -> Option<Point>,
    ecMul: (Point, Word) -> Option<Point>,
    ecPairing: seq<Word> -> Option<bool>)

  /** The field sizes and the verification key. */
  datatype Key = Key(
    r: Word, q: Word,
    alpha: Point, beta: TwistPoint, gamma: TwistPoint, delta: TwistPoint,
    ic0: Point, ic1: Point, ic2: Point, ic3: Point)

  /** The key generated for the delivery circuit. */
  const DELIVERY_KEY: Key := Key(
    21888242871839275222246405745257275088548364400416034343698204186575808495617,
    21888242871839275222246405745257275088696311157297823662689037894645226208583,
    (8817440642599574970633606926885552105958010653635419021701567441296906169987,
     929263384480068740219614392768450597268604948969814724241240179593566202117),
    (4969770372528373100639699650009680551606254753497341723815962762399269322766,
     21469788382853262074205065784665346025593987949146715002235551660556062105305,
     20830668839172427094662721073921181695136312172738802690678330371794212288836,
     16058010524238310837448465802738055614852132911394347895356631141565130199473),
    (11559732032986387107991004021392285783925812861821192530917403151452391805634,
     10857046999023057135944570762232829481370756359578518086990519993285655852781,
     4082367875863433681332203403145435568316851327593401208105741076214120093531,
     8495653923123431417604973247489272438418190587263600148770280649306958101930),
    (19655529488221341869832259092125810169908666689174631640559965296025939436833,
     585651160122807118367059818850217415744016898227552041728967382206644371384,
     15886626870311446001180924274105583844570308910916691661491922270358247434638,
     15309492917989216114892648742211586864695304712821085862294189766307637002243),
    (15897752995633862554025253594128894421438346412376007187019208323490071833808,
     10221516426142764058838556108738724912681765088377997786751660483297540662019),
    (11078937191667065700516010109009347897143529207722918825618292945763006921382,
     20995151120142825726407639114470870979771329129902787284996931086571053122884),
    (3598104952573823684076522975093814564065654231702911010414320319701687449854,
     12449863883913143356174671433089405566846267441809582044833496612921980026199),
    (21718979296708504357309673095778801728206761119176327076590049523146022299865,
     8510879713581638833728935591717864479221666358002549504295401086923939288416))

  // ---- The check, without memory ------------------------------------------

  /** EVM subtraction and reduction: wraps when y exceeds q. */
  function Negate(q: Word, y: Word): Word
    requires q > 0
  {
    (if y <= q then q - y else TWO_256 + q - y) % q
  }

  function MulAcc(pre: Precompiles, acc: Option<Point>, p: Point, k: Word): Option<Point> {
    if acc.None? then None else
      match pre.ecMul(p, k)
      case None => None
      case Some(m) => pre.ecAdd(m, acc.value)
  }

  function LinearCombination(pre: Precompiles, vk: Key, s: Signals): Option<Point> {
    MulAcc(pre, MulAcc(pre, MulAcc(pre, Some(vk.ic0), vk.ic1, s.nullifier), vk.ic2, s.commitment), vk.ic3, s.escrowId)
  }

  function Words1(p: Point): seq<Word> { [p.0, p.1] }

  function Words2(p: TwistPoint): seq<Word> { [p.0, p.1, p.2, p.3] }

  function PairingInput(vk: Key, proof: Proof, x: Point): seq<Word>
    requires vk.q > 0
  {
    Words1((proof.a.0, Negate(vk.q, proof.a.1))) + Words2(proof.b) + Words1(vk.alpha) + Words2(vk.beta)
    + Words1(x) + Words2(vk.gamma) + Words1(proof.c) + Words2(vk.delta)
  }

  predicate InField(vk: Key, s: Signals) {
    s.nullifier < vk.r && s.commitment < vk.r && s.escrowId < vk.r
  }

  predicate Accepts(pre: Precompiles, vk: Key, proof: Proof, s: Signals)
    requires vk.q > 0
  {
    && InField(vk, s)
    && var x := LinearCombination(pre, vk, s);
    && x.Some?
    && pre.ecPairing(PairingInput(vk, proof, x.value)) == Some(true)
  }

  // ---- The program --------------------------------------------------------

  const FREE_POINTER: nat := 0x40
  const P_PAIRING: nat := 128
  const P_LAST_MEM: nat := 896

  /** n words of memory from address p. */
  function Slice(mem: map<nat, Word>, p: nat, n: nat): (s: seq<Word>)
    ensures |s| == n && forall i | 0 <= i < n :: s[i] == Peek(mem, p + 32 * i)
  {
    seq(n, i requires 0 <= i < n => Peek(mem, p + 32 * i))
  }

  function Peek(mem: map<nat, Word>, p: nat): Word {
    if p in mem then mem[p] else 0
  }

  class Evm {
    const pre: Precompiles
    var mem: map<nat, Word>   // by byte address; every access is word-aligned

    constructor (pre: Precompiles, mem: map<nat, Word>)
      ensures this.pre == pre && this.mem == mem
    {
      this.pre, this.mem := pre, mem;
    }

    function Mload(p: nat): Word
      requires p % 32 == 0
      reads this
    {
      Peek(mem, p)
    }

    method Mstore(p: nat, x: Word)
      requires p % 32 == 0
      modifies this
      ensures mem == old(mem)[p := x]
    {
      mem := mem[p := x];
    }

    method StaticcallMul(input: nat, output: nat) returns (success: bool)
      requires input % 32 == 0 && output % 32 == 0
      modifies this
      ensures var out := pre.ecMul((old(Mload(input)), old(Mload(input + 32))), old(Mload(input + 64)));
              && success == out.Some?
              && mem == if out.Some? then old(mem)[output := out.value.0][output + 32 := out.value.1] else old(mem)
    {
      var out := pre.ecMul((Mload(input), Mload(input + 32)), Mload(input + 64));
      success := out.Some?;
      if success {
        Mstore(output, out.value.0);
        Mstore(output + 32, out.value.1);
      }
    }

    method StaticcallAdd(input: nat, output: nat) returns (success: bool)
      requires input % 32 == 0 && output % 32 == 0
      modifies this
      ensures var out := pre.ecAdd((old(Mload(input)), old(Mload(input + 32))), (old(Mload(input + 64)), old(Mload(input + 96))));
              && success == out.Some?
              && mem == if out.Some? then old(mem)[output := out.value.0][output + 32 := out.value.1] else old(mem)
    {
      var out := pre.ecAdd((Mload(input), Mload(input + 32)), (Mload(input + 64), Mload(input + 96)));
      success := out.Some?;
      if success {
        Mstore(output, out.value.0);
        Mstore(output + 32, out.value.1);
      }
    }

    method StaticcallPairing(input: nat, words: nat, output: nat) returns (success: bool)
      requires input % 32 == 0 && output % 32 == 0
      modifies this
      ensures var out := pre.ecPairing(Slice(old(mem), input, words));
              && success == out.Some?
              && mem == if out.Some? then old(mem)[output := if out.value then 1 else 0] else old(mem)
    {
      var out := pre.ecPairing(Slice(mem, input, words));
      success := out.Some?;
      if success {
        Mstore(output, if out.value then 1 else 0);
      }
    }

    /** Returns zero to the caller of the contract when v is out of range. */
    method CheckField(vk: Key, v: Word) returns (halted: bool)
      modifies this
      ensures halted == (v >= vk.r)
      ensures mem == if halted then old(mem)[0 := 0] else old(mem)
    {
      halted := !(v < vk.r);
      if halted { Mstore(0, 0); }
    }

    /** First half of g1_mulAccC: the product, at mIn. */
    method ScratchMul(mIn: nat, x: Word, y: Word, s: Word) returns (halted: bool)
      requires mIn % 32 == 0 && mIn > 0
      modifies this
      ensures var m := pre.ecMul((x, y), s);
              && halted == m.None?
              && (!halted ==> Peek(mem, mIn) == m.value.0 && Peek(mem, mIn + 32) == m.value.1)
              && (halted ==> Mload(0) == 0)
      ensures forall a | 0 < a < mIn :: Peek(mem, a) == Peek(old(mem), a)
    {
      Mstore(mIn, x);
      Mstore(mIn + 32, y);
      Mstore(mIn + 64, s);
      var success := StaticcallMul(mIn, mIn);
      if !success { Mstore(0, 0); }
      halted := !success;
    }

    /** Second half: the product added to the point at pR, in place. */
    method ScratchAdd(mIn: nat, pR: nat) returns (halted: bool)
      requires mIn % 32 == 0 && pR % 32 == 0 && 0 < pR && pR + 64 <= mIn
      modifies this
      ensures var sum := pre.ecAdd((old(Mload(mIn)), old(Mload(mIn + 32))), (old(Mload(pR)), old(Mload(pR + 32))));
              && halted == sum.None?
              && (!halted ==> Peek(mem, pR) == sum.value.0 && Peek(mem, pR + 32) == sum.value.1)
              && (halted ==> Mload(0) == 0)
      ensures forall a | 0 < a < mIn && a != pR && a != pR + 32 :: Peek(mem, a) == Peek(old(mem), a)
    {
      Mstore(mIn + 64, Mload(pR));
      Mstore(mIn + 96, Mload(pR + 32));
      var success := StaticcallAdd(mIn, pR);
      if !success { Mstore(0, 0); }
      halted := !success;
    }

    /** Adds s times (x, y) to the point at pR, working past the free pointer. */
    method G1MulAccC(pR: nat, x: Word, y: Word, s: Word) returns (halted: bool)
      requires pR % 32 == 0 && Mload(FREE_POINTER) % 32 == 0
      requires FREE_POINTER < pR && pR + 64 <= Mload(FREE_POINTER)
      modifies this
      ensures var sum := MulAcc(pre, Some((old(Mload(pR)), old(Mload(pR + 32)))), (x, y), s);
              && halted == sum.None?
              && (!halted ==> sum == Some((Mload(pR), Mload(pR + 32))))
              && (halted ==> Mload(0) == 0)
      ensures Mload(FREE_POINTER) == old(Mload(FREE_POINTER))
    {
      var mIn: nat := Mload(FREE_POINTER);
      halted := ScratchMul(mIn, x, y, s);
      if halted { return; }
      halted := ScratchAdd(mIn, pR);
    }

    method StorePoint(p: nat, x: Word, y: Word)
      requires p % 32 == 0
      modifies this
      ensures Slice(mem, p, 2) == Words1((x, y)) && mem == old(mem)[p := x][p + 32 := y]
    {
      Mstore(p, x);
      Mstore(p + 32, y);
    }

    method StoreTwistPoint(p: nat, t: TwistPoint)
      requires p % 32 == 0
      modifies this
      ensures Slice(mem, p, 4) == Words2(t)
      ensures forall a: nat | a < p :: Peek(mem, a) == Peek(old(mem), a)
    {
      Mstore(p, t.0);
      Mstore(p + 32, t.1);
      Mstore(p + 64, t.2);
      Mstore(p + 96, t.3);
    }

    /** Lays one pair behind the n words already in the buffer at base. */
    method StorePair(base: nat, n: nat, x: Word, y: Word, t: TwistPoint)
      requires base % 32 == 0
      modifies this
      ensures Slice(mem, base, n + 6) == Slice(old(mem), base, n) + Words1((x, y)) + Words2(t)
      ensures forall a: nat | a < base :: Peek(mem, a) == Peek(old(mem), a)
    {
      var p := base + 32 * n;
      StorePoint(p, x, y);
      StoreTwistPoint(p + 64, t);
      SliceKept(old(mem), mem, base, n);
      SliceSplit(mem, base, n, 6);
      SliceSplit(mem, p, 2, 4);
    }

    /** Lays out the four pairs for the pairing precompile. */
    method LayOutPairs(vk: Key, proof: Proof, pMem: nat)
      requires vk.q > 0 && pMem % 32 == 0
      modifies this
      ensures Slice(mem, pMem + P_PAIRING, 24) == PairingInput(vk, proof, (old(Mload(pMem)), old(Mload(pMem + 32))))
    {
      var p := pMem + P_PAIRING;
      StorePair(p, 0, proof.a.0, Negate(vk.q, proof.a.1), proof.b);
      StorePair(p, 6, vk.alpha.0, vk.alpha.1, vk.beta);
      StorePair(p, 12, Mload(pMem), Mload(pMem + 32), vk.gamma);
      StorePair(p, 18, proof.c.0, proof.c.1, vk.delta);
    }

    method CheckPairing(vk: Key, proof: Proof, s: Signals, pMem: nat) returns (halted: bool, isOk: Word)
      requires vk.q > 0 && pMem % 32 == 0 && FREE_POINTER < pMem && Mload(FREE_POINTER) == pMem + P_LAST_MEM
      modifies this
      ensures halted ==> LinearCombination(pre, vk, s).None? && Mload(0) == 0
      ensures !halted ==>
                var x := LinearCombination(pre, vk, s);
                x.Some? && isOk == if pre.ecPairing(PairingInput(vk, proof, x.value)) == Some(true) then 1 else 0
    {
      hide PairingInput, Negate;
      isOk := 0;
      StorePoint(pMem, vk.ic0.0, vk.ic0.1);
      halted := G1MulAccC(pMem, vk.ic1.0, vk.ic1.1, s.nullifier);
      if halted { return; }
      halted := G1MulAccC(pMem, vk.ic2.0, vk.ic2.1, s.commitment);
      if halted { return; }
      halted := G1MulAccC(pMem, vk.ic3.0, vk.ic3.1, s.escrowId);
      if halted { return; }
      LayOutPairs(vk, proof, pMem);
      var success := StaticcallPairing(pMem + P_PAIRING, 24, pMem + P_PAIRING);
      isOk := if success then Mload(pMem + P_PAIRING) % 2 else 0;
    }

    /** The contract's entry point; what it returns is the word left at zero. */
    method VerifyProof(vk: Key, proof: Proof, s: Signals) returns (valid: bool)
      requires vk.q > 0
      requires Mload(FREE_POINTER) % 32 == 0 && FREE_POINTER < Mload(FREE_POINTER)
      requires Mload(FREE_POINTER) + P_LAST_MEM + 128 < TWO_256
      modifies this
      ensures valid == Accepts(pre, vk, proof, s)
    {
      var pMem := Mload(FREE_POINTER);
      Mstore(FREE_POINTER, pMem + P_LAST_MEM);
      var halted := CheckField(vk, s.nullifier);
      if halted { return Mload(0) != 0; }
      halted := CheckField(vk, s.commitment);
      if halted { return Mload(0) != 0; }
      halted := CheckField(vk, s.escrowId);
      if halted { return Mload(0) != 0; }
      var isValid;
      halted, isValid := CheckPairing(vk, proof, s, pMem);
      if halted { return Mload(0) != 0; }
      Mstore(0, isValid);
      valid := Mload(0) != 0;
    }
  }

  lemma SliceKept(mem: map<nat, Word>, mem': map<nat, Word>, p: nat, n: nat)
    requires forall a | p <= a < p + 32 * n :: Peek(mem', a) == Peek(mem, a)
    ensures Slice(mem', p, n) == Slice(mem, p, n)
  {}

  lemma SliceSplit(mem: map<nat, Word>, p: nat, n: nat, m: nat)
    ensures Slice(mem, p, n + m) == Slice(mem, p, n) + Slice(mem, p + 32 * n, m)
  {}
}
