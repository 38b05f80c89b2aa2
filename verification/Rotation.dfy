// EscrowUpgradeableV2 adds nothing that was out of reach before: whatever
// storage a run with rotations leaves behind, a V1 run without them leaves
// behind too, if each escrow names its last arbiter from the start.
module Rotation {
  import opened Basics
  import opened ZkTypes
  import opened EscrowMachine
  import opened CallTree
  import opened Solvency
  import opened Lifecycle

  function LastArbiters(w: World): (s: seq<Address>)
    ensures |s| == |w.escrows| && forall i | 0 <= i < |s| :: s[i] == w.escrows[i].arbiter
  {
    seq(|w.escrows|, i requires 0 <= i < |w.escrows| => w.escrows[i].arbiter)
  }

  /** What the V1 run does in place of one step of the V2 run. */
  function Instead(v: Verifier, w: World, tx: Tx, last: seq<Address>): seq<Tx> {
    if Step(v, w, tx.sender, tx.op).Err? || tx.op.SetArbiter? || tx.op.UpgradeTo? then []
    else if tx.op.CreateEscrow? && |w.escrows| < |last| then [tx.(op := tx.op.(arbiter := last[|w.escrows|]))]
    else [tx]
  }

  function WithoutRotation(v: Verifier, w: World, txs: seq<Tx>, last: seq<Address>): seq<Tx> {
    if txs == [] then [] else
      var n := |txs| - 1;
      WithoutRotation(v, w, txs[..n], last) + Instead(v, Run(v, w, txs[..n]), txs[n], last)
  }

  /** z is w with every escrow already under its last arbiter. */
  ghost predicate Mirrors(w: World, z: World, last: seq<Address>) {
    && |z.escrows| == |w.escrows| <= |last|
    && (forall i | 0 <= i < |w.escrows| :: z.escrows[i] == w.escrows[i].(arbiter := last[i]))
    && SameBooks(w, z)
  }

  ghost predicate SameBooks(w: World, z: World) {
    z.pending == w.pending && z.total == w.total && z.spent == w.spent
    && z.balance == w.balance && z.wealth == w.wealth && z.forced == w.forced && z.owner == w.owner
  }

  /** Everything but the log and the implementation address. */
  ghost predicate SameStorage(w: World, z: World) {
    z.escrows == w.escrows && SameBooks(w, z)
  }

  lemma SettleMirrors(w: World, z: World, last: seq<Address>, id: nat, outcome: State, payee: Address, closing: Event, closing': Event)
    requires Mirrors(w, z, last) && id < |w.escrows| && Settle(w, id, outcome, payee, closing).Ok?
    ensures var r := Settle(z, id, outcome, payee, closing');
            r.Ok? && Mirrors(Settle(w, id, outcome, payee, closing).value, r.value, last)
  {}

  lemma ClosingMirrors(v: Verifier, w: World, z: World, last: seq<Address>, sender: Address, op: Op)
    requires Mirrors(w, z, last) && Settles(op) && Step(v, w, sender, op).Ok?
    requires op.ResolveDispute? ==> last[op.id] == w.escrows[op.id].arbiter
    ensures Step(v, z, sender, op).Ok? && Mirrors(Step(v, w, sender, op).value, Step(v, z, sender, op).value, last)
  {
    var e := w.escrows[op.id];
    assert z.escrows[op.id] == e.(arbiter := last[op.id]);
    match op
    case Release(id, n, _) =>
      var ev := EscrowReleased(id, e.seller, e.amount, n);
      SettleMirrors(w.(spent := w.spent + {n}), z.(spent := z.spent + {n}), last, id, Released, e.seller, ev, ev);
    case Refund(id) =>
      var ev := EscrowRefunded(id, e.buyer, e.amount);
      SettleMirrors(w, z, last, id, Refunded, e.buyer, ev, ev);
    case ResolveDispute(id, ruling, rationale) =>
      var ev := DisputeResolved(id, sender, ruling, Winner(e, ruling), e.amount, rationale);
      SettleMirrors(w, z, last, id, Resolved, Winner(e, ruling), ev, ev);
  }

  lemma OtherMirrors(v: Verifier, w: World, z: World, last: seq<Address>, sender: Address, op: Op)
    requires Mirrors(w, z, last) && Step(v, w, sender, op).Ok?
    requires !Settles(op) && !op.CreateEscrow? && !op.SetArbiter? && !op.UpgradeTo?
    ensures Step(v, z, sender, op).Ok? && Mirrors(Step(v, w, sender, op).value, Step(v, z, sender, op).value, last)
  {
    if op.Fund? || op.RaiseDispute? || op.SubmitEvidence? {
      assert z.escrows[op.id] == w.escrows[op.id].(arbiter := last[op.id]);
    }
  }

  lemma CreationMirrors(v: Verifier, w: World, z: World, last: seq<Address>, tx: Tx)
    requires Mirrors(w, z, last) && tx.op.CreateEscrow? && Step(v, w, tx.sender, tx.op).Ok?
    requires var id := |w.escrows|; id < |last| && last[id] != ZERO_ADDRESS && last[id] != tx.sender && last[id] != tx.op.seller
    ensures Mirrors(Apply(v, w, tx), Apply(v, z, tx.(op := tx.op.(arbiter := last[|w.escrows|]))), last)
  {}

  /** The step the V1 run takes keeps it a mirror of the V2 run, provided the
      arbiters in last are the ones the rest of the run arrives at. */
  lemma InsteadMirrors(v: Verifier, w: World, z: World, last: seq<Address>, tx: Tx)
    requires Mirrors(w, z, last)
    requires |Apply(v, w, tx).escrows| <= |last|
    requires Step(v, w, tx.sender, tx.op).Ok? && tx.op.CreateEscrow? ==>
               var id := |w.escrows|; last[id] != ZERO_ADDRESS && last[id] != tx.sender && last[id] != tx.op.seller
    requires Step(v, w, tx.sender, tx.op).Ok? && tx.op.ResolveDispute? ==> last[tx.op.id] == w.escrows[tx.op.id].arbiter
    ensures Mirrors(Apply(v, w, tx), Run(v, z, Instead(v, w, tx, last)), last)
  {
    if Step(v, w, tx.sender, tx.op).Err? {
    } else if tx.op.SetArbiter? || tx.op.UpgradeTo? {
    } else if tx.op.CreateEscrow? {
      CreationMirrors(v, w, z, last, tx);
      RunOne(v, z, tx.(op := tx.op.(arbiter := last[|w.escrows|])));
    } else {
      RunOne(v, z, tx);
      if Settles(tx.op) { ClosingMirrors(v, w, z, last, tx.sender, tx.op); } else { OtherMirrors(v, w, z, last, tx.sender, tx.op); }
    }
  }

  lemma {:induction false} EscrowsOnlyGrow(v: Verifier, w: World, txs: seq<Tx>)
    ensures |w.escrows| <= |Run(v, w, txs).escrows|
  {
    if w.escrows != [] { TermsAreFixed(v, w, txs, |w.escrows| - 1); }
  }

  /** A creation fixes the parties the last arbiter must differ from. */
  lemma CreationFixesLast(v: Verifier, w: World, tx: Tx, rest: seq<Tx>)
    requires tx.op.CreateEscrow? && Step(v, w, tx.sender, tx.op).Ok?
    requires Solvent(Run(v, Apply(v, w, tx), rest))
    ensures var id, last := |w.escrows|, LastArbiters(Run(v, Apply(v, w, tx), rest));
            id < |last| && last[id] != ZERO_ADDRESS && last[id] != tx.sender && last[id] != tx.op.seller
  {
    TermsAreFixed(v, Apply(v, w, tx), rest, |w.escrows|);
    assert Terms(Run(v, Apply(v, w, tx), rest).escrows[|w.escrows|]);
  }

  /** A ruling is given by the last arbiter: nothing rotates a settled escrow. */
  lemma RulingFixesLast(v: Verifier, w: World, tx: Tx, rest: seq<Tx>)
    requires tx.op.ResolveDispute? && Step(v, w, tx.sender, tx.op).Ok?
    ensures var last := LastArbiters(Run(v, Apply(v, w, tx), rest));
            tx.op.id < |last| && last[tx.op.id] == w.escrows[tx.op.id].arbiter
  {
    TermsAreFixed(v, Apply(v, w, tx), rest, tx.op.id);
  }

  lemma {:induction false} PrefixMirrors(v: Verifier, g: World, txs: seq<Tx>, n: nat)
    requires IsGenesis(g) && n <= |txs|
    ensures var last := LastArbiters(Run(v, g, txs));
            Mirrors(Run(v, g, txs[..n]), Run(v, g, WithoutRotation(v, g, txs[..n], last)), last)
    decreases n
  {
    hide Step, Solvent, Instead;
    var last := LastArbiters(Run(v, g, txs));
    if n > 0 {
      PrefixMirrors(v, g, txs, n - 1);
      var w, tx := Run(v, g, txs[..n - 1]), txs[n - 1];
      var z := Run(v, g, WithoutRotation(v, g, txs[..n - 1], last));
      assert txs[..n][..n - 1] == txs[..n - 1];
      RunConcat(v, g, WithoutRotation(v, g, txs[..n - 1], last), Instead(v, w, tx, last));
      assert txs == txs[..n] + txs[n..];
      RunConcat(v, g, txs[..n], txs[n..]);
      ReachableIsSolvent(v, g, Run(v, g, txs));
      hide Mirrors, Reachable;
      EscrowsOnlyGrow(v, Run(v, g, txs[..n]), txs[n..]);
      if Step(v, w, tx.sender, tx.op).Ok? {
        if tx.op.CreateEscrow? { CreationFixesLast(v, w, tx, txs[n..]); }
        if tx.op.ResolveDispute? { RulingFixesLast(v, w, tx, txs[n..]); }
      }
      InsteadMirrors(v, w, z, last, tx);
    }
  }

  lemma {:induction false} NoRotationLeft(v: Verifier, w: World, txs: seq<Tx>, last: seq<Address>)
    ensures forall tx | tx in WithoutRotation(v, w, txs, last) :: !tx.op.SetArbiter? && !tx.op.UpgradeTo?
    decreases |txs|
  {
    if txs != [] {
      NoRotationLeft(v, w, txs[..|txs| - 1], last);
    }
  }

  /** Rotation adds no reachable storage. */
  lemma RotationAddsNothing(v: Verifier, g: World, txs: seq<Tx>)
    requires IsGenesis(g)
    ensures var w := Run(v, g, txs);
            var plain := WithoutRotation(v, g, txs, LastArbiters(w));
            && (forall tx | tx in plain :: !tx.op.SetArbiter? && !tx.op.UpgradeTo?)
            && SameStorage(w, Run(v, g, plain))
  {
    var w := Run(v, g, txs);
    PrefixMirrors(v, g, txs, |txs|);
    assert txs[..|txs|] == txs;
    NoRotationLeft(v, g, txs, LastArbiters(w));
    var z := Run(v, g, WithoutRotation(v, g, txs, LastArbiters(w)));
    assert forall i | 0 <= i < |w.escrows| :: z.escrows[i] == w.escrows[i];
  }

  /** Nor does it through callbacks and rolled-back calls. */
  lemma RotationAddsNothingToTrees(v: Verifier, g: World, acts: seq<Action>) returns (plain: seq<Tx>)
    requires IsGenesis(g)
    ensures forall tx | tx in plain :: !tx.op.SetArbiter? && !tx.op.UpgradeTo?
    ensures SameStorage(Exec(v, g, false, acts), Run(v, g, plain))
  {
    Serialisation(v, g, false, acts);
    var txs := Committed(v, g, false, acts);
    RotationAddsNothing(v, g, txs);
    plain := WithoutRotation(v, g, txs, LastArbiters(Run(v, g, txs)));
  }
}
