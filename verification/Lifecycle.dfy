// The life of an escrow and of its arbiter over whole runs: which transitions
// exist, how many there can be, who can end up paid, and who can rule.
module Lifecycle {
  import opened Basics
  import opened ZkTypes
  import opened EscrowMachine
  import opened Solvency

  predicate LegalTransition(from: State, to: State) {
    || from == to
    || (from == None && to == Created)
    || (from == Created && to == Funded)
    || (from == Funded && (to == Released || to == Refunded || to == Disputed))
    || (from == Disputed && to == Resolved)
  }

  lemma EffectIsLegal(v: Verifier, w: World, w': World, k: Effect, id: nat)
    requires Does(v, w, w', k)
    ensures LegalTransition(GetState(w, id), GetState(w', id))
    ensures id < |w.escrows| ==> id < |w'.escrows| && SameTerms(w.escrows[id], w'.escrows[id])
    ensures GetState(w', id) != GetState(w, id) ==> id == Subject(w, k)
    ensures id < |w.escrows| && Settled(w.escrows[id].state) ==> w'.escrows[id] == w.escrows[id]
  {
    EffectTouchesOne(v, w, w', k);
  }

  lemma StepIsLegal(v: Verifier, w: World, tx: Tx, id: nat)
    ensures LegalTransition(GetState(w, id), GetState(Apply(v, w, tx), id))
    ensures id < |w.escrows| ==> id < |Apply(v, w, tx).escrows| && SameTerms(w.escrows[id], Apply(v, w, tx).escrows[id])
    ensures id < |w.escrows| && Settled(w.escrows[id].state) ==> Apply(v, w, tx).escrows[id] == w.escrows[id]
  {
    if Step(v, w, tx.sender, tx.op).Ok? {
      var k := StepDoes(v, w, tx.sender, tx.op);
      EffectIsLegal(v, w, Apply(v, w, tx), k, id);
    }
  }

  /** The terms of an escrow are for ever, and once settled so is all of it. */
  lemma {:induction false} TermsAreFixed(v: Verifier, w: World, txs: seq<Tx>, id: nat)
    requires id < |w.escrows|
    ensures id < |Run(v, w, txs).escrows| && SameTerms(w.escrows[id], Run(v, w, txs).escrows[id])
    ensures Settled(w.escrows[id].state) ==> Run(v, w, txs).escrows[id] == w.escrows[id]
    decreases |txs|
  {
    if txs != [] {
      var n := |txs| - 1;
      TermsAreFixed(v, w, txs[..n], id);
      StepIsLegal(v, Run(v, w, txs[..n]), txs[n], id);
    }
  }

  // ---- How often an escrow can move ---------------------------------------

  function Rank(s: State): nat {
    match s
    case None => 0
    case Created => 0
    case Funded => 1
    case Disputed => 2
    case Released => 2
    case Refunded => 2
    case Resolved => 3
  }

  /** How many steps of the run moved an escrow that already existed. */
  function StateChanges(v: Verifier, w: World, txs: seq<Tx>, id: nat): nat {
    if txs == [] then 0 else
      var n := |txs| - 1;
      var before := GetState(Run(v, w, txs[..n]), id);
      var after := GetState(Run(v, w, txs), id);
      StateChanges(v, w, txs[..n], id) + if before != None && after != before then 1 else 0
  }

  /** After creation an escrow moves exactly as often as it has climbed ranks,
      so at most three times in any run. */
  lemma {:induction false} AtMostThreeMoves(v: Verifier, w: World, txs: seq<Tx>, id: nat)
    ensures Rank(GetState(w, id)) + StateChanges(v, w, txs, id) == Rank(GetState(Run(v, w, txs), id))
    ensures StateChanges(v, w, txs, id) <= 3
    decreases |txs|
  {
    if txs != [] {
      var n := |txs| - 1;
      AtMostThreeMoves(v, w, txs[..n], id);
      StepIsLegal(v, Run(v, w, txs[..n]), txs[n], id);
    }
  }

  // ---- Counting over runs -------------------------------------------------

  function HowMany(es: seq<Escrow>, p: State -> bool): nat { Total(Flags(es, p)) }

  function Flags(es: seq<Escrow>, p: State -> bool): (s: seq<nat>)
    ensures |s| == |es| && forall i | 0 <= i < |es| :: s[i] == if p(es[i].state) then 1 else 0
  {
    seq(|es|, i requires 0 <= i < |es| => if p(es[i].state) then 1 else 0)
  }

  function Paid(s: State): bool { s != None && s != Created }

  function Holders(pending: map<Address, Word>): set<Address> {
    set a | a in pending && pending[a] > 0
  }

  /** How many calls of the run both satisfy p and succeed. */
  function Successes(v: Verifier, w: World, txs: seq<Tx>, p: Op -> bool): nat {
    if txs == [] then 0 else
      var n := |txs| - 1;
      Successes(v, w, txs[..n], p) +
      if p(txs[n].op) && Step(v, Run(v, w, txs[..n]), txs[n].sender, txs[n].op).Ok? then 1 else 0
  }

  predicate Creates(op: Op) { op.CreateEscrow? }

  predicate Funds(op: Op) { op.Fund? }

  predicate Withdraws(op: Op) { op.Withdraw? }

  predicate Settles(op: Op) { op.Release? || op.Refund? || op.ResolveDispute? }

  lemma HowManySet(es: seq<Escrow>, id: nat, e: Escrow, p: State -> bool)
    requires id < |es|
    ensures HowMany(es[id := e], p) == HowMany(es, p) - (if p(es[id].state) then 1 else 0) + if p(e.state) then 1 else 0
  {
    assert Flags(es[id := e], p) == Flags(es, p)[id := if p(e.state) then 1 else 0];
    TotalSet(Flags(es, p), id, if p(e.state) then 1 else 0);
  }

  lemma HowManyAppend(es: seq<Escrow>, e: Escrow, p: State -> bool)
    ensures HowMany(es + [e], p) == HowMany(es, p) + if p(e.state) then 1 else 0
  {
    assert Flags(es + [e], p) == Flags(es, p) + [if p(e.state) then 1 else 0];
    TotalAppend(Flags(es, p), if p(e.state) then 1 else 0);
  }

  lemma {:induction false} TotalAtMost(s: seq<nat>)
    requires forall i | 0 <= i < |s| :: s[i] <= 1
    ensures Total(s) <= |s|
  {
    if s != [] { TotalAtMost(s[..|s| - 1]); }
  }

  /** How one effect moves the numbers the counting argument compares. */
  lemma EffectCounts(v: Verifier, w: World, w': World, k: Effect)
    requires Does(v, w, w', k)
    ensures |w'.escrows| == |w.escrows| + if k.Opens? then 1 else 0
    ensures HowMany(w'.escrows, Paid) == HowMany(w.escrows, Paid) + if k.Finances? then 1 else 0
    ensures HowMany(w'.escrows, Settled) == HowMany(w.escrows, Settled) + if k.Closes? then 1 else 0
  {
    EffectTouchesOne(v, w, w', k);
    var id := Subject(w, k);
    if k.Opens? {
      HowManyAppend(w.escrows, k.e, Paid);
      HowManyAppend(w.escrows, k.e, Settled);
    } else if id < |w.escrows| {
      assert w'.escrows == w.escrows[id := w'.escrows[id]];
      HowManySet(w.escrows, id, w'.escrows[id], Paid);
      HowManySet(w.escrows, id, w'.escrows[id], Settled);
    }
  }

  lemma HoldersMove(v: Verifier, w: World, w': World, k: Effect)
    requires Does(v, w, w', k)
    ensures |Holders(w'.pending)| + (if k.Draws? then 1 else 0) <= |Holders(w.pending)| + if k.Closes? then 1 else 0
  {
    var before, after := Holders(w.pending), Holders(w'.pending);
    if k.Draws? {
      assert after == before - {k.payee};
      assert |after| == |before| - 1;
    } else if k.Closes? {
      assert after <= before + {k.payee};
      SizeAtMost(after, before + {k.payee});
    }
  }

  lemma {:induction false} SizeAtMost<T>(a: set<T>, b: set<T>)
    requires a <= b
    ensures |a| <= |b|
  {
    assert b == a + (b - a);
  }

  /** Over any run the successes are exactly what the storage shows, and every
      payout needs a settlement of its own. */
  lemma {:induction false} SuccessesAreStored(v: Verifier, g: World, txs: seq<Tx>)
    requires IsGenesis(g)
    ensures var w := Run(v, g, txs);
            && Successes(v, g, txs, Creates) == |w.escrows|
            && Successes(v, g, txs, Funds) == HowMany(w.escrows, Paid)
            && Successes(v, g, txs, Settles) == HowMany(w.escrows, Settled)
            && Successes(v, g, txs, Withdraws) + |Holders(w.pending)| <= HowMany(w.escrows, Settled)
    decreases |txs|
  {
    if txs != [] {
      var n := |txs| - 1;
      SuccessesAreStored(v, g, txs[..n]);
      var before := Run(v, g, txs[..n]);
      if Step(v, before, txs[n].sender, txs[n].op).Ok? {
        var k := StepDoes(v, before, txs[n].sender, txs[n].op);
        EffectCounts(v, before, Run(v, g, txs), k);
        HoldersMove(v, before, Run(v, g, txs), k);
      }
    }
  }

  /** No more payouts than settlements, settlements than fundings, fundings
      than creations. */
  lemma CountingBound(v: Verifier, g: World, txs: seq<Tx>)
    requires IsGenesis(g)
    ensures Successes(v, g, txs, Withdraws) <= Successes(v, g, txs, Settles)
            <= Successes(v, g, txs, Funds) <= Successes(v, g, txs, Creates)
  {
    SuccessesAreStored(v, g, txs);
    var es := Run(v, g, txs).escrows;
    TotalMonotone(Flags(es, Settled), Flags(es, Paid));
    TotalAtMost(Flags(es, Paid));
  }

  // ---- The arbiter --------------------------------------------------------

  /** A settlement pays the whole amount to one of the two parties and leaves
      every other address, the escrow's arbiter among them, where it was. */
  lemma ArbiterNeverProfits(v: Verifier, g: World, w: World, sender: Address, op: Op) returns (payee: Address)
    requires IsGenesis(g) && Reachable(v, g, w) && Settles(op) && Step(v, w, sender, op).Ok?
    ensures var e := w.escrows[op.id];
            var w' := Step(v, w, sender, op).value;
            && IsParty(e, payee) && payee != e.arbiter
            && Bal(w'.pending, payee) == Bal(w.pending, payee) + e.amount
            && (forall a | a != payee :: Bal(w'.pending, a) == Bal(w.pending, a))
            && (op.ResolveDispute? ==> sender == e.arbiter)
  {
    ReachableIsSolvent(v, g, w);
    var k := StepDoes(v, w, sender, op);
    payee := k.payee;
  }

  /** Whoever is not the arbiter cannot rule, through any run that does not
      rotate the office to them. */
  lemma {:induction false} FormerArbiterCannotRule(v: Verifier, w: World, txs: seq<Tx>, id: Word, x: Address, ruling: Ruling, rationale: string)
    requires id < |w.escrows| && w.escrows[id].arbiter != x
    requires forall tx | tx in txs :: tx.op != SetArbiter(id, x)
    ensures id < |Run(v, w, txs).escrows| && Run(v, w, txs).escrows[id].arbiter != x
    ensures Step(v, Run(v, w, txs), x, ResolveDispute(id, ruling, rationale)).Err?
    decreases |txs|
  {
    if txs != [] {
      var n := |txs| - 1;
      assert forall tx | tx in txs[..n] :: tx in txs;
      FormerArbiterCannotRule(v, w, txs[..n], id, x, ruling, rationale);
      assert txs[n] in txs;
      ArbiterOnlyByRotation(v, Run(v, w, txs[..n]), txs[n], id);
    }
  }

  lemma ArbiterOnlyByRotation(v: Verifier, w: World, tx: Tx, id: Word)
    requires id < |w.escrows|
    ensures var w' := Apply(v, w, tx);
            && id < |w'.escrows|
            && (w'.escrows[id].arbiter != w.escrows[id].arbiter ==> tx.op == SetArbiter(id, w'.escrows[id].arbiter))
  {
    if tx.op.SetArbiter? {
    } else if Step(v, w, tx.sender, tx.op).Ok? {
      var k := StepDoes(v, w, tx.sender, tx.op);
      EffectTouchesOne(v, w, Apply(v, w, tx), k);
      assert k.Revises? ==> !k.ev.ArbiterRotated?;
    }
  }
}
