// What the contract owes is what it holds, in every state any code can see, and
// checked arithmetic never stands in the way of a payment.
module Solvency {
  import opened Basics
  import opened ZkTypes
  import opened EscrowMachine
  import opened CallTree

  function Lock(e: Escrow): nat { if Open(e.state) then e.amount else 0 }

  /** What each escrow still holds locked. */
  function Locks(es: seq<Escrow>): (s: seq<nat>)
    ensures |s| == |es| && forall i | 0 <= i < |es| :: s[i] == Lock(es[i])
  {
    seq(|es|, i requires 0 <= i < |es| => Lock(es[i]))
  }

  lemma LocksSet(es: seq<Escrow>, id: nat, e: Escrow)
    requires id < |es|
    ensures Total(Locks(es[id := e])) == Total(Locks(es)) - Lock(es[id]) + Lock(e)
    ensures Lock(es[id]) <= Total(Locks(es))
  {
    assert Locks(es[id := e]) == Locks(es)[id := Lock(e)];
    TotalSet(Locks(es), id, Lock(e));
  }

  ghost function Credits(w: World): nat { Sum(w.pending) }

  ghost function Locked(w: World): nat { Total(Locks(w.escrows)) }

  /** All ETH there is: it only ever changes hands. */
  ghost function Supply(w: World): nat { w.balance + Sum(w.wealth) }

  ghost predicate Solvent(w: World) {
    && w.total == Credits(w)
    && w.balance == Credits(w) + Locked(w) + w.forced
    && |w.escrows| < TWO_256
    && forall i | 0 <= i < |w.escrows| :: Terms(w.escrows[i])
  }

  ghost predicate KeepsBooks(w: World, w': World) {
    Solvent(w') && Supply(w') == Supply(w)
  }

  lemma OpeningKeepsBooks(w: World, w': World, e: Escrow)
    requires Solvent(w) && DoesOpen(w, w', e)
    ensures KeepsBooks(w, w')
  {
    assert Locks(w.escrows + [e]) == Locks(w.escrows) + [0];
    TotalAppend(Locks(w.escrows), 0);
  }

  lemma FinancingKeepsBooks(w: World, w': World, id: nat)
    requires Solvent(w) && DoesFinance(w, w', id)
    ensures KeepsBooks(w, w')
  {
    var e := w.escrows[id];
    SumSet(w.wealth, e.buyer, Bal(w.wealth, e.buyer) - e.amount);
    LocksSet(w.escrows, id, e.(state := Funded));
  }

  lemma RevisingKeepsBooks(w: World, w': World, id: nat, e: Escrow, ev: Event)
    requires Solvent(w) && DoesRevise(w, w', id, e, ev)
    ensures KeepsBooks(w, w')
  {
    LocksSet(w.escrows, id, e);
  }

  lemma ClosingKeepsBooks(v: Verifier, w: World, w': World, id: nat, outcome: State, payee: Address, closing: Event, nullifiers: set<Word>)
    requires Solvent(w) && DoesClose(v, w, w', id, outcome, payee, closing, nullifiers)
    ensures KeepsBooks(w, w')
  {
    var e := w.escrows[id];
    LocksSet(w.escrows, id, e.(state := outcome));
    SumSet(w.pending, payee, Bal(w.pending, payee) + e.amount);
  }

  lemma DrawingKeepsBooks(w: World, w': World, payee: Address)
    requires Solvent(w) && DoesDraw(w, w', payee)
    ensures KeepsBooks(w, w')
  {
    SumSet(w.pending, payee, 0);
    SumSet(w.wealth, payee, Bal(w.wealth, payee) + Bal(w.pending, payee));
  }

  lemma EffectKeepsBooks(v: Verifier, w: World, w': World, k: Effect)
    requires Solvent(w) && Does(v, w, w', k)
    ensures KeepsBooks(w, w')
  {
    match k
    case Opens(e) => OpeningKeepsBooks(w, w', e);
    case Finances(id) => FinancingKeepsBooks(w, w', id);
    case Revises(id, e, ev) => RevisingKeepsBooks(w, w', id, e, ev);
    case Closes(id, outcome, payee, closing, ns) => ClosingKeepsBooks(v, w, w', id, outcome, payee, closing, ns);
    case Draws(payee) => DrawingKeepsBooks(w, w', payee);
    case Notes(_) =>
    case Outside =>
  }

  /** A credit for a live escrow always fits. */
  lemma CreditFits(w: World, id: nat, payee: Address)
    requires Solvent(w) && w.balance < TWO_256
    requires id < |w.escrows| && Open(w.escrows[id].state)
    ensures Bal(w.pending, payee) + w.escrows[id].amount < TWO_256
    ensures w.total + w.escrows[id].amount < TWO_256
  {
    LocksSet(w.escrows, id, w.escrows[id]);
    SumSet(w.pending, payee, 0);
  }

  lemma BalanceCovers(w: World, payee: Address)
    requires Solvent(w)
    ensures Bal(w.pending, payee) <= w.total <= w.balance
  {
    SumSet(w.pending, payee, 0);
  }

  /** One transaction keeps the books balanced and creates no ETH. While the
      contract's own ETH fits in 256 bits it never trips on arithmetic, except
      for the creation that would use up the last id. */
  lemma StepKeepsSolvency(v: Verifier, w: World, sender: Address, op: Op)
    requires Solvent(w)
    ensures Step(v, w, sender, op).Ok? ==>
              var w' := Step(v, w, sender, op).value;
              Solvent(w') && Supply(w') == Supply(w)
    ensures w.balance < TWO_256 && Step(v, w, sender, op) == Err(ArithmeticOverflow) ==>
              op.CreateEscrow? && |w.escrows| + 1 == TWO_256
  {
    if Step(v, w, sender, op).Ok? {
      var k := StepDoes(v, w, sender, op);
      EffectKeepsBooks(v, w, Step(v, w, sender, op).value, k);
    } else if w.balance < TWO_256 {
      match op
      case Release(id, _, _) => if Check(w, id, Funded).Ok? { CreditFits(w, id, w.escrows[id].seller); }
      case Refund(id) => if Check(w, id, Funded).Ok? { CreditFits(w, id, w.escrows[id].buyer); }
      case ResolveDispute(id, ruling, _) => if Check(w, id, Disputed).Ok? { CreditFits(w, id, Winner(w.escrows[id], ruling)); }
      case Withdraw => BalanceCovers(w, sender);
      case _ =>
    }
  }

  lemma {:induction false} RunKeepsSolvency(v: Verifier, w: World, txs: seq<Tx>)
    requires Solvent(w)
    ensures Solvent(Run(v, w, txs)) && Supply(Run(v, w, txs)) == Supply(w)
    decreases |txs|
  {
    if txs != [] {
      var n := |txs| - 1;
      RunKeepsSolvency(v, w, txs[..n]);
      StepKeepsSolvency(v, Run(v, w, txs[..n]), txs[n].sender, txs[n].op);
    }
  }

  lemma ReachableIsSolvent(v: Verifier, g: World, w: World)
    requires IsGenesis(g) && Reachable(v, g, w)
    ensures Solvent(w) && Supply(w) == Supply(g) < TWO_256
  {
    var txs :| Run(v, g, txs) == w;
    assert Locks([]) == [];
    RunKeepsSolvency(v, g, txs);
  }

  /** In every state exposed by any nest of calls, callbacks and rollbacks: the
      running total is the sum of the credits, the ETH held is the credits plus
      the live escrows plus whatever was forced in, every credit is covered, and
      no call fails for arithmetic unless it would create escrow 2^256 - 1. */
  lemma ConservationUnderReentrancy(v: Verifier, g: World, acts: seq<Action>, s: World)
    requires IsGenesis(g) && (s in Observed(v, g, false, acts) || s == Exec(v, g, false, acts))
    ensures s.total == Credits(s) && s.balance == Credits(s) + Locked(s) + s.forced
    ensures Supply(s) == Supply(g)
    ensures forall a :: Bal(s.pending, a) <= s.balance
    ensures forall sender, op :: Step(v, s, sender, op) == Err(ArithmeticOverflow) ==>
              op.CreateEscrow? && |s.escrows| + 1 == TWO_256
  {
    assert Run(v, g, []) == g;
    ObservedReachable(v, g, g, false, acts);
    ReachableIsSolvent(v, g, s);
    forall a ensures Bal(s.pending, a) <= s.balance {
      BalanceCovers(s, a);
    }
    forall sender, op
      ensures Step(v, s, sender, op) == Err(ArithmeticOverflow) ==> op.CreateEscrow? && |s.escrows| + 1 == TWO_256
    {
      StepKeepsSolvency(v, s, sender, op);
    }
  }

  // ---- What the source's comments say, exactly ----------------------------

  lemma {:induction false} NothingLocked(es: seq<Escrow>)
    requires forall i | 0 <= i < |es| :: es[i].amount > 0
    ensures Total(Locks(es)) == 0 <==> forall i | 0 <= i < |es| :: !Open(es[i].state)
  {
    if es != [] {
      var n := |es| - 1;
      NothingLocked(es[..n]);
      assert Locks(es)[..n] == Locks(es[..n]);
      assert forall i | 0 <= i < n :: es[..n][i] == es[i];
    } else {
      assert Locks(es) == [];
    }
  }

  /** The credits alone are the contract's ETH exactly when no escrow is live
      and nothing was forced in. */
  lemma CreditsAloneExactly(v: Verifier, g: World, w: World)
    requires IsGenesis(g) && Reachable(v, g, w)
    ensures w.balance == Credits(w) <==> w.forced == 0 && forall i | 0 <= i < |w.escrows| :: !Open(w.escrows[i].state)
  {
    ReachableIsSolvent(v, g, w);
    assert forall i | 0 <= i < |w.escrows| :: Terms(w.escrows[i]);
    NothingLocked(w.escrows);
  }

  /** One creation and one funding are enough to break it. */
  lemma CreditsAloneFails(v: Verifier) returns (g: World, txs: seq<Tx>)
    ensures IsGenesis(g) && |txs| == 2 && Run(v, g, txs).balance == 1 && Credits(Run(v, g, txs)) == 0
  {
    g := World(V1, 9, [], map[], 0, {}, [], 0, map[1 := 1], 0);
    SumSet(map[], 1, 1);
    assert map[][1 := 1] == g.wealth;
    var create, fund := Tx(1, CreateEscrow(2, 3, 1, 0)), Tx(1, Fund(0, 1));
    txs := [create, fund];
    RunOne(v, g, create);
    RunExtend(v, g, [create], fund);
    assert [create] + [fund] == txs;
  }

  /** A credit is paid exactly when the payee accepts it. Until then its code
      runs with the credit already gone; a refusal puts everything back. */
  lemma PaidIffAccepted(v: Verifier, g: World, w: World, payee: Address, callback: seq<Action>, accepts: bool)
    requires IsGenesis(g) && Reachable(v, g, w) && Bal(w.pending, payee) > 0
    ensures var paid := Step(v, w, payee, Withdraw);
            && paid.Ok? && Bal(paid.value.pending, payee) == 0
            && paid.value.balance == w.balance - Bal(w.pending, payee)
            && ObservedInside(v, w, false, Withdrawal(payee, callback, accepts)) == Observed(v, paid.value, true, callback)
            && ExecOne(v, w, false, Withdrawal(payee, callback, accepts)) ==
                 if accepts then Exec(v, paid.value, true, callback) else w
  {
    ReachableIsSolvent(v, g, w);
    BalanceCovers(w, payee);
  }

  /** Only forced ETH is ever unaccounted for: without it the equality is exact. */
  lemma {:induction false} ForcedOnlyByForcing(v: Verifier, w: World, txs: seq<Tx>)
    ensures Run(v, w, txs).forced >= w.forced
    ensures (forall tx | tx in txs :: !tx.op.ForceEther?) ==> Run(v, w, txs).forced == w.forced
    decreases |txs|
  {
    if txs != [] {
      var n := |txs| - 1;
      ForcedOnlyByForcing(v, w, txs[..n]);
      StepForces(v, Run(v, w, txs[..n]), txs[n]);
      assert forall tx | tx in txs[..n] :: tx in txs;
      assert txs[n] in txs;
    }
  }

  lemma StepForces(v: Verifier, w: World, tx: Tx)
    ensures Apply(v, w, tx).forced == w.forced || (tx.op.ForceEther? && Apply(v, w, tx).forced == w.forced + tx.op.wei)
  {
    if Step(v, w, tx.sender, tx.op).Ok? {
      var k := StepDoes(v, w, tx.sender, tx.op);
    }
  }

  /** Who may call what, when: conditions a caller can check beforehand, with
      nothing about arithmetic among them but the supply of ids. */
  predicate Entitled(v: Verifier, w: World, sender: Address, op: Op) {
    match op
    case CreateEscrow(seller, arbiter, amount, _) =>
      && ZERO_ADDRESS !in {seller, arbiter} && |{sender, seller, arbiter}| == 3 && amount > 0
      && |w.escrows| + 1 < TWO_256
    case Fund(id, value) =>
      && GetState(w, id) == Created && sender == w.escrows[id].buyer
      && value == w.escrows[id].amount <= Bal(w.wealth, sender)
    case Release(id, n, proof) =>
      && GetState(w, id) == Funded && n !in w.spent
      && v(proof, Signals(n, w.escrows[id].commitment, id))
    case Refund(id) => GetState(w, id) == Funded && sender == w.escrows[id].seller
    case RaiseDispute(id, evidence) => GetState(w, id) == Funded && IsParty(w.escrows[id], sender) && evidence != ""
    case SubmitEvidence(id, evidence) => GetState(w, id) == Disputed && IsParty(w.escrows[id], sender) && evidence != ""
    case ResolveDispute(id, _, rationale) => GetState(w, id) == Disputed && sender == w.escrows[id].arbiter && rationale != ""
    case Withdraw => Bal(w.pending, sender) > 0
    case SetArbiter(id, a) =>
      && w.version == V2 && sender == w.owner && GetState(w, id) == Disputed
      && a != ZERO_ADDRESS && !IsParty(w.escrows[id], a)
    case UpgradeTo(implementation) => sender == w.owner && implementation.Implementation?
    case Transfer(_, wei) => wei <= Bal(w.wealth, sender)
    case ForceEther(wei) => wei <= Bal(w.wealth, sender)
  }

  lemma ThreeDistinct(a: Address, b: Address, c: Address)
    ensures |{a, b, c}| == 3 <==> a != b && a != c && b != c
  {
    if a == b || a == c || b == c {
      var x, y := a, if a == b then c else b;
      assert {a, b, c} == {x, y};
      assert |{x} + {y}| <= 2;
      assert {x, y} == {x} + {y};
    }
  }

  lemma SettlesIffEntitled(v: Verifier, w: World, sender: Address, op: Op)
    requires Solvent(w) && w.balance < TWO_256
    requires op.Release? || op.Refund? || op.ResolveDispute?
    ensures Step(v, w, sender, op).Ok? <==> Entitled(v, w, sender, op)
  {
    if Open(GetState(w, op.id)) {
      CreditFits(w, op.id, w.escrows[op.id].seller);
      CreditFits(w, op.id, w.escrows[op.id].buyer);
    }
    hide Solvent;
  }

  lemma OthersSucceedIffEntitled(v: Verifier, w: World, sender: Address, op: Op)
    requires Solvent(w)
    requires !op.Release? && !op.Refund? && !op.ResolveDispute?
    ensures Step(v, w, sender, op).Ok? <==> Entitled(v, w, sender, op)
  {
    if op.Withdraw? { BalanceCovers(w, sender); }
    if op.CreateEscrow? { ThreeDistinct(sender, op.seller, op.arbiter); }
    hide Solvent;
  }

  /** In every state exposed by any nest, inside a withdrawal's callback or not,
      a call succeeds if and only if its caller is entitled to it and it is not
      a withdrawal inside another: nobody else gets through, and nobody entitled
      is refused. */
  lemma SucceedsIffEntitled(v: Verifier, g: World, acts: seq<Action>, s: World, entered: bool, sender: Address, op: Op)
    requires IsGenesis(g) && (s in Observed(v, g, false, acts) || s == Exec(v, g, false, acts))
    ensures GuardedStep(v, s, entered, sender, op).Ok? <==> Entitled(v, s, sender, op) && !(entered && op.Withdraw?)
    ensures GuardedStep(v, s, entered, sender, op) == Err(ReentrantCall) <==> entered && op.Withdraw?
  {
    assert Run(v, g, []) == g;
    ObservedReachable(v, g, g, false, acts);
    StepSucceedsIffEntitled(v, g, s, sender, op);
    NeverReentrant(v, s, sender, op);
    hide Step, Entitled;
  }

  /** Only the guard answers that a call is reentrant. */
  lemma NeverReentrant(v: Verifier, w: World, sender: Address, op: Op)
    ensures Step(v, w, sender, op) != Err(ReentrantCall)
  {}

  lemma StepSucceedsIffEntitled(v: Verifier, g: World, w: World, sender: Address, op: Op)
    requires IsGenesis(g) && Reachable(v, g, w)
    ensures Step(v, w, sender, op).Ok? <==> Entitled(v, w, sender, op)
  {
    ReachableIsSolvent(v, g, w);
    assert w.balance < TWO_256;
    hide Step, Entitled, Solvent, Supply, Reachable;
    if op.Release? || op.Refund? || op.ResolveDispute? {
      SettlesIffEntitled(v, w, sender, op);
    } else {
      OthersSucceedIffEntitled(v, w, sender, op);
    }
  }

  /** Every legitimate exit is open in every reachable state. */
  lemma ExitsStayOpen(v: Verifier, g: World, w: World, id: Word)
    requires IsGenesis(g) && Reachable(v, g, w) && id < |w.escrows|
    ensures var e := w.escrows[id];
            e.state == Funded ==>
              && Step(v, w, e.seller, Refund(id)).Ok?
              && (forall p, evidence | IsParty(e, p) && evidence != "" :: Step(v, w, p, RaiseDispute(id, evidence)).Ok?)
              && (forall sender, n, proof | n !in w.spent && v(proof, Signals(n, e.commitment, id)) ::
                    Step(v, w, sender, Release(id, n, proof)).Ok?)
    ensures var e := w.escrows[id];
            e.state == Disputed ==>
              forall ruling, rationale | rationale != "" ::
                Step(v, w, e.arbiter, ResolveDispute(id, ruling, rationale)).Ok?
    ensures forall a | Bal(w.pending, a) > 0 :: Step(v, w, a, Withdraw).Ok?
  {
    ReachableIsSolvent(v, g, w);
    var e := w.escrows[id];
    if Open(e.state) {
      CreditFits(w, id, e.buyer);
      CreditFits(w, id, e.seller);
    }
    forall a | Bal(w.pending, a) > 0 ensures Step(v, w, a, Withdraw).Ok? {
      BalanceCovers(w, a);
    }
  }
}
