// What the harness does, said from outside it: the calls its entry points make,
// what its flags notice whatever the contract might do, and what its counters
// count.
module HarnessMeaning {
  import opened Basics
  import opened ZkTypes
  import opened EscrowMachine
  import opened Solvency
  import opened Lifecycle
  import opened Selection
  import opened Calls
  import opened H = Harness

  // ---- The calls ----------------------------------------------------------

  /** A creation is by one pool member for two others, with an amount from 1 wei
      to 10 ether and the commitment it was given. */
  lemma CreationCall(c: Setup, h: H.Harness, e: Entry, tx: Tx)
    requires GoodSetup(c) && e.CreateEscrow? && Intended(c, h, e) == Call(tx)
    ensures var n, hash := |c.pool|, c.hash(e.amount, e.commitment);
            var b := hash % n;
            var s := (b + 1 + (hash / 256) % (n - 1)) % n;
            && tx.sender == c.pool[b] && tx.op.CreateEscrow? && tx.op.seller == c.pool[s] && tx.op.commitment == e.commitment
            && tx.op.arbiter in c.pool && tx.op.arbiter != tx.sender && tx.op.arbiter != tx.op.seller && tx.sender != tx.op.seller
            && tx.op.amount == 1 + e.amount % 10_000_000_000_000_000_000
  {
    assert tx == CreateTx(c, e.amount, e.commitment);
    hide Intended;
    var n, hash := |c.pool|, c.hash(e.amount, e.commitment);
    RolesSay(n, hash);
    hide Buyer, Seller, Selection.Arbiter, Bound;
    TenEther(e.amount);
    SellerIsNotBuyer(n, hash);
    DistinctActors(c, Buyer(n, hash), Seller(n, hash));
    DistinctActors(c, Buyer(n, hash), Selection.Arbiter(n, hash));
    DistinctActors(c, Seller(n, hash), Selection.Arbiter(n, hash));
    hide GoodSetup;
  }

  lemma RolesSay(n: nat, hash: nat)
    requires n >= 3
    ensures Buyer(n, hash) == hash % n
    ensures Seller(n, hash) == (hash % n + 1 + (hash / 256) % (n - 1)) % n
  {}

  lemma TenEther(amount: Word)
    ensures Bound(amount, 1, TEN_ETHER) == 1 + amount % 10_000_000_000_000_000_000
  {}

  /** The other calls are on a created escrow, chosen by the seed, by the party
      the entry point is for. */
  lemma CallOnEscrow(c: Setup, h: H.Harness, e: Entry, tx: Tx)
    requires |c.pool| >= 3 && !e.CreateEscrow? && !e.Withdraw? && !e.SetVerifierVerdict? && Intended(c, h, e) == Call(tx)
    ensures h.created != [] && ((e.Fund? && e.seed % 4 != 0) || tx.op.id == h.created[e.seed % |h.created|])
    ensures e.Fund? && e.seed % 4 != 0 ==> tx.op.id in h.created && GetState(h.world, tx.op.id) == Created
    ensures tx.op.id < |h.world.escrows|
    ensures var id: Word := tx.op.id;
            var x := h.world.escrows[id];
            match e
            case Fund(_) => tx == Tx(x.buyer, Op.Fund(id, x.amount))
            case Release(_, n) => tx == Tx(c.self, Op.Release(id, 1 + n % 8, tx.op.proof))
            case Refund(_) => tx == Tx(x.seller, Op.Refund(id))
            case RaiseDispute(_, asSeller) => tx == Tx(if asSeller then x.seller else x.buyer, Op.RaiseDispute(id, "fuzz evidence"))
            case RotateArbiter(_, a) => tx == Tx(c.self, Op.SetArbiter(id, c.pool[a % |c.pool|]))
            case SubmitEvidence(_, asSeller) => tx == Tx(if asSeller then x.seller else x.buyer, Op.SubmitEvidence(id, "fuzz evidence"))
            case ResolveDispute(_, wins) =>
              tx == Tx(x.arbiter, Op.ResolveDispute(id, if wins then SellerWins else BuyerWins, "fuzz rationale"))
            case ResolveDisputeUnauthorized(_, wins) =>
              tx == Tx(x.buyer, Op.ResolveDispute(id, if wins then SellerWins else BuyerWins, "unauthorized"))
            case _ => true
  {
    NobodyMeansNone(h.world, h.created, e.seed, Created);
    hide PickFrom, GetState;
  }

  lemma WithdrawalCall(c: Setup, h: H.Harness, e: Entry)
    requires |c.pool| >= 3 && e.Withdraw?
    ensures Intended(c, h, e) == Call(Tx(c.pool[e.seed % |c.pool|], Op.Withdraw))
  {}

  // ---- The flags ----------------------------------------------------------

  /** Whatever world w' the contract might answer with, these and only these
      raise a flag: an edge off the table, a credited arbiter or an unauthorised
      ruling, a nullifier released before, a success that was no opportunity. */
  lemma FlagsNotice(h: H.Harness, e: Entry, tx: Tx, w': World)
    requires RightOp(e, tx.op) && !e.SetVerifierVerdict?
    requires !e.CreateEscrow? && !e.Withdraw? ==> tx.op.id < |h.world.escrows|
    ensures var f, f' := h.flags, Accept(h, e, tx, w').flags;
            && (f'.nullifierReuseSeen <==> f.nullifierReuseSeen || (e.Release? && Bal(h.releaseCount, tx.op.nullifier) > 0))
            && (f'.fundsLeftTheParties <==>
                  || f.fundsLeftTheParties || e.ResolveDisputeUnauthorized?
                  || ((e.Release? || e.Refund? || e.ResolveDispute?)
                      && Bal(w'.pending, h.world.escrows[tx.op.id].arbiter) > Bal(h.world.pending, h.world.escrows[tx.op.id].arbiter)))
  {
    hide LegalTransition, GuardsBroken, Register, Count;
  }

  lemma TransitionNoticed(h: H.Harness, e: Entry, tx: Tx, w': World, id: Word)
    requires RightOp(e, tx.op) && !e.SetVerifierVerdict? && !e.Withdraw? && !e.ResolveDisputeUnauthorized?
    requires id == if e.CreateEscrow? then |h.world.escrows| else tx.op.id
    ensures var before, after := if id in h.lastState then h.lastState[id] else State.None, GetState(w', id);
            && (Accept(h, e, tx, w').flags.invalidTransitionSeen <==>
                  || h.flags.invalidTransitionSeen
                  || (before != after && (before, after) !in {(State.None, Created), (Created, Funded), (Funded, Released),
                                                              (Funded, Refunded), (Funded, Disputed), (Disputed, Resolved)}))
            && Accept(h, e, tx, w').lastState == h.lastState[id := after]
  {
    TableIsSixEdges(if id in h.lastState then h.lastState[id] else State.None, GetState(w', id));
    hide LegalTransition, GuardsBroken, Register, Count, GetState;
  }

  lemma RotationNoticed(h: H.Harness, e: Entry, tx: Tx, w': World)
    requires e.RotateArbiter? && RightOp(e, tx.op) && tx.op.id < |h.world.escrows| && tx.op.id < |w'.escrows|
    ensures var x, y, a := h.world.escrows[tx.op.id], w'.escrows[tx.op.id], tx.op.newArbiter;
            Accept(h, e, tx, w').flags.rotationBrokeItsGuards <==>
              || h.flags.rotationBrokeItsGuards
              || x.state != Disputed || a == 0 || a == x.buyer || a == x.seller
              || y.buyer != x.buyer || y.seller != x.seller || y.arbiter != a || y.state != x.state
  {
    hide LegalTransition, Register, Count;
  }

  /** The seven properties are what the flags and the books say. */
  lemma PropertiesSay(c: Setup, h: H.Harness)
    ensures AllSeven(c, h) <==>
            && Bal(h.world.pending, c.self) + SumOver(c.pool, h.world.pending) == h.world.total
            && h.world.balance == h.world.total + LockedOver(h.world, h.created)
            && !h.flags.fundsLeftTheParties && !h.flags.invalidTransitionSeen && h.world.total <= h.totalFunded
            && !h.flags.nullifierReuseSeen && !h.flags.ledgerInconsistent && !h.flags.rotationBrokeItsGuards
  {}

  // ---- The counters -------------------------------------------------------

  predicate IsReleased(s: State) { s == Released }
  predicate IsRefunded(s: State) { s == Refunded }
  predicate IsResolved(s: State) { s == Resolved }

  /** The amount each escrow has been funded with. */
  function Deposits(es: seq<Escrow>): (s: seq<nat>)
    ensures |s| == |es| && forall i | 0 <= i < |es| :: s[i] == if Paid(es[i].state) then es[i].amount else 0
  {
    seq(|es|, i requires 0 <= i < |es| => if Paid(es[i].state) then es[i].amount else 0)
  }

  /** The ledger counts what the storage shows, one by one. */
  ghost predicate Counts(h: H.Harness) {
    var es, l := h.world.escrows, h.ledger;
    && l.creates == |es| && l.funds == HowMany(es, Paid)
    && l.releases == HowMany(es, IsReleased) && l.refunds == HowMany(es, IsRefunded) && l.resolutions == HowMany(es, IsResolved)
    && h.totalFunded == Total(Deposits(es))
  }

  ghost predicate Moves(es: seq<Escrow>, es': seq<Escrow>, p: State -> bool, id: nat, e: Escrow) {
    HowMany(es', p) == HowMany(es, p) - (if id < |es| && p(es[id].state) then 1 else 0) + if p(e.state) then 1 else 0
  }

  lemma EscrowMoves(es: seq<Escrow>, id: nat, e: Escrow)
    requires id < |es|
    ensures var es' := es[id := e];
            && Moves(es, es', Paid, id, e) && Moves(es, es', IsReleased, id, e)
            && Moves(es, es', IsRefunded, id, e) && Moves(es, es', IsResolved, id, e)
    ensures Total(Deposits(es[id := e])) == Total(Deposits(es)) - Deposits(es)[id] + if Paid(e.state) then e.amount else 0
  {
    HowManySet(es, id, e, Paid);
    HowManySet(es, id, e, IsReleased);
    HowManySet(es, id, e, IsRefunded);
    HowManySet(es, id, e, IsResolved);
    assert Deposits(es[id := e]) == Deposits(es)[id := if Paid(e.state) then e.amount else 0];
    TotalSet(Deposits(es), id, if Paid(e.state) then e.amount else 0);
  }

  lemma EscrowJoins(es: seq<Escrow>, e: Escrow)
    requires e.state == Created
    ensures var es' := es + [e];
            && HowMany(es', Paid) == HowMany(es, Paid) && HowMany(es', IsReleased) == HowMany(es, IsReleased)
            && HowMany(es', IsRefunded) == HowMany(es, IsRefunded) && HowMany(es', IsResolved) == HowMany(es, IsResolved)
            && Total(Deposits(es')) == Total(Deposits(es))
  {
    HowManyAppend(es, e, Paid);
    HowManyAppend(es, e, IsReleased);
    HowManyAppend(es, e, IsRefunded);
    HowManyAppend(es, e, IsResolved);
    assert Deposits(es + [e]) == Deposits(es) + [0];
    TotalAppend(Deposits(es), 0);
  }

  /** What a successful call does to the list of escrows. */
  lemma CallMoves(v: Verifier, w: World, sender: Address, op: Op)
    requires Step(v, w, sender, op).Ok?
    ensures var es, es' := w.escrows, Step(v, w, sender, op).value.escrows;
            match op
            case CreateEscrow(_, _, _, _) => exists e: Escrow :: e.state == Created && es' == es + [e]
            case Fund(id, value) => id < |es| && es[id].state == Created && es[id].amount == value && es' == es[id := es[id].(state := Funded)]
            case Release(id, _, _) => id < |es| && es[id].state == Funded && es' == es[id := es[id].(state := Released)]
            case Refund(id) => id < |es| && es[id].state == Funded && es' == es[id := es[id].(state := Refunded)]
            case RaiseDispute(id, _) => id < |es| && es[id].state == Funded && es' == es[id := es[id].(state := Disputed)]
            case ResolveDispute(id, _, _) => id < |es| && es[id].state == Disputed && es' == es[id := es[id].(state := Resolved)]
            case SetArbiter(id, a) => id < |es| && es[id].state == Disputed && es' == es[id := es[id].(arbiter := a)]
            case _ => es' == es
  {
    match op
    case CreateEscrow(seller, arbiter, amount, commitment) =>
      CreationStores(v, w, sender, seller, arbiter, amount, commitment);
      assert Escrow(sender, seller, arbiter, amount, commitment, Created).state == Created;
    case Fund(id, value) => FundingPays(v, w, sender, id, value);
    case Release(id, n, proof) => ReleasePaysSeller(v, w, sender, id, n, proof);
    case Refund(id) => RefundPaysBuyer(v, w, sender, id);
    case RaiseDispute(id, evidence) => DisputeIsRaised(v, w, sender, id, evidence);
    case SubmitEvidence(id, evidence) => EvidenceIsLogged(v, w, sender, id, evidence);
    case ResolveDispute(id, ruling, rationale) => RulingPaysWinner(v, w, sender, id, ruling, rationale);
    case Withdraw => WithdrawalEmptiesCredit(v, w, sender);
    case SetArbiter(id, a) => RotationNamesArbiter(v, w, sender, id, a);
    case _ =>
  }

  /** The counters move with the state of the one escrow that does. */
  ghost predicate Follows(l: Ledger, l': Ledger, from: State, to: State) {
    && l'.creates == l.creates
    && l'.funds + (if Paid(from) then 1 else 0) == l.funds + (if Paid(to) then 1 else 0)
    && l'.releases + (if from == Released then 1 else 0) == l.releases + (if to == Released then 1 else 0)
    && l'.refunds + (if from == Refunded then 1 else 0) == l.refunds + (if to == Refunded then 1 else 0)
    && l'.resolutions + (if from == Resolved then 1 else 0) == l.resolutions + (if to == Resolved then 1 else 0)
  }

  lemma MoveCounts(h: H.Harness, h': H.Harness, id: nat, x: Escrow)
    requires Counts(h) && id < |h.world.escrows| && h'.world.escrows == h.world.escrows[id := x]
    requires Follows(h.ledger, h'.ledger, h.world.escrows[id].state, x.state) && x.amount == h.world.escrows[id].amount
    requires h'.totalFunded == h.totalFunded + if Paid(x.state) && !Paid(h.world.escrows[id].state) then x.amount else 0
    requires Paid(h.world.escrows[id].state) ==> Paid(x.state)
    ensures Counts(h')
  {
    DepositAt(h.world.escrows, id);
    EscrowMoves(h.world.escrows, id, x);
    hide HowMany, Deposits, Total;
  }

  lemma JoinCounts(h: H.Harness, h': H.Harness, x: Escrow)
    requires Counts(h) && x.state == Created && h'.world.escrows == h.world.escrows + [x]
    requires h'.totalFunded == h.totalFunded && h'.ledger.creates == h.ledger.creates + 1
    requires h'.ledger.funds == h.ledger.funds && h'.ledger.releases == h.ledger.releases
    requires h'.ledger.refunds == h.ledger.refunds && h'.ledger.resolutions == h.ledger.resolutions
    ensures Counts(h')
  {
    EscrowJoins(h.world.escrows, x);
    hide HowMany, Deposits, Total;
  }

  lemma SettlementMoves(v: Verifier, w: World, sender: Address, op: Op)
    requires op.Release? || op.Refund? || op.ResolveDispute?
    requires Step(v, w, sender, op).Ok?
    ensures op.id < |w.escrows| && w.escrows[op.id].state == if op.ResolveDispute? then Disputed else Funded
    ensures Step(v, w, sender, op).value.escrows == w.escrows[op.id := w.escrows[op.id].(
              state := if op.Release? then Released else if op.Refund? then Refunded else Resolved)]
  {
    CallMoves(v, w, sender, op);
    hide Step;
  }

  lemma SettlementCounts(h: H.Harness, e: Entry, tx: Tx, w': World)
    requires Counts(h) && RightOp(e, tx.op) && (e.Release? || e.Refund? || e.ResolveDispute?)
    requires Step(Mock(h.shouldVerify), h.world, tx.sender, tx.op) == Ok(w')
    ensures Counts(Accept(h, e, tx, w'))
  {
    hide Step, Counts, Accept, Register;
    SettlementMoves(Mock(h.shouldVerify), h.world, tx.sender, tx.op);
    BooksMove(h, e, tx, w');
    hide RightOp;
    MoveCounts(h, Accept(h, e, tx, w'), tx.op.id, w'.escrows[tx.op.id]);
  }

  lemma AcceptanceCounts(h: H.Harness, e: Entry, tx: Tx, w': World)
    requires Counts(h) && RightOp(e, tx.op) && !e.SetVerifierVerdict? && !e.ResolveDisputeUnauthorized?
    requires Step(Mock(h.shouldVerify), h.world, tx.sender, tx.op) == Ok(w')
    ensures Counts(Accept(h, e, tx, w'))
  {
    hide Step, Counts, Accept, Register;
    if e.Release? || e.Refund? || e.ResolveDispute? {
      SettlementCounts(h, e, tx, w');
    } else {
      CallMoves(Mock(h.shouldVerify), h.world, tx.sender, tx.op);
      BooksMove(h, e, tx, w');
      var h' := Accept(h, e, tx, w');
      if e.CreateEscrow? {
        var x: Escrow :| x.state == Created && w'.escrows == h.world.escrows + [x];
        JoinCounts(h, h', x);
      } else if e.Fund? || e.RaiseDispute? || e.RotateArbiter? {
        MoveCounts(h, h', tx.op.id, w'.escrows[tx.op.id]);
      } else {
        IdleCounts(h, h');
      }
    }
  }

  lemma IdleCounts(h: H.Harness, h': H.Harness)
    requires Counts(h) && h'.world.escrows == h.world.escrows && h'.totalFunded == h.totalFunded
    requires h'.ledger.creates == h.ledger.creates && h'.ledger.funds == h.ledger.funds
    requires h'.ledger.releases == h.ledger.releases && h'.ledger.refunds == h.ledger.refunds
    requires h'.ledger.resolutions == h.ledger.resolutions
    ensures Counts(h')
  {}

  lemma DepositAt(es: seq<Escrow>, id: nat)
    requires id < |es|
    ensures Deposits(es)[id] == if Paid(es[id].state) then es[id].amount else 0
  {}

  /** How an accepted call moves the counters. */
  lemma BooksMove(h: H.Harness, e: Entry, tx: Tx, w': World)
    requires RightOp(e, tx.op) && !e.SetVerifierVerdict?
    ensures var l, l' := h.ledger, Accept(h, e, tx, w').ledger;
            && Accept(h, e, tx, w').world == w'
            && l'.creates == l.creates + (if e.CreateEscrow? then 1 else 0)
            && l'.funds == l.funds + (if e.Fund? then 1 else 0)
            && l'.releases == l.releases + (if e.Release? then 1 else 0)
            && l'.refunds == l.refunds + (if e.Refund? then 1 else 0)
            && l'.resolutions == l.resolutions + (if e.ResolveDispute? then 1 else 0)
            && l'.rotations == l.rotations + (if e.RotateArbiter? then 1 else 0)
            && Accept(h, e, tx, w').totalFunded == h.totalFunded + (if e.Fund? then tx.op.value else 0)
            && RightOp(e, tx.op)
  {
    hide Raise, GetState;
  }

  lemma EntryCounts(c: Setup, h: H.Harness, e: Entry)
    requires GoodSetup(c) && Sound(c, h) && Counts(h)
    ensures Counts(Enter(c, h, e))
  {
    hide Step, Intended, Solvent, Register, Raise, Count, Counts, Accept, RightOp;
    if !e.SetVerifierVerdict? && Intended(c, h, e).Call? {
      var tx := IntendedCall(c, h, e);
      var r := Step(Mock(h.shouldVerify), h.world, tx.sender, tx.op);
      if r.Err? {
        RefusalCounts(h, e, tx);
      } else {
        if e.ResolveDisputeUnauthorized? { UnauthorizedFails(c, h, e, tx); }
        AcceptanceCounts(h, e, tx, r.value);
      }
    } else {
      SameCounts(h, Enter(c, h, e));
    }
  }

  lemma SameCounts(h: H.Harness, h': H.Harness)
    requires Counts(h) && h'.world == h.world && h'.totalFunded == h.totalFunded && h'.ledger == h.ledger
    ensures Counts(h')
  {}

  lemma RefusalCounts(h: H.Harness, e: Entry, tx: Tx)
    requires Counts(h)
    ensures Counts(h.(ledger := Register(h, e, tx)))
  {
    hide GetState, MayRotate;
  }

  /** After any sequence of entry points the counters are the storage's own
      numbers: creations, fundings, releases, refunds and rulings, each exactly
      once, and the total funded is what was deposited. */
  lemma {:induction false} CountersAreTheStorage(c: Setup, h: H.Harness, es: seq<Entry>)
    requires GoodSetup(c) && Deployed(c, h)
    ensures Counts(EnterAll(c, h, es)) && Sound(c, EnterAll(c, h, es))
    decreases |es|
  {
    EnterLast(c, h, es);
    hide EnterAll, Enter, Sound, Counts;
    if es == [] {
      DeployedIsSound(c, h);
      NothingCounted(c, h);
    } else {
      var before := EnterAll(c, h, es[..|es| - 1]);
      hide Deployed, GoodSetup;
      CountersAreTheStorage(c, h, es[..|es| - 1]);
      EntryCounts(c, before, es[|es| - 1]);
      EnterKeepsSound(c, before, es[|es| - 1]);
    }
  }

  lemma EnterLast(c: Setup, h: H.Harness, es: seq<Entry>)
    requires |c.pool| >= 3
    ensures EnterAll(c, h, es) == if es == [] then h else Enter(c, EnterAll(c, h, es[..|es| - 1]), es[|es| - 1])
  {
    hide Enter;
  }

  lemma NothingCounted(c: Setup, h: H.Harness)
    requires Deployed(c, h)
    ensures Counts(h)
  {
    assert Lifecycle.Flags([], Paid) == [] && Lifecycle.Flags([], IsReleased) == [] && Lifecycle.Flags([], IsRefunded) == [] && Lifecycle.Flags([], IsResolved) == [];
    assert Deposits([]) == [];
  }
}
