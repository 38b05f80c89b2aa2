// The shared fuzz harness as a state machine around the contract, and the seven
// properties its authors sample, proved for every sequence of entry-point calls.
module Harness {
  import opened Basics
  import opened ZkTypes
  import opened EscrowMachine
  import opened Solvency
  import opened Lifecycle
  import opened Selection

  const TEN_ETHER: Word := 10_000_000_000_000_000_000

  /** The actor pool, the harness's own address (it owns the contract), and the
      hash the roles are drawn from. */
  datatype Setup = Setup(pool: seq<Address>, self: Address, hash: (Word, Word) -> nat)

  ghost predicate GoodSetup(c: Setup) {
    && |c.pool| >= 3
    && (forall i, j | 0 <= i < j < |c.pool| :: c.pool[i] != c.pool[j])
    && ZERO_ADDRESS !in c.pool && c.self !in c.pool
  }

  datatype Ledger = Ledger(
    creates: nat, funds: nat, releases: nat, refunds: nat, resolutions: nat, rotations: nat,
    createAttempts: nat, fundOpportunities: nat, settleOpportunities: nat, rotationOpportunities: nat,
    fundWrongStateAttempts: nat)

  datatype Flags = Flags(
    invalidTransitionSeen: bool, fundsLeftTheParties: bool, nullifierReuseSeen: bool,
    ledgerInconsistent: bool, rotationBrokeItsGuards: bool)

  datatype Harness = Harness(
    world: World, created: seq<Word>, lastState: map<Word, State>, releaseCount: map<Word, nat>,
    totalFunded: nat, shouldVerify: bool, ledger: Ledger, flags: Flags)

  datatype Entry =
    | CreateEscrow(amount: Word, commitment: Word)
    | Fund(seed: Word)
    | Release(seed: Word, nullifier: Word)
    | SetVerifierVerdict(value: bool)
    | Refund(seed: Word)
    | RaiseDispute(seed: Word, asSeller: bool)
    | RotateArbiter(seed: Word, actorSeed: Word)
    | SubmitEvidence(seed: Word, asSeller: bool)
    | ResolveDispute(seed: Word, sellerWins: bool)
    | ResolveDisputeUnauthorized(seed: Word, sellerWins: bool)
    | Withdraw(seed: Word)

  function Mock(shouldVerify: bool): Verifier {
    (proof: Proof, s: Signals) => shouldVerify
  }

  const NO_PROOF: Proof := Proof((0, 0), (0, 0, 0, 0), (0, 0))

  function Ruled(sellerWins: bool): Ruling { if sellerWins then SellerWins else BuyerWins }

  // ---- The call an entry point makes --------------------------------------

  function ActorAt(c: Setup, seed: nat): Address
    requires |c.pool| >= 3
  {
    c.pool[seed % |c.pool|]
  }

  /** The escrow an entry point aims at. */
  function Target(h: Harness, e: Entry): Pick {
    match e
    case CreateEscrow(_, _) => Nobody
    case SetVerifierVerdict(_) => Nobody
    case Withdraw(_) => Nobody
    case Fund(seed) => if seed % 4 != 0 then PickFrom(h.world, h.created, seed, Created, 0) else PickAny(h.created, seed)
    case _ => PickAny(h.created, e.seed)
  }

  function CallOn(c: Setup, e: Entry, id: Word, x: Escrow): Tx
    requires |c.pool| >= 3
  {
    match e
    case Fund(_) => Tx(x.buyer, Op.Fund(id, x.amount))
    case Release(_, n) => Tx(c.self, Op.Release(id, Bound(n, 1, 8), NO_PROOF))
    case Refund(_) => Tx(x.seller, Op.Refund(id))
    case RaiseDispute(_, asSeller) => Tx(if asSeller then x.seller else x.buyer, Op.RaiseDispute(id, "fuzz evidence"))
    case RotateArbiter(_, a) => Tx(c.self, Op.SetArbiter(id, ActorAt(c, a)))
    case SubmitEvidence(_, asSeller) => Tx(if asSeller then x.seller else x.buyer, Op.SubmitEvidence(id, "fuzz evidence"))
    case ResolveDispute(_, sw) => Tx(x.arbiter, Op.ResolveDispute(id, Ruled(sw), "fuzz rationale"))
    case ResolveDisputeUnauthorized(_, sw) => Tx(x.buyer, Op.ResolveDispute(id, Ruled(sw), "unauthorized"))
    case _ => Tx(c.self, Op.Withdraw)
  }

  datatype Intent = NoCall | Call(tx: Tx)

  function CreateTx(c: Setup, amount: Word, commitment: Word): Tx
    requires |c.pool| >= 3
  {
    var n, hash := |c.pool|, c.hash(amount, commitment);
    SellerIsNotBuyer(n, hash);
    Tx(c.pool[Buyer(n, hash)],
       Op.CreateEscrow(c.pool[Seller(n, hash)], c.pool[Arbiter(n, hash)], Bound(amount, 1, TEN_ETHER), commitment))
  }

  /** Everything an entry point checks before it calls the contract. */
  function Intended(c: Setup, h: Harness, e: Entry): Intent
    requires |c.pool| >= 3
  {
    match e
    case SetVerifierVerdict(_) => NoCall
    case Withdraw(seed) => Call(Tx(ActorAt(c, seed), Op.Withdraw))
    case CreateEscrow(amount, commitment) =>
      if h.ledger.createAttempts + 1 >= TWO_256 then NoCall else Call(CreateTx(c, amount, commitment))
    case _ =>
      match Target(h, e)
      case Nobody => NoCall
      case Chosen(id) =>
        if GetState(h.world, id) == None then NoCall else
          var x := h.world.escrows[id];
          var tx := CallOn(c, e, id, x);
          if !e.Release? && !e.RotateArbiter? && tx.sender !in c.pool then NoCall
          else if e.Fund? && (x.amount == 0 || Bal(h.world.wealth, x.buyer) < x.amount) then NoCall
          else Call(tx)
  }

  // ---- Bookkeeping --------------------------------------------------------

  /** The opportunity this call is, judged on the state it will run against. */
  function Register(h: Harness, e: Entry, tx: Tx): Ledger {
    var l, w := h.ledger, h.world;
    match tx.op
    case CreateEscrow(_, _, _, _) => l.(createAttempts := l.createAttempts + 1)
    case Fund(id, _) =>
      if GetState(w, id) == Created then l.(fundOpportunities := l.fundOpportunities + 1)
      else l.(fundWrongStateAttempts := l.fundWrongStateAttempts + 1)
    case Release(id, n, _) =>
      if GetState(w, id) == Funded && n !in w.spent && h.shouldVerify
      then l.(settleOpportunities := l.settleOpportunities + 1) else l
    case Refund(id) =>
      if GetState(w, id) == Funded then l.(settleOpportunities := l.settleOpportunities + 1) else l
    case ResolveDispute(id, _, _) =>
      if e.ResolveDispute? && GetState(w, id) == Disputed then l.(settleOpportunities := l.settleOpportunities + 1) else l
    case SetArbiter(id, a) =>
      if MayRotate(w, id, a) then l.(rotationOpportunities := l.rotationOpportunities + 1) else l
    case _ => l
  }

  predicate MayRotate(w: World, id: nat, newArbiter: Address) {
    GetState(w, id) == Disputed && newArbiter != ZERO_ADDRESS && !IsParty(w.escrows[id], newArbiter)
  }

  /** The counter that must have moved before a success of e counts. */
  function Opportunities(l: Ledger, e: Entry): nat {
    if e.CreateEscrow? then l.createAttempts else if e.Fund? then l.fundOpportunities else l.settleOpportunities
  }

  function Count(l: Ledger, e: Entry): Ledger {
    match e
    case CreateEscrow(_, _) => l.(creates := l.creates + 1)
    case Fund(_) => l.(funds := l.funds + 1)
    case Release(_, _) => l.(releases := l.releases + 1)
    case Refund(_) => l.(refunds := l.refunds + 1)
    case ResolveDispute(_, _) => l.(resolutions := l.resolutions + 1)
    case RotateArbiter(_, _) => l.(rotations := l.rotations + 1)
    case _ => l
  }

  predicate Counted(e: Entry) {
    e.CreateEscrow? || e.Fund? || e.Release? || e.Refund? || e.ResolveDispute?
  }

  predicate Observing(e: Entry) {
    !e.ResolveDisputeUnauthorized? && !e.Withdraw? && !e.SetVerifierVerdict?
  }

  /** The id an observing entry looks at after its call. */
  function Watched(h: Harness, tx: Tx): nat {
    match tx.op
    case CreateEscrow(_, _, _, _) => |h.world.escrows|
    case Withdraw => 0
    case UpgradeTo(_) => 0
    case Transfer(_, _) => 0
    case ForceEther(_) => 0
    case _ => tx.op.id
  }

  function LastSeen(lastState: map<Word, State>, id: nat): State {
    if id < TWO_256 && id in lastState then lastState[id] else None
  }

  predicate GuardsBroken(w: World, id: nat, newArbiter: Address, w': World) {
    || GetState(w, id) != Disputed || newArbiter == ZERO_ADDRESS
    || id >= |w.escrows| || id >= |w'.escrows|
    || IsParty(w.escrows[id], newArbiter)
    || w'.escrows[id].buyer != w.escrows[id].buyer || w'.escrows[id].seller != w.escrows[id].seller
    || w'.escrows[id].arbiter != newArbiter || GetState(w', id) != GetState(w, id)
  }

  function Raise(h: Harness, e: Entry, tx: Tx, registered: Ledger, w': World): Flags {
    var f, w, id := h.flags, h.world, Watched(h, tx);
    Flags(
      f.invalidTransitionSeen || (Observing(e) && !LegalTransition(LastSeen(h.lastState, id), GetState(w', id))),
      f.fundsLeftTheParties || e.ResolveDisputeUnauthorized?
        || (Counted(e) && Settles(tx.op) && id < |w.escrows| && Bal(w'.pending, w.escrows[id].arbiter) > Bal(w.pending, w.escrows[id].arbiter)),
      f.nullifierReuseSeen || (tx.op.Release? && Bal(h.releaseCount, tx.op.nullifier) > 0),
      f.ledgerInconsistent || (Counted(e) && Opportunities(registered, e) == Opportunities(h.ledger, e)),
      f.rotationBrokeItsGuards || (tx.op.SetArbiter? && GuardsBroken(w, id, tx.op.newArbiter, w')))
  }

  function SpentOnce(counts: map<Word, nat>, nullifier: Word): map<Word, nat> {
    counts[nullifier := Bal(counts, nullifier) + 1]
  }

  /** The harness after the contract has accepted the call. */
  function Accept(h: Harness, e: Entry, tx: Tx, w': World): Harness {
    var registered, id := Register(h, e, tx), Watched(h, tx);
    Harness(
      w',
      if tx.op.CreateEscrow? && id < TWO_256 then h.created + [id] else h.created,
      if Observing(e) && id < TWO_256 then h.lastState[id := GetState(w', id)] else h.lastState,
      if tx.op.Release? then SpentOnce(h.releaseCount, tx.op.nullifier) else h.releaseCount,
      if tx.op.Fund? then h.totalFunded + tx.op.value else h.totalFunded,
      h.shouldVerify,
      Count(registered, e),
      Raise(h, e, tx, registered, w'))
  }

  /** The harness after the call has been made. */
  function Conclude(h: Harness, e: Entry, tx: Tx, r: Result<World>): Harness {
    match r
    case Err(_) => h.(ledger := Register(h, e, tx))
    case Ok(w') => Accept(h, e, tx, w')
  }

  /** The harness after an entry point has run. */
  function Enter(c: Setup, h: Harness, e: Entry): Harness
    requires |c.pool| >= 3
  {
    if e.SetVerifierVerdict? then h.(shouldVerify := e.value) else
      match Intended(c, h, e)
      case NoCall => h
      case Call(tx) => Conclude(h, e, tx, EscrowMachine.Step(Mock(h.shouldVerify), h.world, tx.sender, tx.op))
  }

  /** Entry points that aim at an escrow, with the target and the guards decided. */
  lemma EnterAims(c: Setup, h: Harness, e: Entry, id: Word, tx: Tx)
    requires |c.pool| >= 3 && !e.SetVerifierVerdict? && !e.CreateEscrow? && !e.Withdraw?
    requires Target(h, e) == Chosen(id) && GetState(h.world, id) != None && tx == CallOn(c, e, id, h.world.escrows[id])
    requires e.Release? || e.RotateArbiter? || tx.sender in c.pool
    requires e.Fund? ==> 0 < h.world.escrows[id].amount <= Bal(h.world.wealth, tx.sender)
    ensures var r := EscrowMachine.Step(Mock(h.shouldVerify), h.world, tx.sender, tx.op);
            Enter(c, h, e) == if r.Ok? then Accept(h, e, tx, r.value) else h.(ledger := Register(h, e, tx))
  {
    hide EscrowMachine.Step, Accept, Register, Target;
  }

  lemma EnterIdles(c: Setup, h: Harness, e: Entry)
    requires |c.pool| >= 3 && !e.SetVerifierVerdict? && !e.CreateEscrow? && !e.Withdraw?
    requires Target(h, e).Chosen? ==>
               var id := Target(h, e).id;
               || GetState(h.world, id) == None
               || (!e.Release? && !e.RotateArbiter? && CallOn(c, e, id, h.world.escrows[id]).sender !in c.pool)
               || (e.Fund? && (h.world.escrows[id].amount == 0 || Bal(h.world.wealth, h.world.escrows[id].buyer) < h.world.escrows[id].amount))
    ensures Enter(c, h, e) == h
  {
    hide EscrowMachine.Step, Accept, Register, CallOn, Target;
  }

  predicate Settling(e: Entry) { e.Release? || e.Refund? || e.ResolveDispute? }

  /** A settlement that must succeed, given the state it will run against. */
  predicate SettleOpportunity(h: Harness, e: Entry, id: nat) {
    if e.ResolveDispute? then GetState(h.world, id) == Disputed else
      && GetState(h.world, id) == Funded
      && (e.Release? ==> Bound(e.nullifier, 1, 8) !in h.world.spent && h.shouldVerify)
  }

  function SettleLedger(h: Harness, e: Entry, id: nat): Ledger {
    h.ledger.(settleOpportunities := h.ledger.settleOpportunities + if SettleOpportunity(h, e, id) then 1 else 0)
  }

  /** The flags once a settlement has gone through. */
  function SettleFlags(h: Harness, e: Entry, id: Word, arbiter: Address, w': World): Flags {
    var f := h.flags;
    Flags(
      f.invalidTransitionSeen || !LegalTransition(LastSeen(h.lastState, id), GetState(w', id)),
      f.fundsLeftTheParties || Bal(w'.pending, arbiter) > Bal(h.world.pending, arbiter),
      f.nullifierReuseSeen || (e.Release? && Bal(h.releaseCount, Bound(e.nullifier, 1, 8)) > 0),
      f.ledgerInconsistent || !SettleOpportunity(h, e, id),
      f.rotationBrokeItsGuards)
  }

  lemma SettlementRegisters(c: Setup, h: Harness, e: Entry, id: Word, tx: Tx)
    requires |c.pool| >= 3 && Settling(e)
    requires GetState(h.world, id) != None && tx == CallOn(c, e, id, h.world.escrows[id])
    ensures Register(h, e, tx) == SettleLedger(h, e, id)
  {
    hide Bound;
  }

  lemma SettlementRaises(c: Setup, h: Harness, e: Entry, id: Word, tx: Tx, w': World)
    requires |c.pool| >= 3 && Settling(e)
    requires GetState(h.world, id) != None && tx == CallOn(c, e, id, h.world.escrows[id])
    ensures Raise(h, e, tx, SettleLedger(h, e, id), w') == SettleFlags(h, e, id, h.world.escrows[id].arbiter, w')
  {
    hide Bound, LegalTransition, LastSeen, Bal, SettleOpportunity, GuardsBroken;
  }

  /** What a settlement leaves, every field spelled out. */
  function AfterSettlement(h: Harness, e: Entry, id: Word, tx: Tx): Harness
    requires Settling(e) && GetState(h.world, id) != None
  {
    var l, r := SettleLedger(h, e, id), EscrowMachine.Step(Mock(h.shouldVerify), h.world, tx.sender, tx.op);
    if r.Err? then h.(ledger := l) else
      h.(world := r.value, lastState := h.lastState[id := GetState(r.value, id)], ledger := Count(l, e),
         releaseCount := if e.Release? then SpentOnce(h.releaseCount, Bound(e.nullifier, 1, 8)) else h.releaseCount,
         flags := SettleFlags(h, e, id, h.world.escrows[id].arbiter, r.value))
  }

  lemma SettlementEnters(c: Setup, h: Harness, e: Entry, id: Word, tx: Tx)
    requires |c.pool| >= 3 && Settling(e)
    requires Target(h, e) == Chosen(id) && GetState(h.world, id) != None && tx == CallOn(c, e, id, h.world.escrows[id])
    requires e.Release? || tx.sender in c.pool
    ensures Enter(c, h, e) == AfterSettlement(h, e, id, tx)
  {
    EnterAims(c, h, e, id, tx);
    SettlementRegisters(c, h, e, id, tx);
    var r := EscrowMachine.Step(Mock(h.shouldVerify), h.world, tx.sender, tx.op);
    if r.Ok? { SettlementRaises(c, h, e, id, tx, r.value); }
    hide Enter, EscrowMachine.Step, Register, SettleLedger, SettleFlags, Raise, Count, Bound, Target, GetState;
  }

  /** What funding leaves, every field spelled out. */
  function AfterFunding(h: Harness, id: Word, tx: Tx): Harness
    requires tx.op.Fund?
  {
    var opportunity, l := GetState(h.world, id) == Created, h.ledger;
    var l' := if opportunity then l.(fundOpportunities := l.fundOpportunities + 1)
              else l.(fundWrongStateAttempts := l.fundWrongStateAttempts + 1);
    var r, f := EscrowMachine.Step(Mock(h.shouldVerify), h.world, tx.sender, tx.op), h.flags;
    if r.Err? then h.(ledger := l') else
      h.(world := r.value, lastState := h.lastState[id := GetState(r.value, id)],
         ledger := l'.(funds := l.funds + 1), totalFunded := h.totalFunded + tx.op.value,
         flags := f.(
           invalidTransitionSeen := f.invalidTransitionSeen || !LegalTransition(LastSeen(h.lastState, id), GetState(r.value, id)),
           ledgerInconsistent := f.ledgerInconsistent || !opportunity))
  }

  lemma FundingEnters(c: Setup, h: Harness, e: Entry, id: Word, tx: Tx)
    requires |c.pool| >= 3 && e.Fund? && Target(h, e) == Chosen(id) && GetState(h.world, id) != None
    requires tx == CallOn(c, e, id, h.world.escrows[id]) && tx.sender in c.pool
    requires 0 < tx.op.value <= Bal(h.world.wealth, tx.sender)
    ensures Enter(c, h, e) == AfterFunding(h, id, tx)
  {
    EnterAims(c, h, e, id, tx);
    hide Enter, EscrowMachine.Step, Bal, Target, LegalTransition, LastSeen, GuardsBroken;
  }

  /** What a rotation leaves, every field spelled out. */
  function AfterRotation(h: Harness, id: Word, tx: Tx): Harness
    requires tx.op.SetArbiter?
  {
    var a, l := tx.op.newArbiter, h.ledger;
    var l' := if MayRotate(h.world, id, a) then l.(rotationOpportunities := l.rotationOpportunities + 1) else l;
    var r, f := EscrowMachine.Step(Mock(h.shouldVerify), h.world, tx.sender, tx.op), h.flags;
    if r.Err? then h.(ledger := l') else
      h.(world := r.value, lastState := h.lastState[id := GetState(r.value, id)],
         ledger := l'.(rotations := l.rotations + 1),
         flags := f.(
           invalidTransitionSeen := f.invalidTransitionSeen || !LegalTransition(LastSeen(h.lastState, id), GetState(r.value, id)),
           rotationBrokeItsGuards := f.rotationBrokeItsGuards || GuardsBroken(h.world, id, a, r.value)))
  }

  lemma RotationEnters(c: Setup, h: Harness, e: Entry, id: Word, tx: Tx)
    requires |c.pool| >= 3 && e.RotateArbiter? && Target(h, e) == Chosen(id) && GetState(h.world, id) != None
    requires tx == CallOn(c, e, id, h.world.escrows[id])
    ensures Enter(c, h, e) == AfterRotation(h, id, tx)
  {
    EnterAims(c, h, e, id, tx);
    hide Enter, EscrowMachine.Step, Bal, Target, LegalTransition, LastSeen, GuardsBroken, MayRotate, GetState;
  }

  /** What a disputing or evidence call leaves. */
  lemma EvidenceEnters(c: Setup, h: Harness, e: Entry, id: Word, tx: Tx)
    requires |c.pool| >= 3 && (e.RaiseDispute? || e.SubmitEvidence?)
    requires Target(h, e) == Chosen(id) && GetState(h.world, id) != None
    requires tx == CallOn(c, e, id, h.world.escrows[id]) && tx.sender in c.pool
    ensures var r, f := EscrowMachine.Step(Mock(h.shouldVerify), h.world, tx.sender, tx.op), h.flags;
            if r.Err? then Enter(c, h, e) == h else
              Enter(c, h, e) == h.(
                world := r.value, lastState := h.lastState[id := GetState(r.value, id)],
                flags := f.(invalidTransitionSeen := f.invalidTransitionSeen
                  || !LegalTransition(LastSeen(h.lastState, id), GetState(r.value, id))))
  {
    EnterAims(c, h, e, id, tx);
    hide Enter, EscrowMachine.Step, Bal, Target, LegalTransition, LastSeen, GuardsBroken, GetState;
  }

  /** What a creation leaves. */
  lemma CreationEnters(c: Setup, h: Harness, e: Entry, tx: Tx)
    requires |c.pool| >= 3 && e.CreateEscrow? && h.ledger.createAttempts + 1 < TWO_256
    requires tx == CreateTx(c, e.amount, e.commitment) && |h.world.escrows| < TWO_256
    ensures var l, id: Word := h.ledger.(createAttempts := h.ledger.createAttempts + 1), |h.world.escrows|;
            var r, f := EscrowMachine.Step(Mock(h.shouldVerify), h.world, tx.sender, tx.op), h.flags;
            if r.Err? then Enter(c, h, e) == h.(ledger := l) else
              Enter(c, h, e) == h.(
                world := r.value, created := h.created + [id], lastState := h.lastState[id := GetState(r.value, id)],
                ledger := l.(creates := l.creates + 1),
                flags := f.(invalidTransitionSeen := f.invalidTransitionSeen
                  || !LegalTransition(LastSeen(h.lastState, id), GetState(r.value, id))))
  {
    hide EscrowMachine.Step, Bal, LegalTransition, LastSeen, GuardsBroken, GetState;
  }

  function EnterAll(c: Setup, h: Harness, es: seq<Entry>): Harness
    requires |c.pool| >= 3
  {
    if es == [] then h else Enter(c, EnterAll(c, h, es[..|es| - 1]), es[|es| - 1])
  }

  /** A fresh deployment: V2 behind the proxy, owned by the harness. */
  ghost predicate Deployed(c: Setup, h: Harness) {
    && IsGenesis(h.world.(version := V1)) && h.world.version == V2 && h.world.owner == c.self
    && h.created == [] && h.lastState == map[] && h.releaseCount == map[] && h.totalFunded == 0
    && h.ledger == Ledger(0, 0, 0, 0, 0, 0, 0, 0, 0, 0, 0)
    && h.flags == Flags(false, false, false, false, false)
  }

  // ---- The seven properties -----------------------------------------------

  function SumOver(pool: seq<Address>, m: map<Address, Word>): nat {
    if pool == [] then 0 else SumOver(pool[..|pool| - 1], m) + Bal(m, pool[|pool| - 1])
  }

  function LockedOver(w: World, created: seq<Word>): nat {
    if created == [] then 0 else
      var id := created[|created| - 1];
      LockedOver(w, created[..|created| - 1]) + if id < |w.escrows| then Lock(w.escrows[id]) else 0
  }

  predicate BalanceEqualsObligations(c: Setup, h: Harness) {
    var credited := Bal(h.world.pending, c.self) + SumOver(c.pool, h.world.pending);
    credited == h.world.total && h.world.balance == credited + LockedOver(h.world, h.created)
  }

  predicate ArbiterNeverCredited(h: Harness) { !h.flags.fundsLeftTheParties }

  predicate StateMachineValid(h: Harness) { !h.flags.invalidTransitionSeen }

  predicate ObligationsNeverExceedFunded(h: Harness) { h.world.total <= h.totalFunded }

  predicate NullifierNeverReused(h: Harness) { !h.flags.nullifierReuseSeen }

  predicate LedgerConsistent(h: Harness) { !h.flags.ledgerInconsistent }

  predicate RotationRespectsItsGuards(h: Harness) { !h.flags.rotationBrokeItsGuards }

  /** Every opportunity became a success and every success was an opportunity. */
  predicate LedgerExact(l: Ledger) {
    && l.creates == l.createAttempts && l.funds == l.fundOpportunities && l.rotations == l.rotationOpportunities
    && l.releases + l.refunds + l.resolutions == l.settleOpportunities
  }

  // ---- What every entry point keeps ---------------------------------------

  ghost predicate WorldSound(c: Setup, h: Harness) {
    var w := h.world;
    && Solvent(w) && Supply(w) < TWO_256 && w.forced == 0 && w.version == V2 && w.owner == c.self
    && w.balance <= h.totalFunded
    && (forall a | a in w.pending :: a in c.pool)
    && (forall i | 0 <= i < |w.escrows| :: InPool(c, w.escrows[i]))
  }

  predicate InPool(c: Setup, x: Escrow) { x.buyer in c.pool && x.seller in c.pool && x.arbiter in c.pool }

  ghost predicate Tracks(h: Harness) {
    && |h.created| == |h.world.escrows| == h.ledger.creates
    && (forall i | 0 <= i < |h.created| :: h.created[i] == i)
    && (forall id :: LastSeen(h.lastState, id) == GetState(h.world, id))
    && (forall n: Word :: Bal(h.releaseCount, n) > 0 <==> n in h.world.spent)
  }

  ghost predicate Sound(c: Setup, h: Harness) {
    WorldSound(c, h) && Tracks(h) && LedgerExact(h.ledger) && h.flags == Flags(false, false, false, false, false)
  }

  ghost predicate RightOp(e: Entry, op: Op) {
    && (e.CreateEscrow? <==> op.CreateEscrow?)
    && (e.Fund? <==> op.Fund?)
    && (e.Release? <==> op.Release?)
    && (e.Refund? <==> op.Refund?)
    && (e.RaiseDispute? <==> op.RaiseDispute?)
    && (e.RotateArbiter? <==> op.SetArbiter?)
    && (e.SubmitEvidence? <==> op.SubmitEvidence?)
    && (e.ResolveDispute? || e.ResolveDisputeUnauthorized? <==> op.ResolveDispute?)
    && (e.Withdraw? <==> op.Withdraw?)
  }

  /** What the entry points guarantee about the calls they make. */
  lemma IntendedCall(c: Setup, h: Harness, e: Entry) returns (tx: Tx)
    requires |c.pool| >= 3 && Intended(c, h, e).Call?
    ensures Intended(c, h, e) == Call(tx) && RightOp(e, tx.op)
    ensures !tx.op.UpgradeTo? && !tx.op.Transfer? && !tx.op.ForceEther?
    ensures !e.CreateEscrow? && !e.Withdraw? ==>
              tx.op.id < |h.world.escrows| && tx == CallOn(c, e, tx.op.id, h.world.escrows[tx.op.id])
    ensures e.Withdraw? ==> tx.sender in c.pool
    ensures e.CreateEscrow? ==> h.ledger.createAttempts + 1 < TWO_256 && tx == CreateTx(c, e.amount, e.commitment)
    ensures e.Fund? ==> Bal(h.world.wealth, tx.sender) >= tx.op.value
  {
    tx := Intended(c, h, e).tx;
  }

  /** A registered opportunity always succeeds. */
  lemma OpportunitySucceeds(c: Setup, h: Harness, e: Entry, tx: Tx)
    requires GoodSetup(c) && Sound(c, h) && Intended(c, h, e) == Call(tx)
    requires EscrowMachine.Step(Mock(h.shouldVerify), h.world, tx.sender, tx.op).Err?
    ensures LedgerExact(Register(h, e, tx)) && Register(h, e, tx).creates == h.ledger.creates
  {
    hide Solvent, Tracks, RightOp;
    var _ := IntendedCall(c, h, e);
    CallSucceeds(c, h, e, tx);
  }

  lemma CallSucceeds(c: Setup, h: Harness, e: Entry, tx: Tx)
    requires GoodSetup(c) && Sound(c, h) && Intended(c, h, e) == Call(tx)
    ensures var ok := EscrowMachine.Step(Mock(h.shouldVerify), h.world, tx.sender, tx.op).Ok?;
            && (e.CreateEscrow? ==> ok)
            && (e.Fund? && GetState(h.world, tx.op.id) == Created ==> ok)
            && (e.Release? && GetState(h.world, tx.op.id) == Funded && tx.op.nullifier !in h.world.spent && h.shouldVerify ==> ok)
            && (e.Refund? && GetState(h.world, tx.op.id) == Funded ==> ok)
            && (e.ResolveDispute? && GetState(h.world, tx.op.id) == Disputed ==> ok)
            && (e.RotateArbiter? && MayRotate(h.world, tx.op.id, tx.op.newArbiter) ==> ok)
  {
    var _ := IntendedCall(c, h, e);
    var w := h.world;
    if e.CreateEscrow? {
      var n, hash := |c.pool|, c.hash(e.amount, e.commitment);
      SellerIsNotBuyer(n, hash);
      DistinctActors(c, Buyer(n, hash), Seller(n, hash));
      DistinctActors(c, Buyer(n, hash), Arbiter(n, hash));
      DistinctActors(c, Seller(n, hash), Arbiter(n, hash));
    } else if e.Release? || e.Refund? || e.ResolveDispute? {
      if Open(GetState(w, tx.op.id)) {
        CreditFits(w, tx.op.id, w.escrows[tx.op.id].buyer);
        CreditFits(w, tx.op.id, w.escrows[tx.op.id].seller);
      }
    }
  }

  lemma DistinctActors(c: Setup, i: nat, j: nat)
    requires GoodSetup(c) && i < |c.pool| && j < |c.pool| && i != j
    ensures c.pool[i] != c.pool[j] && c.pool[i] != ZERO_ADDRESS
  {
    assert c.pool[i] in c.pool;
  }

  /** A counted success was a registered opportunity. */
  lemma SuccessWasOpportunity(c: Setup, h: Harness, e: Entry, tx: Tx)
    requires |c.pool| >= 3 && Intended(c, h, e) == Call(tx) && RightOp(e, tx.op)
    requires EscrowMachine.Step(Mock(h.shouldVerify), h.world, tx.sender, tx.op).Ok?
    requires LedgerExact(h.ledger)
    ensures LedgerExact(Count(Register(h, e, tx), e))
    ensures Counted(e) ==> Opportunities(Register(h, e, tx), e) == Opportunities(h.ledger, e) + 1
    ensures Count(Register(h, e, tx), e).creates == h.ledger.creates + if e.CreateEscrow? then 1 else 0
  {}

  /** The facts about one successful call that the invariants need. */
  ghost predicate Succeeded(c: Setup, h: Harness, e: Entry, tx: Tx, w': World, k: Effect) {
    && |c.pool| >= 3 && Intended(c, h, e) == Call(tx) && RightOp(e, tx.op)
    && EscrowMachine.Step(Mock(h.shouldVerify), h.world, tx.sender, tx.op) == Ok(w')
    && Does(Mock(h.shouldVerify), h.world, w', k)
    && (k.Opens? <==> tx.op.CreateEscrow?) && (k.Finances? <==> tx.op.Fund?) && (k.Closes? <==> Settles(tx.op))
    && (k.Draws? <==> tx.op.Withdraw?) && (tx.op.SetArbiter? <==> k.Revises? && k.ev.ArbiterRotated?)
    && (k.Closes? ==> k.id == tx.op.id)
  }

  lemma PartiesStayInPool(c: Setup, h: Harness, e: Entry, tx: Tx, w': World, k: Effect)
    requires WorldSound(c, h) && Succeeded(c, h, e, tx, w', k)
    ensures forall i | 0 <= i < |w'.escrows| :: InPool(c, w'.escrows[i])
  {
    hide Solvent;
    var _ := IntendedCall(c, h, e);
    EffectTouchesOne(Mock(h.shouldVerify), h.world, w', k);
    var w := h.world;
    if e.CreateEscrow? {
      assert InPool(c, w'.escrows[|w.escrows|]);
    } else if e.RotateArbiter? {
      assert InPool(c, w.escrows[tx.op.id]);
      assert w'.escrows == w.escrows[tx.op.id := w.escrows[tx.op.id].(arbiter := tx.op.newArbiter)];
    } else {
      forall i | 0 <= i < |w'.escrows| ensures InPool(c, w'.escrows[i]) {
        assert InPool(c, w.escrows[i]);
      }
    }
  }

  lemma CreditsStayInPool(c: Setup, h: Harness, e: Entry, tx: Tx, w': World, k: Effect)
    requires WorldSound(c, h) && Succeeded(c, h, e, tx, w', k)
    ensures forall a | a in w'.pending :: a in c.pool
  {
    var _ := IntendedCall(c, h, e);
    if k.Closes? { assert InPool(c, h.world.escrows[k.id]); }
  }

  lemma FundingStaysBacked(c: Setup, h: Harness, e: Entry, tx: Tx, w': World, k: Effect)
    requires WorldSound(c, h) && Succeeded(c, h, e, tx, w', k)
    ensures w'.balance <= if tx.op.Fund? then h.totalFunded + tx.op.value else h.totalFunded
    ensures w'.forced == 0 && w'.version == V2 && w'.owner == c.self
  {
    var _ := IntendedCall(c, h, e);
    StepForces(Mock(h.shouldVerify), h.world, tx);
  }

  /** A ruling asked for by the buyer is refused: creation kept the roles apart. */
  lemma UnauthorizedFails(c: Setup, h: Harness, e: Entry, tx: Tx)
    requires WorldSound(c, h) && |c.pool| >= 3 && Intended(c, h, e) == Call(tx) && e.ResolveDisputeUnauthorized?
    ensures EscrowMachine.Step(Mock(h.shouldVerify), h.world, tx.sender, tx.op).Err?
  {
    var _ := IntendedCall(c, h, e);
    assert Terms(h.world.escrows[tx.op.id]);
  }

  lemma StateMovesOnlyWhereWatched(c: Setup, h: Harness, e: Entry, tx: Tx, w': World, k: Effect)
    requires Succeeded(c, h, e, tx, w', k) && !e.ResolveDisputeUnauthorized?
    ensures forall i :: GetState(w', i) != GetState(h.world, i) ==> i == Watched(h, tx) && Observing(e)
    ensures Observing(e) ==> Watched(h, tx) < TWO_256
    ensures forall i :: LegalTransition(GetState(h.world, i), GetState(w', i))
  {
    EffectTouchesOne(Mock(h.shouldVerify), h.world, w', k);
    forall i ensures LegalTransition(GetState(h.world, i), GetState(w', i)) {
      EffectIsLegal(Mock(h.shouldVerify), h.world, w', k, i);
    }
  }

  lemma ObservationSuffices(w: World, w': World, lastState: map<Word, State>, id: nat, observing: bool)
    requires forall i :: LastSeen(lastState, i) == GetState(w, i)
    requires forall i :: GetState(w', i) != GetState(w, i) ==> i == id && observing
    requires observing ==> id < TWO_256
    ensures var after := if observing && id < TWO_256 then lastState[id := GetState(w', id)] else lastState;
            forall i :: LastSeen(after, i) == GetState(w', i)
  {}

  lemma FlagsStayDown(c: Setup, h: Harness, e: Entry, tx: Tx, w': World, k: Effect)
    requires Sound(c, h) && Succeeded(c, h, e, tx, w', k) && !e.ResolveDisputeUnauthorized?
    ensures Raise(h, e, tx, Register(h, e, tx), w') == h.flags
  {
    StateMovesOnlyWhereWatched(c, h, e, tx, w', k);
    SuccessWasOpportunity(c, h, e, tx);
    if Settles(tx.op) { assert Terms(h.world.escrows[k.id]); }
    assert tx.op.Release? ==> tx.op.nullifier !in h.world.spent;
    if tx.op.SetArbiter? { RotationIsGuarded(c, h, e, tx, w'); }
  }

  lemma RotationIsGuarded(c: Setup, h: Harness, e: Entry, tx: Tx, w': World)
    requires tx.op.SetArbiter? && EscrowMachine.Step(Mock(h.shouldVerify), h.world, tx.sender, tx.op) == Ok(w')
    ensures !GuardsBroken(h.world, tx.op.id, tx.op.newArbiter, w')
  {}

  lemma ListsStayTracked(c: Setup, h: Harness, e: Entry, tx: Tx, w': World, k: Effect)
    requires Sound(c, h) && Succeeded(c, h, e, tx, w', k)
    ensures |w'.escrows| == |h.world.escrows| + if tx.op.CreateEscrow? then 1 else 0
    ensures tx.op.CreateEscrow? ==> Watched(h, tx) == |h.world.escrows| < TWO_256
    ensures w'.spent == if tx.op.Release? then h.world.spent + {tx.op.nullifier} else h.world.spent
  {
    hide Solvent, Intended;
    EffectTouchesOne(Mock(h.shouldVerify), h.world, w', k);
  }

  lemma SuccessKeepsWorld(c: Setup, h: Harness, e: Entry, tx: Tx, w': World, k: Effect)
    requires WorldSound(c, h) && Succeeded(c, h, e, tx, w', k)
    ensures WorldSound(c, Enter(c, h, e))
  {
    PartiesStayInPool(c, h, e, tx, w', k);
    CreditsStayInPool(c, h, e, tx, w', k);
    FundingStaysBacked(c, h, e, tx, w', k);
    StepKeepsSolvency(Mock(h.shouldVerify), h.world, tx.sender, tx.op);
    hide Solvent, Does, EscrowMachine.Step, Raise, Register, Count, Intended;
  }

  lemma SuccessKeepsSound(c: Setup, h: Harness, e: Entry, tx: Tx, w': World, k: Effect)
    requires GoodSetup(c) && Sound(c, h) && Succeeded(c, h, e, tx, w', k) && !e.ResolveDisputeUnauthorized?
    ensures Sound(c, Enter(c, h, e))
  {
    hide Solvent, Terms, Does, EscrowMachine.Step, LegalTransition, GuardsBroken, Raise, Register, Count, Intended, WorldSound;
    SuccessKeepsWorld(c, h, e, tx, w', k);
    StateMovesOnlyWhereWatched(c, h, e, tx, w', k);
    ObservationSuffices(h.world, w', h.lastState, Watched(h, tx), Observing(e));
    FlagsStayDown(c, h, e, tx, w', k);
    SuccessWasOpportunity(c, h, e, tx);
    ListsStayTracked(c, h, e, tx, w', k);
  }

  lemma FailureKeepsSound(c: Setup, h: Harness, e: Entry, tx: Tx)
    requires GoodSetup(c) && Sound(c, h) && Intended(c, h, e) == Call(tx) && !e.SetVerifierVerdict?
    requires EscrowMachine.Step(Mock(h.shouldVerify), h.world, tx.sender, tx.op).Err?
    ensures Sound(c, Enter(c, h, e))
  {
    OpportunitySucceeds(c, h, e, tx);
    hide Solvent, EscrowMachine.Step, Register, Intended;
  }

  lemma {:induction false} StepSucceeded(c: Setup, h: Harness, e: Entry, tx: Tx, w': World) returns (k: Effect)
    requires |c.pool| >= 3 && Intended(c, h, e) == Call(tx)
    requires EscrowMachine.Step(Mock(h.shouldVerify), h.world, tx.sender, tx.op) == Ok(w')
    ensures Succeeded(c, h, e, tx, w', k)
  {
    hide EscrowMachine.Step, Intended, Does;
    var _ := IntendedCall(c, h, e);
    k := StepDoes(Mock(h.shouldVerify), h.world, tx.sender, tx.op);
  }

  /** Every entry point keeps everything. */
  lemma EnterKeepsSound(c: Setup, h: Harness, e: Entry)
    requires GoodSetup(c) && Sound(c, h)
    ensures Sound(c, Enter(c, h, e))
  {
    hide EscrowMachine.Step, Intended, Does, Solvent, Register, Raise, Count, Succeeded;
    if !e.SetVerifierVerdict? && Intended(c, h, e).Call? {
      var tx := Intended(c, h, e).tx;
      var r := EscrowMachine.Step(Mock(h.shouldVerify), h.world, tx.sender, tx.op);
      if r.Err? {
        FailureKeepsSound(c, h, e, tx);
      } else {
        if e.ResolveDisputeUnauthorized? { UnauthorizedFails(c, h, e, tx); }
        var k := StepSucceeded(c, h, e, tx, r.value);
        SuccessKeepsSound(c, h, e, tx, r.value, k);
      }
    }
  }

  lemma {:induction false} RunKeepsSound(c: Setup, h: Harness, es: seq<Entry>)
    requires GoodSetup(c) && Sound(c, h)
    ensures Sound(c, EnterAll(c, h, es))
    decreases |es|
  {
    if es != [] {
      RunKeepsSound(c, h, es[..|es| - 1]);
      EnterKeepsSound(c, EnterAll(c, h, es[..|es| - 1]), es[|es| - 1]);
    }
  }

  lemma DeployedIsSound(c: Setup, h: Harness)
    requires GoodSetup(c) && Deployed(c, h)
    ensures Sound(c, h)
  {
    assert Locks([]) == [];
  }

  // ---- From the invariant to the properties -------------------------------

  lemma {:induction false} PoolHoldsAll(pool: seq<Address>, m: map<Address, Word>)
    requires forall i, j | 0 <= i < j < |pool| :: pool[i] != pool[j]
    requires forall a | a in m :: a in pool
    ensures SumOver(pool, m) == Sum(m)
    decreases |pool|
  {
    if pool == [] {
      assert m == map[];
    } else {
      var n, a := |pool| - 1, pool[|pool| - 1];
      PoolHoldsAll(pool[..n], m - {a});
      SumOverElsewhere(pool[..n], m, m - {a});
      DropFromSum(m, a);
    }
  }

  lemma DropFromSum(m: map<Address, Word>, a: Address)
    ensures Sum(m) == Bal(m, a) + Sum(m - {a})
  {
    if a in m { SumSplit(m, a); } else { assert m - {a} == m; }
  }

  lemma {:induction false} SumOverElsewhere(pool: seq<Address>, m: map<Address, Word>, m': map<Address, Word>)
    requires forall i | 0 <= i < |pool| :: Bal(m, pool[i]) == Bal(m', pool[i])
    ensures SumOver(pool, m) == SumOver(pool, m')
  {
    if pool != [] { SumOverElsewhere(pool[..|pool| - 1], m, m'); }
  }

  lemma {:induction false} WalkLocksAll(w: World, created: seq<Word>, n: nat)
    requires n == |created| <= |w.escrows| && forall i | 0 <= i < n :: created[i] == i
    ensures LockedOver(w, created) == Total(Locks(w.escrows[..n]))
    decreases n
  {
    if n > 0 {
      WalkLocksAll(w, created[..n - 1], n - 1);
      assert Locks(w.escrows[..n])[..n - 1] == Locks(w.escrows[..n - 1]);
    }
  }

  ghost predicate AllSeven(c: Setup, h: Harness) {
    && BalanceEqualsObligations(c, h) && ArbiterNeverCredited(h) && StateMachineValid(h)
    && ObligationsNeverExceedFunded(h) && NullifierNeverReused(h) && LedgerConsistent(h)
    && RotationRespectsItsGuards(h)
  }

  lemma SoundMeansAll(c: Setup, h: Harness)
    requires GoodSetup(c) && Sound(c, h)
    ensures AllSeven(c, h) && LedgerExact(h.ledger)
  {
    PoolHoldsAll(c.pool, h.world.pending);
    WalkLocksAll(h.world, h.created, |h.created|);
    assert h.world.escrows[..|h.created|] == h.world.escrows;
  }

  /** For every sequence of entry points, all seven properties hold, and the
      ledger is exact: what should have worked did, and nothing else. */
  lemma AllPropertiesHold(c: Setup, h: Harness, es: seq<Entry>)
    requires GoodSetup(c) && Deployed(c, h)
    ensures AllSeven(c, EnterAll(c, h, es)) && LedgerExact(EnterAll(c, h, es).ledger)
  {
    hide EnterAll, AllSeven, LedgerExact, Sound, Deployed;
    DeployedIsSound(c, h);
    RunKeepsSound(c, h, es);
    SoundMeansAll(c, EnterAll(c, h, es));
  }
}
