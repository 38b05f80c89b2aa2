// The escrow contract as a transition function on values: every entry point of
// EscrowUpgradeable and EscrowUpgradeableV2, with its guards in source order,
// checked 256-bit arithmetic, emitted events, and the ETH the EVM moves with it.
module EscrowMachine {
  import opened Basics
  import opened ZkTypes

  datatype State = None | Created | Funded | Released | Refunded | Disputed | Resolved

  datatype Ruling = BuyerWins | SellerWins

  datatype Version = V1 | V2

  /** What an upgrade names: the zero address, or one of the two contracts. */
  datatype Implementation = NoImplementation | Implementation(version: Version)

  datatype Escrow = Escrow(
    buyer: Address, seller: Address, arbiter: Address,
    amount: Word, commitment: Word, state: State)

  datatype Event =
    | EscrowCreated(id: nat, buyer: Address, seller: Address, arbiter: Address, amount: Word, commitment: Word)
    | EscrowFunded(id: nat, buyer: Address, amount: Word)
    | EscrowReleased(id: nat, seller: Address, amount: Word, nullifier: Word)
    | EscrowRefunded(id: nat, buyer: Address, amount: Word)
    | DisputeRaised(id: nat, raisedBy: Address, evidence: string)
    | DisputeResolved(id: nat, arbiter: Address, ruling: Ruling, beneficiary: Address, amount: Word, rationale: string)
    | WithdrawalCredited(payee: Address, amount: Word, newBalance: Word)
    | Withdrawn(payee: Address, amount: Word)
    | ArbiterRotated(id: nat, oldArbiter: Address, newArbiter: Address)

  datatype Error =
    | ZeroAddress
    | DuplicateParty
    | ZeroAmount
    | EscrowDoesNotExist(id: nat)
    | InvalidState(id: nat, expected: State, actual: State)
    | NotAuthorized(caller: Address)
    | IncorrectAmount(due: Word, sent: Word)
    | InvalidProof
    | NullifierAlreadyUsed(nullifier: Word)
    | EmptyEvidence
    | EmptyRationale
    | NothingToWithdraw(caller: Address)
    | TransferFailed(to: Address, amount: Word)
    | ReentrantCall
    | ArithmeticOverflow
    | InsufficientFunds   // the caller does not hold the ETH it attaches
    | UnknownFunction     // V1 has no setArbiter
    | NotOwner(caller: Address)

  datatype Result<+T> = Ok(value: T) | Err(error: Error)

  /** One account calling one function. Transfer and ForceEther are moves of
      ETH outside the contract's code; UpgradeTo swaps V1 for V2 or back. */
  datatype Op =
    | CreateEscrow(seller: Address, arbiter: Address, amount: Word, commitment: Word)
    | Fund(id: Word, value: Word)
    | Release(id: Word, nullifier: Word, proof: Proof)
    | Refund(id: Word)
    | RaiseDispute(id: Word, evidence: string)
    | SubmitEvidence(id: Word, evidence: string)
    | ResolveDispute(id: Word, ruling: Ruling, rationale: string)
    | Withdraw
    | SetArbiter(id: Word, newArbiter: Address)
    | UpgradeTo(implementation: Implementation)
    | Transfer(to: Address, wei: nat)
    | ForceEther(wei: nat)

  /** The contract's storage and log, its ETH, and the ETH of everyone else.
      The escrows are listed by id: the next id is the length of the list. */
  datatype World = World(
    version: Version,
    owner: Address,
    escrows: seq<Escrow>,
    pending: map<Address, Word>,
    total: Word,
    spent: set<Word>,
    log: seq<Event>,
    balance: nat,
    wealth: map<Address, nat>,
    forced: nat)

  ghost predicate IsGenesis(w: World) {
    && w.version == V1 && w.escrows == [] && w.pending == map[] && w.total == 0
    && w.spent == {} && w.log == [] && w.balance == 0 && w.forced == 0
    && Sum(w.wealth) < TWO_256
  }

  predicate Open(s: State) { s == Funded || s == Disputed }

  predicate Settled(s: State) { s == Released || s == Refunded || s == Resolved }

  predicate IsParty(e: Escrow, a: Address) { a == e.buyer || a == e.seller }

  function Winner(e: Escrow, ruling: Ruling): Address {
    if ruling == BuyerWins then e.buyer else e.seller
  }

  function GetState(w: World, id: nat): State {
    if id < |w.escrows| then w.escrows[id].state else None
  }

  function WithState(w: World, id: nat, s: State): World
    requires id < |w.escrows|
  {
    w.(escrows := w.escrows[id := w.escrows[id].(state := s)])
  }

  function Emit(w: World, e: Event): World { w.(log := w.log + [e]) }

  /** The checks every function on an existing escrow starts with. */
  function Check(w: World, id: nat, expected: State): (r: Result<Escrow>)
    ensures r.Ok? <==> GetState(w, id) == expected && id < |w.escrows| && expected != None
    ensures r.Ok? ==> r.value == w.escrows[id]
  {
    var actual := GetState(w, id);
    if actual == None then Err(EscrowDoesNotExist(id))
    else if actual != expected then Err(InvalidState(id, expected, actual))
    else Ok(w.escrows[id])
  }

  function Credit(w: World, payee: Address, amount: Word): Result<World> {
    var newBalance := Bal(w.pending, payee) + amount;
    if newBalance >= TWO_256 || w.total + amount >= TWO_256 then Err(ArithmeticOverflow) else
      Ok(Emit(w.(pending := w.pending[payee := newBalance], total := w.total + amount),
              WithdrawalCredited(payee, amount, newBalance)))
  }

  /** The common tail of release, refund and resolveDispute. */
  function Settle(w: World, id: nat, outcome: State, payee: Address, closing: Event): Result<World>
    requires id < |w.escrows|
  {
    match Credit(WithState(w, id, outcome), payee, w.escrows[id].amount)
    case Err(e) => Err(e)
    case Ok(w') => Ok(Emit(w', closing))
  }

  function CreateEscrowStep(w: World, sender: Address, seller: Address, arbiter: Address, amount: Word, commitment: Word): Result<World> {
    if seller == ZERO_ADDRESS || arbiter == ZERO_ADDRESS then Err(ZeroAddress)
    else if seller == sender || arbiter == sender || arbiter == seller then Err(DuplicateParty)
    else if amount == 0 then Err(ZeroAmount)
    else if |w.escrows| + 1 >= TWO_256 then Err(ArithmeticOverflow)
    else Ok(Emit(w.(escrows := w.escrows + [Escrow(sender, seller, arbiter, amount, commitment, Created)]),
                 EscrowCreated(|w.escrows|, sender, seller, arbiter, amount, commitment)))
  }

  function FundStep(w: World, sender: Address, id: Word, value: Word): Result<World> {
    if Bal(w.wealth, sender) < value then Err(InsufficientFunds) else
      match Check(w, id, Created)
      case Err(e) => Err(e)
      case Ok(e) =>
        if sender != e.buyer then Err(NotAuthorized(sender))
        else if value != e.amount then Err(IncorrectAmount(e.amount, value))
        else
          var paid := w.(balance := w.balance + value,
                         wealth := w.wealth[sender := Bal(w.wealth, sender) - value]);
          Ok(Emit(WithState(paid, id, Funded), EscrowFunded(id, sender, value)))
  }

  function ReleaseStep(v: Verifier, w: World, id: Word, nullifier: Word, proof: Proof): Result<World> {
    match Check(w, id, Funded)
    case Err(e) => Err(e)
    case Ok(e) =>
      if nullifier in w.spent then Err(NullifierAlreadyUsed(nullifier))
      else if !v(proof, Signals(nullifier, e.commitment, id)) then Err(InvalidProof)
      else Settle(w.(spent := w.spent + {nullifier}), id, Released, e.seller,
                  EscrowReleased(id, e.seller, e.amount, nullifier))
  }

  function RefundStep(w: World, sender: Address, id: Word): Result<World> {
    match Check(w, id, Funded)
    case Err(e) => Err(e)
    case Ok(e) =>
      if sender != e.seller then Err(NotAuthorized(sender))
      else Settle(w, id, Refunded, e.buyer, EscrowRefunded(id, e.buyer, e.amount))
  }

  function RaiseDisputeStep(w: World, sender: Address, id: Word, evidence: string): Result<World> {
    match Check(w, id, Funded)
    case Err(e) => Err(e)
    case Ok(e) =>
      if !IsParty(e, sender) then Err(NotAuthorized(sender))
      else if evidence == "" then Err(EmptyEvidence)
      else Ok(Emit(WithState(w, id, Disputed), DisputeRaised(id, sender, evidence)))
  }

  function SubmitEvidenceStep(w: World, sender: Address, id: Word, evidence: string): Result<World> {
    match Check(w, id, Disputed)
    case Err(e) => Err(e)
    case Ok(e) =>
      if !IsParty(e, sender) then Err(NotAuthorized(sender))
      else if evidence == "" then Err(EmptyEvidence)
      else Ok(Emit(w, DisputeRaised(id, sender, evidence)))
  }

  function ResolveDisputeStep(w: World, sender: Address, id: Word, ruling: Ruling, rationale: string): Result<World> {
    match Check(w, id, Disputed)
    case Err(e) => Err(e)
    case Ok(e) =>
      if sender != e.arbiter then Err(NotAuthorized(sender))
      else if rationale == "" then Err(EmptyRationale)
      else Settle(w, id, Resolved, Winner(e, ruling),
                  DisputeResolved(id, sender, ruling, Winner(e, ruling), e.amount, rationale))
  }

  /** withdraw up to and including the moment the ETH arrives at the payee. */
  function WithdrawStep(w: World, sender: Address): Result<World> {
    var amount := Bal(w.pending, sender);
    if amount == 0 then Err(NothingToWithdraw(sender))
    else if w.total < amount then Err(ArithmeticOverflow)
    else if w.balance < amount then Err(TransferFailed(sender, amount))
    else Ok(Emit(w.(pending := w.pending[sender := 0], total := w.total - amount,
                    balance := w.balance - amount,
                    wealth := w.wealth[sender := Bal(w.wealth, sender) + amount]),
                 Withdrawn(sender, amount)))
  }

  function SetArbiterStep(w: World, sender: Address, id: Word, newArbiter: Address): Result<World> {
    if w.version == V1 then Err(UnknownFunction)
    else if sender != w.owner then Err(NotOwner(sender))
    else if GetState(w, id) == None then Err(EscrowDoesNotExist(id))
    else
      var e := w.escrows[id];
      if newArbiter == ZERO_ADDRESS then Err(ZeroAddress)
      else if newArbiter == e.buyer || newArbiter == e.seller then Err(DuplicateParty)
      else if e.state != Disputed then Err(InvalidState(id, Disputed, e.state))
      else Ok(Emit(w.(escrows := w.escrows[id := e.(arbiter := newArbiter)]),
                   ArbiterRotated(id, e.arbiter, newArbiter)))
  }

  function Step(v: Verifier, w: World, sender: Address, op: Op): Result<World> {
    match op
    case CreateEscrow(seller, arbiter, amount, commitment) => CreateEscrowStep(w, sender, seller, arbiter, amount, commitment)
    case Fund(id, value) => FundStep(w, sender, id, value)
    case Release(id, nullifier, proof) => ReleaseStep(v, w, id, nullifier, proof)
    case Refund(id) => RefundStep(w, sender, id)
    case RaiseDispute(id, evidence) => RaiseDisputeStep(w, sender, id, evidence)
    case SubmitEvidence(id, evidence) => SubmitEvidenceStep(w, sender, id, evidence)
    case ResolveDispute(id, ruling, rationale) => ResolveDisputeStep(w, sender, id, ruling, rationale)
    case Withdraw => WithdrawStep(w, sender)
    case SetArbiter(id, newArbiter) => SetArbiterStep(w, sender, id, newArbiter)
    case UpgradeTo(implementation) =>
      if sender != w.owner then Err(NotOwner(sender))
      else if implementation.NoImplementation? then Err(ZeroAddress)
      else Ok(w.(version := implementation.version))
    case Transfer(to, wei) =>
      if Bal(w.wealth, sender) < wei then Err(InsufficientFunds) else
        var debited := w.wealth[sender := Bal(w.wealth, sender) - wei];
        Ok(w.(wealth := debited[to := Bal(debited, to) + wei]))
    case ForceEther(wei) =>
      if Bal(w.wealth, sender) < wei then Err(InsufficientFunds) else
        Ok(w.(wealth := w.wealth[sender := Bal(w.wealth, sender) - wei],
              balance := w.balance + wei, forced := w.forced + wei))
  }

  /** The guard on withdraw is held exactly while a withdrawal's callback runs. */
  function GuardedStep(v: Verifier, w: World, entered: bool, sender: Address, op: Op): Result<World> {
    if entered && op.Withdraw? then Err(ReentrantCall) else Step(v, w, sender, op)
  }

  datatype Tx = Tx(sender: Address, op: Op)

  /** A transaction that reverts leaves no trace. */
  function Apply(v: Verifier, w: World, tx: Tx): World {
    match Step(v, w, tx.sender, tx.op)
    case Ok(w') => w'
    case Err(_) => w
  }

  function Run(v: Verifier, w: World, txs: seq<Tx>): World {
    if txs == [] then w else Apply(v, Run(v, w, txs[..|txs| - 1]), txs[|txs| - 1])
  }

  /** The states a sequence of transactions can leave behind. */
  ghost predicate Reachable(v: Verifier, g: World, w: World) {
    exists txs :: Run(v, g, txs) == w
  }

  lemma RunExtend(v: Verifier, w: World, txs: seq<Tx>, tx: Tx)
    ensures Run(v, w, txs + [tx]) == Apply(v, Run(v, w, txs), tx)
  {
    assert (txs + [tx])[..|txs|] == txs;
  }

  lemma {:induction false} RunConcat(v: Verifier, w: World, a: seq<Tx>, b: seq<Tx>)
    ensures Run(v, w, a + b) == Run(v, Run(v, w, a), b)
    decreases |b|
  {
    if b == [] {
      assert a + b == a;
    } else {
      var n := |b| - 1;
      RunConcat(v, w, a, b[..n]);
      assert a + b == (a + b[..n]) + [b[n]];
      RunExtend(v, w, a + b[..n], b[n]);
    }
  }

  // ---- What a successful step does, by kind -------------------------------

  ghost predicate Terms(e: Escrow) {
    && e.seller != ZERO_ADDRESS && e.arbiter != ZERO_ADDRESS
    && e.buyer != e.seller && e.buyer != e.arbiter && e.seller != e.arbiter
    && e.amount > 0 && e.state != None
  }

  datatype Effect =
    | Opens(e: Escrow)
    | Finances(id: nat)
    | Revises(id: nat, e: Escrow, ev: Event)
    | Closes(id: nat, outcome: State, payee: Address, closing: Event, nullifiers: set<Word>)
    | Draws(payee: Address)
    | Notes(ev: Event)
    | Outside

  ghost predicate Disputes(e: Escrow, id: nat, e': Escrow, ev: Event) {
    && e.state == Funded && e' == e.(state := Disputed)
    && ev.DisputeRaised? && ev.id == id && IsParty(e, ev.raisedBy)
  }

  ghost predicate Rotates(e: Escrow, id: nat, e': Escrow, ev: Event) {
    && e.state == Disputed && ev.ArbiterRotated? && ev.id == id
    && ev.oldArbiter == e.arbiter && e' == e.(arbiter := ev.newArbiter)
    && ev.newArbiter != ZERO_ADDRESS && !IsParty(e, ev.newArbiter)
  }

  ghost predicate ClosesBy(v: Verifier, e: Escrow, id: nat, outcome: State, payee: Address, closing: Event, nullifiers: set<Word>) {
    || (closing.EscrowReleased? && e.state == Funded && outcome == Released && payee == e.seller
        && closing == EscrowReleased(id, e.seller, e.amount, closing.nullifier)
        && nullifiers == {closing.nullifier}
        && id < TWO_256 && exists proof :: v(proof, Signals(closing.nullifier, e.commitment, id)))
    || (closing == EscrowRefunded(id, e.buyer, e.amount) && e.state == Funded && outcome == Refunded
        && payee == e.buyer && nullifiers == {})
    || (closing.DisputeResolved? && e.state == Disputed && outcome == Resolved
        && payee == (if closing.ruling == BuyerWins then e.buyer else e.seller) && nullifiers == {}
        && closing == DisputeResolved(id, e.arbiter, closing.ruling, payee, e.amount, closing.rationale))
  }

  ghost predicate DoesOpen(w: World, w': World, e: Escrow) {
    && Terms(e) && e.state == Created && |w.escrows| + 1 < TWO_256
    && w' == Emit(w.(escrows := w.escrows + [e]),
                  EscrowCreated(|w.escrows|, e.buyer, e.seller, e.arbiter, e.amount, e.commitment))
  }

  ghost predicate DoesFinance(w: World, w': World, id: nat) {
    && id < |w.escrows| && w.escrows[id].state == Created
    && var e := w.escrows[id];
    && Bal(w.wealth, e.buyer) >= e.amount
    && w' == Emit(WithState(w, id, Funded).(
                    balance := w.balance + e.amount,
                    wealth := w.wealth[e.buyer := Bal(w.wealth, e.buyer) - e.amount]),
                  EscrowFunded(id, e.buyer, e.amount))
  }

  ghost predicate DoesRevise(w: World, w': World, id: nat, e: Escrow, ev: Event) {
    && id < |w.escrows| && (Disputes(w.escrows[id], id, e, ev) || Rotates(w.escrows[id], id, e, ev))
    && w' == Emit(w.(escrows := w.escrows[id := e]), ev)
  }

  ghost predicate DoesClose(v: Verifier, w: World, w': World, id: nat, outcome: State, payee: Address, closing: Event, nullifiers: set<Word>) {
    && id < |w.escrows| && nullifiers !! w.spent
    && var e := w.escrows[id];
    && ClosesBy(v, e, id, outcome, payee, closing, nullifiers)
    && var newBalance := Bal(w.pending, payee) + e.amount;
    && newBalance < TWO_256 && w.total + e.amount < TWO_256
    && w' == WithState(w, id, outcome).(
               spent := w.spent + nullifiers,
               pending := w.pending[payee := newBalance], total := w.total + e.amount,
               log := w.log + [WithdrawalCredited(payee, e.amount, newBalance)] + [closing])
  }

  ghost predicate DoesDraw(w: World, w': World, payee: Address) {
    && var amount := Bal(w.pending, payee);
    && 0 < amount <= w.total && amount <= w.balance
    && w' == Emit(w.(pending := w.pending[payee := 0], total := w.total - amount,
                     balance := w.balance - amount,
                     wealth := w.wealth[payee := Bal(w.wealth, payee) + amount]),
                  Withdrawn(payee, amount))
  }

  ghost predicate DoesNote(w: World, w': World, ev: Event) {
    && ev.DisputeRaised? && ev.id < |w.escrows| && w.escrows[ev.id].state == Disputed
    && w' == Emit(w, ev)
  }

  /** Nothing but the implementation version and ETH outside the books. */
  ghost predicate DoesOutside(w: World, w': World) {
    && w' == w.(version := w'.version, balance := w'.balance, wealth := w'.wealth, forced := w'.forced)
    && w'.balance + w.forced == w.balance + w'.forced
    && w'.balance + Sum(w'.wealth) == w.balance + Sum(w.wealth)
  }

  ghost predicate Does(v: Verifier, w: World, w': World, k: Effect) {
    match k
    case Opens(e) => DoesOpen(w, w', e)
    case Finances(id) => DoesFinance(w, w', id)
    case Revises(id, e, ev) => DoesRevise(w, w', id, e, ev)
    case Closes(id, outcome, payee, closing, nullifiers) => DoesClose(v, w, w', id, outcome, payee, closing, nullifiers)
    case Draws(payee) => DoesDraw(w, w', payee)
    case Notes(ev) => DoesNote(w, w', ev)
    case Outside => DoesOutside(w, w')
  }

  /** The effect is the one the call asked for, by the caller who made it. */
  ghost predicate AsCalled(w: World, sender: Address, op: Op, k: Effect) {
    match op
    case CreateEscrow(seller, arbiter, amount, commitment) =>
      k == Opens(Escrow(sender, seller, arbiter, amount, commitment, Created))
    case Fund(id, value) => k == Finances(id) && id < |w.escrows| && w.escrows[id].buyer == sender && w.escrows[id].amount == value
    case Release(id, nullifier, _) => k.Closes? && k.id == id && k.closing.EscrowReleased? && k.nullifiers == {nullifier}
    case Refund(id) => k.Closes? && k.id == id && k.closing.EscrowRefunded?
    case RaiseDispute(id, evidence) => k.Revises? && k.id == id && k.ev == DisputeRaised(id, sender, evidence)
    case SubmitEvidence(id, evidence) => k == Notes(DisputeRaised(id, sender, evidence))
    case ResolveDispute(id, ruling, rationale) =>
      k.Closes? && k.id == id && k.closing.DisputeResolved? && k.closing.ruling == ruling && k.closing.rationale == rationale
    case Withdraw => k == Draws(sender)
    case SetArbiter(id, newArbiter) => k.Revises? && k.id == id && k.ev.ArbiterRotated? && k.ev.newArbiter == newArbiter
    case _ => k == Outside
  }

  lemma SettleDoes(v: Verifier, w: World, id: nat, outcome: State, payee: Address, closing: Event, nullifiers: set<Word>)
    requires id < |w.escrows| && nullifiers !! w.spent
    requires ClosesBy(v, w.escrows[id], id, outcome, payee, closing, nullifiers)
    ensures var r := Settle(w.(spent := w.spent + nullifiers), id, outcome, payee, closing);
            r.Ok? ==> DoesClose(v, w, r.value, id, outcome, payee, closing, nullifiers)
  {}

  lemma TransferKeepsWealth(wealth: map<Address, nat>, a: Address, b: Address, wei: nat)
    requires wei <= Bal(wealth, a)
    ensures var debited := wealth[a := Bal(wealth, a) - wei];
            && Sum(debited) == Sum(wealth) - wei
            && Sum(debited[b := Bal(debited, b) + wei]) == Sum(wealth)
  {
    var debited := wealth[a := Bal(wealth, a) - wei];
    SumSet(wealth, a, Bal(wealth, a) - wei);
    SumSet(debited, b, Bal(debited, b) + wei);
  }

  lemma ClosingStepDoes(v: Verifier, w: World, sender: Address, op: Op) returns (k: Effect)
    requires op.Release? || op.Refund? || op.ResolveDispute?
    requires Step(v, w, sender, op).Ok?
    ensures AsCalled(w, sender, op, k) && Does(v, w, Step(v, w, sender, op).value, k)
  {
    var e := w.escrows[op.id];
    assert w.(spent := w.spent + {}) == w;
    match op
    case Release(id, n, proof) =>
      k := Closes(id, Released, e.seller, EscrowReleased(id, e.seller, e.amount, n), {n});
      SettleDoes(v, w, id, Released, e.seller, k.closing, {n});
    case Refund(id) =>
      k := Closes(id, Refunded, e.buyer, EscrowRefunded(id, e.buyer, e.amount), {});
      SettleDoes(v, w, id, Refunded, e.buyer, k.closing, {});
    case ResolveDispute(id, ruling, rationale) =>
      var payee := if ruling == BuyerWins then e.buyer else e.seller;
      k := Closes(id, Resolved, payee, DisputeResolved(id, sender, ruling, payee, e.amount, rationale), {});
      SettleDoes(v, w, id, Resolved, payee, k.closing, {});
  }

  lemma OutsideStepDoes(v: Verifier, w: World, sender: Address, op: Op)
    requires op.UpgradeTo? || op.Transfer? || op.ForceEther?
    requires Step(v, w, sender, op).Ok?
    ensures Does(v, w, Step(v, w, sender, op).value, Outside)
  {
    hide Sum, CreateEscrowStep, FundStep, ReleaseStep, RefundStep, RaiseDisputeStep, SubmitEvidenceStep, ResolveDisputeStep, WithdrawStep, SetArbiterStep;
    match op
    case UpgradeTo(_) =>
    case Transfer(to, wei) => TransferKeepsWealth(w.wealth, sender, to, wei);
    case ForceEther(wei) => TransferKeepsWealth(w.wealth, sender, sender, wei);
  }

  lemma OpeningStepDoes(v: Verifier, w: World, sender: Address, op: Op) returns (k: Effect)
    requires op.CreateEscrow? || op.Fund? || op.Withdraw?
    requires Step(v, w, sender, op).Ok?
    ensures AsCalled(w, sender, op, k) && Does(v, w, Step(v, w, sender, op).value, k)
  {
    match op
    case CreateEscrow(seller, arbiter, amount, commitment) =>
      k := Opens(Escrow(sender, seller, arbiter, amount, commitment, Created));
    case Fund(id, value) => k := Finances(id);
    case Withdraw => k := Draws(sender);
  }

  lemma PaperStepDoes(v: Verifier, w: World, sender: Address, op: Op) returns (k: Effect)
    requires op.RaiseDispute? || op.SubmitEvidence? || op.SetArbiter?
    requires Step(v, w, sender, op).Ok?
    ensures AsCalled(w, sender, op, k) && Does(v, w, Step(v, w, sender, op).value, k)
  {
    match op
    case RaiseDispute(id, evidence) =>
      k := Revises(id, w.escrows[id].(state := Disputed), DisputeRaised(id, sender, evidence));
    case SubmitEvidence(id, evidence) => k := Notes(DisputeRaised(id, sender, evidence));
    case SetArbiter(id, newArbiter) =>
      var e := w.escrows[id];
      k := Revises(id, e.(arbiter := newArbiter), ArbiterRotated(id, e.arbiter, newArbiter));
  }

  /** Every successful call has one of seven effects, and it is the one the
      caller asked for. */
  lemma StepDoes(v: Verifier, w: World, sender: Address, op: Op) returns (k: Effect)
    requires Step(v, w, sender, op).Ok?
    ensures AsCalled(w, sender, op, k) && Does(v, w, Step(v, w, sender, op).value, k)
    ensures k.Opens? <==> op.CreateEscrow?
    ensures k.Finances? <==> op.Fund?
    ensures k.Closes? <==> op.Release? || op.Refund? || op.ResolveDispute?
    ensures k.Draws? <==> op.Withdraw?
    ensures op.SetArbiter? <==> k.Revises? && k.ev.ArbiterRotated?
    ensures k.Closes? ==> k.id == op.id
  {
    if op.Release? || op.Refund? || op.ResolveDispute? {
      k := ClosingStepDoes(v, w, sender, op);
    } else if op.RaiseDispute? || op.SubmitEvidence? || op.SetArbiter? {
      k := PaperStepDoes(v, w, sender, op);
    } else if op.UpgradeTo? || op.Transfer? || op.ForceEther? {
      k := Outside;
      OutsideStepDoes(v, w, sender, op);
    } else {
      k := OpeningStepDoes(v, w, sender, op);
    }
  }

  predicate SameTerms(e: Escrow, e': Escrow) {
    e'.buyer == e.buyer && e'.seller == e.seller && e'.amount == e.amount && e'.commitment == e.commitment
  }

  /** The escrow an effect is about, or the next id if it is about none. */
  function Subject(w: World, k: Effect): nat {
    match k
    case Finances(id) => id
    case Revises(id, _, _) => id
    case Closes(id, _, _, _, _) => id
    case _ => |w.escrows|
  }

  /** No effect touches more than one existing escrow, or its terms. */
  lemma EffectTouchesOne(v: Verifier, w: World, w': World, k: Effect)
    requires Does(v, w, w', k)
    ensures |w'.escrows| == |w.escrows| + if k.Opens? then 1 else 0
    ensures forall i | 0 <= i < |w.escrows| && i != Subject(w, k) :: w'.escrows[i] == w.escrows[i]
    ensures forall i | 0 <= i < |w.escrows| :: SameTerms(w.escrows[i], w'.escrows[i])
    ensures Subject(w, k) < |w.escrows| || k.Opens? || w'.escrows == w.escrows
    ensures k.Opens? ==> w'.escrows[|w.escrows|] == k.e && k.e.state == Created
  {}
}
