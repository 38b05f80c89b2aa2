// What each call leaves behind and why it is refused, said outright: the whole
// new world in terms of the old one and the call's own arguments, with nothing of
// how the machine is put together.
module Calls {
  import opened Basics
  import opened ZkTypes
  import opened EscrowMachine
  import opened Solvency
  import opened Lifecycle

  // ---- What a successful call leaves --------------------------------------

  /** The stored escrow is the one asked for, under the next id. */
  lemma CreationStores(v: Verifier, w: World, sender: Address, seller: Address, arbiter: Address, amount: Word, commitment: Word)
    requires Step(v, w, sender, CreateEscrow(seller, arbiter, amount, commitment)).Ok?
    ensures Step(v, w, sender, CreateEscrow(seller, arbiter, amount, commitment)).value ==
            w.(escrows := w.escrows + [Escrow(sender, seller, arbiter, amount, commitment, Created)],
               log := w.log + [EscrowCreated(|w.escrows|, sender, seller, arbiter, amount, commitment)])
  {}

  lemma FundingPays(v: Verifier, w: World, sender: Address, id: Word, value: Word)
    requires Step(v, w, sender, Fund(id, value)).Ok?
    ensures id < |w.escrows| && sender == w.escrows[id].buyer && value == w.escrows[id].amount <= Bal(w.wealth, sender)
    ensures Step(v, w, sender, Fund(id, value)).value ==
            w.(escrows := w.escrows[id := w.escrows[id].(state := Funded)],
               balance := w.balance + value, wealth := w.wealth[sender := Bal(w.wealth, sender) - value],
               log := w.log + [EscrowFunded(id, sender, value)])
  {}

  /** Releasing pays the seller and spends the nullifier. */
  lemma ReleasePaysSeller(v: Verifier, w: World, sender: Address, id: Word, n: Word, proof: Proof)
    requires Step(v, w, sender, Release(id, n, proof)).Ok?
    ensures id < |w.escrows| && n !in w.spent && v(proof, Signals(n, w.escrows[id].commitment, id))
    ensures var e := w.escrows[id];
            var credit := Bal(w.pending, e.seller) + e.amount;
            && credit < TWO_256 && w.total + e.amount < TWO_256
            && Step(v, w, sender, Release(id, n, proof)).value ==
               w.(escrows := w.escrows[id := e.(state := Released)], spent := w.spent + {n},
                  pending := w.pending[e.seller := credit], total := w.total + e.amount,
                  log := w.log + [WithdrawalCredited(e.seller, e.amount, credit)] + [EscrowReleased(id, e.seller, e.amount, n)])
  {}

  /** Refunding pays the buyer. */
  lemma RefundPaysBuyer(v: Verifier, w: World, sender: Address, id: Word)
    requires Step(v, w, sender, Refund(id)).Ok?
    ensures id < |w.escrows| && sender == w.escrows[id].seller
    ensures var e := w.escrows[id];
            var credit := Bal(w.pending, e.buyer) + e.amount;
            && credit < TWO_256 && w.total + e.amount < TWO_256
            && Step(v, w, sender, Refund(id)).value ==
               w.(escrows := w.escrows[id := e.(state := Refunded)],
                  pending := w.pending[e.buyer := credit], total := w.total + e.amount,
                  log := w.log + [WithdrawalCredited(e.buyer, e.amount, credit)] + [EscrowRefunded(id, e.buyer, e.amount)])
  {}

  lemma DisputeIsRaised(v: Verifier, w: World, sender: Address, id: Word, evidence: string)
    requires Step(v, w, sender, RaiseDispute(id, evidence)).Ok?
    ensures id < |w.escrows| && (sender == w.escrows[id].buyer || sender == w.escrows[id].seller)
    ensures Step(v, w, sender, RaiseDispute(id, evidence)).value ==
            w.(escrows := w.escrows[id := w.escrows[id].(state := Disputed)],
               log := w.log + [DisputeRaised(id, sender, evidence)])
  {}

  lemma EvidenceIsLogged(v: Verifier, w: World, sender: Address, id: Word, evidence: string)
    requires Step(v, w, sender, SubmitEvidence(id, evidence)).Ok?
    ensures id < |w.escrows| && (sender == w.escrows[id].buyer || sender == w.escrows[id].seller)
    ensures Step(v, w, sender, SubmitEvidence(id, evidence)).value == w.(log := w.log + [DisputeRaised(id, sender, evidence)])
  {}

  /** BuyerWins pays the buyer and SellerWins the seller, in full. */
  lemma RulingPaysWinner(v: Verifier, w: World, sender: Address, id: Word, ruling: Ruling, rationale: string)
    requires Step(v, w, sender, ResolveDispute(id, ruling, rationale)).Ok?
    ensures id < |w.escrows| && sender == w.escrows[id].arbiter
    ensures var e, w' := w.escrows[id], Step(v, w, sender, ResolveDispute(id, ruling, rationale)).value;
            && (ruling == BuyerWins ==>
                  w' == w.(escrows := w.escrows[id := e.(state := Resolved)],
                           pending := w.pending[e.buyer := Bal(w.pending, e.buyer) + e.amount], total := w.total + e.amount,
                           log := w.log + [WithdrawalCredited(e.buyer, e.amount, Bal(w.pending, e.buyer) + e.amount)]
                                        + [DisputeResolved(id, sender, BuyerWins, e.buyer, e.amount, rationale)]))
            && (ruling == SellerWins ==>
                  w' == w.(escrows := w.escrows[id := e.(state := Resolved)],
                           pending := w.pending[e.seller := Bal(w.pending, e.seller) + e.amount], total := w.total + e.amount,
                           log := w.log + [WithdrawalCredited(e.seller, e.amount, Bal(w.pending, e.seller) + e.amount)]
                                        + [DisputeResolved(id, sender, SellerWins, e.seller, e.amount, rationale)]))
  {}

  lemma WithdrawalEmptiesCredit(v: Verifier, w: World, sender: Address)
    requires Step(v, w, sender, Withdraw).Ok?
    ensures var amount := Bal(w.pending, sender);
            && 0 < amount <= w.total && amount <= w.balance
            && Step(v, w, sender, Withdraw).value ==
               w.(pending := w.pending[sender := 0], total := w.total - amount, balance := w.balance - amount,
                  wealth := w.wealth[sender := Bal(w.wealth, sender) + amount],
                  log := w.log + [Withdrawn(sender, amount)])
  {}

  lemma RotationNamesArbiter(v: Verifier, w: World, sender: Address, id: Word, newArbiter: Address)
    requires Step(v, w, sender, SetArbiter(id, newArbiter)).Ok?
    ensures id < |w.escrows| && sender == w.owner && w.version == V2
    ensures Step(v, w, sender, SetArbiter(id, newArbiter)).value ==
            w.(escrows := w.escrows[id := w.escrows[id].(arbiter := newArbiter)],
               log := w.log + [ArbiterRotated(id, w.escrows[id].arbiter, newArbiter)])
  {}

  /** Around the contract: an upgrade changes the implementation alone, ETH sent
      elsewhere leaves one account for another, and ETH forced in is counted. */
  lemma OutsideMoves(v: Verifier, w: World, sender: Address, implementation: Implementation, to: Address, wei: nat)
    ensures Step(v, w, sender, UpgradeTo(implementation)) ==
            if sender != w.owner then Err(NotOwner(sender))
            else match implementation case NoImplementation => Err(ZeroAddress) case Implementation(version) => Ok(w.(version := version))
    ensures wei <= Bal(w.wealth, sender) && to != sender ==>
            Step(v, w, sender, Transfer(to, wei)) ==
            Ok(w.(wealth := w.wealth[sender := Bal(w.wealth, sender) - wei][to := Bal(w.wealth, to) + wei]))
    ensures wei <= Bal(w.wealth, sender) ==>
            Step(v, w, sender, ForceEther(wei)) ==
            Ok(w.(wealth := w.wealth[sender := Bal(w.wealth, sender) - wei], balance := w.balance + wei, forced := w.forced + wei))
  {}

  // ---- Why a call is refused ----------------------------------------------

  /** The state a call on an existing escrow needs. */
  function Needed(op: Op): State {
    match op
    case Fund(_, _) => Created
    case Release(_, _, _) => Funded
    case Refund(_) => Funded
    case RaiseDispute(_, _) => Funded
    case SubmitEvidence(_, _) => Disputed
    case ResolveDispute(_, _, _) => Disputed
    case _ => None
  }

  /** First the escrow must exist, then be in the needed state. */
  lemma RefusedByState(v: Verifier, w: World, sender: Address, op: Op)
    requires Needed(op) != None && (op.Fund? ==> op.value <= Bal(w.wealth, sender))
    ensures var s := GetState(w, op.id);
            && (s == None ==> Step(v, w, sender, op) == Err(EscrowDoesNotExist(op.id)))
            && (s != None && s != Needed(op) ==> Step(v, w, sender, op) == Err(InvalidState(op.id, Needed(op), s)))
  {}

  /** Then the caller must have the role, whatever else it got wrong. */
  lemma RefusedByRole(v: Verifier, w: World, sender: Address, op: Op)
    requires Needed(op) != None && GetState(w, op.id) == Needed(op) && (op.Fund? ==> op.value <= Bal(w.wealth, sender))
    ensures var e, r := w.escrows[op.id], Step(v, w, sender, op);
            && (op.Fund? && sender != e.buyer ==> r == Err(NotAuthorized(sender)))
            && (op.Refund? && sender != e.seller ==> r == Err(NotAuthorized(sender)))
            && ((op.RaiseDispute? || op.SubmitEvidence?) && sender != e.buyer && sender != e.seller ==> r == Err(NotAuthorized(sender)))
            && (op.ResolveDispute? && sender != e.arbiter ==> r == Err(NotAuthorized(sender)))
  {}

  /** And then what it passes must do. */
  lemma RefusedByInput(v: Verifier, w: World, sender: Address, op: Op)
    requires Needed(op) != None && GetState(w, op.id) == Needed(op) && (op.Fund? ==> op.value <= Bal(w.wealth, sender))
    ensures var e, r := w.escrows[op.id], Step(v, w, sender, op);
            && (op.Fund? && sender == e.buyer && op.value != e.amount ==> r == Err(IncorrectAmount(e.amount, op.value)))
            && (op.Release? && op.nullifier in w.spent ==> r == Err(NullifierAlreadyUsed(op.nullifier)))
            && (op.Release? && op.nullifier !in w.spent && !v(op.proof, Signals(op.nullifier, e.commitment, op.id)) ==> r == Err(InvalidProof))
            && ((op.RaiseDispute? || op.SubmitEvidence?) && (sender == e.buyer || sender == e.seller) && op.evidence == "" ==> r == Err(EmptyEvidence))
            && (op.ResolveDispute? && sender == e.arbiter && op.rationale == "" ==> r == Err(EmptyRationale))
  {}

  lemma CreationRefused(v: Verifier, w: World, sender: Address, seller: Address, arbiter: Address, amount: Word, commitment: Word)
    ensures var r := Step(v, w, sender, CreateEscrow(seller, arbiter, amount, commitment));
            var zero, twice := seller == 0 || arbiter == 0, seller == sender || arbiter == sender || arbiter == seller;
            && (zero ==> r == Err(ZeroAddress))
            && (!zero && twice ==> r == Err(DuplicateParty))
            && (!zero && !twice && amount == 0 ==> r == Err(ZeroAmount))
  {}

  lemma WithdrawalRefused(v: Verifier, w: World, sender: Address)
    ensures Bal(w.pending, sender) == 0 ==> Step(v, w, sender, Withdraw) == Err(NothingToWithdraw(sender))
  {}

  lemma RotationRefused(v: Verifier, w: World, sender: Address, id: Word, a: Address)
    ensures var r, s := Step(v, w, sender, SetArbiter(id, a)), GetState(w, id);
            if w.version == V1 then r == Err(UnknownFunction)
            else if sender != w.owner then r == Err(NotOwner(sender))
            else if s == None then r == Err(EscrowDoesNotExist(id))
            else if a == 0 then r == Err(ZeroAddress)
            else if a == w.escrows[id].buyer || a == w.escrows[id].seller then r == Err(DuplicateParty)
            else s != Disputed ==> r == Err(InvalidState(id, Disputed, s))
  {}

  // ---- The transition table -----------------------------------------------

  /** The table is these six edges, and staying put. */
  lemma TableIsSixEdges(from: State, to: State)
    ensures LegalTransition(from, to) <==>
            from == to || (from, to) in {(State.None, Created), (Created, Funded), (Funded, Released), (Funded, Refunded),
                                         (Funded, Disputed), (Disputed, Resolved)}
  {}

  /** A deployment for buyer 1 with a verifier that accepts everything, and the
      calls of one dispute. */
  const FIRST_DAY: World := World(V1, 9, [], map[], 0, {}, [], 0, map[1 := 5], 0)

  const DISPUTE: seq<Tx> := [
    Tx(1, CreateEscrow(2, 3, 5, 0)), Tx(1, Fund(0, 5)), Tx(2, RaiseDispute(0, "late")), Tx(3, ResolveDispute(0, BuyerWins, "so it was"))]

  const NO_PROOF: Proof := Proof((0, 0), (0, 0, 0, 0), (0, 0))

  function Lenient(): Verifier { (proof: Proof, s: Signals) => true }

  function Day(i: nat): World
    requires i <= 4
  {
    Run(Lenient(), FIRST_DAY, DISPUTE[..i])
  }

  lemma DayGoesOn(i: nat)
    requires 0 < i <= 4
    ensures Day(i) == Apply(Lenient(), Day(i - 1), DISPUTE[i - 1])
  {
    hide Apply;
    assert DISPUTE[..i] == DISPUTE[..i - 1] + [DISPUTE[i - 1]];
    RunExtend(Lenient(), FIRST_DAY, DISPUTE[..i - 1], DISPUTE[i - 1]);
  }

  predicate HasOne(w: World, s: State) {
    && w.escrows == [Escrow(1, 2, 3, 5, 0, s)] && w.pending == map[] && w.total == 0 && w.spent == {}
    && Bal(w.wealth, 1) <= 5 && (s == Created ==> Bal(w.wealth, 1) == 5)
  }

  lemma FirstDayIsGenesis()
    ensures IsGenesis(FIRST_DAY) && Day(0) == FIRST_DAY
  {
    assert FIRST_DAY.wealth == map[][1 := 5];
    SumSet(map[], 1, 5);
    assert DISPUTE[..0] == [];
  }

  lemma Morning()
    ensures HasOne(Day(1), Created)
  {
    FirstDayIsGenesis();
    DayGoesOn(1);
    hide Day, Run;
  }

  lemma Noon()
    ensures HasOne(Day(2), Funded)
  {
    Morning();
    DayGoesOn(2);
    hide Day, Run;
  }

  lemma Evening()
    ensures HasOne(Day(3), Disputed)
  {
    Noon();
    DayGoesOn(3);
    hide Day, Run;
  }

  function Stage(s: State): nat {
    match s case None => 0 case Created => 1 case Funded => 2 case _ => 3
  }

  lemma DayHas(from: State)
    requires from == None || from == Created || from == Funded || from == Disputed
    ensures IsGenesis(FIRST_DAY) && Reachable(Lenient(), FIRST_DAY, Day(Stage(from)))
    ensures if from == None then Day(0) == FIRST_DAY else HasOne(Day(Stage(from)), from)
  {
    FirstDayIsGenesis();
    Morning();
    Noon();
    Evening();
  }

  /** Every edge of the table is taken: from some reachable state some call takes
      an escrow along it. */
  lemma EveryEdgeHappens(from: State, to: State) returns (w: World, tx: Tx)
    requires LegalTransition(from, to) && from != to
    ensures IsGenesis(FIRST_DAY) && Reachable(Lenient(), FIRST_DAY, w)
    ensures GetState(w, 0) == from && GetState(Apply(Lenient(), w, tx), 0) == to
  {
    DayHas(from);
    hide Day, Run, Reachable, IsGenesis;
    w := Day(Stage(from));
    tx := if to == Released then Tx(7, Release(0, 6, NO_PROOF)) else if to == Refunded then Tx(2, Refund(0)) else DISPUTE[Stage(from)];
    EdgeTaken(w, from, to, tx);
  }

  lemma EdgeTaken(w: World, from: State, to: State, tx: Tx)
    requires if from == None then w == FIRST_DAY else HasOne(w, from)
    requires LegalTransition(from, to) && from != to
    requires tx == if to == Released then Tx(7, Release(0, 6, NO_PROOF)) else if to == Refunded then Tx(2, Refund(0)) else DISPUTE[Stage(from)]
    ensures GetState(w, 0) == from && GetState(Apply(Lenient(), w, tx), 0) == to
  {}
}
