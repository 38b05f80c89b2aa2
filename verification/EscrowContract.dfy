// The contract as a mutable object: the storage of EscrowUpgradeable and
// EscrowUpgradeableV2 written in place, with the EVM undoing every write of a
// call that reverts. Each method is proved against EscrowMachine and CallTree.
module EscrowContract {
  import opened Basics
  import opened ZkTypes
  import opened EscrowMachine
  import opened CallTree

  datatype Outcome = Pass | Fail(error: Error)

  /** What the EVM puts back when a call reverts. */
  datatype Snapshot = Snapshot(
    version: Version, nextEscrowId: Word, escrows: map<Word, Escrow>, pending: map<Address, Word>,
    used: map<Word, bool>, total: Word, entered: bool, log: seq<Event>,
    balance: nat, wealth: map<Address, nat>, forced: nat)

  /** The stored escrows in order of id. */
  function Listing(m: map<Word, Escrow>, n: Word): (s: seq<Escrow>)
    requires forall id: Word | id < n :: id in m
    ensures |s| == n && forall i: Word | i < n :: s[i] == m[i]
  {
    seq(n, i requires 0 <= i < n => assert i < TWO_256; m[i])
  }

  function Used(m: map<Word, bool>): set<Word> { set n | n in m && m[n] }

  /** Deployment behind the proxy: the initialiser refuses a zero verifier or
      owner, and then there is no contract. */
  method Deploy(verifierAddress: Address, verifier: Verifier, owner: Address, wealth: map<Address, nat>)
    returns (contract: Escrows?)
    requires Sum(wealth) < TWO_256
    ensures contract == null <==> verifierAddress == ZERO_ADDRESS || owner == ZERO_ADDRESS
    ensures contract != null ==>
              && fresh(contract) && contract.Valid() && IsGenesis(contract.Abs()) && !contract.entered
              && contract.verifier == verifier && contract.owner == owner && contract.wealth == wealth
  {
    if verifierAddress == ZERO_ADDRESS || owner == ZERO_ADDRESS { return null; }
    contract := new Escrows(verifier, owner, wealth);
  }

  class Escrows {
    const verifier: Verifier
    const owner: Address
    var version: Version
    var nextEscrowId: Word
    var escrows: map<Word, Escrow>
    var pendingWithdrawals: map<Address, Word>
    var nullifierUsed: map<Word, bool>
    var totalPendingWithdrawals: Word
    var entered: bool
    var log: seq<Event>
    var balance: nat
    var wealth: map<Address, nat>
    var forced: nat

    ghost predicate Valid()
      reads this
    {
      forall id: Word :: id in escrows <==> id < nextEscrowId
    }

    ghost function Abs(): World
      requires Valid()
      reads this
    {
      World(version, owner, Listing(escrows, nextEscrowId), pendingWithdrawals, totalPendingWithdrawals,
            Used(nullifierUsed), log, balance, wealth, forced)
    }

    /** The call did what the machine says: took the step, or failed with the
        machine's error and changed nothing. */
    ghost predicate Did(before: World, expected: Result<World>, r: Outcome)
      requires Valid()
      reads this
    {
      match expected
      case Ok(after) => r == Pass && Abs() == after
      case Err(e) => r == Fail(e) && Abs() == before
    }

    constructor (verifier: Verifier, owner: Address, wealth: map<Address, nat>)
      requires Sum(wealth) < TWO_256
      ensures Valid() && IsGenesis(Abs()) && !entered
      ensures this.verifier == verifier && this.owner == owner && this.wealth == wealth
    {
      this.verifier, this.owner, this.wealth := verifier, owner, wealth;
      version, nextEscrowId, escrows, pendingWithdrawals := V1, 0, map[], map[];
      nullifierUsed, totalPendingWithdrawals, entered, log, balance, forced := map[], 0, false, [], 0, 0;
    }

    function Save(): Snapshot
      reads this
    {
      Snapshot(version, nextEscrowId, escrows, pendingWithdrawals, nullifierUsed, totalPendingWithdrawals,
               entered, log, balance, wealth, forced)
    }

    method Restore(s: Snapshot)
      modifies this
      ensures Save() == s
    {
      version, nextEscrowId, escrows, pendingWithdrawals := s.version, s.nextEscrowId, s.escrows, s.pending;
      nullifierUsed, totalPendingWithdrawals, entered, log := s.used, s.total, s.entered, s.log;
      balance, wealth, forced := s.balance, s.wealth, s.forced;
    }

    method Require(id: Word, expected: State) returns (r: Outcome)
      requires Valid()
      ensures r == match Check(Abs(), id, expected) case Ok(_) => Pass case Err(e) => Fail(e)
      ensures r.Pass? ==> id in escrows && escrows[id] == Abs().escrows[id] && escrows[id].state == expected
    {
      if id !in escrows || escrows[id].state == None { return Fail(EscrowDoesNotExist(id)); }
      if escrows[id].state != expected { return Fail(InvalidState(id, expected, escrows[id].state)); }
      return Pass;
    }

    /** Overwrites one stored escrow. */
    method Store(id: Word, e: Escrow)
      requires Valid() && id in escrows
      modifies this`escrows
      ensures Valid() && Abs() == old(Abs()).(escrows := old(Abs()).escrows[id := e])
    {
      escrows := escrows[id := e];
      assert Listing(escrows, nextEscrowId) == old(Listing(escrows, nextEscrowId))[id := e];
    }

    method Log(ev: Event)
      requires Valid()
      modifies this`log
      ensures Valid() && Abs() == Emit(old(Abs()), ev)
    {
      log := log + [ev];
    }

    method CreditPayee(payee: Address, amount: Word) returns (ok: bool)
      requires Valid()
      modifies this`pendingWithdrawals, this`totalPendingWithdrawals, this`log
      ensures Valid() && ok == Credit(old(Abs()), payee, amount).Ok?
      ensures ok ==> Abs() == Credit(old(Abs()), payee, amount).value
    {
      var newBalance := Bal(pendingWithdrawals, payee) + amount;
      if newBalance >= TWO_256 { return false; }
      pendingWithdrawals := pendingWithdrawals[payee := newBalance];
      if totalPendingWithdrawals + amount >= TWO_256 { return false; }
      totalPendingWithdrawals := totalPendingWithdrawals + amount;
      Log(WithdrawalCredited(payee, amount, newBalance));
      return true;
    }

    method CreateEscrow(sender: Address, seller: Address, arbiter: Address, amount: Word, commitment: Word)
      returns (r: Outcome, escrowId: Word)
      requires Valid()
      modifies this
      ensures Valid() && entered == old(entered)
      ensures Did(old(Abs()), CreateEscrowStep(old(Abs()), sender, seller, arbiter, amount, commitment), r)
      ensures r.Pass? ==>
                && escrowId == old(nextEscrowId) == |old(Abs()).escrows| && nextEscrowId == escrowId + 1
                && escrows == old(escrows)[escrowId := Escrow(sender, seller, arbiter, amount, commitment, Created)]
    {
      escrowId := 0;
      if seller == ZERO_ADDRESS || arbiter == ZERO_ADDRESS { return Fail(ZeroAddress), 0; }
      if seller == sender || arbiter == sender || arbiter == seller { return Fail(DuplicateParty), 0; }
      if amount == 0 { return Fail(ZeroAmount), 0; }
      escrowId := nextEscrowId;
      if escrowId + 1 >= TWO_256 { return Fail(ArithmeticOverflow), 0; }
      nextEscrowId := escrowId + 1;
      var e := Escrow(sender, seller, arbiter, amount, commitment, Created);
      escrows := escrows[escrowId := e];
      assert Listing(escrows, nextEscrowId) == old(Listing(escrows, nextEscrowId)) + [e];
      Log(EscrowCreated(escrowId, sender, seller, arbiter, amount, commitment));
      r := Pass;
    }

    /** The value of a payable call arriving. */
    method Collect(sender: Address, value: Word)
      requires Valid() && value <= Bal(wealth, sender)
      modifies this`balance, this`wealth
      ensures Valid() && Abs() == old(Abs()).(balance := old(balance) + value,
                                              wealth := old(wealth)[sender := Bal(old(wealth), sender) - value])
    {
      balance, wealth := balance + value, wealth[sender := Bal(wealth, sender) - value];
    }

    method Fund(sender: Address, id: Word, value: Word) returns (r: Outcome)
      requires Valid()
      modifies this
      ensures Valid() && entered == old(entered)
      ensures Did(old(Abs()), FundStep(old(Abs()), sender, id, value), r)
    {
      if Bal(wealth, sender) < value { return Fail(InsufficientFunds); }
      r := Require(id, Created);
      if r.Fail? { return; }
      var e := escrows[id];
      if sender != e.buyer { return Fail(NotAuthorized(sender)); }
      if value != e.amount { return Fail(IncorrectAmount(e.amount, value)); }
      Collect(sender, value);
      Store(id, e.(state := Funded));
      Log(EscrowFunded(id, sender, value));
    }

    method Release(sender: Address, id: Word, nullifier: Word, proof: Proof) returns (r: Outcome)
      requires Valid()
      modifies this
      ensures Valid() && entered == old(entered)
      ensures Did(old(Abs()), ReleaseStep(verifier, old(Abs()), id, nullifier, proof), r)
    {
      r := Require(id, Funded);
      if r.Fail? { return; }
      var e := escrows[id];
      if nullifier in nullifierUsed && nullifierUsed[nullifier] { return Fail(NullifierAlreadyUsed(nullifier)); }
      if !verifier(proof, Signals(nullifier, e.commitment, id)) { return Fail(InvalidProof); }
      var before := Save();
      nullifierUsed := nullifierUsed[nullifier := true];
      assert Used(nullifierUsed) == old(Used(nullifierUsed)) + {nullifier};
      Store(id, e.(state := Released));
      var ok := CreditPayee(e.seller, e.amount);
      if !ok {
        Restore(before);
        return Fail(ArithmeticOverflow);
      }
      Log(EscrowReleased(id, e.seller, e.amount, nullifier));
    }

    method Refund(sender: Address, id: Word) returns (r: Outcome)
      requires Valid()
      modifies this
      ensures Valid() && entered == old(entered)
      ensures Did(old(Abs()), RefundStep(old(Abs()), sender, id), r)
    {
      r := Require(id, Funded);
      if r.Fail? { return; }
      var e := escrows[id];
      if sender != e.seller { return Fail(NotAuthorized(sender)); }
      var before := Save();
      Store(id, e.(state := Refunded));
      var ok := CreditPayee(e.buyer, e.amount);
      if !ok {
        Restore(before);
        return Fail(ArithmeticOverflow);
      }
      Log(EscrowRefunded(id, e.buyer, e.amount));
    }

    method RaiseDispute(sender: Address, id: Word, evidence: string) returns (r: Outcome)
      requires Valid()
      modifies this
      ensures Valid() && entered == old(entered)
      ensures Did(old(Abs()), RaiseDisputeStep(old(Abs()), sender, id, evidence), r)
    {
      r := Require(id, Funded);
      if r.Fail? { return; }
      var e := escrows[id];
      if sender != e.buyer && sender != e.seller { return Fail(NotAuthorized(sender)); }
      if evidence == "" { return Fail(EmptyEvidence); }
      Store(id, e.(state := Disputed));
      Log(DisputeRaised(id, sender, evidence));
    }

    method SubmitEvidence(sender: Address, id: Word, evidence: string) returns (r: Outcome)
      requires Valid()
      modifies this
      ensures Valid() && entered == old(entered)
      ensures Did(old(Abs()), SubmitEvidenceStep(old(Abs()), sender, id, evidence), r)
    {
      r := Require(id, Disputed);
      if r.Fail? { return; }
      var e := escrows[id];
      if sender != e.buyer && sender != e.seller { return Fail(NotAuthorized(sender)); }
      if evidence == "" { return Fail(EmptyEvidence); }
      Log(DisputeRaised(id, sender, evidence));
    }

    method ResolveDispute(sender: Address, id: Word, ruling: Ruling, rationale: string) returns (r: Outcome)
      requires Valid()
      modifies this
      ensures Valid() && entered == old(entered)
      ensures Did(old(Abs()), ResolveDisputeStep(old(Abs()), sender, id, ruling, rationale), r)
      ensures r.Pass? ==>
                && id in old(escrows) && escrows == old(escrows)[id := old(escrows)[id].(state := Resolved)]
                && var e := old(escrows)[id];
                && (ruling == BuyerWins ==>
                      Bal(pendingWithdrawals, e.buyer) == Bal(old(pendingWithdrawals), e.buyer) + e.amount)
                && (ruling == SellerWins ==>
                      Bal(pendingWithdrawals, e.seller) == Bal(old(pendingWithdrawals), e.seller) + e.amount)
    {
      r := Require(id, Disputed);
      if r.Fail? { return; }
      var e := escrows[id];
      if sender != e.arbiter { return Fail(NotAuthorized(sender)); }
      if rationale == "" { return Fail(EmptyRationale); }
      var before := Save();
      Store(id, e.(state := Resolved));
      var beneficiary := if ruling == BuyerWins then e.buyer else e.seller;
      var ok := CreditPayee(beneficiary, e.amount);
      if !ok {
        Restore(before);
        return Fail(ArithmeticOverflow);
      }
      Log(DisputeResolved(id, sender, ruling, beneficiary, e.amount, rationale));
    }

    method SetArbiter(sender: Address, id: Word, newArbiter: Address) returns (r: Outcome)
      requires Valid()
      modifies this
      ensures Valid() && entered == old(entered)
      ensures Did(old(Abs()), SetArbiterStep(old(Abs()), sender, id, newArbiter), r)
    {
      if version == V1 { return Fail(UnknownFunction); }
      if sender != owner { return Fail(NotOwner(sender)); }
      if id !in escrows || escrows[id].state == None { return Fail(EscrowDoesNotExist(id)); }
      var e := escrows[id];
      if newArbiter == ZERO_ADDRESS { return Fail(ZeroAddress); }
      if newArbiter == e.buyer || newArbiter == e.seller { return Fail(DuplicateParty); }
      if e.state != Disputed { return Fail(InvalidState(id, Disputed, e.state)); }
      Store(id, e.(arbiter := newArbiter));
      Log(ArbiterRotated(id, e.arbiter, newArbiter));
      r := Pass;
    }

    /** The effects withdraw has before it touches any ETH. */
    method DebitPayee(payee: Address, amount: Word) returns (ok: bool)
      requires Valid()
      modifies this`pendingWithdrawals, this`totalPendingWithdrawals, this`log
      ensures Valid() && ok == (amount <= old(totalPendingWithdrawals))
      ensures ok ==> Abs() == Emit(old(Abs()).(pending := old(pendingWithdrawals)[payee := 0],
                                              total := old(totalPendingWithdrawals) - amount),
                                   Withdrawn(payee, amount))
    {
      pendingWithdrawals := pendingWithdrawals[payee := 0];
      if totalPendingWithdrawals < amount { return false; }
      totalPendingWithdrawals := totalPendingWithdrawals - amount;
      Log(Withdrawn(payee, amount));
      return true;
    }

    /** withdraw up to the moment the payee's code starts running. */
    method PayOut(sender: Address) returns (r: Outcome)
      requires Valid()
      modifies this
      ensures Valid() && entered == old(entered)
      ensures Did(old(Abs()), GuardedStep(verifier, old(Abs()), old(entered), sender, Op.Withdraw), r)
    {
      if entered { return Fail(ReentrantCall); }
      var before := Save();
      var amount := Bal(pendingWithdrawals, sender);
      if amount == 0 { return Fail(NothingToWithdraw(sender)); }
      var ok := DebitPayee(sender, amount);
      if !ok {
        Restore(before);
        return Fail(ArithmeticOverflow);
      }
      if balance < amount {
        Restore(before);
        return Fail(TransferFailed(sender, amount));
      }
      balance, wealth := balance - amount, wealth[sender := Bal(wealth, sender) + amount];
      r := Pass;
    }

    /** The whole of withdraw: the payee's code runs after the ETH has left and
        before the transfer counts as accepted; rejecting it undoes everything. */
    method Withdraw(sender: Address, callback: seq<Action>, accepts: bool) returns (r: Outcome)
      requires Valid()
      modifies this
      ensures Valid() && entered == old(entered)
      ensures Abs() == ExecOne(verifier, old(Abs()), old(entered), Withdrawal(sender, callback, accepts))
      ensures r == match GuardedStep(verifier, old(Abs()), old(entered), sender, Op.Withdraw)
                   case Err(e) => Fail(e)
                   case Ok(_) => if accepts then Pass else Fail(TransferFailed(sender, Bal(old(pendingWithdrawals), sender)))
      decreases callback, 2
    {
      var before := Save();
      r := PayOut(sender);
      if r.Fail? { return; }
      entered := true;
      Execute(callback);
      if accepts {
        entered := false;
      } else {
        Restore(before);
        r := Fail(TransferFailed(sender, Bal(pendingWithdrawals, sender)));
      }
    }

    method Dispatch(tx: Tx) returns (r: Outcome)
      requires Valid()
      modifies this
      ensures Valid() && entered == old(entered)
      ensures Did(old(Abs()), GuardedStep(verifier, old(Abs()), old(entered), tx.sender, tx.op), r)
    {
      hide CreateEscrowStep, FundStep, ReleaseStep, RefundStep, RaiseDisputeStep, SubmitEvidenceStep, ResolveDisputeStep, SetArbiterStep;
      r := Pass;
      match tx.op
      case CreateEscrow(seller, arbiter, amount, commitment) =>
        var escrowId;
        r, escrowId := CreateEscrow(tx.sender, seller, arbiter, amount, commitment);
      case Fund(id, value) => r := Fund(tx.sender, id, value);
      case Release(id, nullifier, proof) => r := Release(tx.sender, id, nullifier, proof);
      case Refund(id) => r := Refund(tx.sender, id);
      case RaiseDispute(id, evidence) => r := RaiseDispute(tx.sender, id, evidence);
      case SubmitEvidence(id, evidence) => r := SubmitEvidence(tx.sender, id, evidence);
      case ResolveDispute(id, ruling, rationale) => r := ResolveDispute(tx.sender, id, ruling, rationale);
      case Withdraw => r := PayOut(tx.sender);
      case SetArbiter(id, newArbiter) => r := SetArbiter(tx.sender, id, newArbiter);
      case _ => r := Outside(tx);
    }

    /** What happens around the contract rather than in it. */
    method Outside(tx: Tx) returns (r: Outcome)
      requires Valid() && (tx.op.UpgradeTo? || tx.op.Transfer? || tx.op.ForceEther?)
      modifies this`version, this`wealth, this`balance, this`forced
      ensures Valid() && Did(old(Abs()), GuardedStep(verifier, old(Abs()), old(entered), tx.sender, tx.op), r)
    {
      r := Pass;
      match tx.op
      case UpgradeTo(implementation) =>
        if tx.sender != owner { return Fail(NotOwner(tx.sender)); }
        if implementation.NoImplementation? { return Fail(ZeroAddress); }
        version := implementation.version;
      case Transfer(to, wei) =>
        if Bal(wealth, tx.sender) < wei { return Fail(InsufficientFunds); }
        wealth := wealth[tx.sender := Bal(wealth, tx.sender) - wei];
        wealth := wealth[to := Bal(wealth, to) + wei];
      case ForceEther(wei) =>
        if Bal(wealth, tx.sender) < wei { return Fail(InsufficientFunds); }
        wealth := wealth[tx.sender := Bal(wealth, tx.sender) - wei];
        balance, forced := balance + wei, forced + wei;
    }

    method ExecuteOne(a: Action)
      requires Valid()
      modifies this
      ensures Valid() && entered == old(entered)
      ensures Abs() == ExecOne(verifier, old(Abs()), old(entered), a)
      decreases a, 0
    {
      match a
      case Call(tx) => var _ := Dispatch(tx);
      case Withdrawal(payee, callback, accepts) => var _ := Withdraw(payee, callback, accepts);
      case Frame(body, commits) =>
        var before := Save();
        Execute(body);
        if !commits { Restore(before); }
    }

    method Execute(acts: seq<Action>)
      requires Valid()
      modifies this
      ensures Valid() && entered == old(entered)
      ensures Abs() == Exec(verifier, old(Abs()), old(entered), acts)
      decreases acts, 1
    {
      if acts != [] {
        ExecuteOne(acts[0]);
        Execute(acts[1..]);
      }
    }
  }
}
