// The harness contract itself: entry points that pick an escrow, register an
// opportunity, call the contract and update counters and sticky flags in place.
// Each is proved to do what Harness.Enter says.
module Properties {
  import opened Basics
  import opened EscrowMachine
  import opened Lifecycle
  import opened Selection
  import opened H = Harness

  predicate SameParties(x: Escrow, y: Escrow) {
    x.buyer == y.buyer && x.seller == y.seller && x.arbiter == y.arbiter
  }

  class Properties {
    const setup: Setup
    var world: World                    // the contract and the chain around it
    var createdEscrows: seq<Word>
    var lastState: map<Word, State>
    var nullifierReleaseCount: map<Word, nat>
    var totalFunded: nat
    var shouldVerify: bool              // the mock verifier's verdict
    var ledger: Ledger
    var flags: Flags

    ghost predicate Valid()
      reads this
    {
      |setup.pool| >= 3 && |world.escrows| < TWO_256
    }

    ghost function Abs(): H.Harness
      reads this
    {
      H.Harness(world, createdEscrows, lastState, nullifierReleaseCount, totalFunded, shouldVerify, ledger, flags)
    }

    constructor (setup: Setup, world: World)
      requires |setup.pool| >= 3
      requires IsGenesis(world.(version := V1)) && world.version == V2 && world.owner == setup.self
      ensures Valid() && this.setup == setup && Deployed(setup, Abs()) && shouldVerify
    {
      this.setup, this.world := setup, world;
      createdEscrows, lastState, nullifierReleaseCount, totalFunded := [], map[], map[], 0;
      shouldVerify := true;
      ledger := Ledger(0, 0, 0, 0, 0, 0, 0, 0, 0, 0, 0);
      flags := Flags(false, false, false, false, false);
    }

    /** Calls the contract, reporting a revert instead of propagating it. */
    method Exec(tx: Tx) returns (ok: bool)
      requires Valid()
      modifies this`world
      ensures ok == EscrowMachine.Step(Mock(shouldVerify), old(world), tx.sender, tx.op).Ok?
      ensures world == if ok then EscrowMachine.Step(Mock(shouldVerify), old(world), tx.sender, tx.op).value else old(world)
      ensures Valid() && |world.escrows| >= |old(world).escrows|
    {
      var r := EscrowMachine.Step(Mock(shouldVerify), world, tx.sender, tx.op);
      ok := r.Ok?;
      if ok {
        ghost var k := StepDoes(Mock(shouldVerify), world, tx.sender, tx.op);
        EffectTouchesOne(Mock(shouldVerify), world, r.value, k);
        world := r.value;
      }
    }

    /** Looks at an escrow: a move off the transition table raises the flag. */
    method Observe(id: Word)
      modifies this`lastState, this`flags
      ensures lastState == old(lastState)[id := GetState(world, id)]
      ensures flags == old(flags).(invalidTransitionSeen := old(flags).invalidTransitionSeen
                || !LegalTransition(LastSeen(old(lastState), id), GetState(world, id)))
    {
      var prev := if id in lastState then lastState[id] else None;
      var next := GetState(world, id);
      if !LegalTransition(prev, next) { flags := flags.(invalidTransitionSeen := true); }
      lastState := lastState[id := next];
    }

    /** The books after a creation has gone through. */
    method NoteCreation(id: Word, oppBefore: nat)
      modifies this`createdEscrows, this`ledger, this`lastState, this`flags
      ensures createdEscrows == old(createdEscrows) + [id] && ledger == old(ledger).(creates := old(ledger).creates + 1)
      ensures lastState == old(lastState)[id := GetState(world, id)]
      ensures flags == old(flags).(
                invalidTransitionSeen := old(flags).invalidTransitionSeen
                  || !LegalTransition(LastSeen(old(lastState), id), GetState(world, id)),
                ledgerInconsistent := old(flags).ledgerInconsistent || old(ledger).createAttempts == oppBefore)
    {
      hide LegalTransition, GetState;
      if ledger.createAttempts == oppBefore { flags := flags.(ledgerInconsistent := true); }
      createdEscrows := createdEscrows + [id];
      ledger := ledger.(creates := ledger.creates + 1);
      Observe(id);
    }

    method CreateEscrow(amount: Word, commitment: Word)
      requires Valid()
      modifies this
      ensures Valid() && Abs() == Enter(setup, old(Abs()), Entry.CreateEscrow(amount, commitment))
    {
      hide EscrowMachine.Step, LegalTransition, GetState, LastSeen;
      ghost var h, e := Abs(), Entry.CreateEscrow(amount, commitment);
      var pool, hash := setup.pool, setup.hash(amount, commitment);
      var b, s, a := RolesFor(|pool|, hash);
      ArbiterIsUnique(|pool|, hash, a);
      var bounded := Bound(amount, 1, TEN_ETHER);
      var oppBefore := ledger.createAttempts;
      if oppBefore + 1 >= TWO_256 { return; }   // the checked increment reverts the call
      ledger := ledger.(createAttempts := oppBefore + 1);
      var expectedId: Word := |world.escrows|;
      var tx := Tx(pool[b], Op.CreateEscrow(pool[s], pool[a], bounded, commitment));
      CreationEnters(setup, h, e, tx);
      hide Enter, CreateTx, Bound;
      var ok := Exec(tx);
      if ok {
        NoteCreation(expectedId, oppBefore);
      }
    }

    /** The books after a funding has gone through. */
    method NoteFunding(id: Word, amount: Word, oppBefore: nat)
      modifies this`totalFunded, this`ledger, this`lastState, this`flags
      ensures totalFunded == old(totalFunded) + amount && ledger == old(ledger).(funds := old(ledger).funds + 1)
      ensures lastState == old(lastState)[id := GetState(world, id)]
      ensures flags == old(flags).(
                invalidTransitionSeen := old(flags).invalidTransitionSeen
                  || !LegalTransition(LastSeen(old(lastState), id), GetState(world, id)),
                ledgerInconsistent := old(flags).ledgerInconsistent || old(ledger).fundOpportunities == oppBefore)
    {
      hide LegalTransition, GetState;
      if ledger.fundOpportunities == oppBefore { flags := flags.(ledgerInconsistent := true); }
      totalFunded := totalFunded + amount;
      ledger := ledger.(funds := ledger.funds + 1);
      Observe(id);
    }

    /** Counts an opportunity, or a probe of the state guard. */
    method RegisterFunding(id: Word)
      modifies this`ledger
      ensures ledger == if GetState(world, id) == Created
                        then old(ledger).(fundOpportunities := old(ledger).fundOpportunities + 1)
                        else old(ledger).(fundWrongStateAttempts := old(ledger).fundWrongStateAttempts + 1)
    {
      if GetState(world, id) == Created {
        ledger := ledger.(fundOpportunities := ledger.fundOpportunities + 1);
      } else {
        ledger := ledger.(fundWrongStateAttempts := ledger.fundWrongStateAttempts + 1);
      }
    }

    /** The funding itself, once the escrow and its buyer are known. */
    method FundEscrow(id: Word, tx: Tx)
      requires Valid() && tx.op.Fund?
      modifies this
      ensures Valid() && Abs() == AfterFunding(old(Abs()), id, tx)
    {
      hide EscrowMachine.Step, LegalTransition, GetState, LastSeen;
      var oppBefore := ledger.fundOpportunities;
      RegisterFunding(id);
      var ok := Exec(tx);
      if ok { NoteFunding(id, tx.op.value, oppBefore); }
    }

    method Fund(seed: Word)
      requires Valid()
      modifies this
      ensures Valid() && Abs() == Enter(setup, old(Abs()), Entry.Fund(seed))
    {
      hide EscrowMachine.Step, LegalTransition, Enter, PickFrom;
      ghost var h, e := Abs(), Entry.Fund(seed);
      var p := PickAny(createdEscrows, seed);
      if seed % 4 != 0 { p := PickInState(world, createdEscrows, seed, Created); }
      if p.Nobody? || GetState(world, p.id) == None { EnterIdles(setup, h, e); return; }
      var id, x := p.id, world.escrows[p.id];
      if x.buyer !in setup.pool { EnterIdles(setup, h, e); return; }
      if x.amount == 0 || Bal(world.wealth, x.buyer) < x.amount { EnterIdles(setup, h, e); return; }
      var tx := Tx(x.buyer, Op.Fund(id, x.amount));
      FundingEnters(setup, h, e, id, tx);
      hide *;
      FundEscrow(id, tx);
    }

    method Release(seed: Word, nullifier: Word)
      requires Valid()
      modifies this
      ensures Valid() && Abs() == Enter(setup, old(Abs()), Entry.Release(seed, nullifier))
    {
      hide EscrowMachine.Step, LegalTransition, Enter, PickFrom, Bound;
      ghost var h, e := Abs(), Entry.Release(seed, nullifier);
      var p := PickAny(createdEscrows, seed);
      if p.Nobody? || GetState(world, p.id) == None { EnterIdles(setup, h, e); return; }
      var id, x := p.id, world.escrows[p.id];
      var n := Bound(nullifier, 1, 8);
      var tx := Tx(setup.self, Op.Release(id, n, NO_PROOF));
      SettlementEnters(setup, h, e, id, tx);
      hide *;
      ReleaseEscrow(e, id, x, n, tx);
    }

    /** The release itself, once the escrow is known. */
    method ReleaseEscrow(ghost e: Entry, id: Word, x: Escrow, n: Word, tx: Tx)
      requires Valid() && e.Release? && n == Bound(e.nullifier, 1, 8)
      requires id < |world.escrows| && x == world.escrows[id] && x.state != None
      modifies this
      ensures Valid() && Abs() == AfterSettlement(old(Abs()), e, id, tx)
    {
      hide EscrowMachine.Step, LegalTransition, LastSeen, Bound;
      var oppBefore := ledger.settleOpportunities;
      if GetState(world, id) == Funded && n !in world.spent && shouldVerify {
        ledger := ledger.(settleOpportunities := oppBefore + 1);
      }
      var arbiterBefore := Bal(world.pending, x.arbiter);
      hide GetState;
      var ok := Exec(tx);
      if ok { NoteRelease(id, n, x.arbiter, arbiterBefore, oppBefore); }
    }

    /** The books after a release has gone through. */
    method NoteRelease(id: Word, n: Word, arbiter: Address, arbiterBefore: Word, oppBefore: nat)
      modifies this`nullifierReleaseCount, this`ledger, this`lastState, this`flags
      ensures nullifierReleaseCount == SpentOnce(old(nullifierReleaseCount), n)
      ensures ledger == old(ledger).(releases := old(ledger).releases + 1)
      ensures lastState == old(lastState)[id := GetState(world, id)]
      ensures flags == old(flags).(
                invalidTransitionSeen := old(flags).invalidTransitionSeen
                  || !LegalTransition(LastSeen(old(lastState), id), GetState(world, id)),
                fundsLeftTheParties := old(flags).fundsLeftTheParties || Bal(world.pending, arbiter) > arbiterBefore,
                nullifierReuseSeen := old(flags).nullifierReuseSeen || Bal(old(nullifierReleaseCount), n) > 0,
                ledgerInconsistent := old(flags).ledgerInconsistent || old(ledger).settleOpportunities == oppBefore)
    {
      hide LegalTransition, GetState;
      nullifierReleaseCount := nullifierReleaseCount[n := Bal(nullifierReleaseCount, n) + 1];
      if nullifierReleaseCount[n] > 1 { flags := flags.(nullifierReuseSeen := true); }
      NoteSettlement(id, arbiter, arbiterBefore, oppBefore);
      ledger := ledger.(releases := ledger.releases + 1);
    }

    method SetVerifierVerdict(value: bool)
      modifies this`shouldVerify
      ensures |setup.pool| >= 3 ==> Abs() == Enter(setup, old(Abs()), Entry.SetVerifierVerdict(value))
    {
      shouldVerify := value;
    }

    /** The checks made after a settlement: was it registered, did the arbiter gain. */
    method NoteSettlement(id: Word, arbiter: Address, arbiterBefore: Word, oppBefore: nat)
      modifies this`lastState, this`flags
      ensures lastState == old(lastState)[id := GetState(world, id)]
      ensures flags == old(flags).(
                invalidTransitionSeen := old(flags).invalidTransitionSeen
                  || !LegalTransition(LastSeen(old(lastState), id), GetState(world, id)),
                fundsLeftTheParties := old(flags).fundsLeftTheParties || Bal(world.pending, arbiter) > arbiterBefore,
                ledgerInconsistent := old(flags).ledgerInconsistent || ledger.settleOpportunities == oppBefore)
    {
      hide LegalTransition, GetState;
      if ledger.settleOpportunities == oppBefore { flags := flags.(ledgerInconsistent := true); }
      if Bal(world.pending, arbiter) > arbiterBefore { flags := flags.(fundsLeftTheParties := true); }
      Observe(id);
    }

    method Refund(seed: Word)
      requires Valid()
      modifies this
      ensures Valid() && Abs() == Enter(setup, old(Abs()), Entry.Refund(seed))
    {
      hide EscrowMachine.Step, LegalTransition, Enter, PickFrom;
      ghost var h, e := Abs(), Entry.Refund(seed);
      var p := PickAny(createdEscrows, seed);
      if p.Nobody? || GetState(world, p.id) == None { EnterIdles(setup, h, e); return; }
      var id, x := p.id, world.escrows[p.id];
      if x.seller !in setup.pool { EnterIdles(setup, h, e); return; }
      var tx := Tx(x.seller, Op.Refund(id));
      SettlementEnters(setup, h, e, id, tx);
      hide *;
      RefundEscrow(e, id, x, tx);
    }

    /** The refund itself, once the escrow and its seller are known. */
    method RefundEscrow(ghost e: Entry, id: Word, x: Escrow, tx: Tx)
      requires Valid() && e.Refund?
      requires id < |world.escrows| && x == world.escrows[id] && x.state != None
      modifies this
      ensures Valid() && Abs() == AfterSettlement(old(Abs()), e, id, tx)
    {
      hide EscrowMachine.Step, LegalTransition, LastSeen, Bound;
      var oppBefore := ledger.settleOpportunities;
      if GetState(world, id) == Funded {
        ledger := ledger.(settleOpportunities := oppBefore + 1);
      }
      var arbiterBefore := Bal(world.pending, x.arbiter);
      hide GetState, Bal;
      var ok := Exec(tx);
      if ok {
        NoteSettlement(id, x.arbiter, arbiterBefore, oppBefore);
        ledger := ledger.(refunds := ledger.refunds + 1);
      }
    }

    method RaiseDispute(seed: Word, asSeller: bool)
      requires Valid()
      modifies this
      ensures Valid() && Abs() == Enter(setup, old(Abs()), Entry.RaiseDispute(seed, asSeller))
    {
      hide EscrowMachine.Step, LegalTransition, Enter, PickFrom;
      ghost var h, e := Abs(), Entry.RaiseDispute(seed, asSeller);
      var p := PickAny(createdEscrows, seed);
      if p.Nobody? || GetState(world, p.id) == None { EnterIdles(setup, h, e); return; }
      var id, x := p.id, world.escrows[p.id];
      var who := if asSeller then x.seller else x.buyer;
      if who !in setup.pool { EnterIdles(setup, h, e); return; }
      var tx := Tx(who, Op.RaiseDispute(id, "fuzz evidence"));
      EvidenceEnters(setup, h, e, id, tx);
      hide Target, CallOn, PickAny, GetState, LastSeen;
      var ok := Exec(tx);
      if ok { Observe(id); }
    }

    /** Counts a rotation that has to go through. */
    method RegisterRotation(id: Word, x: Escrow, newArbiter: Address)
      requires id < |world.escrows| && x == world.escrows[id]
      modifies this`ledger
      ensures ledger == if MayRotate(world, id, newArbiter)
                        then old(ledger).(rotationOpportunities := old(ledger).rotationOpportunities + 1)
                        else old(ledger)
    {
      if GetState(world, id) == Disputed && newArbiter != ZERO_ADDRESS && newArbiter != x.buyer && newArbiter != x.seller {
        ledger := ledger.(rotationOpportunities := ledger.rotationOpportunities + 1);
      }
    }

    method RotateArbiter(seed: Word, actorSeed: Word)
      requires Valid()
      modifies this
      ensures Valid() && Abs() == Enter(setup, old(Abs()), Entry.RotateArbiter(seed, actorSeed))
    {
      hide EscrowMachine.Step, LegalTransition, Enter, PickFrom, ActorAt;
      ghost var h, e := Abs(), Entry.RotateArbiter(seed, actorSeed);
      var p := PickAny(createdEscrows, seed);
      if p.Nobody? || GetState(world, p.id) == None { EnterIdles(setup, h, e); return; }
      var id, x := p.id, world.escrows[p.id];
      var newArbiter := ActorAt(setup, actorSeed);
      var tx := Tx(setup.self, Op.SetArbiter(id, newArbiter));
      RotationEnters(setup, h, e, id, tx);
      hide *;
      RotateEscrow(id, x, tx);
    }

    /** The rotation itself, once the escrow is known. */
    method RotateEscrow(id: Word, x: Escrow, tx: Tx)
      requires Valid() && tx.op.SetArbiter? && id < |world.escrows| && x == world.escrows[id]
      modifies this
      ensures Valid() && Abs() == AfterRotation(old(Abs()), id, tx)
    {
      hide EscrowMachine.Step, LegalTransition, LastSeen, MayRotate, GuardsBroken, GetState;
      var newArbiter, stateBefore := tx.op.newArbiter, GetState(world, id);
      RegisterRotation(id, x, newArbiter);
      var ok := Exec(tx);
      if ok {
        NoteRotation(old(world), id, x, newArbiter, stateBefore);
      } else {
        NoteRefusal(id, x, stateBefore);
      }
    }

    /** The books and the checks after a rotation has gone through. */
    method NoteRotation(ghost before: World, id: Word, x: Escrow, newArbiter: Address, stateBefore: State)
      requires id < |before.escrows| <= |world.escrows| && x == before.escrows[id] && stateBefore == GetState(before, id)
      modifies this`ledger, this`lastState, this`flags
      ensures ledger == old(ledger).(rotations := old(ledger).rotations + 1)
      ensures lastState == old(lastState)[id := GetState(world, id)]
      ensures flags == old(flags).(
                invalidTransitionSeen := old(flags).invalidTransitionSeen
                  || !LegalTransition(LastSeen(old(lastState), id), GetState(world, id)),
                rotationBrokeItsGuards := old(flags).rotationBrokeItsGuards || GuardsBroken(before, id, newArbiter, world))
    {
      hide LegalTransition;
      ledger := ledger.(rotations := ledger.rotations + 1);
      var after, broken := world.escrows[id], flags.rotationBrokeItsGuards;
      if stateBefore != Disputed { broken := true; }
      if newArbiter == x.buyer || newArbiter == x.seller { broken := true; }
      if newArbiter == ZERO_ADDRESS { broken := true; }
      if after.buyer != x.buyer || after.seller != x.seller { broken := true; }
      if after.arbiter != newArbiter { broken := true; }
      if GetState(world, id) != stateBefore { broken := true; }
      flags := flags.(rotationBrokeItsGuards := broken);
      Observe(id);
    }

    /** The checks made after a rotation has been refused. */
    method NoteRefusal(id: nat, x: Escrow, stateBefore: State)
      requires id < |world.escrows|
      modifies this`flags
      ensures var same := SameParties(x, world.escrows[id]) && GetState(world, id) == stateBefore;
              flags == if same then old(flags) else old(flags).(rotationBrokeItsGuards := true)
    {
      var after := world.escrows[id];
      if after.buyer != x.buyer || after.seller != x.seller || after.arbiter != x.arbiter {
        flags := flags.(rotationBrokeItsGuards := true);
      }
      if GetState(world, id) != stateBefore { flags := flags.(rotationBrokeItsGuards := true); }
    }

    method SubmitEvidence(seed: Word, asSeller: bool)
      requires Valid()
      modifies this
      ensures Valid() && Abs() == Enter(setup, old(Abs()), Entry.SubmitEvidence(seed, asSeller))
    {
      hide EscrowMachine.Step, LegalTransition, Enter, PickFrom;
      ghost var h, e := Abs(), Entry.SubmitEvidence(seed, asSeller);
      var p := PickAny(createdEscrows, seed);
      if p.Nobody? || GetState(world, p.id) == None { EnterIdles(setup, h, e); return; }
      var id, x := p.id, world.escrows[p.id];
      var who := if asSeller then x.seller else x.buyer;
      if who !in setup.pool { EnterIdles(setup, h, e); return; }
      var tx := Tx(who, Op.SubmitEvidence(id, "fuzz evidence"));
      EvidenceEnters(setup, h, e, id, tx);
      hide Target, CallOn, PickAny, GetState, LastSeen;
      var ok := Exec(tx);
      if ok { Observe(id); }
    }

    method ResolveDispute(seed: Word, sellerWins: bool)
      requires Valid()
      modifies this
      ensures Valid() && Abs() == Enter(setup, old(Abs()), Entry.ResolveDispute(seed, sellerWins))
    {
      hide EscrowMachine.Step, LegalTransition, Enter, PickFrom;
      ghost var h, e := Abs(), Entry.ResolveDispute(seed, sellerWins);
      var p := PickAny(createdEscrows, seed);
      if p.Nobody? || GetState(world, p.id) == None { EnterIdles(setup, h, e); return; }
      var id, x := p.id, world.escrows[p.id];
      if x.arbiter !in setup.pool { EnterIdles(setup, h, e); return; }
      var tx := Tx(x.arbiter, Op.ResolveDispute(id, Ruled(sellerWins), "fuzz rationale"));
      SettlementEnters(setup, h, e, id, tx);
      hide *;
      ResolveEscrow(e, id, x, tx);
    }

    /** The ruling itself, once the escrow and its arbiter are known. */
    method ResolveEscrow(ghost e: Entry, id: Word, x: Escrow, tx: Tx)
      requires Valid() && e.ResolveDispute?
      requires id < |world.escrows| && x == world.escrows[id] && x.state != None
      modifies this
      ensures Valid() && Abs() == AfterSettlement(old(Abs()), e, id, tx)
    {
      hide EscrowMachine.Step, LegalTransition, LastSeen, Bound;
      var oppBefore := ledger.settleOpportunities;
      if GetState(world, id) == Disputed {
        ledger := ledger.(settleOpportunities := oppBefore + 1);
      }
      var arbiterBefore := Bal(world.pending, x.arbiter);
      hide GetState, Bal;
      var ok := Exec(tx);
      if ok {
        NoteSettlement(id, x.arbiter, arbiterBefore, oppBefore);
        ledger := ledger.(resolutions := ledger.resolutions + 1);
      }
    }

    method ResolveDisputeUnauthorized(seed: Word, sellerWins: bool)
      requires Valid()
      modifies this
      ensures Valid() && Abs() == Enter(setup, old(Abs()), Entry.ResolveDisputeUnauthorized(seed, sellerWins))
    {
      hide EscrowMachine.Step, LegalTransition, PickFrom;
      var p := PickAny(createdEscrows, seed);
      if p.Nobody? || GetState(world, p.id) == None { return; }
      var e := world.escrows[p.id];
      if e.buyer !in setup.pool { return; }
      var ok := Exec(Tx(e.buyer, Op.ResolveDispute(p.id, Ruled(sellerWins), "unauthorized")));
      if ok { flags := flags.(fundsLeftTheParties := true); }
    }

    method Withdraw(seed: Word)
      requires Valid()
      modifies this
      ensures Valid() && Abs() == Enter(setup, old(Abs()), Entry.Withdraw(seed))
    {
      var _ := Exec(Tx(ActorAt(setup, seed), Op.Withdraw));
    }
  }
}
