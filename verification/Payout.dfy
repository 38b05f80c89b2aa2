// Emptying the contract: from every state it can get into, parties who settle,
// payees who accept, and either the arbiters or, in the place of those who never
// act, the owner rotating them out, leave nothing behind. The runs are made from
// the top level: inside a callback the guard refuses withdrawals until it ends.
module Payout {
  import opened Basics
  import opened ZkTypes
  import opened EscrowMachine
  import opened CallTree
  import opened Solvency
  import opened EventLog
  import opened Lifecycle

  type Rulings = nat -> Ruling

  /** The ruling each disputed escrow gets, the addresses that never act, and who
      rules where the arbiter is one of them. */
  datatype Plan = Plan(rulings: Rulings, absent: set<Address>, standIn: Address)

  /** Every call of the run succeeds. */
  predicate AllSucceed(v: Verifier, w: World, txs: seq<Tx>) {
    txs == [] || (
      var n := |txs| - 1;
      AllSucceed(v, w, txs[..n]) && Step(v, Run(v, w, txs[..n]), txs[n].sender, txs[n].op).Ok?)
  }

  /** What may happen: refunds, withdrawals and the planned rulings, none of them
      by an absent address; and, only if some are absent, rotations to the
      stand-in and the upgrade that brings rotation. */
  predicate IsExit(tx: Tx, p: Plan) {
    && tx.sender !in p.absent
    && match tx.op
       case Refund(_) => true
       case Withdraw => true
       case ResolveDispute(id, ruling, _) => ruling == p.rulings(id)
       case SetArbiter(_, a) => p.absent != {} && a == p.standIn
       case UpgradeTo(implementation) => p.absent != {} && implementation == Implementation(V2)
       case _ => false
  }

  predicate OnlyExits(txs: seq<Tx>, p: Plan) { forall i | 0 <= i < |txs| :: IsExit(txs[i], p) }

  lemma OneCall(v: Verifier, w: World, tx: Tx, p: Plan)
    requires Step(v, w, tx.sender, tx.op).Ok? && IsExit(tx, p)
    ensures AllSucceed(v, w, [tx]) && OnlyExits([tx], p)
    ensures Run(v, w, [tx]) == Step(v, w, tx.sender, tx.op).value
  {
    hide Step, IsExit;
    assert [tx][..0] == [];
  }

  lemma {:induction false} Concat(v: Verifier, w: World, a: seq<Tx>, b: seq<Tx>, p: Plan)
    requires AllSucceed(v, w, a) && OnlyExits(a, p) && AllSucceed(v, Run(v, w, a), b) && OnlyExits(b, p)
    ensures AllSucceed(v, w, a + b) && OnlyExits(a + b, p)
    decreases |b|
  {
    if b == [] {
      assert a + b == a;
    } else {
      var n := |b| - 1;
      ConcatOnly(a, b, p);
      ConcatEnds(a, b);
      RunConcat(v, w, a, b[..n]);
      hide Step, Run, OnlyExits;
      Concat(v, w, a, b[..n], p);
    }
  }

  lemma ConcatOnly(a: seq<Tx>, b: seq<Tx>, p: Plan)
    requires OnlyExits(a, p) && OnlyExits(b, p)
    ensures OnlyExits(a + b, p) && (b != [] ==> OnlyExits(b[..|b| - 1], p))
  {
    hide IsExit;
  }

  lemma ConcatEnds<T>(a: seq<T>, b: seq<T>)
    requires b != []
    ensures var ab := a + b;
            ab[..|ab| - 1] == a + b[..|b| - 1] && ab[|ab| - 1] == b[|b| - 1]
  {}

  // ---- Settling -----------------------------------------------------------

  /** The parties of live escrows and everyone in credit act, and so do the owner
      and the stand-in, if anyone is absent. */
  ghost predicate Cooperative(w: World, p: Plan) {
    && (forall i | 0 <= i < |w.escrows| :: PartiesAct(w.escrows[i], p))
    && Holders(w.pending) !! p.absent
    && (p.absent != {} ==> w.owner !in p.absent && p.standIn !in p.absent && p.standIn != ZERO_ADDRESS)
  }

  predicate PartiesAct(e: Escrow, p: Plan) {
    Open(e.state) ==> e.buyer !in p.absent && e.seller !in p.absent && (p.absent != {} ==> !IsParty(e, p.standIn))
  }

  /** What becomes of an escrow. */
  function Settlement(e: Escrow, p: Plan): Escrow {
    match e.state
    case Funded => e.(state := Refunded)
    case Disputed => e.(state := Resolved, arbiter := if e.arbiter in p.absent then p.standIn else e.arbiter)
    case _ => e
  }

  /** Nothing but escrow id changed, and only its parties came into credit. */
  ghost predicate OnlyAbout(w: World, w': World, id: nat, e: Escrow) {
    && id < |w.escrows| && w'.escrows == w.escrows[id := e]
    && w'.balance == w.balance && w'.forced == w.forced && w'.owner == w.owner && w'.version == w.version
    && Holders(w'.pending) <= Holders(w.pending) + {w.escrows[id].buyer, w.escrows[id].seller}
  }

  lemma CooperationLasts(w: World, w': World, id: nat, e: Escrow, p: Plan)
    requires Cooperative(w, p) && OnlyAbout(w, w', id, e)
    requires Open(w.escrows[id].state) && PartiesAct(e, p)
    ensures Cooperative(w', p)
  {
    assert PartiesAct(w.escrows[id], p);
    hide PartiesAct;
    forall i | 0 <= i < |w'.escrows| ensures PartiesAct(w'.escrows[i], p) {
      if i != id { assert w'.escrows[i] == w.escrows[i]; }
    }
  }

  /** The call that settles a live escrow whose arbiter, if needed, acts. */
  function Exit(w: World, id: Word, p: Plan): Tx
    requires id < |w.escrows|
  {
    var e := w.escrows[id];
    if e.state == Funded then Tx(e.seller, Refund(id)) else Tx(e.arbiter, ResolveDispute(id, p.rulings(id), "settled"))
  }

  lemma ExitSettles(v: Verifier, w: World, id: Word, p: Plan)
    requires Solvent(w) && w.balance < TWO_256
    requires id < |w.escrows| && Open(w.escrows[id].state) && PartiesAct(w.escrows[id], p)
    requires w.escrows[id].state == Disputed ==> w.escrows[id].arbiter !in p.absent
    ensures var tx := Exit(w, id, p);
            var r := Step(v, w, tx.sender, tx.op);
            IsExit(tx, p) && r.Ok? && Solvent(r.value) && OnlyAbout(w, r.value, id, Settlement(w.escrows[id], p))
  {
    var tx := Exit(w, id, p);
    SettlesIffEntitled(v, w, tx.sender, tx.op);
    StepKeepsSolvency(v, w, tx.sender, tx.op);
    var k := StepDoes(v, w, tx.sender, tx.op);
    hide Solvent, Step;
  }

  /** An absent arbiter is replaced. */
  lemma RotationReplaces(v: Verifier, w: World, id: Word, p: Plan)
    requires Solvent(w) && Cooperative(w, p) && w.version == V2
    requires id < |w.escrows| && w.escrows[id].state == Disputed && w.escrows[id].arbiter in p.absent
    ensures var tx := Tx(w.owner, SetArbiter(id, p.standIn));
            var r := Step(v, w, tx.sender, tx.op);
            IsExit(tx, p) && r.Ok? && Solvent(r.value) && OnlyAbout(w, r.value, id, w.escrows[id].(arbiter := p.standIn))
  {
    assert PartiesAct(w.escrows[id], p);
    StepKeepsSolvency(v, w, w.owner, SetArbiter(id, p.standIn));
    hide Solvent;
  }

  lemma SettleOne(v: Verifier, w: World, id: Word, p: Plan) returns (txs: seq<Tx>)
    requires Solvent(w) && w.balance < TWO_256 && Cooperative(w, p) && (p.absent != {} ==> w.version == V2)
    requires id < |w.escrows| && Open(w.escrows[id].state)
    ensures AllSucceed(v, w, txs) && OnlyExits(txs, p)
    ensures var w' := Run(v, w, txs);
            Solvent(w') && Cooperative(w', p) && OnlyAbout(w, w', id, Settlement(w.escrows[id], p))
  {
    var e := w.escrows[id];
    assert PartiesAct(e, p);
    hide Solvent, Step, Run, AllSucceed, OnlyExits, IsExit, Exit, Holders;
    var mid, before := w, [];
    if e.state == Disputed && e.arbiter in p.absent {
      RotationReplaces(v, w, id, p);
      var tx := Tx(w.owner, SetArbiter(id, p.standIn));
      OneCall(v, w, tx, p);
      mid, before := Step(v, w, tx.sender, tx.op).value, [tx];
      CooperationLasts(w, mid, id, e.(arbiter := p.standIn), p);
    } else {
      NoCalls(v, w, p);
    }
    ExitSettles(v, mid, id, p);
    var tx := Exit(mid, id, p);
    OneCall(v, mid, tx, p);
    Concat(v, w, before, [tx], p);
    RunConcat(v, w, before, [tx]);
    txs := before + [tx];
    CooperationLasts(mid, Run(v, w, txs), id, Settlement(e, p), p);
  }

  lemma NoCalls(v: Verifier, w: World, p: Plan)
    ensures AllSucceed(v, w, []) && OnlyExits([], p) && Run(v, w, []) == w
  {}

  /** Every escrow below n has left the live states, the rest are as they were. */
  ghost predicate SettledBelow(w: World, w': World, n: nat, p: Plan) {
    && |w'.escrows| == |w.escrows|
    && forall i | 0 <= i < |w.escrows| :: w'.escrows[i] == if i < n then Settlement(w.escrows[i], p) else w.escrows[i]
  }

  /** One escrow more, if it is live. */
  lemma SettleNext(v: Verifier, w: World, mid: World, n: nat, p: Plan) returns (txs: seq<Tx>)
    requires Solvent(mid) && mid.balance < TWO_256 && Cooperative(mid, p) && (p.absent != {} ==> mid.version == V2)
    requires n < |w.escrows| && SettledBelow(w, mid, n, p)
    ensures AllSucceed(v, mid, txs) && OnlyExits(txs, p)
    ensures var w' := Run(v, mid, txs);
            && Solvent(w') && Cooperative(w', p) && SettledBelow(w, w', n + 1, p)
            && w'.balance == mid.balance && w'.forced == mid.forced && w'.version == mid.version
  {
    assert mid.escrows[n] == w.escrows[n];
    assert n < TWO_256 by { FewEscrows(mid); }
    txs := [];
    hide Solvent, Cooperative, Run, AllSucceed, OnlyExits, Holders;
    if Open(mid.escrows[n].state) {
      txs := SettleOne(v, mid, n, p);
    } else {
      NoCalls(v, mid, p);
    }
  }

  lemma {:induction false} SettleBelow(v: Verifier, w: World, p: Plan, n: nat) returns (txs: seq<Tx>)
    requires Solvent(w) && w.balance < TWO_256 && Cooperative(w, p) && (p.absent != {} ==> w.version == V2)
    requires n <= |w.escrows|
    ensures AllSucceed(v, w, txs) && OnlyExits(txs, p)
    ensures var w' := Run(v, w, txs);
            && Solvent(w') && Cooperative(w', p) && SettledBelow(w, w', n, p)
            && w'.balance == w.balance && w'.forced == w.forced && w'.version == w.version
    decreases n
  {
    hide Solvent, Cooperative, AllSucceed, OnlyExits, Run;
    if n == 0 {
      NoCalls(v, w, p);
      txs := [];
    } else {
      var before := SettleBelow(v, w, p, n - 1);
      var mid := Run(v, w, before);
      var last := SettleNext(v, w, mid, n - 1, p);
      hide SettledBelow;
      Concat(v, w, before, last, p);
      RunConcat(v, w, before, last);
      txs := before + last;
    }
  }

  lemma FewEscrows(w: World)
    requires Solvent(w)
    ensures |w.escrows| < TWO_256
  {}

  // ---- Paying -------------------------------------------------------------

  lemma {:induction false} NobodyInCredit(m: map<Address, Word>)
    requires Holders(m) == {}
    ensures Sum(m) == 0
    decreases |m|
  {
    if m != map[] {
      var a :| a in m;
      SumSplit(m, a);
      assert a !in Holders(m);
      assert forall b | b in m - {a} :: b !in Holders(m);
      NobodyInCredit(m - {a});
    }
  }

  lemma WithdrawalPays(v: Verifier, w: World, payee: Address)
    requires Solvent(w) && payee in Holders(w.pending)
    ensures var r := Step(v, w, payee, Withdraw);
            && r.Ok? && Solvent(r.value) && r.value.balance < w.balance
            && r.value.escrows == w.escrows && r.value.forced == w.forced
            && Holders(r.value.pending) == Holders(w.pending) - {payee}
            && Bal(r.value.wealth, payee) == Bal(w.wealth, payee) + Bal(w.pending, payee)
  {
    BalanceCovers(w, payee);
    StepKeepsSolvency(v, w, payee, Withdraw);
  }

  lemma {:induction false} PayEveryone(v: Verifier, w: World, p: Plan) returns (txs: seq<Tx>)
    requires Solvent(w) && Holders(w.pending) !! p.absent
    ensures AllSucceed(v, w, txs) && OnlyExits(txs, p)
    ensures var w' := Run(v, w, txs);
            && Solvent(w') && w'.escrows == w.escrows && w'.forced == w.forced
            && Holders(w'.pending) == {}
    decreases |Holders(w.pending)|
  {
    txs := [];
    if Holders(w.pending) == {} {
      NoCalls(v, w, p);
    } else {
      var payee :| payee in Holders(w.pending);
      WithdrawalPays(v, w, payee);
      var tx := Tx(payee, Withdraw);
      OneCall(v, w, tx, p);
      var rest := PayEveryone(v, Step(v, w, payee, Withdraw).value, p);
      hide Solvent, AllSucceed, OnlyExits, Step, Run, Holders;
      Concat(v, w, [tx], rest, p);
      RunConcat(v, w, [tx], rest);
      txs := [tx] + rest;
    }
  }

  // ---- Both ---------------------------------------------------------------

  lemma NothingLive(w: World)
    requires forall i | 0 <= i < |w.escrows| :: !Open(w.escrows[i].state)
    requires Solvent(w) && Holders(w.pending) == {}
    ensures w.total == 0 && w.balance == w.forced
  {
    NobodyInCredit(w.pending);
    assert forall i | 0 <= i < |w.escrows| :: Terms(w.escrows[i]);
    NothingLocked(w.escrows);
  }

  /** A run of planned exits, all of them succeeding, that empties w: every live
      escrow settled, every credit paid, nothing held but what was forced in. */
  ghost predicate Empties(v: Verifier, w: World, p: Plan, txs: seq<Tx>) {
    && AllSucceed(v, w, txs) && OnlyExits(txs, p)
    && var w' := Run(v, w, txs);
    && SettledBelow(w, w', |w.escrows|, p)
    && Holders(w'.pending) == {} && w'.total == 0
    && w'.balance == w'.forced == w.forced
  }

  lemma CanBeEmptied(v: Verifier, w: World, p: Plan) returns (txs: seq<Tx>)
    requires Solvent(w) && w.balance < TWO_256 && Cooperative(w, p) && (p.absent != {} ==> w.version == V2)
    ensures Empties(v, w, p, txs)
  {
    var settling := SettleBelow(v, w, p, |w.escrows|);
    var mid := Run(v, w, settling);
    var paying := PayEveryone(v, mid, p);
    hide Solvent, Cooperative, AllSucceed, OnlyExits, Run, Holders;
    Concat(v, w, settling, paying, p);
    RunConcat(v, w, settling, paying);
    txs := settling + paying;
    NothingLive(Run(v, w, txs));
  }

  /** The same from V1: the owner upgrades first, if anyone is absent. */
  lemma CanBeEmptiedFromEither(v: Verifier, w: World, p: Plan) returns (txs: seq<Tx>)
    requires Solvent(w) && w.balance < TWO_256 && Cooperative(w, p)
    ensures Empties(v, w, p, txs)
  {
    if p.absent == {} || w.version == V2 {
      txs := CanBeEmptied(v, w, p);
    } else {
      var tx := Tx(w.owner, UpgradeTo(Implementation(V2)));
      var upgraded := w.(version := V2);
      OneCall(v, w, tx, p);
      var rest := CanBeEmptied(v, upgraded, p);
      hide Solvent, Cooperative, AllSucceed, OnlyExits, Run, Holders;
      Concat(v, w, [tx], rest, p);
      RunConcat(v, w, [tx], rest);
      txs := [tx] + rest;
    }
  }

  // ---- Who is paid --------------------------------------------------------

  /** Everyone has been paid, over the contract's whole life, the full amount of
      each escrow they won, and no escrow is still live. */
  ghost predicate PaidInFull(w: World) {
    && (forall i | 0 <= i < |w.escrows| :: !Open(w.escrows[i].state))
    && (forall a :: Bal(Replay(w.log).paid, a) == Total(Prizes(w.escrows, Replay(w.log).rulings, a)))
  }

  lemma EmptiedIsPaidInFull(v: Verifier, g: World, w: World, p: Plan, txs: seq<Tx>)
    requires IsGenesis(g) && Reachable(v, g, w) && Empties(v, w, p, txs)
    ensures PaidInFull(Run(v, w, txs))
  {
    var w' := Run(v, w, txs);
    RunReachable(v, g, w, txs);
    ReachableJournal(v, g, w');
    hide Run, Reachable, Recorded, OneNullifierPerRelease, RulingsMatch, Replay, Prizes, AllSucceed, OnlyExits;
    forall a ensures Bal(Replay(w'.log).paid, a) == Total(Prizes(w'.escrows, Replay(w'.log).rulings, a)) {
      assert a !in Holders(w'.pending) && CreditsAreWinnings(w', Replay(w'.log), a);
    }
  }

  /** Every escrow disputed in w was ruled in w' as planned: the log says so, and
      the log's rulings are what decides the prizes. */
  ghost predicate RuledAsPlanned(w: World, w': World, p: Plan) {
    forall id | GetState(w, id) == Disputed && GetState(w', id) == Resolved ::
      id in Replay(w'.log).rulings && Replay(w'.log).rulings[id] == p.rulings(id)
  }

  /** The ruling a call adds to the log is the one it was given. */
  lemma RulingLogged(v: Verifier, w: World, tx: Tx, id: nat)
    requires Journal(v, w, Replay(w.log)) && Step(v, w, tx.sender, tx.op).Ok?
    ensures var before, after := Replay(w.log).rulings, Replay(Step(v, w, tx.sender, tx.op).value.log).rulings;
            if tx.op.ResolveDispute? && tx.op.id == id then id in after && after[id] == tx.op.ruling
            else (id in after <==> id in before) && (id in before ==> after[id] == before[id])
  {
    var k := StepDoes(v, w, tx.sender, tx.op);
    var w' := Step(v, w, tx.sender, tx.op).value;
    EffectRecorded(v, w, w', k, Replay(w.log));
    assert k.Closes? ==> w'.log[|w'.log| - 1] == k.closing;
    assert tx.op.ResolveDispute? ==> w'.log[|w'.log| - 1].DisputeResolved? && w'.log[|w'.log| - 1].ruling == tx.op.ruling;
    assert k.Closes? && k.closing.DisputeResolved? ==> tx.op.ResolveDispute? && tx.op.id == k.id;
    hide Replay, Announced, Step, Does, OneNullifierPerRelease, RulingsMatch, CreditsAreWinnings;
  }

  lemma {:induction false} PlanIsFollowed(v: Verifier, w: World, txs: seq<Tx>, p: Plan)
    requires Journal(v, w, Replay(w.log)) && OnlyExits(txs, p)
    ensures RuledAsPlanned(w, Run(v, w, txs), p)
    decreases |txs|
  {
    if txs != [] {
      var n, tx := |txs| - 1, txs[|txs| - 1];
      var mid := Run(v, w, txs[..n]);
      PlanIsFollowed(v, w, txs[..n], p);
      RunKeepsJournal(v, w, txs[..n]);
      RunKeepsJournal(v, w, txs);
      assert IsExit(tx, p);
      hide Journal, Replay, OnlyExits, Step;
      if Step(v, mid, tx.sender, tx.op).Ok? {
        forall id | GetState(w, id) == Disputed && GetState(Run(v, w, txs), id) == Resolved
          ensures id in Replay(Run(v, w, txs).log).rulings && Replay(Run(v, w, txs).log).rulings[id] == p.rulings(id)
        {
          RulingLogged(v, mid, tx, id);
          DisputedStaysOrResolves(v, w, txs[..n], id);
          JournalRuled(v, mid, id);
          JournalRuled(v, Run(v, w, txs), id);
        }
      }
    }
  }

  lemma JournalRuled(v: Verifier, w: World, id: nat)
    requires Journal(v, w, Replay(w.log))
    ensures id in Replay(w.log).rulings <==> GetState(w, id) == Resolved
  {
    hide Replay, OneNullifierPerRelease, Recorded, CreditsAreWinnings;
  }

  lemma {:induction false} DisputedStaysOrResolves(v: Verifier, w: World, txs: seq<Tx>, id: nat)
    requires GetState(w, id) == Disputed
    ensures GetState(Run(v, w, txs), id) == Disputed || GetState(Run(v, w, txs), id) == Resolved
    decreases |txs|
  {
    if txs != [] {
      var n := |txs| - 1;
      DisputedStaysOrResolves(v, w, txs[..n], id);
      StepIsLegal(v, Run(v, w, txs[..n]), txs[n], id);
    }
  }

  lemma RunReachable(v: Verifier, g: World, w: World, txs: seq<Tx>)
    requires Reachable(v, g, w)
    ensures Reachable(v, g, Run(v, w, txs))
  {
    var before :| Run(v, g, before) == w;
    RunConcat(v, g, before, txs);
  }

  lemma SeenIsReachable(v: Verifier, g: World, acts: seq<Action>, s: World)
    requires s in Observed(v, g, false, acts) || s == Exec(v, g, false, acts)
    ensures Reachable(v, g, s)
  {
    assert Run(v, g, []) == g;
    ObservedReachable(v, g, g, false, acts);
  }

  /** From every state exposed by any nest of calls, callbacks and rollbacks, and
      whichever arbiters never act: if the parties of live escrows settle and
      payees accept, a run without a single call by anyone absent, all of whose
      calls succeed, empties the contract; every dispute is ruled as planned,
      and everyone has been paid in full. */
  lemma AbsentArbitersStrandNothing(v: Verifier, g: World, acts: seq<Action>, s: World, p: Plan) returns (txs: seq<Tx>)
    requires IsGenesis(g) && (s in Observed(v, g, false, acts) || s == Exec(v, g, false, acts))
    requires Cooperative(s, p)
    ensures Empties(v, s, p, txs) && PaidInFull(Run(v, s, txs)) && RuledAsPlanned(s, Run(v, s, txs), p)
  {
    SeenIsReachable(v, g, acts, s);
    ReachableIsSolvent(v, g, s);
    hide Solvent, Observed, Exec, Reachable, Cooperative, PaidInFull, RuledAsPlanned, SettledBelow, AllSucceed, OnlyExits, Journal;
    txs := CanBeEmptiedFromEither(v, s, p);
    EmptiedIsPaidInFull(v, g, s, p, txs);
    ReachableJournal(v, g, s);
    PlanIsFollowed(v, s, txs, p);
  }

  /** With nobody absent it takes no rotation and no owner: sellers refund,
      arbiters rule, payees withdraw. */
  lemma EverythingCanBePaidOut(v: Verifier, g: World, acts: seq<Action>, s: World, rulings: Rulings) returns (txs: seq<Tx>)
    requires IsGenesis(g) && (s in Observed(v, g, false, acts) || s == Exec(v, g, false, acts))
    ensures var p := Plan(rulings, {}, ZERO_ADDRESS);
            && Empties(v, s, p, txs) && PaidInFull(Run(v, s, txs)) && RuledAsPlanned(s, Run(v, s, txs), p)
            && forall i | 0 <= i < |txs| :: txs[i].op.Refund? || txs[i].op.ResolveDispute? || txs[i].op.Withdraw?
  {
    var p := Plan(rulings, {}, ZERO_ADDRESS);
    hide Observed, Exec, Run, SettledBelow, AllSucceed, PaidInFull, RuledAsPlanned;
    txs := AbsentArbitersStrandNothing(v, g, acts, s, p);
    assert forall i | 0 <= i < |txs| :: IsExit(txs[i], p);
  }

  /** Without rotation an absent arbiter does strand a dispute: through any run
      in which it makes no call and is not rotated out, nothing about the escrow
      changes. */
  lemma {:induction false} DisputeWaitsForItsArbiter(v: Verifier, w: World, txs: seq<Tx>, id: Word)
    requires id < |w.escrows| && w.escrows[id].state == Disputed
    requires forall i | 0 <= i < |txs| :: txs[i].sender != w.escrows[id].arbiter && !(txs[i].op.SetArbiter? && txs[i].op.id == id)
    ensures id < |Run(v, w, txs).escrows| && Run(v, w, txs).escrows[id] == w.escrows[id]
    decreases |txs|
  {
    if txs != [] {
      var n := |txs| - 1;
      DisputeWaitsForItsArbiter(v, w, txs[..n], id);
      OnlyItsArbiterRules(v, Run(v, w, txs[..n]), txs[n], id);
    }
  }

  lemma OnlyItsArbiterRules(v: Verifier, w: World, tx: Tx, id: Word)
    requires id < |w.escrows| && w.escrows[id].state == Disputed
    requires tx.sender != w.escrows[id].arbiter && !(tx.op.SetArbiter? && tx.op.id == id)
    ensures id < |Apply(v, w, tx).escrows| && Apply(v, w, tx).escrows[id] == w.escrows[id]
  {
    if Step(v, w, tx.sender, tx.op).Ok? {
      var k := StepDoes(v, w, tx.sender, tx.op);
      EffectTouchesOne(v, w, Apply(v, w, tx), k);
    }
  }
}
