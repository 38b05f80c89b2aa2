// The event log as the full account of the contract: folding it rebuilds the
// storage, ties every spent nullifier to one release, and shows each address's
// credits to be exactly the escrows it won.
module EventLog {
  import opened Basics
  import opened ZkTypes
  import opened EscrowMachine
  import opened CallTree

  /** What an observer who sees only events can know. */
  datatype View = View(
    escrows: seq<Escrow>,
    pending: map<Address, nat>,
    releases: map<nat, Word>,    // escrow id -> nullifier
    rulings: map<nat, Ruling>,
    paid: map<Address, nat>)

  function Marked(h: View, id: nat, s: State): View {
    if id < |h.escrows| then h.(escrows := h.escrows[id := h.escrows[id].(state := s)]) else h
  }

  function Absorb(h: View, ev: Event): View {
    match ev
    case EscrowCreated(_, buyer, seller, arbiter, amount, commitment) =>
      h.(escrows := h.escrows + [Escrow(buyer, seller, arbiter, amount, commitment, Created)])
    case EscrowFunded(id, _, _) => Marked(h, id, Funded)
    case EscrowReleased(id, _, _, nullifier) => Marked(h, id, Released).(releases := h.releases[id := nullifier])
    case EscrowRefunded(id, _, _) => Marked(h, id, Refunded)
    case DisputeRaised(id, _, _) => Marked(h, id, Disputed)
    case DisputeResolved(id, _, ruling, _, _, _) => Marked(h, id, Resolved).(rulings := h.rulings[id := ruling])
    case WithdrawalCredited(payee, amount, _) => h.(pending := h.pending[payee := Bal(h.pending, payee) + amount])
    case Withdrawn(payee, amount) =>
      var left := Bal(h.pending, payee) - amount;
      h.(pending := h.pending[payee := if left < 0 then 0 else left],
         paid := h.paid[payee := Bal(h.paid, payee) + amount])
    case ArbiterRotated(id, _, newArbiter) =>
      if id < |h.escrows| then h.(escrows := h.escrows[id := h.escrows[id].(arbiter := newArbiter)]) else h
  }

  function Replay(log: seq<Event>): View {
    if log == [] then View([], map[], map[], map[], map[])
    else Absorb(Replay(log[..|log| - 1]), log[|log| - 1])
  }

  lemma ReplayExtend(log: seq<Event>, ev: Event)
    ensures Replay(log + [ev]) == Absorb(Replay(log), ev)
  {
    assert (log + [ev])[..|log|] == log;
  }

  /** Each announced balance is the one a replay has at that point. */
  ghost predicate Announced(log: seq<Event>) {
    log == [] || (
      var last := log[|log| - 1];
      && Announced(log[..|log| - 1])
      && (last.WithdrawalCredited? ==> last.newBalance == Bal(Replay(log).pending, last.payee)))
  }

  lemma AnnouncedExtend(log: seq<Event>, ev: Event)
    requires Announced(log)
    requires ev.WithdrawalCredited? ==> ev.newBalance == Bal(Replay(log).pending, ev.payee) + ev.amount
    ensures Announced(log + [ev])
  {
    ReplayExtend(log, ev);
    assert (log + [ev])[..|log|] == log;
  }

  ghost predicate Recorded(w: World, h: View) {
    && h == Replay(w.log) && Announced(w.log)
    && h.escrows == w.escrows && h.pending == w.pending
  }

  /** Releases and spent nullifiers are in one-to-one correspondence, and each
      release was accepted by the verifier for that escrow's own signals. */
  ghost predicate OneNullifierPerRelease(v: Verifier, w: World, h: View) {
    && (forall id :: id in h.releases <==> GetState(w, id) == Released)
    && (forall n :: n in w.spent <==> exists id :: id in h.releases && h.releases[id] == n)
    && (forall i, j | i in h.releases && j in h.releases && h.releases[i] == h.releases[j] :: i == j)
    && (forall id | id in h.releases :: Proven(v, w, id, h.releases[id]))
  }

  ghost predicate Proven(v: Verifier, w: World, id: nat, nullifier: Word) {
    id < |w.escrows| && id < TWO_256 && exists proof :: v(proof, Signals(nullifier, w.escrows[id].commitment, id))
  }

  /** What a settled escrow pays to a: all of it to the side that won. */
  function Prize(e: Escrow, id: nat, rulings: map<nat, Ruling>, a: Address): nat {
    var won := match e.state
      case Released => a == e.seller
      case Refunded => a == e.buyer
      case Resolved => id in rulings && a == (if rulings[id] == BuyerWins then e.buyer else e.seller)
      case _ => false;
    if won then e.amount else 0
  }

  function Prizes(es: seq<Escrow>, rulings: map<nat, Ruling>, a: Address): (s: seq<nat>)
    ensures |s| == |es| && forall i | 0 <= i < |s| :: s[i] == Prize(es[i], i, rulings, a)
  {
    seq(|es|, i requires 0 <= i < |es| => Prize(es[i], i, rulings, a))
  }

  /** Credit still held plus everything withdrawn is what the address won. */
  ghost predicate CreditsAreWinnings(w: World, h: View, a: Address) {
    Bal(w.pending, a) + Bal(h.paid, a) == Total(Prizes(w.escrows, h.rulings, a))
  }

  ghost predicate RulingsMatch(w: World, h: View) {
    forall id :: id in h.rulings <==> GetState(w, id) == Resolved
  }

  ghost predicate Journal(v: Verifier, w: World, h: View) {
    && Recorded(w, h) && OneNullifierPerRelease(v, w, h) && RulingsMatch(w, h)
    && forall a :: CreditsAreWinnings(w, h, a)
  }

  /** How an effect moves the view. */
  ghost function Advance(h: View, w: World, w': World, k: Effect): View {
    h.(escrows := w'.escrows, pending := w'.pending,
       releases := if k.Closes? && k.closing.EscrowReleased? then h.releases[k.id := k.closing.nullifier] else h.releases,
       rulings := if k.Closes? && k.closing.DisputeResolved? then h.rulings[k.id := k.closing.ruling] else h.rulings,
       paid := if k.Draws? then h.paid[k.payee := Bal(h.paid, k.payee) + Bal(w.pending, k.payee)] else h.paid)
  }

  lemma ClosingAbsorbed(v: Verifier, h: View, k: Effect)
    requires k.Closes? && k.id < |h.escrows|
    requires ClosesBy(v, h.escrows[k.id], k.id, k.outcome, k.payee, k.closing, k.nullifiers)
    ensures var h' := Absorb(h, k.closing);
            && h'.escrows == h.escrows[k.id := h.escrows[k.id].(state := k.outcome)]
            && h'.pending == h.pending && h'.paid == h.paid
            && h'.releases == (if k.closing.EscrowReleased? then h.releases[k.id := k.closing.nullifier] else h.releases)
            && h'.rulings == (if k.closing.DisputeResolved? then h.rulings[k.id := k.closing.ruling] else h.rulings)
  {}

  lemma ClosingRecorded(v: Verifier, w: World, w': World, k: Effect, h: View)
    requires Recorded(w, h) && Does(v, w, w', k) && k.Closes?
    ensures Recorded(w', Advance(h, w, w', k))
  {
    hide Announced, Replay;
    var credit := WithdrawalCredited(k.payee, w.escrows[k.id].amount, Bal(w.pending, k.payee) + w.escrows[k.id].amount);
    var mid := w.log + [credit];
    assert w'.log == mid + [k.closing];
    ReplayExtend(w.log, credit);
    AnnouncedExtend(w.log, credit);
    ReplayExtend(mid, k.closing);
    AnnouncedExtend(mid, k.closing);
    ClosingAbsorbed(v, Replay(mid), k);
  }

  lemma NewsRecorded(w: World, w': World, h: View, ev: Event)
    requires Recorded(w, h) && w'.log == w.log + [ev] && !ev.WithdrawalCredited?
    requires Absorb(h, ev).escrows == w'.escrows && Absorb(h, ev).pending == w'.pending
    ensures Recorded(w', Absorb(h, ev))
  {
    hide Announced, Replay;
    ReplayExtend(w.log, ev);
    AnnouncedExtend(w.log, ev);
  }

  lemma OpeningRecorded(w: World, w': World, e: Escrow, h: View)
    requires Recorded(w, h) && DoesOpen(w, w', e)
    ensures Recorded(w', h.(escrows := w'.escrows))
  {
    NewsRecorded(w, w', h, EscrowCreated(|w.escrows|, e.buyer, e.seller, e.arbiter, e.amount, e.commitment));
  }

  lemma FinancingRecorded(w: World, w': World, id: nat, h: View)
    requires Recorded(w, h) && DoesFinance(w, w', id)
    ensures Recorded(w', h.(escrows := w'.escrows))
  {
    NewsRecorded(w, w', h, EscrowFunded(id, w.escrows[id].buyer, w.escrows[id].amount));
  }

  lemma RevisingRecorded(w: World, w': World, id: nat, e: Escrow, ev: Event, h: View)
    requires Recorded(w, h) && DoesRevise(w, w', id, e, ev)
    ensures Recorded(w', h.(escrows := w'.escrows))
  {
    NewsRecorded(w, w', h, ev);
  }

  lemma DrawingRecorded(w: World, w': World, payee: Address, h: View)
    requires Recorded(w, h) && DoesDraw(w, w', payee)
    ensures Recorded(w', h.(pending := w'.pending, paid := h.paid[payee := Bal(h.paid, payee) + Bal(w.pending, payee)]))
  {
    NewsRecorded(w, w', h, Withdrawn(payee, Bal(w.pending, payee)));
  }

  lemma NoteRecorded(w: World, w': World, ev: Event, h: View)
    requires Recorded(w, h) && DoesNote(w, w', ev)
    ensures Recorded(w', h)
  {
    assert w.escrows[ev.id := w.escrows[ev.id].(state := Disputed)] == w.escrows;
    NewsRecorded(w, w', h, ev);
  }

  /** Folding the new events into the view gives the new storage. */
  lemma EffectRecorded(v: Verifier, w: World, w': World, k: Effect, h: View)
    requires Recorded(w, h) && Does(v, w, w', k)
    ensures Recorded(w', Advance(h, w, w', k))
  {
    hide Announced, Replay;
    match k
    case Opens(e) => OpeningRecorded(w, w', e, h);
    case Finances(id) => FinancingRecorded(w, w', id, h);
    case Revises(id, e, ev) => RevisingRecorded(w, w', id, e, ev, h);
    case Closes(_, _, _, _, _) => ClosingRecorded(v, w, w', k, h);
    case Draws(payee) => DrawingRecorded(w, w', payee, h);
    case Notes(ev) => NoteRecorded(w, w', ev, h);
    case Outside =>
  }

  lemma NullifiersKept(v: Verifier, w: World, w': World, h: View, h': View)
    requires OneNullifierPerRelease(v, w, h)
    requires w'.spent == w.spent && h'.releases == h.releases
    requires forall id :: GetState(w', id) == Released <==> GetState(w, id) == Released
    requires |w.escrows| <= |w'.escrows| && forall i | 0 <= i < |w.escrows| :: SameTerms(w.escrows[i], w'.escrows[i])
    ensures OneNullifierPerRelease(v, w', h')
  {
    forall id | id in h.releases ensures Proven(v, w', id, h.releases[id]) {
      assert Proven(v, w, id, h.releases[id]);
    }
  }

  lemma NullifierSpent(v: Verifier, w: World, w': World, h: View, h': View, id: nat, n: Word)
    requires OneNullifierPerRelease(v, w, h)
    requires n !in w.spent && w'.spent == w.spent + {n} && h'.releases == h.releases[id := n]
    requires GetState(w, id) != Released && Proven(v, w', id, n)
    requires forall i :: GetState(w', i) == Released <==> GetState(w, i) == Released || i == id
    requires |w.escrows| <= |w'.escrows| && forall i | 0 <= i < |w.escrows| :: SameTerms(w.escrows[i], w'.escrows[i])
    ensures OneNullifierPerRelease(v, w', h')
  {
    forall i | i in h.releases ensures Proven(v, w', i, h.releases[i]) {
      assert Proven(v, w, i, h.releases[i]);
    }
    forall m ensures m in w'.spent <==> exists i :: i in h'.releases && h'.releases[i] == m {
      if m == n {
        assert h'.releases[id] == m;
      } else if m in w.spent {
        var i :| i in h.releases && h.releases[i] == m;
        assert i in h'.releases && h'.releases[i] == m;
      }
    }
  }

  lemma EffectKeepsNullifiers(v: Verifier, w: World, w': World, k: Effect, h: View)
    requires OneNullifierPerRelease(v, w, h) && Does(v, w, w', k)
    ensures OneNullifierPerRelease(v, w', Advance(h, w, w', k))
  {
    EffectTouchesOne(v, w, w', k);
    assert k.Closes? || w'.spent == w.spent;
    assert k.Closes? && k.closing.EscrowReleased? ==> Proven(v, w', k.id, k.closing.nullifier);
    if k.Closes? && k.closing.EscrowReleased? {
      NullifierSpent(v, w, w', h, Advance(h, w, w', k), k.id, k.closing.nullifier);
    } else {
      NullifiersKept(v, w, w', h, Advance(h, w, w', k));
    }
  }

  lemma EffectKeepsRulings(v: Verifier, w: World, w': World, k: Effect, h: View)
    requires RulingsMatch(w, h) && Does(v, w, w', k)
    ensures RulingsMatch(w', Advance(h, w, w', k))
  {
    EffectTouchesOne(v, w, w', k);
  }

  lemma PrizesSet(es: seq<Escrow>, es': seq<Escrow>, rulings: map<nat, Ruling>, rulings': map<nat, Ruling>, id: nat, a: Address)
    requires |es| == |es'| && id < |es|
    requires forall i | 0 <= i < |es| && i != id :: Prize(es'[i], i, rulings', a) == Prize(es[i], i, rulings, a)
    ensures Total(Prizes(es', rulings', a)) ==
            Total(Prizes(es, rulings, a)) - Prize(es[id], id, rulings, a) + Prize(es'[id], id, rulings', a)
  {
    assert Prizes(es', rulings', a) == Prizes(es, rulings, a)[id := Prize(es'[id], id, rulings', a)];
    TotalSet(Prizes(es, rulings, a), id, Prize(es'[id], id, rulings', a));
  }

  /** Settling an escrow adds its full amount to one address's winnings. */
  lemma PrizeClaimed(v: Verifier, es: seq<Escrow>, k: Effect, rulings: map<nat, Ruling>, a: Address)
    requires k.Closes? && k.id < |es| && ClosesBy(v, es[k.id], k.id, k.outcome, k.payee, k.closing, k.nullifiers)
    requires k.id !in rulings
    ensures var es' := es[k.id := es[k.id].(state := k.outcome)];
            var rulings' := if k.closing.DisputeResolved? then rulings[k.id := k.closing.ruling] else rulings;
            Total(Prizes(es', rulings', a)) == Total(Prizes(es, rulings, a)) + if a == k.payee then es[k.id].amount else 0
  {
    var es' := es[k.id := es[k.id].(state := k.outcome)];
    var rulings' := if k.closing.DisputeResolved? then rulings[k.id := k.closing.ruling] else rulings;
    PrizesSet(es, es', rulings, rulings', k.id, a);
  }

  lemma ClosingKeepsWinnings(v: Verifier, w: World, w': World, k: Effect, h: View, a: Address)
    requires CreditsAreWinnings(w, h, a) && RulingsMatch(w, h) && Does(v, w, w', k) && k.Closes?
    ensures CreditsAreWinnings(w', Advance(h, w, w', k), a)
  {
    assert GetState(w, k.id) != Resolved;
    PrizeClaimed(v, w.escrows, k, h.rulings, a);
  }

  lemma OpeningKeepsWinnings(w: World, w': World, e: Escrow, h: View, h': View, a: Address)
    requires CreditsAreWinnings(w, h, a) && DoesOpen(w, w', e) && h'.rulings == h.rulings && h'.paid == h.paid
    ensures CreditsAreWinnings(w', h', a)
  {
    assert Prizes(w'.escrows, h.rulings, a) == Prizes(w.escrows, h.rulings, a) + [0];
    TotalAppend(Prizes(w.escrows, h.rulings, a), 0);
  }

  lemma UnsettledKeepsWinnings(w: World, w': World, id: nat, e: Escrow, h: View, h': View, a: Address)
    requires CreditsAreWinnings(w, h, a) && h'.rulings == h.rulings && h'.paid == h.paid
    requires w'.pending == w.pending && id < |w.escrows| && w'.escrows == w.escrows[id := e]
    requires !Settled(w.escrows[id].state) && !Settled(e.state)
    ensures CreditsAreWinnings(w', h', a)
  {
    PrizesSet(w.escrows, w'.escrows, h.rulings, h.rulings, id, a);
  }

  lemma EffectKeepsWinnings(v: Verifier, w: World, w': World, k: Effect, h: View, a: Address)
    requires CreditsAreWinnings(w, h, a) && RulingsMatch(w, h) && Does(v, w, w', k)
    ensures CreditsAreWinnings(w', Advance(h, w, w', k), a)
  {
    var h' := Advance(h, w, w', k);
    match k
    case Opens(e) => OpeningKeepsWinnings(w, w', e, h, h', a);
    case Finances(id) => UnsettledKeepsWinnings(w, w', id, w'.escrows[id], h, h', a);
    case Revises(id, e, _) => UnsettledKeepsWinnings(w, w', id, e, h, h', a);
    case Closes(_, _, _, _, _) => ClosingKeepsWinnings(v, w, w', k, h, a);
    case Draws(_) =>
    case Notes(_) =>
    case Outside =>
  }

  lemma StepKeepsJournal(v: Verifier, w: World, tx: Tx, h: View) returns (h': View)
    requires Journal(v, w, h)
    ensures Journal(v, Apply(v, w, tx), h')
  {
    hide Announced, Replay;
    var w' := Apply(v, w, tx);
    h' := h;
    if Step(v, w, tx.sender, tx.op).Ok? {
      var k := StepDoes(v, w, tx.sender, tx.op);
      h' := Advance(h, w, w', k);
      EffectRecorded(v, w, w', k, h);
      EffectKeepsNullifiers(v, w, w', k, h);
      EffectKeepsRulings(v, w, w', k, h);
      forall a ensures CreditsAreWinnings(w', h', a) {
        EffectKeepsWinnings(v, w, w', k, h, a);
      }
    }
  }

  lemma {:induction false} RunKeepsJournal(v: Verifier, w: World, txs: seq<Tx>)
    requires Journal(v, w, Replay(w.log))
    ensures Journal(v, Run(v, w, txs), Replay(Run(v, w, txs).log))
    decreases |txs|
  {
    if txs != [] {
      var n := |txs| - 1;
      RunKeepsJournal(v, w, txs[..n]);
      var before := Run(v, w, txs[..n]);
      var h' := StepKeepsJournal(v, before, txs[n], Replay(before.log));
    }
  }

  lemma ReachableJournal(v: Verifier, g: World, w: World)
    requires IsGenesis(g) && Reachable(v, g, w)
    ensures Journal(v, w, Replay(w.log))
  {
    var txs :| Run(v, g, txs) == w;
    assert forall a :: Prizes([], map[], a) == [];
    RunKeepsJournal(v, g, txs);
  }

  /** In every state exposed by any nest of calls and rollbacks, the log folds
      to the storage, each announced balance is right, nullifiers and releases
      are in bijection, and what every address holds plus what it has withdrawn
      is the full amount of each escrow it won. A rolled-back call takes its
      events with it. */
  lemma JournalUnderReentrancy(v: Verifier, g: World, acts: seq<Action>, s: World)
    requires IsGenesis(g) && (s in Observed(v, g, false, acts) || s == Exec(v, g, false, acts))
    ensures Recorded(s, Replay(s.log))
    ensures OneNullifierPerRelease(v, s, Replay(s.log))
    ensures forall a :: CreditsAreWinnings(s, Replay(s.log), a)
  {
    assert Run(v, g, []) == g;
    ObservedReachable(v, g, g, false, acts);
    ReachableJournal(v, g, s);
  }
}
