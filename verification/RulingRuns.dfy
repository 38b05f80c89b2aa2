// What the arbiter rules over a whole run: for each escrow, exactly which
// decisions are sent, window by window, and which disputes are left behind. A
// ruling counts as sent once it is handed over for broadcast; whether the
// broadcast goes through is up to the chain.
module RulingRuns {
  import opened Wrappers
  import opened DisputeLog
  import opened ArbiterLoop
  import Executor

  /** The decision a window sends for an escrow it has submissions for, if the
      escrow reads as Disputed and the model's reply is a decision. */
  function Decided(reply: Dispute -> Reply, id: nat, subs: seq<Submission>): seq<Executor.Decision> {
    var r := reply(Dispute(id, subs));
    if subs != [] && r.state == Some(STATE_DISPUTED) && r.decision.Some? then [r.decision.value] else []
  }

  function DecisionsFor(bs: seq<Broadcast>, id: nat): seq<Executor.Decision> {
    if bs == [] then [] else
      var last := bs[|bs| - 1];
      DecisionsFor(bs[..|bs| - 1], id) + if last.escrowID == id then [last.decision] else []
  }

  lemma {:induction false} DecisionsConcat(a: seq<Broadcast>, b: seq<Broadcast>, id: nat)
    ensures DecisionsFor(a + b, id) == DecisionsFor(a, id) + DecisionsFor(b, id)
    decreases |b|
  {
    if b == [] {
      assert a + b == a;
    } else {
      var n := |b| - 1;
      assert (a + b)[..|a + b| - 1] == a + b[..n];
      DecisionsConcat(a, b[..n], id);
    }
  }

  // ---- One window ---------------------------------------------------------

  predicate DistinctIds(ds: seq<Dispute>) {
    forall i, j | 0 <= i < j < |ds| :: ds[i].escrowID != ds[j].escrowID
  }

  lemma LastSends(reply: Dispute -> Reply, ds: seq<Dispute>, id: nat)
    requires ds != [] && ds[|ds| - 1].submissions != []
    ensures var init, d := ds[..|ds| - 1], ds[|ds| - 1];
            DecisionsFor(Broadcasts(reply, ds), id) ==
              DecisionsFor(Broadcasts(reply, init), id) + if d.escrowID == id then Decided(reply, id, d.submissions) else []
  {
    var init, d := ds[..|ds| - 1], ds[|ds| - 1];
    var r := reply(d);
    assert d == Dispute(d.escrowID, d.submissions);
    var own := if r.state == Some(STATE_DISPUTED) && r.decision.Some? then [Broadcast(d.escrowID, r.decision.value)] else [];
    DecisionsConcat(Broadcasts(reply, init), own, id);
    if own != [] { assert own[..0] == [] && DecisionsFor(own[..0], id) == []; }
  }

  predicate NoneEmpty(ds: seq<Dispute>) { forall k | 0 <= k < |ds| :: ds[k].submissions != [] }

  predicate Absent(ds: seq<Dispute>, id: nat) { forall k | 0 <= k < |ds| :: ds[k].escrowID != id }

  lemma {:induction false} AbsentSendsNothing(reply: Dispute -> Reply, ds: seq<Dispute>, id: nat)
    requires NoneEmpty(ds) && Absent(ds, id)
    ensures DecisionsFor(Broadcasts(reply, ds), id) == []
    decreases |ds|
  {
    if ds != [] {
      LastSends(reply, ds, id);
      hide Broadcasts, DecisionsFor, Decided;
      AbsentSendsNothing(reply, ds[..|ds| - 1], id);
    }
  }

  lemma InitialDisputes(ds: seq<Dispute>, k: nat)
    requires DistinctIds(ds) && NoneEmpty(ds) && k < |ds|
    ensures var init, last := ds[..|ds| - 1], ds[|ds| - 1];
            && DistinctIds(init) && NoneEmpty(init) && Absent(init, last.escrowID) && last.submissions != []
            && (k < |init| ==> init[k] == ds[k] && last.escrowID != ds[k].escrowID)
  {}

  lemma {:induction false} DisputeSends(reply: Dispute -> Reply, ds: seq<Dispute>, k: nat, id: nat)
    requires DistinctIds(ds) && NoneEmpty(ds) && k < |ds| && ds[k].escrowID == id
    ensures DecisionsFor(Broadcasts(reply, ds), id) == Decided(reply, id, ds[k].submissions)
    decreases |ds|
  {
    var n := |ds| - 1;
    hide *;
    InitialDisputes(ds, k);
    LastSends(reply, ds, id);
    if k < n {
      DisputeSends(reply, ds[..n], k, id);
    } else {
      AbsentSendsNothing(reply, ds[..n], id);
    }
  }

  lemma {:induction false} SomethingFor(es: seq<Entry>, id: nat)
    ensures For(es, id) != [] <==> id in Ids(es)
  {
    if es != [] { SomethingFor(es[..|es| - 1], id); }
  }

  /** A window sends at most one decision for an escrow: the one made on exactly
      the submissions it has for it. */
  lemma WindowSends(reply: Dispute -> Reply, es: seq<Entry>, id: nat)
    ensures DecisionsFor(Broadcasts(reply, Grouped(es)), id) == Decided(reply, id, For(es, id))
  {
    var ds := Grouped(es);
    IdsAreFirstOccurrences(es);
    forall k | 0 <= k < |ds| ensures ds[k].submissions != [] {
      SomethingFor(es, Ids(es)[k]);
    }
    SomethingFor(es, id);
    hide Broadcasts, DecisionsFor, For;
    if id in Ids(es) {
      var k :| 0 <= k < |Ids(es)| && Ids(es)[k] == id;
      DisputeSends(reply, ds, k, id);
    } else {
      AbsentSendsNothing(reply, ds, id);
    }
  }

  // ---- A whole run --------------------------------------------------------

  ghost predicate IsGrouped(w: Window) { exists es :: w.disputes == Grouped(es) }

  lemma {:induction false} WindowsAreGrouped(lookback: Block, ticks: seq<Tick>)
    ensures forall i | 0 <= i < |Run(lookback, ticks).1| :: IsGrouped(Run(lookback, ticks).1[i])
    decreases |ticks|
  {
    if ticks != [] {
      var n := |ticks| - 1;
      WindowsAreGrouped(lookback, ticks[..n]);
    }
  }

  /** What each window sends for an escrow, one after another. */
  function DecidedByWindow(replies: seq<Dispute -> Reply>, windows: seq<Window>, id: nat): seq<Executor.Decision>
    requires |windows| <= |replies|
  {
    if windows == [] then [] else
      var n := |windows| - 1;
      DecidedByWindow(replies, windows[..n], id) + Decided(replies[n], id, SubmissionsFor(windows[n].disputes, id))
  }

  lemma {:induction false} WindowsSend(replies: seq<Dispute -> Reply>, windows: seq<Window>, id: nat)
    requires |windows| <= |replies| && forall i | 0 <= i < |windows| :: IsGrouped(windows[i])
    ensures DecisionsFor(Sent(replies, windows), id) == DecidedByWindow(replies, windows, id)
    decreases |windows|
  {
    if windows != [] {
      var n := |windows| - 1;
      WindowsSend(replies, windows[..n], id);
      assert IsGrouped(windows[n]);
      var es :| windows[n].disputes == Grouped(es);
      hide Decided, Grouped, Broadcasts, SubmissionsFor;
      DecisionsConcat(Sent(replies, windows[..n]), Broadcasts(replies[n], windows[n].disputes), id);
      WindowSends(replies[n], es, id);
      GroupingIsAFilter(es, id);
    }
  }

  /** How many windows have something for an escrow. */
  function Naming(windows: seq<Window>, id: nat): nat {
    if windows == [] then 0 else
      var n := |windows| - 1;
      Naming(windows[..n], id) + if SubmissionsFor(windows[n].disputes, id) != [] then 1 else 0
  }

  lemma {:induction false} AtMostOneEach(replies: seq<Dispute -> Reply>, windows: seq<Window>, id: nat)
    requires |windows| <= |replies|
    ensures |DecidedByWindow(replies, windows, id)| <= Naming(windows, id)
  {
    if windows != [] { AtMostOneEach(replies, windows[..|windows| - 1], id); }
  }

  /** Over any run, the rulings sent for an escrow are, in order, the decisions
      its windows called for: at most one for each window that names it. */
  lemma RunSends(lookback: Block, ticks: seq<Tick>, replies: seq<Dispute -> Reply>, id: nat)
    requires |Run(lookback, ticks).1| <= |replies|
    ensures var windows := Run(lookback, ticks).1;
            && DecisionsFor(Sent(replies, windows), id) == DecidedByWindow(replies, windows, id)
            && |DecisionsFor(Sent(replies, windows), id)| <= Naming(windows, id)
  {
    WindowsAreGrouped(lookback, ticks);
    var windows := Run(lookback, ticks).1;
    hide Run, IsGrouped;
    WindowsSend(replies, windows, id);
    AtMostOneEach(replies, windows, id);
  }

  // ---- Left behind --------------------------------------------------------

  /** If one window has all that was delivered, no other has anything. */
  lemma {:induction false} OthersHaveNothing(windows: seq<Window>, i: nat, id: nat)
    requires i < |windows|
    ensures |SubmissionsFor(windows[i].disputes, id)| <= |Delivered(windows, id)|
    ensures SubmissionsFor(windows[i].disputes, id) == Delivered(windows, id) ==> Alone(windows, i, id)
  {
    var n := |windows| - 1;
    assert forall j | 0 <= j < n :: windows[..n][j] == windows[j];
    hide SubmissionsFor;
    if i < n {
      OthersHaveNothing(windows[..n], i, id);
    } else {
      NothingBeforehand(windows[..n], id);
    }
  }

  /** No window but i has anything for id. */
  predicate Alone(windows: seq<Window>, i: nat, id: nat) {
    forall j | 0 <= j < |windows| && j != i :: SubmissionsFor(windows[j].disputes, id) == []
  }

  lemma AloneBefore(windows: seq<Window>, i: nat, id: nat)
    requires windows != [] && Alone(windows, i, id)
    ensures var n := |windows| - 1;
            Alone(windows[..n], i, id) && (n != i ==> SubmissionsFor(windows[n].disputes, id) == [])
  {
    hide SubmissionsFor;
  }

  lemma {:induction false} NothingBeforehand(windows: seq<Window>, id: nat)
    ensures Delivered(windows, id) == [] ==> forall j | 0 <= j < |windows| :: SubmissionsFor(windows[j].disputes, id) == []
  {
    if windows != [] {
      var n := |windows| - 1;
      NothingBeforehand(windows[..n], id);
      assert forall j | 0 <= j < n :: windows[..n][j] == windows[j];
    }
  }

  lemma NothingDecided(reply: Dispute -> Reply, id: nat)
    ensures Decided(reply, id, []) == []
  {}

  lemma {:induction false} DecidedAlone(replies: seq<Dispute -> Reply>, windows: seq<Window>, i: nat, id: nat)
    requires |windows| <= |replies| && Alone(windows, i, id)
    ensures DecidedByWindow(replies, windows, id) ==
              if i < |windows| then Decided(replies[i], id, SubmissionsFor(windows[i].disputes, id)) else []
    decreases |windows|
  {
    if windows != [] {
      var n := |windows| - 1;
      NothingDecided(replies[n], id);
      AloneBefore(windows, i, id);
      hide SubmissionsFor, Decided, Alone;
      DecidedAlone(replies, windows[..n], i, id);
      if i < n { assert windows[..n][i] == windows[i]; }
    }
  }

  /** Everything the run delivered for id lies in the blocks of window i. */
  ghost predicate LiesIn(lookback: Block, ticks: seq<Tick>, log: seq<RawLog>, i: nat, id: nat)
    requires i < |Run(lookback, ticks).1|
  {
    var (next, windows) := Run(lookback, ticks);
    forall k | 0 <= k < |log| && FirstBlock(lookback, ticks) <= log[k].blockNumber <= next - 1 && Names(log[k], id) ::
      windows[i].from <= log[k].blockNumber <= windows[i].to
  }

  /** All the log has for id between the start block and the cursor. */
  ghost predicate IsEvidence(lookback: Block, ticks: seq<Tick>, log: seq<RawLog>, id: nat, evidence: seq<Submission>) {
    var first, next := FirstBlock(lookback, ticks), Run(lookback, ticks).0;
    Decodable(Range(log, first, next - 1)) && evidence == Projection(log, first, next - 1, id)
  }

  lemma OneWindowHasAll(lookback: Block, ticks: seq<Tick>, log: seq<RawLog>, i: nat, id: nat)
    requires SaneHeads(ticks) && InBlockOrder(log)
    requires forall i | 0 <= i < |ticks| :: Faithful(log, ticks[i])
    requires i < |Run(lookback, ticks).1| && LiesIn(lookback, ticks, log, i, id)
    ensures var windows := Run(lookback, ticks).1;
            && SubmissionsFor(windows[i].disputes, id) == Delivered(windows, id)
            && IsEvidence(lookback, ticks, log, id, Delivered(windows, id))
  {
    hide Run, Faithful, SaneHeads, FirstBlock, Names, Range, Decodable, InBlockOrder, Projection, Delivered, SubmissionsFor;
    DeliveryIsTheLog(lookback, ticks, log, id);
    WithinTheRun(lookback, ticks, i);
    var (next, windows) := Run(lookback, ticks);
    OnePromptHoldsAll(lookback, ticks, log, i, FirstBlock(lookback, ticks), next - 1, id);
  }

  predicate CallsForRuling(r: Reply) { r.state == Some(STATE_DISPUTED) && r.decision.Some? }

  /** A dispute all of whose entries lie in one window is judged once, on all its
      evidence, and the whole run sends it a ruling exactly when that window's
      reply reads Disputed and carries a decision. Otherwise it is left behind:
      no later window returns to it. */
  lemma RuledInItsWindowOrNever(lookback: Block, ticks: seq<Tick>, log: seq<RawLog>, replies: seq<Dispute -> Reply>, i: nat, id: nat)
    returns (evidence: seq<Submission>)
    requires SaneHeads(ticks) && InBlockOrder(log)
    requires forall i | 0 <= i < |ticks| :: Faithful(log, ticks[i])
    requires i < |Run(lookback, ticks).1| <= |replies| && LiesIn(lookback, ticks, log, i, id)
    ensures IsEvidence(lookback, ticks, log, id, evidence)
    ensures var sent, reply := DecisionsFor(Sent(replies, Run(lookback, ticks).1), id), replies[i](Dispute(id, evidence));
            sent == if evidence != [] && CallsForRuling(reply) then [reply.decision.value] else []
  {
    OneWindowHasAll(lookback, ticks, log, i, id);
    var windows := Run(lookback, ticks).1;
    evidence := Delivered(windows, id);
    hide Run, Faithful, SaneHeads, InBlockOrder, LiesIn, IsEvidence, DecisionsFor, Sent, Delivered, SubmissionsFor;
    OthersHaveNothing(windows, i, id);
    RunSends(lookback, ticks, replies, id);
    DecidedAlone(replies, windows, i, id);
  }

  /** Every window of a run lies between the start block and the cursor. */
  lemma WithinTheRun(lookback: Block, ticks: seq<Tick>, i: nat)
    requires SaneHeads(ticks) && i < |Run(lookback, ticks).1|
    ensures var (next, windows) := Run(lookback, ticks);
            FirstBlock(lookback, ticks) <= windows[i].from <= windows[i].to < next
  {
    CursorIsSafe(lookback, ticks);
    var (next, windows) := Run(lookback, ticks);
    hide Run, FirstBlock, SaneHeads;
    TilesWithin(FirstBlock(lookback, ticks), next, windows, i);
  }

  lemma {:induction false} TilesWithin(first: Block, next: Block, windows: seq<Window>, i: nat)
    requires Tiling(first, next, windows) && i < |windows|
    ensures first <= windows[i].from <= windows[i].to < next
    decreases |windows|
  {
    var n := |windows| - 1;
    TilingGrows(first, windows[n].from, windows[..n]);
    if i < n {
      TilesWithin(first, windows[n].from, windows[..n], i);
      assert windows[..n][i] == windows[i];
    }
  }
}
