// The arbiter's polling loop: a cursor over block ranges that survives failed
// reads and moving heads, and delivers each party's evidence exactly once and in
// order.
module ArbiterLoop {
  import opened Wrappers
  import opened DisputeLog
  import Executor

  const TWO_64: nat := 0x1_0000_0000_0000_0000
  const BLOCK_CONFIRMATIONS: nat := 2
  const BLOCK_RANGE_CHUNK_SIZE: nat := 500
  const START_BLOCK_LOOKBACK: nat := 5000
  const STATE_DISPUTED: nat := 5

  /** A uint64. */
  type Block = x: nat | x < TWO_64 witness 0

  /** What the node answers when asked for the logs of a block range. */
  type Node = (Block, Block) -> Result<seq<RawLog>, Error>

  datatype Window = Window(from: Block, to: Block, disputes: seq<Dispute>)

  datatype Poll = HeadFailed | Idle | ReadFailed | Scanned(window: Window)

  /** One tick: the head the node reports, if it does, and its log answers. */
  datatype Tick = Tick(head: Option<Block>, node: Node)

  function ColdStart(lookback: Block, safe: Block): Block {
    var depth := if lookback == 0 then START_BLOCK_LOOKBACK else lookback;
    if safe > depth then safe - depth else 1
  }

  /** uint64 addition wraps. */
  function Plus(a: Block, b: Block): Block {
    if a + b < TWO_64 then a + b else a + b - TWO_64
  }

  /** The last block of the window, never past the safe head. */
  function WindowEnd(start: Block, safe: Block): Block {
    var end := Plus(start, BLOCK_RANGE_CHUNK_SIZE - 1);
    if end < safe then end else safe
  }

  function Start(lookback: Block, next: Block, safe: Block): Block {
    if next == 0 then ColdStart(lookback, safe) else next
  }

  /** The cursor after one poll, and what the poll did. */
  function Step(lookback: Block, next: Block, tick: Tick): (Block, Poll) {
    if tick.head.None? then (next, HeadFailed)
    else if tick.head.value <= BLOCK_CONFIRMATIONS then (next, Idle)
    else
      var safe: Block := tick.head.value - BLOCK_CONFIRMATIONS;
      var start := Start(lookback, next, safe);
      if start > safe then (start, Idle)
      else
        var to := WindowEnd(start, safe);
        var response := tick.node(start, to);
        if response.Failure? || !Decodable(response.value) then (start, ReadFailed)
        else (Plus(to, 1), Scanned(Window(start, to, Grouped(Entries(response.value)))))
  }

  // ---- Settling -----------------------------------------------------------

  /** What the world says while one dispute is being settled. */
  datatype Reply = Reply(state: Option<nat>, decision: Option<Executor.Decision>, broadcastOk: bool)

  datatype Broadcast = Broadcast(escrowID: nat, decision: Executor.Decision)

  /** The rulings sent out for these disputes, in order. */
  function Broadcasts(reply: Dispute -> Reply, ds: seq<Dispute>): seq<Broadcast> {
    if ds == [] then [] else
      var d := ds[|ds| - 1];
      var r := reply(d);
      Broadcasts(reply, ds[..|ds| - 1]) +
      if r.state == Some(STATE_DISPUTED) && r.decision.Some? then [Broadcast(d.escrowID, r.decision.value)] else []
  }

  /** The rulings sent out over a run, replies[i] being what window i is told. */
  function Sent(replies: seq<Dispute -> Reply>, windows: seq<Window>): seq<Broadcast>
    requires |windows| <= |replies|
  {
    if windows == [] then [] else
      var n := |windows| - 1;
      Sent(replies, windows[..n]) + Broadcasts(replies[n], windows[n].disputes)
  }

  lemma RunNext(lookback: Block, ticks: seq<Tick>, i: nat)
    requires i < |ticks|
    ensures var (next, windows) := Run(lookback, ticks[..i]);
            var (next', did) := Step(lookback, next, ticks[i]);
            Run(lookback, ticks[..i + 1]) == (next', if did.Scanned? then windows + [did.window] else windows)
  {
    hide Step;
    assert ticks[..i + 1][..i] == ticks[..i];
  }

  lemma SentNext(replies: seq<Dispute -> Reply>, windows: seq<Window>, w: Window)
    requires |windows| < |replies|
    ensures Sent(replies, windows + [w]) == Sent(replies, windows) + Broadcasts(replies[|windows|], w.disputes)
  {
    hide Broadcasts;
    assert (windows + [w])[..|windows|] == windows;
  }

  class Arbiter {
    const lookback: Block
    var nextBlock: Block
    var broadcasts: seq<Broadcast>

    constructor (lookback: Block)
      ensures this.lookback == lookback && nextBlock == 0 && broadcasts == []
    {
      this.lookback, nextBlock, broadcasts := lookback, 0, [];
    }

    /** Sends a ruling for a dispute that is still open and gets a decision;
        reports whether any of the calls failed. */
    method Settle(reply: Dispute -> Reply, d: Dispute) returns (failed: bool)
      modifies this`broadcasts
      ensures broadcasts == old(broadcasts) + Broadcasts(reply, [d])
      ensures failed <==>
                var r := reply(d);
                r.state.None? || (r.state.value == STATE_DISPUTED && (r.decision.None? || !r.broadcastOk))
    {
      var r := reply(d);
      assert [d][..0] == [] && Broadcasts(reply, []) == [];
      if r.state.None? { return true; }
      if r.state.value != STATE_DISPUTED { return false; }
      if r.decision.None? { return true; }
      broadcasts := broadcasts + [Broadcast(d.escrowID, r.decision.value)];
      failed := !r.broadcastOk;
    }

    method SettleAll(reply: Dispute -> Reply, ds: seq<Dispute>)
      modifies this`broadcasts
      ensures broadcasts == old(broadcasts) + Broadcasts(reply, ds)
    {
      for i := 0 to |ds|
        invariant broadcasts == old(broadcasts) + Broadcasts(reply, ds[..i])
      {
        var _ := Settle(reply, ds[i]);
        assert [ds[i]][..0] == [] && Broadcasts(reply, []) == [];
        assert ds[..i + 1][..i] == ds[..i];
      }
      assert ds[..|ds|] == ds;
    }

    /** One poll. The cursor and the window follow Step; failed settlements are
        passed over, so they do not hold the cursor back. */
    method PollOnce(tick: Tick, reply: Dispute -> Reply) returns (did: Poll)
      modifies this
      ensures (nextBlock, did) == Step(lookback, old(nextBlock), tick)
      ensures broadcasts == old(broadcasts) + if did.Scanned? then Broadcasts(reply, did.window.disputes) else []
    {
      if tick.head.None? { return HeadFailed; }
      var head := tick.head.value;
      if head <= BLOCK_CONFIRMATIONS { return Idle; }
      var safe: Block := head - BLOCK_CONFIRMATIONS;
      if nextBlock == 0 {
        var depth: nat := lookback;
        if depth == 0 { depth := START_BLOCK_LOOKBACK; }
        if safe > depth { nextBlock := safe - depth; } else { nextBlock := 1; }
      }
      if nextBlock > safe { return Idle; }
      var from := nextBlock;
      var to := WindowEnd(from, safe);
      var read := Disputes(tick.node(from, to));
      if read.Failure? { return ReadFailed; }
      SettleAll(reply, read.value);
      nextBlock := Plus(to, 1);
      did := Scanned(Window(from, to, read.value));
    }

    /** The loop around the polls, from cold: one poll a tick, whatever came of
        the one before. */
    method Work(ticks: seq<Tick>, replies: seq<Dispute -> Reply>) returns (windows: seq<Window>)
      requires nextBlock == 0 && broadcasts == [] && |ticks| <= |replies|
      modifies this
      ensures (nextBlock, windows) == Run(lookback, ticks) && |windows| <= |ticks|
      ensures broadcasts == Sent(replies, windows)
    {
      windows := [];
      assert ticks[..0] == [];
      for i := 0 to |ticks|
        invariant (nextBlock, windows) == Run(lookback, ticks[..i]) && |windows| <= i
        invariant broadcasts == Sent(replies, windows)
      {
        hide *;
        RunNext(lookback, ticks, i);
        var did := PollOnce(ticks[i], replies[|windows|]);
        if did.Scanned? {
          SentNext(replies, windows, did.window);
          windows := windows + [did.window];
        }
      }
      assert ticks[..|ticks|] == ticks;
    }
  }

  /** A window sends at most one ruling per escrow, and only for escrows that
      were read as Disputed and ruled on. */
  lemma {:induction false} RulingsAreCalledFor(reply: Dispute -> Reply, ds: seq<Dispute>)
    requires forall i, j | 0 <= i < j < |ds| :: ds[i].escrowID != ds[j].escrowID
    ensures forall b | b in Broadcasts(reply, ds) ::
              exists i :: 0 <= i < |ds| && ds[i].escrowID == b.escrowID
                       && reply(ds[i]).state == Some(STATE_DISPUTED) && reply(ds[i]).decision == Some(b.decision)
    ensures forall i, j | 0 <= i < j < |Broadcasts(reply, ds)| ::
              Broadcasts(reply, ds)[i].escrowID != Broadcasts(reply, ds)[j].escrowID
    decreases |ds|
  {
    if ds != [] {
      var n := |ds| - 1;
      var init, bs := ds[..n], Broadcasts(reply, ds[..n]);
      RulingsAreCalledFor(reply, init);
      forall b | b in Broadcasts(reply, ds)
        ensures exists i :: 0 <= i < |ds| && ds[i].escrowID == b.escrowID
                         && reply(ds[i]).state == Some(STATE_DISPUTED) && reply(ds[i]).decision == Some(b.decision)
      {
        if b in bs {
          var i :| 0 <= i < |init| && init[i].escrowID == b.escrowID
                && reply(init[i]).state == Some(STATE_DISPUTED) && reply(init[i]).decision == Some(b.decision);
          assert ds[i] == init[i];
        } else {
          assert ds[n].escrowID == b.escrowID;
        }
      }
      forall i | 0 <= i < |bs| ensures bs[i].escrowID != ds[n].escrowID {
        assert bs[i] in bs;
      }
    }
  }

  // ---- The cursor over a whole run ----------------------------------------

  /** The cursor and the windows scanned, after a run of ticks from cold. */
  function Run(lookback: Block, ticks: seq<Tick>): (Block, seq<Window>) {
    if ticks == [] then (0, []) else
      var (next, windows) := Run(lookback, ticks[..|ticks| - 1]);
      var (next', did) := Step(lookback, next, ticks[|ticks| - 1]);
      (next', if did.Scanned? then windows + [did.window] else windows)
  }

  /** A head for which from + 499 cannot wrap. */
  predicate SaneHead(t: Tick) { t.head.Some? ==> t.head.value <= TWO_64 - 498 }

  predicate SaneHeads(ticks: seq<Tick>) { forall i | 0 <= i < |ticks| :: SaneHead(ticks[i]) }

  /** Exactly when a scan's window is a proper one. */
  lemma WindowProperUnlessItWraps(start: Block, safe: Block)
    requires start <= safe
    ensures start <= WindowEnd(start, safe) <= safe && WindowEnd(start, safe) - start < 500
            <==> start + 499 < TWO_64
  {}

  predicate PastConfirmations(t: Tick) {
    t.head.Some? && t.head.value > 2
  }

  /** The first block a cold agent scans at this head: the lookback behind the
      safe head, 5000 blocks if none is set, or the first block of the chain. */
  function StartBlock(lookback: Block, head: Block): Block
    requires head > 2
  {
    if lookback == 0 then (if head - 2 > 5000 then head - 2 - 5000 else 1)
    else if head - 2 > lookback then head - 2 - lookback else 1
  }

  /** Where a poll starts: the cursor, or the start block if it is still unset. */
  function From(lookback: Block, next: Block, t: Tick): Block {
    if next == 0 && PastConfirmations(t) then StartBlock(lookback, t.head.value) else next
  }

  /** The start block: chosen at the first head past the confirmations. */
  function FirstBlock(lookback: Block, ticks: seq<Tick>): Block {
    if ticks == [] then 0 else
      var first := FirstBlock(lookback, ticks[..|ticks| - 1]);
      if first != 0 then first else From(lookback, 0, ticks[|ticks| - 1])
  }

  lemma {:induction false} NoStartYet(lookback: Block, ticks: seq<Tick>)
    requires forall i | 0 <= i < |ticks| :: ticks[i].head.Some? ==> ticks[i].head.value <= 2
    ensures FirstBlock(lookback, ticks) == 0
    decreases |ticks|
  {
    if ticks != [] { NoStartYet(lookback, ticks[..|ticks| - 1]); }
  }

  /** The start block of a run: fixed by the first head of more than 2 and by the
      lookback, 5000 if that is zero, whatever comes later. */
  lemma {:induction false} StartOfRun(lookback: Block, ticks: seq<Tick>, j: nat)
    requires j < |ticks| && ticks[j].head.Some? && ticks[j].head.value > 2
    requires forall i | 0 <= i < j :: ticks[i].head.Some? ==> ticks[i].head.value <= 2
    ensures var back := if lookback == 0 then 5000 else lookback;
            var start := ticks[j].head.value - 2 - back;
            FirstBlock(lookback, ticks) == if start > 0 then start else 1
    decreases |ticks|
  {
    var n := |ticks| - 1;
    if j == n {
      NoStartYet(lookback, ticks[..n]);
    } else {
      assert ticks[..n][j] == ticks[j];
      StartOfRun(lookback, ticks[..n], j);
    }
  }

  /** Consecutive windows of 1 to 500 blocks from first up to the cursor. */
  ghost predicate Tiling(first: Block, next: Block, windows: seq<Window>) {
    && (forall i | 0 <= i < |windows| :: windows[i].from <= windows[i].to < windows[i].from + 500)
    && (forall i | 0 < i < |windows| :: windows[i].from == windows[i - 1].to + 1)
    && (windows == [] ==> next == first)
    && (windows != [] ==> windows[0].from == first && next == windows[|windows| - 1].to + 1)
  }

  /** One poll under a head for which nothing wraps. */
  lemma StepMoves(lookback: Block, next: Block, t: Tick)
    requires SaneHead(t)
    ensures var (next', did) := Step(lookback, next, t);
            && (From(lookback, next, t) == 0 <==> next == 0 && !PastConfirmations(t))
            && (did.Scanned? <==>
                  && PastConfirmations(t) && From(lookback, next, t) <= t.head.value - 2
                  && var from, safe := From(lookback, next, t), t.head.value - 2;
                  var r := t.node(from, if from + 499 < safe then from + 499 else safe);
                  r.Success? && Decodable(r.value))
            && (!did.Scanned? ==> next' == From(lookback, next, t))
            && (did.Scanned? ==>
                  var w, r := did.window, t.node(did.window.from, did.window.to);
                  && PastConfirmations(t) && w.from == From(lookback, next, t)
                  && w.from <= w.to < w.from + 500 && w.to + 2 <= t.head.value
                  && (w.to == w.from + 499 || w.to + 2 == t.head.value)
                  && next' == w.to + 1
                  && r.Success? && Decodable(r.value) && w.disputes == Grouped(Entries(r.value)))
  {}

  lemma NothingTiled(first: Block)
    ensures Tiling(first, first, [])
  {}

  lemma TilingExtends(first: Block, next: Block, windows: seq<Window>, w: Window, next': Block)
    requires Tiling(first, next, windows) && w.from == next
    requires w.from <= w.to < w.from + 500 && next' == w.to + 1
    ensures Tiling(first, next', windows + [w])
  {}

  /** Whatever the heads and the read failures: the scanned windows tile the
      blocks from the start block, which is chosen once, to the cursor, and the
      cursor, once set, never returns to zero. */
  lemma {:induction false} CursorIsSafe(lookback: Block, ticks: seq<Tick>)
    requires SaneHeads(ticks)
    ensures var (next, windows) := Run(lookback, ticks);
            && Tiling(FirstBlock(lookback, ticks), next, windows)
            && (next == 0 <==> forall i | 0 <= i < |ticks| :: !PastConfirmations(ticks[i]))
            && (next == 0 <==> FirstBlock(lookback, ticks) == 0)
            && (next == 0 ==> windows == [])
    decreases |ticks|
  {
    if ticks != [] {
      hide Step, Tiling;
      var n := |ticks| - 1;
      var init, t := ticks[..n], ticks[n];
      CursorIsSafe(lookback, init);
      var (next, windows) := Run(lookback, init);
      StepMoves(lookback, next, t);
      var (next', did) := Step(lookback, next, t);
      var first := FirstBlock(lookback, ticks);
      if next == 0 { NothingTiled(first); }
      if did.Scanned? { TilingExtends(first, From(lookback, next, t), windows, did.window, next'); }
    }
  }

  /** No poll of a run scans past the safe head it saw. */
  lemma NeverPastSafeHead(lookback: Block, ticks: seq<Tick>, t: Tick)
    requires SaneHead(t)
    ensures var did := Step(lookback, Run(lookback, ticks).0, t).1;
            did.Scanned? ==> PastConfirmations(t) && did.window.to <= t.head.value - 2
  {
    StepMoves(lookback, Run(lookback, ticks).0, t);
  }

  /** The cursor and the number of scans, continuing from a cursor. */
  function Continue(lookback: Block, start: Block, ticks: seq<Tick>): (Block, nat) {
    if ticks == [] then (start, 0) else
      var (next, scans) := Continue(lookback, start, ticks[..|ticks| - 1]);
      var (next', did) := Step(lookback, next, ticks[|ticks| - 1]);
      (next', if did.Scanned? then scans + 1 else scans)
  }

  /** Every tick that reports a head reports this one; the node answers as it likes. */
  predicate Steady(ticks: seq<Tick>, head: Block) {
    forall i | 0 <= i < |ticks| :: ticks[i].head == None || ticks[i].head == Some(head)
  }

  /** Where scans scans of 500 blocks lead, stopping behind the safe head. */
  function Reached(start: Block, scans: nat, head: Block): int {
    var end := head - 2 + 1;
    if start + 500 * scans < end then start + 500 * scans else end
  }

  lemma ReachedNext(start: Block, scans: nat, head: Block, next: Block, to: Block)
    requires 2 < head <= TWO_64 - 498 && next == Reached(start, scans, head)
    requires next <= head - 2 && to == WindowEnd(next, head - 2)
    ensures to + 1 == Reached(start, scans + 1, head)
  {
    assert 500 * (scans + 1) == 500 * scans + 500;
  }

  /** The window a scan covers. */
  lemma ScanCovers(lookback: Block, next: Block, t: Tick)
    requires Step(lookback, next, t).1.Scanned?
    ensures PastConfirmations(t) && From(lookback, next, t) <= t.head.value - 2
    ensures Step(lookback, next, t).1.window.to == WindowEnd(From(lookback, next, t), t.head.value - 2)
  {}

  lemma SteadyStep(lookback: Block, head: Block, start: Block, scans: nat, next: Block, t: Tick)
    requires 2 < head <= TWO_64 - 498 && t.head == Some(head)
    requires From(lookback, next, t) == Reached(start, scans, head) > 0
    ensures var (next', did) := Step(lookback, next, t);
            next' == Reached(start, if did.Scanned? then scans + 1 else scans, head)
  {
    StepMoves(lookback, next, t);
    var did := Step(lookback, next, t).1;
    if did.Scanned? {
      ScanCovers(lookback, next, t);
      ReachedNext(start, scans, head, From(lookback, next, t), did.window.to);
    }
    hide Step, Reached, Decodable, Grouped;
  }

  /** At a steady head, whichever polls fail, each scan moves the cursor by 500
      blocks until it has passed the safe head. */
  lemma {:induction false} Progress(lookback: Block, start: Block, head: Block, ticks: seq<Tick>)
    requires 2 < head <= TWO_64 - 498 && Steady(ticks, head)
    requires 0 < start <= head - 2 + 1
    ensures var (next, scans) := Continue(lookback, start, ticks);
            next == Reached(start, scans, head) > 0
    decreases |ticks|
  {
    if ticks != [] {
      var n := |ticks| - 1;
      Progress(lookback, start, head, ticks[..n]);
      var (next, scans) := Continue(lookback, start, ticks[..n]);
      if ticks[n].head.Some? {
        hide Step, Reached;
        SteadyStep(lookback, head, start, scans, next, ticks[n]);
      }
    }
  }

  predicate Headless(ticks: seq<Tick>) { forall i | 0 <= i < |ticks| :: ticks[i].head.None? }

  /** The same of a whole run: the cursor stays unset until the first head, and
      is then where its scans lead from the start block. */
  lemma {:induction false} ColdProgress(lookback: Block, head: Block, ticks: seq<Tick>)
    requires 2 < head <= TWO_64 - 498 && Steady(ticks, head)
    ensures var (next, windows) := Run(lookback, ticks);
            var first := StartBlock(lookback, head);
            && 0 < first <= head - 2
            && (Headless(ticks) ==> next == 0 && windows == [])
            && (!Headless(ticks) ==> next == Reached(first, |windows|, head) > 0)
    decreases |ticks|
  {
    if ticks != [] {
      var n := |ticks| - 1;
      var first := StartBlock(lookback, head);
      ColdProgress(lookback, head, ticks[..n]);
      assert Headless(ticks) <==> Headless(ticks[..n]) && ticks[n].head.None?;
      var (next, windows) := Run(lookback, ticks[..n]);
      if ticks[n].head.Some? {
        assert first == Reached(first, 0, head);
        hide Step, Reached, StartBlock, Headless;
        SteadyStep(lookback, head, first, |windows|, next, ticks[n]);
      }
    }
  }

  // ---- Delivery -----------------------------------------------------------

  predicate InBlockOrder(log: seq<RawLog>) {
    forall i, j | 0 <= i < j < |log| :: log[i].blockNumber <= log[j].blockNumber
  }

  /** The part of the log in blocks a to b. */
  function Range(log: seq<RawLog>, a: int, b: int): seq<RawLog> {
    if log == [] then [] else
      var last := log[|log| - 1];
      Range(log[..|log| - 1], a, b) + if a <= last.blockNumber <= b then [last] else []
  }

  lemma {:induction false} RangeContains(log: seq<RawLog>, a: int, b: int, k: nat)
    requires k < |log| && a <= log[k].blockNumber <= b
    ensures log[k] in Range(log, a, b)
  {
    var n := |log| - 1;
    if k < n { RangeContains(log[..n], a, b, k); }
  }

  lemma {:induction false} RangeEmpty(log: seq<RawLog>, a: int, b: int)
    requires forall i | 0 <= i < |log| :: log[i].blockNumber < a || b < log[i].blockNumber
    ensures Range(log, a, b) == []
  {
    if log != [] { RangeEmpty(log[..|log| - 1], a, b); }
  }

  lemma {:induction false} RangeSplit(log: seq<RawLog>, a: int, m: int, b: int)
    requires InBlockOrder(log) && a <= m + 1 && m <= b
    ensures Range(log, a, b) == Range(log, a, m) + Range(log, m + 1, b)
  {
    if log != [] {
      var n := |log| - 1;
      RangeSplit(log[..n], a, m, b);
      if log[n].blockNumber <= m {
        RangeEmpty(log[..n], m + 1, b);
      }
    }
  }

  lemma {:induction false} ForConcat(xs: seq<Entry>, ys: seq<Entry>, id: nat)
    ensures For(xs + ys, id) == For(xs, id) + For(ys, id)
    decreases |ys|
  {
    if ys == [] {
      assert xs + ys == xs;
    } else {
      var n := |ys| - 1;
      assert (xs + ys)[..|xs + ys| - 1] == xs + ys[..n];
      ForConcat(xs, ys[..n], id);
    }
  }

  /** The log's submissions for one escrow in blocks a to b. */
  function Projection(log: seq<RawLog>, a: int, b: int, id: nat): seq<Submission>
    requires Decodable(Range(log, a, b))
  {
    For(Entries(Range(log, a, b)), id)
  }

  /** What the polls handed to the settler for one escrow, in order. */
  function Delivered(windows: seq<Window>, id: nat): seq<Submission> {
    if windows == [] then [] else
      Delivered(windows[..|windows| - 1], id) + SubmissionsFor(windows[|windows| - 1].disputes, id)
  }

  /** Up to the safe head the node reads one log that never changes. */
  ghost predicate Faithful(log: seq<RawLog>, t: Tick) {
    forall a: Block, b: Block | t.head.Some? && b + 2 <= t.head.value && t.node(a, b).Success? ::
      t.node(a, b).value == Range(log, a, b)
  }

  lemma DecodableConcat(xs: seq<RawLog>, ys: seq<RawLog>)
    ensures Decodable(xs + ys) <==> Decodable(xs) && Decodable(ys)
    ensures Decodable(xs + ys) ==> Entries(xs + ys) == Entries(xs) + Entries(ys)
  {
    var all := xs + ys;
    if Decodable(all) {
      forall l | l in xs ensures DecodeLog(l).Success? { assert l in all; }
      forall l | l in ys ensures DecodeLog(l).Success? { assert l in all; }
    }
  }

  lemma ProjectionSplit(log: seq<RawLog>, a: int, m: int, b: int, id: nat)
    requires InBlockOrder(log) && a <= m + 1 && m <= b
    ensures Decodable(Range(log, a, b)) <==> Decodable(Range(log, a, m)) && Decodable(Range(log, m + 1, b))
    ensures Decodable(Range(log, a, b)) ==>
              Projection(log, a, b, id) == Projection(log, a, m, id) + Projection(log, m + 1, b, id)
  {
    RangeSplit(log, a, m, b);
    var xs, ys := Range(log, a, m), Range(log, m + 1, b);
    DecodableConcat(xs, ys);
    hide Decodable, Range, For;
    if Decodable(xs + ys) { ForConcat(Entries(xs), Entries(ys), id); }
  }

  /** Up to block b - 1, everything from first on has decoded and been delivered. */
  ghost predicate DeliveredUpTo(log: seq<RawLog>, first: Block, b: int, windows: seq<Window>, id: nat) {
    Decodable(Range(log, first, b - 1)) && Delivered(windows, id) == Projection(log, first, b - 1, id)
  }

  /** One more window delivers one more stretch of the log. */
  lemma WindowDelivers(log: seq<RawLog>, first: Block, windows: seq<Window>, w: Window, id: nat)
    requires InBlockOrder(log) && first <= w.from <= w.to
    requires DeliveredUpTo(log, first, w.from, windows, id)
    requires Decodable(Range(log, w.from, w.to)) && w.disputes == Grouped(Entries(Range(log, w.from, w.to)))
    ensures DeliveredUpTo(log, first, w.to + 1, windows + [w], id)
  {
    assert (windows + [w])[..|windows|] == windows;
    GroupingIsAFilter(Entries(Range(log, w.from, w.to)), id);
    ProjectionSplit(log, first, w.from - 1, w.to, id);
    hide Decodable, Range, For, SubmissionsFor;
  }

  lemma {:induction false} TilingGrows(first: Block, next: Block, windows: seq<Window>)
    requires Tiling(first, next, windows)
    ensures first <= next
    decreases |windows|
  {
    if windows != [] {
      var n := |windows| - 1;
      TilingGrows(first, windows[n].from, windows[..n]);
    }
  }

  lemma TickDelivers(lookback: Block, first: Block, next: Block, windows: seq<Window>, t: Tick, log: seq<RawLog>, id: nat)
    requires InBlockOrder(log) && Faithful(log, t) && SaneHead(t)
    requires first <= From(lookback, next, t)
    requires DeliveredUpTo(log, first, From(lookback, next, t), windows, id)
    ensures var (next', did) := Step(lookback, next, t);
            DeliveredUpTo(log, first, next', if did.Scanned? then windows + [did.window] else windows, id)
  {
    hide Step, DeliveredUpTo, Range, Decodable;
    StepMoves(lookback, next, t);
    var (_, did) := Step(lookback, next, t);
    if did.Scanned? {
      WindowDelivers(log, first, windows, did.window, id);
    }
  }

  /** Windowed delivery is the whole log: nothing lost, doubled or reordered
      between the start block and the cursor, however reads fail and heads move
      and whatever else the log holds. */
  lemma {:induction false} DeliveryIsTheLog(lookback: Block, ticks: seq<Tick>, log: seq<RawLog>, id: nat)
    requires SaneHeads(ticks) && InBlockOrder(log)
    requires forall i | 0 <= i < |ticks| :: Faithful(log, ticks[i])
    ensures var (next, windows) := Run(lookback, ticks);
            DeliveredUpTo(log, FirstBlock(lookback, ticks), next, windows, id)
    decreases |ticks|
  {
    hide DeliveredUpTo, Range, Decodable, InBlockOrder, Faithful, SaneHead, Step, From;
    if ticks == [] {
      NothingBefore(log, 0, id);
    } else {
      hide *;
      var init, t := ticks[..|ticks| - 1], ticks[|ticks| - 1];
      RunLast(lookback, ticks, log);
      DeliveryIsTheLog(lookback, init, log, id);
      var (next, windows) := Run(lookback, init);
      StartOfTick(lookback, init, t, log, id);
      TickDelivers(lookback, FirstBlock(lookback, ticks), next, windows, t, log, id);
    }
  }

  lemma {:induction false} ForContains(es: seq<Entry>, i: nat)
    requires i < |es|
    ensures es[i].submission in For(es, es[i].escrowID)
  {
    var n := |es| - 1;
    if i < n {
      assert es[..n][i] == es[i];
      ForContains(es[..n], i);
    }
  }

  lemma DeliveredContains(log: seq<RawLog>, first: Block, b: int, windows: seq<Window>, k: nat)
    requires k < |log| && first <= log[k].blockNumber < b
    requires forall id :: DeliveredUpTo(log, first, b, windows, id)
    ensures DecodeLog(log[k]).Success?
    ensures var e := DecodeLog(log[k]).value; e.submission in Delivered(windows, e.escrowID)
  {
    assert DeliveredUpTo(log, first, b, windows, 0);
    RangeContains(log, first, b - 1, k);
    var rs := Range(log, first, b - 1);
    var i :| 0 <= i < |rs| && rs[i] == log[k];
    var e := DecodeLog(log[k]).value;
    assert DeliveredUpTo(log, first, b, windows, e.escrowID);
    hide Range, Delivered;
    assert Entries(rs)[i] == e;
    ForContains(Entries(rs), i);
  }

  /** Nothing from the start block on is missed: once the cursor has passed an
      entry's block, it has been delivered to its escrow. */
  lemma EntryIsDelivered(lookback: Block, ticks: seq<Tick>, log: seq<RawLog>, j: nat, k: nat)
    requires SaneHeads(ticks) && InBlockOrder(log)
    requires forall i | 0 <= i < |ticks| :: Faithful(log, ticks[i])
    requires j < |ticks| && ticks[j].head.Some? && ticks[j].head.value > 2
    requires forall i | 0 <= i < j :: ticks[i].head.Some? ==> ticks[i].head.value <= 2
    requires k < |log| && log[k].blockNumber < Run(lookback, ticks).0
    requires 0 < log[k].blockNumber && log[k].blockNumber >= ticks[j].head.value - 2 - if lookback == 0 then 5000 else lookback
    ensures DecodeLog(log[k]).Success?
    ensures var e := DecodeLog(log[k]).value; e.submission in Delivered(Run(lookback, ticks).1, e.escrowID)
  {
    var (next, windows) := Run(lookback, ticks);
    var first := FirstBlock(lookback, ticks);
    StartOfRun(lookback, ticks, j);
    hide Run, FirstBlock, SaneHeads, InBlockOrder, Faithful, DeliveredUpTo, DecodeLog, Delivered;
    forall id ensures DeliveredUpTo(log, first, next, windows, id) {
      DeliveryIsTheLog(lookback, ticks, log, id);
    }
    DeliveredContains(log, first, next, windows, k);
  }

  lemma DeliveredDecodes(log: seq<RawLog>, first: Block, b: int, windows: seq<Window>, k: nat)
    requires DeliveredUpTo(log, first, b, windows, 0)
    requires k < |log| && first <= log[k].blockNumber < b
    ensures DecodeLog(log[k]).Success?
  {
    RangeContains(log, first, b - 1, k);
  }

  /** An entry that does not decode stops the cursor at its block or before. */
  lemma UndecodableHoldsTheCursor(lookback: Block, ticks: seq<Tick>, log: seq<RawLog>, k: nat)
    requires SaneHeads(ticks) && InBlockOrder(log)
    requires forall i | 0 <= i < |ticks| :: Faithful(log, ticks[i])
    requires k < |log| && DecodeLog(log[k]).Failure? && log[k].blockNumber >= FirstBlock(lookback, ticks)
    ensures Run(lookback, ticks).0 <= log[k].blockNumber
  {
    hide *;
    DeliveryIsTheLog(lookback, ticks, log, 0);
    var (next, windows) := Run(lookback, ticks);
    if log[k].blockNumber < next { DeliveredDecodes(log, FirstBlock(lookback, ticks), next, windows, k); }
  }

  // ---- What one prompt holds ----------------------------------------------

  /** Window w shows exactly the log of its blocks. */
  ghost predicate Shows(log: seq<RawLog>, w: Window) {
    Decodable(Range(log, w.from, w.to)) && w.disputes == Grouped(Entries(Range(log, w.from, w.to)))
  }

  lemma {:induction false} WindowsShowTheLog(lookback: Block, ticks: seq<Tick>, log: seq<RawLog>)
    requires SaneHeads(ticks) && forall i | 0 <= i < |ticks| :: Faithful(log, ticks[i])
    ensures forall i | 0 <= i < |Run(lookback, ticks).1| ::
              Run(lookback, ticks).1[i].from <= Run(lookback, ticks).1[i].to && Shows(log, Run(lookback, ticks).1[i])
    decreases |ticks|
  {
    if ticks != [] {
      var n := |ticks| - 1;
      WindowsShowTheLog(lookback, ticks[..n], log);
      StepMoves(lookback, Run(lookback, ticks[..n]).0, ticks[n]);
      assert SaneHead(ticks[n]) && Faithful(log, ticks[n]);
      hide Step, SaneHeads, Range, Decodable, Grouped;
    }
  }

  predicate Names(l: RawLog, id: nat) {
    DecodeLog(l).Success? && DecodeLog(l).value.escrowID == id
  }

  lemma ProjectionLast(log: seq<RawLog>, a: int, b: int, id: nat)
    requires log != [] && Decodable(Range(log, a, b))
    ensures var init, last := log[..|log| - 1], log[|log| - 1];
            && Decodable(Range(init, a, b))
            && Projection(log, a, b, id) == Projection(init, a, b, id) +
                 if a <= last.blockNumber <= b && Names(last, id) then [DecodeLog(last).value.submission] else []
  {
    var last := log[|log| - 1];
    var init := Range(log[..|log| - 1], a, b);
    DecodableConcat(init, [last]);
    hide DecodeLog;
    if a <= last.blockNumber <= b {
      assert last in Range(log, a, b);
      assert Entries([last]) == [DecodeLog(last).value];
      ForConcat(Entries(init), Entries([last]), id);
      assert For(Entries([last])[..0], id) == [];
    } else {
      assert init + [] == init;
    }
  }

  lemma {:induction false} NothingNamed(log: seq<RawLog>, a: int, b: int, id: nat)
    requires Decodable(Range(log, a, b))
    ensures Projection(log, a, b, id) == [] <==> forall k | 0 <= k < |log| && a <= log[k].blockNumber <= b :: !Names(log[k], id)
  {
    if log == [] {
      assert For([], id) == [];
    } else {
      var n := |log| - 1;
      ProjectionLast(log, a, b, id);
      NothingNamed(log[..n], a, b, id);
      hide Projection, Range, Names, Decodable;
      assert forall k | 0 <= k < n :: log[..n][k] == log[k];
    }
  }

  lemma MiddleAlone<T>(x: seq<T>, y: seq<T>, z: seq<T>)
    ensures x + y + z == y <==> x == [] && z == []
  {
    assert |x + y + z| == |x| + |y| + |z|;
    if x == [] && z == [] { assert x + y + z == y; }
  }

  lemma MiddleIsAll(log: seq<RawLog>, lo: int, a: int, b: int, hi: int, id: nat)
    requires InBlockOrder(log) && lo <= a <= b <= hi && Decodable(Range(log, lo, hi))
    ensures Decodable(Range(log, a, b))
    ensures Projection(log, a, b, id) == Projection(log, lo, hi, id) <==>
            forall k | 0 <= k < |log| && lo <= log[k].blockNumber <= hi && Names(log[k], id) :: a <= log[k].blockNumber <= b
  {
    hide Projection, Range, Decodable, Names;
    ProjectionSplit(log, lo, b, hi, id);
    ProjectionSplit(log, lo, a - 1, b, id);
    NothingNamed(log, lo, a - 1, id);
    NothingNamed(log, b + 1, hi, id);
    MiddleAlone(Projection(log, lo, a - 1, id), Projection(log, a, b, id), Projection(log, b + 1, hi, id));
    hide InBlockOrder;
  }

  /** Evidence is grouped per window, not per dispute: what one prompt of a run
      holds for an escrow is all there is for it in blocks lo to hi exactly when
      every entry for it there lies in that window's blocks. */
  lemma OnePromptHoldsAll(lookback: Block, ticks: seq<Tick>, log: seq<RawLog>, i: nat, lo: int, hi: int, id: nat)
    requires SaneHeads(ticks) && InBlockOrder(log)
    requires forall i | 0 <= i < |ticks| :: Faithful(log, ticks[i])
    requires i < |Run(lookback, ticks).1|
    requires lo <= Run(lookback, ticks).1[i].from && Run(lookback, ticks).1[i].to <= hi && Decodable(Range(log, lo, hi))
    ensures var w := Run(lookback, ticks).1[i];
            SubmissionsFor(w.disputes, id) == Projection(log, lo, hi, id) <==>
            forall k | 0 <= k < |log| && lo <= log[k].blockNumber <= hi && Names(log[k], id) ::
              w.from <= log[k].blockNumber <= w.to
  {
    WindowsShowTheLog(lookback, ticks, log);
    var w := Run(lookback, ticks).1[i];
    assert Shows(log, w);
    hide Run, Faithful, SaneHeads;
    MiddleIsAll(log, lo, w.from, w.to, hi, id);
    GroupingIsAFilter(Entries(Range(log, w.from, w.to)), id);
  }

  /** Two submissions for one escrow, in blocks 1 and 2. */
  const SPLIT_LOG: seq<RawLog> := [
    RawLog([0, 7, 1], Some("paid"), 1, 0),
    RawLog([0, 7, 2], Some("never arrived"), 2, 0)]

  /** Heads 3 and 4, over a node that serves that log. */
  function SplitTicks(): seq<Tick> {
    var node := (a: Block, b: Block) => Success(Range(SPLIT_LOG, a, b));
    [Tick(Some(3), node), Tick(Some(4), node)]
  }

  lemma RangeOfOne(a: RawLog, b: RawLog, lo: int, hi: int)
    ensures Range([a, b], lo, hi) ==
              (if lo <= a.blockNumber <= hi then [a] else []) + if lo <= b.blockNumber <= hi then [b] else []
  {
    assert [a, b][..1] == [a] && [a][..0] == [];
    assert Range([a], lo, hi) == if lo <= a.blockNumber <= hi then [a] else [];
  }

  /** What that run scans. */
  lemma SplitRun(lookback: Block)
    ensures var windows := Run(lookback, SplitTicks()).1;
            && |windows| == 2
            && windows[0].disputes == Grouped(Entries([SPLIT_LOG[0]]))
            && windows[1].disputes == Grouped(Entries([SPLIT_LOG[1]]))
  {
    var ticks := SplitTicks();
    RangeOfOne(SPLIT_LOG[0], SPLIT_LOG[1], 1, 1);
    RangeOfOne(SPLIT_LOG[0], SPLIT_LOG[1], 2, 2);
    hide Range, Grouped, For;
    assert ticks[..1] == [ticks[0]] && ticks[..1][..0] == [];
    assert Run(lookback, []) == (0, []);
    assert Run(lookback, ticks[..1]).0 == 2;
  }

  /** No prompt need hold all the evidence: in this run two windows hold half of
      it each. */
  lemma EvidenceCanSplit(lookback: Block)
    ensures var ticks := SplitTicks();
            && SaneHeads(ticks) && InBlockOrder(SPLIT_LOG) && Decodable(Range(SPLIT_LOG, 1, 2))
            && (forall i | 0 <= i < |ticks| :: Faithful(SPLIT_LOG, ticks[i]))
            && var windows := Run(lookback, ticks).1;
            && |windows| == 2
            && (forall i | 0 <= i < 2 :: |SubmissionsFor(windows[i].disputes, 7)| == 1)
            && |Projection(SPLIT_LOG, 1, 2, 7)| == 2
  {
    RangeOfOne(SPLIT_LOG[0], SPLIT_LOG[1], 1, 1);
    RangeOfOne(SPLIT_LOG[0], SPLIT_LOG[1], 2, 2);
    OneEntry(SPLIT_LOG[0]);
    OneEntry(SPLIT_LOG[1]);
    ProjectionSplit(SPLIT_LOG, 1, 1, 2, 7);
    SplitRun(lookback);
    hide Range, Run, Grouped, SubmissionsFor, For;
  }

  lemma OneEntry(l: RawLog)
    requires DecodeLog(l).Success?
    ensures Decodable([l])
    ensures var e := DecodeLog(l).value;
            For(Entries([l]), e.escrowID) == [e.submission] && SubmissionsFor(Grouped(Entries([l])), e.escrowID) == [e.submission]
  {
    var e := DecodeLog(l).value;
    assert Entries([l]) == [e] && [e][..0] == [];
    GroupingIsAFilter([e], e.escrowID);
  }

  lemma RunLast(lookback: Block, ticks: seq<Tick>, log: seq<RawLog>)
    requires ticks != [] && SaneHeads(ticks)
    requires forall i | 0 <= i < |ticks| :: Faithful(log, ticks[i])
    ensures var init, t := ticks[..|ticks| - 1], ticks[|ticks| - 1];
            var (next, windows) := Run(lookback, init);
            var (next', did) := Step(lookback, next, t);
            && Run(lookback, ticks) == (next', if did.Scanned? then windows + [did.window] else windows)
            && FirstBlock(lookback, ticks) ==
                 (if FirstBlock(lookback, init) != 0 then FirstBlock(lookback, init) else From(lookback, 0, t))
            && SaneHeads(init) && SaneHead(t) && Faithful(log, t)
            && forall i | 0 <= i < |init| :: Faithful(log, init[i])
  {}

  /** Before a tick, everything up to where it will start has been delivered. */
  lemma StartOfTick(lookback: Block, init: seq<Tick>, t: Tick, log: seq<RawLog>, id: nat)
    requires SaneHeads(init)
    requires var (next, windows) := Run(lookback, init);
             DeliveredUpTo(log, FirstBlock(lookback, init), next, windows, id)
    ensures var (next, windows) := Run(lookback, init);
            var first := if FirstBlock(lookback, init) != 0 then FirstBlock(lookback, init) else From(lookback, 0, t);
            && first <= From(lookback, next, t)
            && DeliveredUpTo(log, first, From(lookback, next, t), windows, id)
  {
    hide Run, FirstBlock, DeliveredUpTo, Tiling;
    CursorIsSafe(lookback, init);
    var (next, windows) := Run(lookback, init);
    if next == 0 {
      NothingBefore(log, From(lookback, 0, t), id);
    } else {
      TilingGrows(FirstBlock(lookback, init), next, windows);
    }
  }

  lemma NothingBefore(log: seq<RawLog>, a: Block, id: nat)
    ensures DeliveredUpTo(log, a, a, [], id)
  {
    RangeEmpty(log, a, a - 1);
  }
}
