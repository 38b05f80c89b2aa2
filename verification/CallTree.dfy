// Transactions as call trees. withdraw hands control to the payee, who may make
// any calls before the transfer is accepted or rejected; a frame of foreign
// code may undo everything done inside it. The trees are shown to serialise:
// what they leave behind, and every state they expose on the way, is what some
// flat sequence of transactions leaves behind.
module CallTree {
  import opened Basics
  import opened ZkTypes
  import opened EscrowMachine

  datatype Action =
    | Call(tx: Tx)
    | Withdrawal(payee: Address, callback: seq<Action>, accepts: bool)
    | Frame(body: seq<Action>, commits: bool)

  function ExecOne(v: Verifier, w: World, entered: bool, a: Action): World
    decreases a, 0
  {
    match a
    case Call(tx) =>
      (match GuardedStep(v, w, entered, tx.sender, tx.op)
       case Ok(w') => w'
       case Err(_) => w)
    case Frame(body, commits) => if commits then Exec(v, w, entered, body) else w
    case Withdrawal(payee, callback, accepts) =>
      match GuardedStep(v, w, entered, payee, Withdraw)
      case Err(_) => w
      case Ok(paid) => if accepts then Exec(v, paid, true, callback) else w
  }

  function Exec(v: Verifier, w: World, entered: bool, acts: seq<Action>): World
    decreases acts, 1
  {
    if acts == [] then w else Exec(v, ExecOne(v, w, entered, acts[0]), entered, acts[1..])
  }

  /** Every state some code could look at while the actions run, including the
      moment a callback starts and states that are rolled back afterwards. */
  function Observed(v: Verifier, w: World, entered: bool, acts: seq<Action>): seq<World>
    decreases acts, 1
  {
    [w] + if acts == [] then [] else
      ObservedInside(v, w, entered, acts[0]) + Observed(v, ExecOne(v, w, entered, acts[0]), entered, acts[1..])
  }

  function ObservedInside(v: Verifier, w: World, entered: bool, a: Action): seq<World>
    decreases a, 0
  {
    match a
    case Call(_) => []
    case Frame(body, _) => Observed(v, w, entered, body)
    case Withdrawal(payee, callback, _) =>
      match GuardedStep(v, w, entered, payee, Withdraw)
      case Err(_) => []
      case Ok(paid) => Observed(v, paid, true, callback)
  }

  /** The calls that took effect, in the order in which they did. */
  function Committed(v: Verifier, w: World, entered: bool, acts: seq<Action>): seq<Tx>
    decreases acts, 1
  {
    if acts == [] then [] else
      CommittedOne(v, w, entered, acts[0]) + Committed(v, ExecOne(v, w, entered, acts[0]), entered, acts[1..])
  }

  function CommittedOne(v: Verifier, w: World, entered: bool, a: Action): seq<Tx>
    decreases a, 0
  {
    match a
    case Call(tx) => if GuardedStep(v, w, entered, tx.sender, tx.op).Ok? then [tx] else []
    case Frame(body, commits) => if commits then Committed(v, w, entered, body) else []
    case Withdrawal(payee, callback, accepts) =>
      match GuardedStep(v, w, entered, payee, Withdraw)
      case Err(_) => []
      case Ok(paid) => if accepts then [Tx(payee, Withdraw)] + Committed(v, paid, true, callback) else []
  }

  lemma RunOne(v: Verifier, w: World, tx: Tx)
    ensures Run(v, w, [tx]) == Apply(v, w, tx)
  {
    RunExtend(v, w, [], tx);
    assert [] + [tx] == [tx];
  }

  /** A call tree leaves exactly the world its committed calls leave when they
      are made one after another from the top level. */
  lemma {:induction false} Serialisation(v: Verifier, w: World, entered: bool, acts: seq<Action>)
    ensures Exec(v, w, entered, acts) == Run(v, w, Committed(v, w, entered, acts))
    decreases acts, 1
  {
    if acts != [] {
      SerialisationOne(v, w, entered, acts[0]);
      var mid := ExecOne(v, w, entered, acts[0]);
      Serialisation(v, mid, entered, acts[1..]);
      RunConcat(v, w, CommittedOne(v, w, entered, acts[0]), Committed(v, mid, entered, acts[1..]));
    }
  }

  lemma {:induction false} SerialisationOne(v: Verifier, w: World, entered: bool, a: Action)
    ensures ExecOne(v, w, entered, a) == Run(v, w, CommittedOne(v, w, entered, a))
    decreases a, 0
  {
    match a
    case Call(tx) =>
      RunOne(v, w, tx);
    case Frame(body, commits) =>
      Serialisation(v, w, entered, body);
    case Withdrawal(payee, callback, accepts) =>
      var r := GuardedStep(v, w, entered, payee, Withdraw);
      if accepts && r.Ok? {
        Serialisation(v, r.value, true, callback);
        RunOne(v, w, Tx(payee, Withdraw));
        RunConcat(v, w, [Tx(payee, Withdraw)], Committed(v, r.value, true, callback));
      }
  }

  // ---- What the semantics means -------------------------------------------

  /** Actions run one after another. */
  lemma {:induction false} ExecConcat(v: Verifier, w: World, entered: bool, a: seq<Action>, b: seq<Action>)
    ensures Exec(v, w, entered, a + b) == Exec(v, Exec(v, w, entered, a), entered, b)
    decreases |a|
  {
    if a == [] {
      assert a + b == b;
    } else {
      assert (a + b)[1..] == a[1..] + b;
      ExecConcat(v, ExecOne(v, w, entered, a[0]), entered, a[1..], b);
    }
  }

  /** A frame keeps all of what was done inside it or none of it, and either way
      its inside is seen. */
  lemma FrameAllOrNothing(v: Verifier, w: World, entered: bool, body: seq<Action>)
    ensures ExecOne(v, w, entered, Frame(body, true)) == Exec(v, w, entered, body)
    ensures ExecOne(v, w, entered, Frame(body, false)) == w
    ensures forall commits :: ObservedInside(v, w, entered, Frame(body, commits)) == Observed(v, w, entered, body)
  {}

  /** A failing call changes nothing, and a succeeding one is the machine's step. */
  lemma CallAllOrNothing(v: Verifier, w: World, tx: Tx)
    ensures ExecOne(v, w, false, Call(tx)) == Apply(v, w, tx)
    ensures ExecOne(v, w, true, Call(tx)) == if tx.op.Withdraw? then w else Apply(v, w, tx)
  {}

  predicate Pays(tx: Tx) { tx.op.Withdraw? }

  /** The guard: while a withdrawal runs, no other goes through, however deep. */
  lemma {:induction false} NoneWhileEntered(v: Verifier, w: World, acts: seq<Action>)
    ensures forall i | 0 <= i < |Committed(v, w, true, acts)| :: !Pays(Committed(v, w, true, acts)[i])
    decreases acts, 1
  {
    if acts != [] {
      NoneWhileEnteredOne(v, w, acts[0]);
      NoneWhileEntered(v, ExecOne(v, w, true, acts[0]), acts[1..]);
    }
  }

  lemma {:induction false} NoneWhileEnteredOne(v: Verifier, w: World, a: Action)
    ensures forall i | 0 <= i < |CommittedOne(v, w, true, a)| :: !Pays(CommittedOne(v, w, true, a)[i])
    decreases a, 0
  {
    match a
    case Call(_) =>
    case Frame(body, _) => NoneWhileEntered(v, w, body);
    case Withdrawal(_, _, _) =>
  }

  /** So a withdrawal from the top level pays once, and first. */
  lemma OneWithdrawalEach(v: Verifier, w: World, payee: Address, callback: seq<Action>)
    requires Step(v, w, payee, Withdraw).Ok?
    ensures var txs := CommittedOne(v, w, false, Withdrawal(payee, callback, true));
            txs != [] && txs[0] == Tx(payee, Withdraw) && forall i | 0 < i < |txs| :: !Pays(txs[i])
    ensures CommittedOne(v, w, false, Withdrawal(payee, callback, false)) == []
  {
    NoneWhileEntered(v, Step(v, w, payee, Withdraw).value, callback);
  }

  lemma FirstIsSeen(v: Verifier, w: World, entered: bool, acts: seq<Action>)
    requires acts != []
    ensures w in Observed(v, w, entered, acts)
    ensures forall s | s in ObservedInside(v, w, entered, acts[0]) :: s in Observed(v, w, entered, acts)
    ensures forall s | s in Observed(v, ExecOne(v, w, entered, acts[0]), entered, acts[1..]) :: s in Observed(v, w, entered, acts)
  {}

  /** Nothing goes unseen: the state each action starts from, and all that is
      seen inside it. */
  lemma {:induction false} NothingUnseen(v: Verifier, w: World, entered: bool, acts: seq<Action>, i: nat, s: World)
    requires i < |acts|
    ensures Exec(v, w, entered, acts[..i]) in Observed(v, w, entered, acts)
    ensures s in ObservedInside(v, Exec(v, w, entered, acts[..i]), entered, acts[i]) ==> s in Observed(v, w, entered, acts)
    decreases i
  {
    FirstIsSeen(v, w, entered, acts);
    if i > 0 {
      NothingUnseen(v, ExecOne(v, w, entered, acts[0]), entered, acts[1..], i - 1, s);
      assert acts[..i][1..] == acts[1..][..i - 1];
    }
    hide Observed, ObservedInside, ExecOne;
  }

  /** Every state exposed while a tree runs from a reachable state is reachable. */
  lemma {:induction false} ObservedReachable(v: Verifier, g: World, w: World, entered: bool, acts: seq<Action>)
    requires Reachable(v, g, w)
    ensures Reachable(v, g, Exec(v, w, entered, acts))
    ensures forall s | s in Observed(v, w, entered, acts) :: Reachable(v, g, s)
    decreases acts, 1
  {
    if acts != [] {
      ObservedInsideReachable(v, g, w, entered, acts[0]);
      ObservedReachable(v, g, ExecOne(v, w, entered, acts[0]), entered, acts[1..]);
    }
  }

  lemma {:induction false} ObservedInsideReachable(v: Verifier, g: World, w: World, entered: bool, a: Action)
    requires Reachable(v, g, w)
    ensures Reachable(v, g, ExecOne(v, w, entered, a))
    ensures forall s | s in ObservedInside(v, w, entered, a) :: Reachable(v, g, s)
    decreases a, 0
  {
    var txs :| Run(v, g, txs) == w;
    SerialisationOne(v, w, entered, a);
    RunConcat(v, g, txs, CommittedOne(v, w, entered, a));
    match a
    case Call(_) =>
    case Frame(body, _) =>
      ObservedReachable(v, g, w, entered, body);
    case Withdrawal(payee, callback, _) =>
      var r := GuardedStep(v, w, entered, payee, Withdraw);
      if r.Ok? {
        RunExtend(v, g, txs, Tx(payee, Withdraw));
        ObservedReachable(v, g, r.value, true, callback);
      }
  }
}
