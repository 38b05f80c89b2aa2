// From the contract to the prompt: the DisputeRaised events a run of the contract
// emits, read back by the agent, are each party's own words, in order.
module EvidenceTrail {
  import opened Wrappers
  import opened DisputeLog
  import ArbiterLoop
  import opened ZkTypes
  import E = EscrowMachine
  import C = Calls

  /** Where event i of the contract's log lies in the chain. */
  datatype Place = Place(blockNumber: nat, logIndex: nat)

  /** The contract's DisputeRaised events as the node serves them. */
  function Served(log: seq<E.Event>, places: nat -> Place, signature: nat): seq<RawLog> {
    if log == [] then [] else
      var n := |log| - 1;
      Served(log[..n], places, signature) +
      match log[n]
      case DisputeRaised(id, raisedBy, evidence) =>
        [Emitted(signature, id, raisedBy, evidence, places(n).blockNumber, places(n).logIndex)]
      case _ => []
  }

  /** What was submitted about an escrow, in the order of the contract's log. */
  function Submitted(log: seq<E.Event>, places: nat -> Place, id: nat): seq<Submission> {
    if log == [] then [] else
      var n := |log| - 1;
      Submitted(log[..n], places, id) +
      if log[n].DisputeRaised? && log[n].id == id
      then [Submission(log[n].raisedBy, log[n].evidence, places(n).blockNumber, places(n).logIndex)] else []
  }

  /** All of it decodes, and what the agent has for an escrow is what was
      submitted about it. */
  lemma {:induction false} ServedReadsBack(log: seq<E.Event>, places: nat -> Place, signature: nat, id: nat)
    ensures Decodable(Served(log, places, signature))
    ensures For(Entries(Served(log, places, signature)), id) == Submitted(log, places, id)
    decreases |log|
  {
    if log == [] {
      assert For([], id) == [];
    } else {
      var n := |log| - 1;
      var before := Served(log[..n], places, signature);
      ServedReadsBack(log[..n], places, signature, id);
      if log[n].DisputeRaised? {
        var l := Emitted(signature, log[n].id, log[n].raisedBy, log[n].evidence, places(n).blockNumber, places(n).logIndex);
        LogsReadBack(signature, log[n].id, log[n].raisedBy, log[n].evidence, places(n).blockNumber, places(n).logIndex, l);
        OneMoreRead(before, l, id);
      } else {
        assert before + [] == before;
      }
    }
  }

  lemma OneMoreRead(before: seq<RawLog>, l: RawLog, id: nat)
    requires Decodable(before) && DecodeLog(l).Success?
    ensures Decodable(before + [l])
    ensures var e := DecodeLog(l).value;
            For(Entries(before + [l]), id) == For(Entries(before), id) + if e.escrowID == id then [e.submission] else []
  {
    var e := DecodeLog(l).value;
    assert Entries(before + [l]) == Entries(before) + [e];
    OneMore(Entries(before), e);
  }

  /** A party that disputes or submits evidence adds exactly its own words, under
      its own name, to what the agent will read about that escrow, and to nothing
      else. */
  lemma PartySpeaks(v: Verifier, w: E.World, sender: nat, op: E.Op, places: nat -> Place, id: nat)
    requires op.RaiseDispute? || op.SubmitEvidence?
    requires E.Step(v, w, sender, op).Ok?
    ensures Submitted(E.Step(v, w, sender, op).value.log, places, id) ==
            Submitted(w.log, places, id) +
            if op.id == id then [Submission(sender, op.evidence, places(|w.log|).blockNumber, places(|w.log|).logIndex)] else []
  {
    if op.RaiseDispute? { C.DisputeIsRaised(v, w, sender, op.id, op.evidence); } else { C.EvidenceIsLogged(v, w, sender, op.id, op.evidence); }
    var ev := E.DisputeRaised(op.id, sender, op.evidence);
    hide E.Step;
    assert (w.log + [ev])[..|w.log|] == w.log;
  }

  /** The contract's states in the order of its enumeration. */
  const STATES: seq<E.State> := [E.State.None, E.Created, E.Funded, E.Released, E.Refunded, E.Disputed, E.Resolved]

  /** The number the agent compares with is the contract's Disputed, and no other
      state's. */
  lemma DisputedIsFive(i: nat)
    requires i < |STATES|
    ensures STATES[i] == E.Disputed <==> i == ArbiterLoop.STATE_DISPUTED
  {}
}
