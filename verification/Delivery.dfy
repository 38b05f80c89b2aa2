// The delivery circuit, what it makes a nullifier mean, and what that and the
// verifier's range checks do to releases over every run of the escrow.
module Delivery {
  import opened Basics
  import opened ZkTypes
  import opened EscrowMachine
  import opened Solvency
  import opened EventLog
  import G = Groth16Verifier

  /** The two hash components, otherwise unknown. */
  datatype Poseidon = Poseidon(hash1: nat -> nat, hash2: (nat, nat) -> nat)

  /** All wires of the Delivery template. */
  datatype Witness = Witness(
    secret: nat, commitment: nat, escrowId: nat, nullifier: nat,
    commitmentHashIn: nat, commitmentHashOut: nat,
    nullifierHashIn0: nat, nullifierHashIn1: nat, nullifierHashOut: nat)

  predicate Constraints(h: Poseidon, w: Witness) {
    // the components
    && w.commitmentHashOut == h.hash1(w.commitmentHashIn)
    && w.nullifierHashOut == h.hash2(w.nullifierHashIn0, w.nullifierHashIn1)
    // the secret opens the public commitment
    && w.commitmentHashIn == w.secret
    && w.commitmentHashOut == w.commitment
    // the output ties the secret to one escrow
    && w.nullifierHashIn0 == w.secret
    && w.nullifierHashIn1 == w.escrowId
    && w.nullifier == w.nullifierHashOut
  }

  /** secret opens the commitment, and gives this nullifier for this escrow. */
  predicate Opens(h: Poseidon, secret: nat, s: Signals) {
    h.hash1(secret) == s.commitment && h.hash2(secret, s.escrowId) == s.nullifier
  }

  /** Some assignment of the circuit's wires has these public signals. */
  ghost predicate Satisfiable(h: Poseidon, r: nat, s: Signals) {
    exists w :: Constraints(h, w) && w.secret < r
             && w.nullifier == s.nullifier && w.commitment == s.commitment && w.escrowId == s.escrowId
  }

  lemma CircuitMeansOpening(h: Poseidon, r: nat, s: Signals)
    ensures Satisfiable(h, r, s) <==> exists secret: nat :: secret < r && Opens(h, secret, s)
  {
    if Satisfiable(h, r, s) {
      var w :| Constraints(h, w) && w.secret < r
            && w.nullifier == s.nullifier && w.commitment == s.commitment && w.escrowId == s.escrowId;
      assert Opens(h, w.secret, s);
    }
    if secret: nat :| secret < r && Opens(h, secret, s) {
      var w := Witness(secret, s.commitment, s.escrowId, s.nullifier, secret, s.commitment, secret, s.escrowId, s.nullifier);
      assert Constraints(h, w);
    }
  }

  ghost predicate InRange(r: nat, s: Signals) {
    s.nullifier < r && s.commitment < r && s.escrowId < r
  }

  /** The verifier accepts no signal outside the field. */
  ghost predicate RangeChecked(v: Verifier, r: nat) {
    forall proof, s | v(proof, s) :: InRange(r, s)
  }

  /** Whoever knows a secret can make a proof of its nullifier. */
  ghost predicate Complete(v: Verifier, h: Poseidon, r: nat) {
    forall secret: nat, s: Signals | secret < r && InRange(r, s) && Opens(h, secret, s) :: exists proof :: v(proof, s)
  }

  /** Two different pairs of field elements with the same two-input hash. */
  predicate Collision(h: Poseidon, r: nat, a: nat, b: nat, c: nat, d: nat) {
    a < r && b < r && c < r && d < r && (a, b) != (c, d) && h.hash2(a, b) == h.hash2(c, d)
  }

  /** If one nullifier can be assigned for two escrow ids, the assignments show
      a collision. */
  lemma NullifierNamesEscrow(h: Poseidon, r: nat, s: Signals, s': Signals)
    requires Satisfiable(h, r, s) && Satisfiable(h, r, s') && s.escrowId < r && s'.escrowId < r
    requires s.nullifier == s'.nullifier
    ensures s.escrowId == s'.escrowId
            || exists secret: nat, secret': nat :: Collision(h, r, secret, s.escrowId, secret', s'.escrowId)
  {
    CircuitMeansOpening(h, r, s);
    CircuitMeansOpening(h, r, s');
    var secret: nat :| secret < r && Opens(h, secret, s);
    var secret': nat :| secret' < r && Opens(h, secret', s');
    assert s.escrowId != s'.escrowId ==> Collision(h, r, secret, s.escrowId, secret', s'.escrowId);
  }

  /** What a release made public about escrow id. */
  function ReleaseSignals(w: World, id: nat, n: Word): Signals
    requires id < |w.escrows| && id < TWO_256
  {
    Signals(n, w.escrows[id].commitment, id)
  }

  /** The releases of this run were made by someone who knew a secret:
      secrets[id] opens escrow id's commitment and gives the nullifier spent. */
  ghost predicate ReleasedWithSecrets(h: Poseidon, r: nat, w: World, secrets: map<nat, nat>) {
    forall id: nat | GetState(w, id) == Released ::
      && id < TWO_256 && id in secrets && secrets[id] < r && id in Replay(w.log).releases
      && Opens(h, secrets[id], ReleaseSignals(w, id, Replay(w.log).releases[id]))
  }

  lemma SpentBySecret(v: Verifier, h: Poseidon, r: nat, w: World, secrets: map<nat, nat>, n: Word)
    requires OneNullifierPerRelease(v, w, Replay(w.log)) && ReleasedWithSecrets(h, r, w, secrets)
    ensures n in w.spent <==> exists j :: GetState(w, j) == Released && h.hash2(secrets[j], j) == n
  {
    var releases := Replay(w.log).releases;
    hide Replay;
    if n in w.spent {
      var j :| j in releases && releases[j] == n;
      assert GetState(w, j) == Released;
    }
    if j :| GetState(w, j) == Released && h.hash2(secrets[j], j) == n {
      assert releases[j] == n;
    }
  }

  /** Releasing a Funded escrow with an accepted proof fails exactly when some
      Released escrow's secret hashes, with that escrow's id, to the same
      nullifier; and then it fails as already used. */
  lemma ProvenReleaseSucceedsUnlessCollision(v: Verifier, g: World, w: World, h: Poseidon, r: nat, secrets: map<nat, nat>,
                                             id: Word, n: Word, proof: Proof, sender: Address)
    requires IsGenesis(g) && Reachable(v, g, w) && ReleasedWithSecrets(h, r, w, secrets)
    requires GetState(w, id) == Funded && v(proof, ReleaseSignals(w, id, n))
    ensures var taken := exists j :: GetState(w, j) == Released && h.hash2(secrets[j], j) == n;
            && (Step(v, w, sender, Release(id, n, proof)).Ok? <==> !taken)
            && (Step(v, w, sender, Release(id, n, proof)) == Err(NullifierAlreadyUsed(n)) <==> taken)
  {
    ReachableJournal(v, g, w);
    SpentBySecret(v, h, r, w, secrets, n);
    StepSucceedsIffEntitled(v, g, w, sender, Release(id, n, proof));
    hide Replay, Reachable, OneNullifierPerRelease, ReleasedWithSecrets, Settle;
  }

  /** Whoever knows the secret of a Funded escrow releases it with any proof of
      their nullifier that the verifier accepts, however many other escrows
      share the commitment or have been released. The one way it can fail is
      with a Poseidon collision in plain sight: their secret and id, and the
      secret and id of an escrow that has been released. */
  lemma HonestReleaseSucceeds(v: Verifier, g: World, w: World, h: Poseidon, r: nat, secrets: map<nat, nat>,
                              id: Word, secret: nat, n: Word, proof: Proof, sender: Address)
    requires IsGenesis(g) && Reachable(v, g, w) && ReleasedWithSecrets(h, r, w, secrets)
    requires GetState(w, id) == Funded && secret < r && RangeChecked(v, r)
    requires Opens(h, secret, ReleaseSignals(w, id, n)) && v(proof, ReleaseSignals(w, id, n))
    ensures var clash := exists j :: GetState(w, j) == Released && Collision(h, r, secret, id, secrets[j], j);
            && (Step(v, w, sender, Release(id, n, proof)).Ok? <==> !clash)
            && (Step(v, w, sender, Release(id, n, proof)) == Err(NullifierAlreadyUsed(n)) <==> clash)
  {
    ProvenReleaseSucceedsUnlessCollision(v, g, w, h, r, secrets, id, n, proof, sender);
    ReachableJournal(v, g, w);
    hide Step, Reachable, Replay, Recorded;
    forall j | GetState(w, j) == Released
      ensures h.hash2(secrets[j], j) == n <==> Collision(h, r, secret, id, secrets[j], j)
    {
      assert Proven(v, w, j, Replay(w.log).releases[j]);
    }
  }

  /** So with a complete proof system, and no such collision, they have a proof
      that releases it. */
  lemma HonestProverReleases(v: Verifier, g: World, w: World, h: Poseidon, r: nat, secrets: map<nat, nat>,
                             id: Word, secret: nat, n: Word, sender: Address)
    returns (proof: Proof)
    requires IsGenesis(g) && Reachable(v, g, w) && ReleasedWithSecrets(h, r, w, secrets)
    requires GetState(w, id) == Funded && secret < r && RangeChecked(v, r) && Complete(v, h, r)
    requires var s := ReleaseSignals(w, id, n); Opens(h, secret, s) && InRange(r, s)
    requires forall j | GetState(w, j) == Released :: !Collision(h, r, secret, id, secrets[j], j)
    ensures v(proof, ReleaseSignals(w, id, n)) && Step(v, w, sender, Release(id, n, proof)).Ok?
  {
    var s := ReleaseSignals(w, id, n);
    assert exists proof :: v(proof, s);
    proof :| v(proof, s);
    hide Step, Reachable, Complete, RangeChecked, Collision;
    HonestReleaseSucceeds(v, g, w, h, r, secrets, id, secret, n, proof, sender);
  }

  // ---- The deployed verifier ----------------------------------------------

  function Deployed(pre: G.Precompiles, vk: G.Key): Verifier
    requires vk.q > 0
  {
    (proof: Proof, s: Signals) => G.Accepts(pre, vk, proof, s)
  }

  lemma DeployedChecksRange(pre: G.Precompiles, vk: G.Key)
    requires vk.q > 0
    ensures RangeChecked(Deployed(pre, vk), vk.r)
  {}

  lemma ReleasedWasProven(v: Verifier, g: World, w: World, id: nat) returns (n: Word)
    requires IsGenesis(g) && Reachable(v, g, w) && GetState(w, id) == Released
    ensures Proven(v, w, id, n)
  {
    ReachableJournal(v, g, w);
    n := Replay(w.log).releases[id];
  }

  /** createEscrow accepts a commitment outside the scalar field. Such an escrow
      is never released, yet its money is never stuck either. */
  lemma OversizedCommitment(pre: G.Precompiles, vk: G.Key, g: World, w: World, id: Word)
    requires vk.q > 0 && IsGenesis(g) && Reachable(Deployed(pre, vk), g, w)
    requires id < |w.escrows| && w.escrows[id].commitment >= vk.r
    ensures var v, e := Deployed(pre, vk), w.escrows[id];
            && e.state != Released
            && (forall sender, n, proof :: Step(v, w, sender, Release(id, n, proof)).Err?)
            && (e.state == Funded ==>
                  && Step(v, w, e.seller, Refund(id)).Ok?
                  && forall p, evidence | IsParty(e, p) && evidence != "" :: Step(v, w, p, RaiseDispute(id, evidence)).Ok?)
            && (e.state == Disputed ==>
                  forall ruling, rationale | rationale != "" ::
                    Step(v, w, e.arbiter, ResolveDispute(id, ruling, rationale)).Ok?)
  {
    var v := Deployed(pre, vk);
    if w.escrows[id].state == Released {
      var n := ReleasedWasProven(v, g, w, id);
    }
    ExitsStayOpen(v, g, w, id);
  }

  /** In particular under the key the contract is deployed with. */
  lemma OversizedForDeliveryKey(pre: G.Precompiles, g: World, w: World)
    requires IsGenesis(g) && Reachable(Deployed(pre, G.DELIVERY_KEY), g, w)
    ensures forall id | 0 <= id < |w.escrows| && w.escrows[id].commitment >= G.DELIVERY_KEY.r ::
              w.escrows[id].state != Released
  {
    var v := Deployed(pre, G.DELIVERY_KEY);
    ReachableIsSolvent(v, g, w);
    forall id | 0 <= id < |w.escrows| && w.escrows[id].commitment >= G.DELIVERY_KEY.r
      ensures w.escrows[id].state != Released
    {
      OversizedCommitment(pre, G.DELIVERY_KEY, g, w, id);
    }
  }
}
