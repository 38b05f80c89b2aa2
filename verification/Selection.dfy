// How the fuzz harness chooses parties and escrows from raw inputs.
module Selection {
  import opened Basics
  import opened EscrowMachine

  function Bound(value: Word, min: Word, max: Word): (r: Word)
    ensures min <= max ==> min <= r <= max
  {
    if min >= max then min else min + value % (max - min + 1)
  }

  /** Every value of the range is reached, by its distance from the start, and
      again one range further on. */
  lemma BoundReaches(t: Word, min: Word, max: Word, again: nat)
    requires min <= t <= max && max - min + 1 < TWO_256 && again <= 1
    requires t - min + again * (max - min + 1) < TWO_256
    ensures Bound(t - min + again * (max - min + 1), min, max) == t
  {
    Modulo(t - min, max - min + 1, again);
  }

  // ---- Roles --------------------------------------------------------------

  /** How many indices below i are neither b nor s. */
  function OthersBelow(i: nat, b: nat, s: nat): nat {
    if i == 0 then 0 else OthersBelow(i - 1, b, s) + if i - 1 == b || i - 1 == s then 0 else 1
  }

  function Buyer(n: nat, hash: nat): nat requires n >= 3 { hash % n }

  function Seller(n: nat, hash: nat): nat requires n >= 3 {
    (Buyer(n, hash) + 1 + (hash / 0x100) % (n - 1)) % n
  }

  /** Which of the remaining indices becomes the arbiter. */
  function Rank(n: nat, hash: nat): nat requires n >= 3 { (hash / 0x10000) % (n - 2) }

  lemma SellerIsNotBuyer(n: nat, hash: nat)
    requires n >= 3
    ensures Seller(n, hash) < n && Seller(n, hash) != Buyer(n, hash)
  {
    var b, d := Buyer(n, hash), 1 + (hash / 0x100) % (n - 1);
    if b + d < n {
      Modulo(b + d, n, 0);
    } else {
      Modulo(b + d - n, n, 1);
    }
  }

  lemma Modulo(x: nat, n: nat, k: nat)
    requires x < n && k <= 1
    ensures (x + k * n) % n == x
  {
    if k == 1 { assert (x + n) % n == x % n; }
  }

  lemma {:induction false} OthersCount(i: nat, b: nat, s: nat)
    requires b != s
    ensures OthersBelow(i, b, s) + (if b < i then 1 else 0) + (if s < i then 1 else 0) == i
  {
    if i > 0 { OthersCount(i - 1, b, s); }
  }

  /** For any pool of at least three, the three roles go to three different
      members, the arbiter being the one with exactly Rank others before it. */
  method RolesFor(n: nat, hash: nat) returns (buyer: nat, seller: nat, arbiter: nat)
    requires n >= 3
    ensures buyer == Buyer(n, hash) == hash % n
    ensures seller == Seller(n, hash) == (buyer + 1 + (hash / 256) % (n - 1)) % n
    ensures buyer < n && seller < n && arbiter < n
    ensures buyer != seller && arbiter != buyer && arbiter != seller
    ensures OthersBelow(arbiter, buyer, seller) == Rank(n, hash) == (hash / 65536) % (n - 2)
  {
    SellerIsNotBuyer(n, hash);
    buyer := hash % n;
    seller := (buyer + 1 + (hash / 0x100) % (n - 1)) % n;
    var k := (hash / 0x10000) % (n - 2);
    var seen := 0;
    arbiter := 0;
    var i := 0;
    while i < n
      invariant i <= n && seen == OthersBelow(i, buyer, seller) <= k
    {
      if i != buyer && i != seller {
        if seen == k {
          arbiter := i;
          return;
        }
        seen := seen + 1;
      }
      i := i + 1;
    }
    OthersCount(n, buyer, seller);
    assert false;
  }

  /** The arbiter RolesFor arrives at. */
  function Arbiter(n: nat, hash: nat): (a: nat)
    requires n >= 3
    ensures a < n && a != Buyer(n, hash) && a != Seller(n, hash)
    ensures OthersBelow(a, Buyer(n, hash), Seller(n, hash)) == Rank(n, hash)
  {
    SellerIsNotBuyer(n, hash);
    ArbiterFrom(n, Buyer(n, hash), Seller(n, hash), Rank(n, hash), 0)
  }

  function ArbiterFrom(n: nat, b: nat, s: nat, k: nat, i: nat): (a: nat)
    requires b < n && s < n && b != s && k < n - 2 && i <= n && OthersBelow(i, b, s) <= k
    ensures a < n && a != b && a != s && OthersBelow(a, b, s) == k
    decreases n - i
  {
    OthersCount(i, b, s);
    if i == b || i == s || OthersBelow(i, b, s) < k then ArbiterFrom(n, b, s, k, i + 1) else i
  }

  lemma {:induction false} OthersGrow(i: nat, j: nat, b: nat, s: nat)
    requires i < j && i != b && i != s
    ensures OthersBelow(i, b, s) < OthersBelow(j, b, s)
  {
    if i + 1 < j { OthersGrow(i, j - 1, b, s); }
  }

  /** There is only one index with a given number of others before it. */
  lemma ArbiterIsUnique(n: nat, hash: nat, a: nat)
    requires n >= 3 && a < n && a != Buyer(n, hash) && a != Seller(n, hash)
    requires OthersBelow(a, Buyer(n, hash), Seller(n, hash)) == Rank(n, hash)
    ensures a == Arbiter(n, hash)
  {
    var a' := Arbiter(n, hash);
    if a < a' { OthersGrow(a, a', Buyer(n, hash), Seller(n, hash)); }
    if a' < a { OthersGrow(a', a, Buyer(n, hash), Seller(n, hash)); }
  }

  // ---- Escrows ------------------------------------------------------------

  datatype Pick = Nobody | Chosen(id: Word)

  function PickAny(created: seq<Word>, seed: Word): Pick {
    if created == [] then Nobody else Chosen(created[seed % |created|])
  }

  /** The uniform pick goes round the created escrows, each in its turn. */
  lemma PickGoesRound(created: seq<Word>, seed: Word, k: nat)
    ensures PickAny(created, seed) == Nobody <==> created == []
    ensures created != [] ==> PickAny(created, seed) == Chosen(created[seed % |created|])
    ensures k < |created| && k < TWO_256 ==> PickAny(created, k) == Chosen(created[k])
  {
    if k < |created| { Modulo(k, |created|, 0); }
  }

  /** The i-th candidate in cyclic order from the seed. */
  function Candidate(created: seq<Word>, seed: Word, i: nat): Word
    requires created != []
  {
    created[(seed % |created| + i) % |created|]
  }

  function PickFrom(w: World, created: seq<Word>, seed: Word, want: State, i: nat): Pick
    decreases |created| - i
  {
    if i >= |created| then Nobody
    else if GetState(w, Candidate(created, seed, i)) == want then Chosen(Candidate(created, seed, i))
    else PickFrom(w, created, seed, want, i + 1)
  }

  method PickInState(w: World, created: seq<Word>, seed: Word, want: State) returns (p: Pick)
    ensures p == PickFrom(w, created, seed, want, 0)
  {
    var count := |created|;
    if count == 0 { return Nobody; }
    var start := seed % count;
    for i := 0 to count
      invariant PickFrom(w, created, seed, want, 0) == PickFrom(w, created, seed, want, i)
    {
      var candidate := created[(start + i) % count];
      if GetState(w, candidate) == want { return Chosen(candidate); }
    }
    return Nobody;
  }

  lemma {:induction false} SearchFindsFirst(w: World, created: seq<Word>, seed: Word, want: State, i: nat)
    requires i <= |created|
    ensures var p := PickFrom(w, created, seed, want, i);
            && (p.Chosen? ==> exists j :: && i <= j < |created| && p.id == Candidate(created, seed, j) && GetState(w, p.id) == want
                                          && forall m | i <= m < j :: GetState(w, Candidate(created, seed, m)) != want)
            && (p.Nobody? ==> forall m | i <= m < |created| :: GetState(w, Candidate(created, seed, m)) != want)
    decreases |created| - i
  {
    if i < |created| && GetState(w, Candidate(created, seed, i)) != want {
      SearchFindsFirst(w, created, seed, want, i + 1);
    }
  }

  /** The created escrows in the order they are looked at: from the seed's place
      to the end, then from the beginning. */
  function Cycle(created: seq<Word>, seed: Word): (s: seq<Word>)
    ensures |s| == |created|
  {
    if created == [] then [] else
      var start := seed % |created|;
      created[start..] + created[..start]
  }

  lemma CandidateInCycle(created: seq<Word>, seed: Word, i: nat)
    requires i < |created|
    ensures Candidate(created, seed, i) == Cycle(created, seed)[i]
  {
    var n, start := |created|, seed % |created|;
    if start + i < n { Modulo(start + i, n, 0); } else { Modulo(start + i - n, n, 1); }
  }

  /** The search finds the first match in cyclic order from the seed. */
  lemma PickIsFirstMatch(w: World, created: seq<Word>, seed: Word, want: State)
    ensures var p, cycle := PickFrom(w, created, seed, want, 0), if created == [] then [] else created[seed % |created|..] + created[..seed % |created|];
            && (p.Chosen? ==> exists j :: && 0 <= j < |cycle| && p.id == cycle[j] && GetState(w, cycle[j]) == want
                                          && forall m | 0 <= m < j :: GetState(w, cycle[m]) != want)
            && (p.Nobody? ==> forall m | 0 <= m < |cycle| :: GetState(w, cycle[m]) != want)
  {
    SearchFindsFirst(w, created, seed, want, 0);
    forall m | 0 <= m < |created| ensures Candidate(created, seed, m) == Cycle(created, seed)[m] {
      CandidateInCycle(created, seed, m);
    }
    hide PickFrom, Candidate, GetState;
  }

  lemma NobodyMeansNone(w: World, created: seq<Word>, seed: Word, want: State)
    ensures PickFrom(w, created, seed, want, 0).Nobody? <==> forall k | 0 <= k < |created| :: GetState(w, created[k]) != want
    ensures PickFrom(w, created, seed, want, 0).Chosen? ==>
              var id := PickFrom(w, created, seed, want, 0).id; id in created && GetState(w, id) == want
  {
    SearchFindsFirst(w, created, seed, want, 0);
    var n := |created|;
    if PickFrom(w, created, seed, want, 0).Nobody? {
      forall k | 0 <= k < n ensures GetState(w, created[k]) != want {
        var start := seed % n;
        var i := if k >= start then k - start else k + n - start;
        if k >= start { Modulo(k, n, 0); } else { Modulo(k, n, 1); }
        assert Candidate(created, seed, i) == created[k];
      }
    }
  }
}
