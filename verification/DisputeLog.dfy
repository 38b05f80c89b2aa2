// Reading DisputeRaised logs and grouping them by escrow: a loop over a map and
// an order list, proved to be a stable group-by.
module DisputeLog {
  import opened Wrappers

  datatype Submission = Submission(raisedBy: nat, evidence: string, blockNumber: nat, logIndex: nat)

  datatype Dispute = Dispute(escrowID: nat, submissions: seq<Submission>)

  /** A log as the node returns it; evidence is absent when the data does not
      decode. Topics are the signature, the escrow id and the raising address. */
  datatype RawLog = RawLog(topics: seq<nat>, evidence: Option<string>, blockNumber: nat, logIndex: nat)

  datatype Error = FilterLogs | MalformedLog | DecodeLogData

  datatype Entry = Entry(escrowID: nat, submission: Submission)

  function DecodeLog(l: RawLog): Result<Entry, Error> {
    if |l.topics| < 3 then Failure(MalformedLog)
    else if l.evidence.None? then Failure(DecodeLogData)
    else Success(Entry(l.topics[1], Submission(l.topics[2], l.evidence.value, l.blockNumber, l.logIndex)))
  }

  /** The log the event DisputeRaised(id, raisedBy, evidence) leaves: what it
      indexes are topics, the text is data. */
  function Emitted(signature: nat, id: nat, raisedBy: nat, evidence: string, blockNumber: nat, logIndex: nat): RawLog {
    RawLog([signature, id, raisedBy], Some(evidence), blockNumber, logIndex)
  }

  /** A logged dispute reads back as what was raised; a log short of topics or
      without readable data gives the error for that. */
  lemma LogsReadBack(signature: nat, id: nat, raisedBy: nat, evidence: string, blockNumber: nat, logIndex: nat, l: RawLog)
    ensures DecodeLog(Emitted(signature, id, raisedBy, evidence, blockNumber, logIndex)) ==
            Success(Entry(id, Submission(raisedBy, evidence, blockNumber, logIndex)))
    ensures |l.topics| < 3 ==> DecodeLog(l) == Failure(MalformedLog)
    ensures |l.topics| >= 3 && l.evidence == None ==> DecodeLog(l) == Failure(DecodeLogData)
  {}

  predicate Decodable(logs: seq<RawLog>) {
    forall l | l in logs :: DecodeLog(l).Success?
  }

  function Entries(logs: seq<RawLog>): (es: seq<Entry>)
    requires Decodable(logs)
    ensures |es| == |logs|
  {
    seq(|logs|, i requires 0 <= i < |logs| => DecodeLog(logs[i]).value)
  }

  /** The submissions for one escrow, in the order of the log. */
  function For(es: seq<Entry>, id: nat): seq<Submission> {
    if es == [] then [] else
      var last := es[|es| - 1];
      For(es[..|es| - 1], id) + if last.escrowID == id then [last.submission] else []
  }

  /** The ids in order of first occurrence. */
  function Ids(es: seq<Entry>): seq<nat> {
    if es == [] then [] else
      var ids, id := Ids(es[..|es| - 1]), es[|es| - 1].escrowID;
      if id in ids then ids else ids + [id]
  }

  function Grouped(es: seq<Entry>): (ds: seq<Dispute>)
    ensures |ds| == |Ids(es)|
    ensures forall k | 0 <= k < |ds| :: ds[k] == Dispute(Ids(es)[k], For(es, Ids(es)[k]))
  {
    seq(|Ids(es)|, k requires 0 <= k < |Ids(es)| => Dispute(Ids(es)[k], For(es, Ids(es)[k])))
  }

  lemma OneMore(es: seq<Entry>, x: Entry)
    ensures Ids(es + [x]) == if x.escrowID in Ids(es) then Ids(es) else Ids(es) + [x.escrowID]
    ensures forall id :: For(es + [x], id) == For(es, id) + if id == x.escrowID then [x.submission] else []
  {
    assert (es + [x])[..|es|] == es;
  }

  /** The working state of the loop after the entries es. */
  ghost predicate Gathered(order: seq<nat>, grouped: map<nat, Dispute>, es: seq<Entry>) {
    && order == Ids(es)
    && (forall id :: id in grouped <==> id in order)
    && (forall id | id in grouped :: grouped[id] == Dispute(id, For(es, id)))
    && (forall id | id !in order :: For(es, id) == [])
  }

  lemma GatheredOneMore(order: seq<nat>, grouped: map<nat, Dispute>, es: seq<Entry>, x: Entry)
    requires Gathered(order, grouped, es)
    ensures var id := x.escrowID;
            var filed := if id in grouped then grouped else grouped[id := Dispute(id, [])];
            Gathered(if id in grouped then order else order + [id],
                     filed[id := filed[id].(submissions := filed[id].submissions + [x.submission])], es + [x])
  {
    OneMore(es, x);
  }

  lemma AllDecoded(logs: seq<RawLog>, es: seq<Entry>)
    requires |es| == |logs| && forall j | 0 <= j < |logs| :: DecodeLog(logs[j]) == Success(es[j])
    ensures Decodable(logs) && es == Entries(logs)
  {}

  lemma NothingGathered()
    ensures Gathered([], map[], [])
  {}

  /** The first loop: decodes the logs and files each under its escrow. */
  method Gather(logs: seq<RawLog>) returns (failed: Option<Error>, order: seq<nat>, grouped: map<nat, Dispute>)
    ensures failed.None? <==> Decodable(logs)
    ensures failed.None? ==> Gathered(order, grouped, Entries(logs))
    ensures failed.Some? ==>
              exists i :: && 0 <= i < |logs| && (forall j | 0 <= j < i :: DecodeLog(logs[j]).Success?)
                          && DecodeLog(logs[i]) == Failure(failed.value)
  {
    hide Gathered, DecodeLog;
    failed, order, grouped := None, [], map[];
    NothingGathered();
    ghost var es: seq<Entry> := [];
    for i := 0 to |logs|
      invariant |es| == i && forall j | 0 <= j < i :: DecodeLog(logs[j]) == Success(es[j])
      invariant failed.None? && Gathered(order, grouped, es)
    {
      var d := DecodeLog(logs[i]);
      if d.Failure? {
        assert logs[i] in logs;
        return Some(d.error), [], map[];
      }
      var key := d.value.escrowID;
      GatheredOneMore(order, grouped, es, d.value);
      if key !in grouped {
        grouped := grouped[key := Dispute(key, [])];
        order := order + [key];
      }
      var dispute := grouped[key];
      grouped := grouped[key := dispute.(submissions := dispute.submissions + [d.value.submission])];
      es := es + [d.value];
    }
    AllDecoded(logs, es);
  }

  /** Fetching and grouping the logs of one range; response is what the node
      answers. Any log that does not decode fails the whole read. */
  method Disputes(response: Result<seq<RawLog>, Error>) returns (r: Result<seq<Dispute>, Error>)
    ensures response.Failure? ==> r == Failure(response.error)
    ensures response.Success? ==> (r.Success? <==> Decodable(response.value))
    ensures response.Success? && Decodable(response.value) ==> r.value == Grouped(Entries(response.value))
    ensures response.Success? && r.Failure? ==>
              exists i :: && 0 <= i < |response.value|
                          && (forall j | 0 <= j < i :: DecodeLog(response.value[j]).Success?)
                          && DecodeLog(response.value[i]) == Failure(r.error)
  {
    if response.Failure? { return Failure(response.error); }
    var failed, order, grouped := Gather(response.value);
    if failed.Some? { return Failure(failed.value); }
    var disputes: seq<Dispute> := [];
    for k := 0 to |order|
      invariant |disputes| == k && forall j | 0 <= j < k :: disputes[j] == grouped[order[j]]
    {
      disputes := disputes + [grouped[order[k]]];
    }
    r := Success(disputes);
  }

  // ---- What Grouped means -------------------------------------------------

  predicate NoDuplicates(ids: seq<nat>) {
    forall i, j | 0 <= i < j < |ids| :: ids[i] != ids[j]
  }

  function FirstIndex(es: seq<Entry>, id: nat): (i: nat)
    requires exists k :: 0 <= k < |es| && es[k].escrowID == id
    ensures i < |es| && es[i].escrowID == id && forall k | 0 <= k < i :: es[k].escrowID != id
  {
    if es[0].escrowID == id then 0 else 1 + FirstIndex(es[1..], id)
  }

  /** Each id that occurs is listed once, in order of its first occurrence. */
  lemma {:induction false} IdsAreFirstOccurrences(es: seq<Entry>)
    ensures NoDuplicates(Ids(es))
    ensures forall id :: id in Ids(es) <==> exists k :: 0 <= k < |es| && es[k].escrowID == id
    ensures forall i, j | 0 <= i < j < |Ids(es)| :: FirstBefore(es, Ids(es)[i], Ids(es)[j])
    decreases |es|
  {
    if es != [] {
      var n := |es| - 1;
      var ids := Ids(es[..n]);
      IdsAreFirstOccurrences(es[..n]);
      forall id ensures id in Ids(es) <==> exists k :: 0 <= k < |es| && es[k].escrowID == id {
        if k :| 0 <= k < |es| && es[k].escrowID == id {
          if k < n { assert es[..n][k].escrowID == id; } else { assert id == es[n].escrowID; }
        }
      }
      forall i, j | 0 <= i < j < |Ids(es)| ensures FirstBefore(es, Ids(es)[i], Ids(es)[j]) {
        if j < |ids| {
          assert FirstBefore(es[..n], ids[i], ids[j]);
          var a :| FirstAt(es[..n], ids[i], a) && forall k | 0 <= k <= a :: es[..n][k].escrowID != ids[j];
          assert FirstAt(es, ids[i], a);
          assert forall k | 0 <= k <= a :: es[k].escrowID == es[..n][k].escrowID;
        } else {
          assert ids[i] in ids;
          var k :| 0 <= k < n && es[..n][k].escrowID == ids[i];
          var a := FirstIndex(es, ids[i]);
          assert es[k].escrowID == ids[i] && a <= k;
          forall m | 0 <= m <= a ensures es[m].escrowID != es[n].escrowID {
            assert es[..n][m].escrowID == es[m].escrowID;
          }
          assert FirstAt(es, ids[i], a);
        }
      }
    }
  }

  ghost predicate FirstAt(es: seq<Entry>, id: nat, a: nat) {
    a < |es| && es[a].escrowID == id && forall k | 0 <= k < a :: es[k].escrowID != id
  }

  /** id occurs, and no other occurs up to and including that point. */
  ghost predicate FirstBefore(es: seq<Entry>, id: nat, other: nat) {
    exists a :: FirstAt(es, id, a) && forall k | 0 <= k <= a :: es[k].escrowID != other
  }

  // ---- Nothing lost, nothing added ----------------------------------------

  function Tagged(id: nat, subs: seq<Submission>): (es: seq<Entry>)
    ensures |es| == |subs| && forall i | 0 <= i < |es| :: es[i] == Entry(id, subs[i])
  {
    seq(|subs|, i requires 0 <= i < |subs| => Entry(id, subs[i]))
  }

  function GroupsFor(es: seq<Entry>, ids: seq<nat>): seq<Entry> {
    if ids == [] then [] else
      var id := ids[|ids| - 1];
      GroupsFor(es, ids[..|ids| - 1]) + Tagged(id, For(es, id))
  }

  lemma {:induction false} FilterCounts(es: seq<Entry>, id: nat, x: Entry)
    ensures multiset(Tagged(id, For(es, id)))[x] == if x.escrowID == id then multiset(es)[x] else 0
  {
    if es != [] {
      var n, last := |es| - 1, es[|es| - 1];
      FilterCounts(es[..n], id, x);
      assert es == es[..n] + [last];
      if last.escrowID == id {
        assert Tagged(id, For(es, id)) == Tagged(id, For(es[..n], id)) + [last];
      } else {
        assert For(es, id) == For(es[..n], id);
      }
    }
  }

  lemma {:induction false} GroupsCount(es: seq<Entry>, ids: seq<nat>, x: Entry)
    requires NoDuplicates(ids)
    ensures multiset(GroupsFor(es, ids))[x] == if x.escrowID in ids then multiset(es)[x] else 0
  {
    if ids != [] {
      var n, id := |ids| - 1, ids[|ids| - 1];
      GroupsCount(es, ids[..n], x);
      FilterCounts(es, id, x);
      assert ids == ids[..n] + [id];
    }
  }

  /** The groups, strung together, are a permutation of the log. */
  lemma GroupingIsAPermutation(es: seq<Entry>)
    ensures multiset(GroupsFor(es, Ids(es))) == multiset(es)
  {
    IdsAreFirstOccurrences(es);
    forall x ensures multiset(GroupsFor(es, Ids(es)))[x] == multiset(es)[x] {
      GroupsCount(es, Ids(es), x);
      if x in es {
        var k :| 0 <= k < |es| && es[k] == x;
        assert es[k].escrowID == x.escrowID;
      }
    }
  }

  /** What a list of disputes says about one escrow. */
  function SubmissionsFor(ds: seq<Dispute>, id: nat): seq<Submission> {
    if ds == [] then []
    else if ds[0].escrowID == id then ds[0].submissions
    else SubmissionsFor(ds[1..], id)
  }

  lemma {:induction false} FirstMatch(ds: seq<Dispute>, id: nat)
    ensures (forall k | 0 <= k < |ds| :: ds[k].escrowID != id) ==> SubmissionsFor(ds, id) == []
    ensures forall k | 0 <= k < |ds| && ds[k].escrowID == id && (forall j | 0 <= j < |ds| && ds[j].escrowID == id :: j == k) ::
              SubmissionsFor(ds, id) == ds[k].submissions
  {
    if ds != [] {
      FirstMatch(ds[1..], id);
      forall k | 0 <= k < |ds| && ds[k].escrowID == id && (forall j | 0 <= j < |ds| && ds[j].escrowID == id :: j == k)
        ensures SubmissionsFor(ds, id) == ds[k].submissions
      {
        if k > 0 {
          assert ds[1..][k - 1] == ds[k];
          assert forall j | 0 <= j < |ds[1..]| && ds[1..][j].escrowID == id :: ds[j + 1].escrowID == id;
        }
      }
    }
  }

  lemma {:induction false} NoneFor(es: seq<Entry>, id: nat)
    requires id !in Ids(es)
    ensures For(es, id) == []
  {
    if es != [] { NoneFor(es[..|es| - 1], id); }
  }

  /** Grouping keeps an escrow's submissions exactly as the log had them. */
  lemma GroupingIsAFilter(es: seq<Entry>, id: nat)
    ensures SubmissionsFor(Grouped(es), id) == For(es, id)
  {
    IdsAreFirstOccurrences(es);
    FirstMatch(Grouped(es), id);
    if id in Ids(es) {
      var k :| 0 <= k < |Ids(es)| && Ids(es)[k] == id;
      assert forall j | 0 <= j < |Grouped(es)| && Grouped(es)[j].escrowID == id :: j == k;
    } else {
      NoneFor(es, id);
    }
  }
}
