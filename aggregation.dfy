/** Reference definitions for the cron run's per-notification counters: for
    the first `n` drained candidates, how many belong to a notification, how
    many of those the transport reported sent or failed, and the notification
    ids in order of first appearance. The transport is an oracle indexed by
    call number. */
module Aggregation {
  import opened Schema

  /** Candidates among the first `n` that belong to notification `id`. */
  function Count(cs: seq<Candidate>, id: int, n: nat): (c: nat)
    requires n <= |cs|
  {
    if n == 0 then 0
    else Count(cs, id, n - 1) + (if cs[n - 1].notificationId == id then 1 else 0)
  }

  /** Those of them for which the transport call returned true. */
  function SentCount(cs: seq<Candidate>, send: nat -> bool, id: int, n: nat): (c: nat)
    requires n <= |cs|
  {
    if n == 0 then 0
    else SentCount(cs, send, id, n - 1) + (if cs[n - 1].notificationId == id && send(n - 1) then 1 else 0)
  }

  /** Those of them for which the transport call returned false. */
  function FailedCount(cs: seq<Candidate>, send: nat -> bool, id: int, n: nat): (c: nat)
    requires n <= |cs|
  {
    if n == 0 then 0
    else FailedCount(cs, send, id, n - 1) + (if cs[n - 1].notificationId == id && !send(n - 1) then 1 else 0)
  }

  predicate Distinct(xs: seq<int>)
  {
    forall i, j :: 0 <= i < j < |xs| ==> xs[i] != xs[j]
  }

  /** Notification ids of the first `n` candidates, each once, in order of
      first appearance: the key order of a PHP array filled by first
      assignment. */
  function FirstIds(cs: seq<Candidate>, n: nat): (r: seq<int>)
    requires n <= |cs|
    ensures Distinct(r)
    ensures forall id :: id in r <==> Count(cs, id, n) > 0
  {
    if n == 0 then []
    else
      var d := FirstIds(cs, n - 1);
      var id := cs[n - 1].notificationId;
      if id in d then d else d + [id]
  }

  /** Position of the first candidate of notification `id` among the first
      `n`. */
  function FirstIndex(cs: seq<Candidate>, id: int, n: nat): (m: nat)
    requires n <= |cs| && Count(cs, id, n) > 0
    ensures m < n && cs[m].notificationId == id
  {
    if Count(cs, id, n - 1) > 0 then FirstIndex(cs, id, n - 1) else n - 1
  }

  /** No candidate before that position belongs to the notification. */
  lemma {:induction false} FirstIndexIsFirst(cs: seq<Candidate>, id: int, n: nat)
    requires n <= |cs| && Count(cs, id, n) > 0
    ensures forall k :: 0 <= k < FirstIndex(cs, id, n) ==> cs[k].notificationId != id
  {
    if Count(cs, id, n - 1) > 0 {
      FirstIndexIsFirst(cs, id, n - 1);
    } else {
      NoCandidateOf(cs, id, n - 1);
    }
  }

  /** A notification with no candidate among the first `n` has none of them
      belonging to it. */
  lemma {:induction false} NoCandidateOf(cs: seq<Candidate>, id: int, n: nat)
    requires n <= |cs| && Count(cs, id, n) == 0
    ensures forall k :: 0 <= k < n ==> cs[k].notificationId != id
  {
    if n > 0 {
      NoCandidateOf(cs, id, n - 1);
    }
  }

  /** The keys come in order of their first candidate: a key listed earlier
      first appears earlier. */
  lemma {:induction false} FirstIdsInOrder(cs: seq<Candidate>, n: nat)
    requires n <= |cs|
    ensures forall i, j :: 0 <= i < j < |FirstIds(cs, n)| ==>
              FirstIndex(cs, FirstIds(cs, n)[i], n) < FirstIndex(cs, FirstIds(cs, n)[j], n)
  {
    if n > 0 {
      FirstIdsInOrder(cs, n - 1);
      var d := FirstIds(cs, n - 1);
      var r := FirstIds(cs, n);
      forall i, j | 0 <= i < j < |r|
        ensures FirstIndex(cs, r[i], n) < FirstIndex(cs, r[j], n)
      {
        assert r[i] == d[i] && r[i] in d;
        assert FirstIndex(cs, r[i], n) == FirstIndex(cs, d[i], n - 1);
        if j < |d| {
          assert r[j] == d[j] && r[j] in d;
          assert FirstIndex(cs, r[j], n) == FirstIndex(cs, d[j], n - 1);
        } else {
          assert Count(cs, r[j], n - 1) == 0;
        }
      }
    }
  }

  /** Every candidate of a notification is counted as sent or as failed,
      never both. */
  lemma {:induction false} SentPlusFailed(cs: seq<Candidate>, send: nat -> bool, id: int, n: nat)
    requires n <= |cs|
    ensures SentCount(cs, send, id, n) + FailedCount(cs, send, id, n) == Count(cs, id, n)
  {
    if n > 0 {
      SentPlusFailed(cs, send, id, n - 1);
    }
  }

  /** Sum of Count over a list of keys. */
  function SumCounts(keys: seq<int>, cs: seq<Candidate>, n: nat): (c: nat)
    requires n <= |cs|
  {
    if keys == [] then 0
    else SumCounts(keys[..|keys| - 1], cs, n) + Count(cs, keys[|keys| - 1], n)
  }

  lemma {:induction false} SumCountsStep(keys: seq<int>, cs: seq<Candidate>, n: nat)
    requires n < |cs|
    requires Distinct(keys)
    ensures SumCounts(keys, cs, n + 1) == SumCounts(keys, cs, n) + (if cs[n].notificationId in keys then 1 else 0)
  {
    if keys != [] {
      var init := keys[..|keys| - 1];
      assert Distinct(init);
      SumCountsStep(init, cs, n);
      assert keys == init + [keys[|keys| - 1]];
      assert cs[n].notificationId in keys <==>
             cs[n].notificationId in init || cs[n].notificationId == keys[|keys| - 1];
    }
  }

  /** The per-notification counts taken over the distinct ids add up to the
      number of candidates. */
  lemma {:induction false} FirstIdsCoverAll(cs: seq<Candidate>, n: nat)
    requires n <= |cs|
    ensures SumCounts(FirstIds(cs, n), cs, n) == n
  {
    if n > 0 {
      var d := FirstIds(cs, n - 1);
      var id := cs[n - 1].notificationId;
      FirstIdsCoverAll(cs, n - 1);
      SumCountsStep(d, cs, n - 1);
      if id in d {
        assert FirstIds(cs, n) == d;
      } else {
        assert FirstIds(cs, n) == d + [id];
        SumCountsSnoc(d, id, cs, n);
        assert Count(cs, id, n - 1) == 0;
      }
    }
  }

  lemma SumCountsSnoc(keys: seq<int>, k: int, cs: seq<Candidate>, n: nat)
    requires n <= |cs|
    ensures SumCounts(keys + [k], cs, n) == SumCounts(keys, cs, n) + Count(cs, k, n)
  {
    var r := keys + [k];
    assert r[..|r| - 1] == keys;
  }

  /** Total of sent plus failed over a cron result. */
  function Delivered(out: seq<Summary>): (c: nat)
  {
    if out == [] then 0 else Delivered(out[..|out| - 1]) + out[|out| - 1].sent + out[|out| - 1].failed
  }

  /** What the cron run promises of its result for candidates `cs`. */
  predicate IsAggregate(out: seq<Summary>, cs: seq<Candidate>, send: nat -> bool)
  {
    var keys := FirstIds(cs, |cs|);
    |out| == |keys| &&
    forall j :: 0 <= j < |out| ==>
      out[j].notificationId == keys[j] &&
      out[j].sent == SentCount(cs, send, keys[j], |cs|) &&
      out[j].failed == FailedCount(cs, send, keys[j], |cs|)
  }

  lemma {:induction false} DeliveredPrefix(out: seq<Summary>, keys: seq<int>, cs: seq<Candidate>, send: nat -> bool)
    requires |out| == |keys|
    requires forall j :: 0 <= j < |out| ==>
               out[j].sent == SentCount(cs, send, keys[j], |cs|) &&
               out[j].failed == FailedCount(cs, send, keys[j], |cs|)
    ensures Delivered(out) == SumCounts(keys, cs, |cs|)
  {
    if out != [] {
      var k := |out| - 1;
      DeliveredPrefix(out[..k], keys[..k], cs, send);
      SentPlusFailed(cs, send, keys[k], |cs|);
    }
  }

  /** Every drained candidate is accounted for exactly once in the cron
      result: the sent and failed counters sum to the number of candidates. */
  lemma CronAccountsForEveryCandidate(out: seq<Summary>, cs: seq<Candidate>, send: nat -> bool)
    requires IsAggregate(out, cs, send)
    ensures Delivered(out) == |cs|
  {
    DeliveredPrefix(out, FirstIds(cs, |cs|), cs, send);
    FirstIdsCoverAll(cs, |cs|);
  }

  /** A notification appears in the result iff it has a candidate, and then
      with its own counts; `sent` is the number of true transport calls. */
  lemma AggregateEntries(out: seq<Summary>, cs: seq<Candidate>, send: nat -> bool, id: int)
    requires IsAggregate(out, cs, send)
    ensures (exists j :: 0 <= j < |out| && out[j].notificationId == id) <==> Count(cs, id, |cs|) > 0
    ensures forall j :: 0 <= j < |out| && out[j].notificationId == id ==>
              out[j].sent + out[j].failed == Count(cs, id, |cs|)
  {
    var keys := FirstIds(cs, |cs|);
    if Count(cs, id, |cs|) > 0 {
      var j :| 0 <= j < |keys| && keys[j] == id;
      assert out[j].notificationId == id;
    }
    SentPlusFailed(cs, send, id, |cs|);
  }

  /** The summary takes its id, title and message from the candidate. */
  predicate FromCandidate(e: Summary, c: Candidate)
  {
    e.notificationId == c.notificationId && e.title == c.title && e.message == c.message
  }

  /** The counters a dictionary holds after the first `n` candidates: one
      entry per id among them, keyed in first-appearance order `keys`, with
      that id's sent and failed counts. */
  ghost predicate Tallied(result: map<int, Summary>, keys: seq<int>, cs: seq<Candidate>, send: nat -> bool, n: nat)
    requires n <= |cs|
  {
    keys == FirstIds(cs, n) &&
    (forall k :: k in result <==> k in keys) &&
    forall k :: k in result ==>
      result[k].notificationId == k &&
      result[k].sent == SentCount(cs, send, k, n) &&
      result[k].failed == FailedCount(cs, send, k, n)
  }

  /** Every entry of the dictionary carries the title and message of the
      first of the first `n` candidates with its id. */
  ghost predicate TakenFromFirst(result: map<int, Summary>, cs: seq<Candidate>, n: nat)
    requires n <= |cs|
  {
    forall k :: k in result ==> Count(cs, k, n) > 0 && FromCandidate(result[k], cs[FirstIndex(cs, k, n)])
  }

  /** Counting candidate `n` into its notification's entry, created with zero
      counters on first sight, gives the counters after `n + 1` candidates. */
  lemma TalliedStep(before: map<int, Summary>, keys: seq<int>, prior: Summary, after: map<int, Summary>,
                    cs: seq<Candidate>, send: nat -> bool, n: nat)
    requires n < |cs| && Tallied(before, keys, cs, send, n)
    requires var id := cs[n].notificationId;
             prior == (if id in before then before[id] else Summary(id, cs[n].title, cs[n].message, 0, 0)) &&
             after == before[id := prior.(sent := prior.sent + (if send(n) then 1 else 0),
                                          failed := prior.failed + (if send(n) then 0 else 1))]
    ensures var id := cs[n].notificationId;
            Tallied(after, if id in before then keys else keys + [id], cs, send, n + 1)
  {
    var id := cs[n].notificationId;
    SentPlusFailed(cs, send, id, n);
    forall k | k in after
      ensures after[k].sent == SentCount(cs, send, k, n + 1)
      ensures after[k].failed == FailedCount(cs, send, k, n + 1)
    {
      if k != id {
        assert k in before && after[k] == before[k];
      }
    }
  }

  /** An entry created from candidate `n` on first sight of its id, and
      otherwise only recounted, keeps every entry's title and message those
      of its id's first candidate. */
  lemma TakenFromFirstStep(before: map<int, Summary>, prior: Summary, sent: nat, failed: nat,
                           after: map<int, Summary>, cs: seq<Candidate>, n: nat)
    requires n < |cs| && TakenFromFirst(before, cs, n)
    requires cs[n].notificationId in before || Count(cs, cs[n].notificationId, n) == 0
    requires var id := cs[n].notificationId;
             prior == (if id in before then before[id] else Summary(id, cs[n].title, cs[n].message, 0, 0)) &&
             after == before[id := prior.(sent := sent, failed := failed)]
    ensures TakenFromFirst(after, cs, n + 1)
  {
    var id := cs[n].notificationId;
    forall k | k in after
      ensures Count(cs, k, n + 1) > 0 && FromCandidate(after[k], cs[FirstIndex(cs, k, n + 1)])
    {
      if k != id {
        assert k in before && after[k] == before[k];
        assert FirstIndex(cs, k, n + 1) == FirstIndex(cs, k, n);
      } else if id in before {
        assert FirstIndex(cs, k, n + 1) == FirstIndex(cs, k, n);
      } else {
        assert FirstIndex(cs, k, n + 1) == n;
      }
    }
  }

  /** The foreach of the cron run: call the transport once per candidate
      (call `i` returns `send(i)`) and keep sent/failed counters in a
      dictionary keyed by notification id, created from the first candidate
      of that id; the result is the dictionary's values in key insertion
      order. */
  method Tally(cs: seq<Candidate>, send: nat -> bool) returns (out: seq<Summary>)
    ensures IsAggregate(out, cs, send)
    ensures forall j :: 0 <= j < |out| ==>
              Count(cs, out[j].notificationId, |cs|) > 0 &&
              FromCandidate(out[j], cs[FirstIndex(cs, out[j].notificationId, |cs|)])
  {
    var result: map<int, Summary> := map[];
    var keys: seq<int> := [];
    for i := 0 to |cs|
      invariant Tallied(result, keys, cs, send, i)
      invariant TakenFromFirst(result, cs, i)
    {
      ghost var before, keysBefore := result, keys;
      var c := cs[i];
      var delivered := send(i);
      var sentNow, failedNow := if delivered then 1 else 0, if delivered then 0 else 1;
      if c.notificationId !in result {
        result := result[c.notificationId := Summary(c.notificationId, c.title, c.message, 0, 0)];
        keys := keys + [c.notificationId];
      }
      var e := result[c.notificationId];
      result := result[c.notificationId := e.(sent := e.sent + sentNow, failed := e.failed + failedNow)];
      TalliedStep(before, keysBefore, e, result, cs, send, i);
      TakenFromFirstStep(before, e, e.sent + sentNow, e.failed + failedNow, result, cs, i);
    }
    forall j | 0 <= j < |keys| ensures keys[j] in result {
      assert keys[j] in keys;
    }
    out := seq(|keys|, j requires 0 <= j < |keys| => result[keys[j]]);
  }
}
