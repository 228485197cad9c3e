/** The DHT client (common/simple_dht.hpp:60-108, 169-199): replicated puts that share one
    packed counter, and gets that fail over from replica to replica. */
module DhtClient {
  import opened Basics
  import opened Metadata
  import opened Dyadic
  import opened DhtPlacement

  const STATUS_SHIFT := 0x1_0000   // 1 << 16

  // ---- The packed counter ----

  /** One replica result: successes are counted in the low half, results in the high half. */
  function CountResult(status: Word, ok: bool): Word {
    ((if ok then (status + 1) % WORD else status) + STATUS_SHIFT) % WORD
  }

  /** What the put callback is given after a result, if it is called. */
  function Report(status: Word, replication: nat): Option<bool> {
    if status / STATUS_SHIFT == replication then Some(status % STATUS_SHIFT > 0) else None
  }

  function StatusAfter(results: seq<bool>): Word {
    if results == [] then 0 else CountResult(StatusAfter(results[..|results| - 1]), results[|results| - 1])
  }

  class PutStatus {
    var status: Word

    constructor ()
      ensures status == 0
    {
      status := 0;
    }

    method HandlePutCallback(ok: bool, replication: nat) returns (report: Option<bool>)
      modifies this
      ensures status == CountResult(old(status), ok) && report == Report(status, replication)
    {
      if ok {
        status := (status + 1) % WORD;
      }
      status := (status + STATUS_SHIFT) % WORD;
      if status / STATUS_SHIFT == replication {
        if status % STATUS_SHIFT > 0 {
          return Some(true);
        } else {
          return Some(false);
        }
      }
      return None;
    }
  }

  function Successes(results: seq<bool>): nat {
    if results == [] then 0 else Successes(results[..|results| - 1]) + (if results[|results| - 1] then 1 else 0)
  }

  lemma {:induction false} SuccessesIs(results: seq<bool>)
    ensures Successes(results) <= |results|
    ensures Successes(results) > 0 <==> true in results
  {
    if results != [] {
      var rest := results[..|results| - 1];
      SuccessesIs(rest);
      assert results == rest + [results[|results| - 1]];
    }
  }

  /** Below 2^16 results the two halves do not disturb each other. */
  lemma {:induction false} StatusCounts(results: seq<bool>)
    requires |results| < STATUS_SHIFT
    ensures StatusAfter(results) == |results| * STATUS_SHIFT + Successes(results)
  {
    if results != [] {
      hide CountResult;
      StatusCounts(results[..|results| - 1]);
      SuccessesIs(results[..|results| - 1]);
      CountStep(|results| - 1, Successes(results[..|results| - 1]), results[|results| - 1]);
    }
  }

  lemma CountStep(n: nat, successes: nat, ok: bool)
    requires successes <= n && n + 1 < STATUS_SHIFT
    ensures n * STATUS_SHIFT + successes < WORD
    ensures CountResult(n * STATUS_SHIFT + successes, ok) == (n + 1) * STATUS_SHIFT + successes + (if ok then 1 else 0)
  {
    var status := n * STATUS_SHIFT + successes;
    WordRest(status + 1, status + 1, 0);
    var counted := if ok then status + 1 else status;
    WordRest(counted + STATUS_SHIFT, counted + STATUS_SHIFT, 0);
  }

  lemma Unpack(high: nat, low: nat)
    requires low < STATUS_SHIFT
    ensures (high * STATUS_SHIFT + low) / STATUS_SHIFT == high && (high * STATUS_SHIFT + low) % STATUS_SHIFT == low
  {
  }

  lemma ReportAfter(results: seq<bool>, replication: nat)
    requires |results| < STATUS_SHIFT
    ensures Report(StatusAfter(results), replication) ==
            if |results| == replication then Some(true in results) else None
  {
    StatusCounts(results);
    SuccessesIs(results);
    Unpack(|results|, Successes(results));
  }

  /** The callback runs once, on the last result, and reports whether any replica succeeded. */
  ghost predicate ReportedOnce(results: seq<bool>) {
    var r := |results|;
    && r > 0
    && (forall k: nat :: 0 < k < r ==> Report(StatusAfter(results[..k]), r) == None)
    && Report(StatusAfter(results), r) == Some(true in results)
  }

  lemma HighHalf(status: Word)
    ensures status / STATUS_SHIFT < STATUS_SHIFT
  {
  }

  /** A put is reported right for every order of replica results exactly when the
      replication factor is between 1 and 2^16 - 1. */
  lemma PutReportedOnceIff(replication: nat)
    ensures (forall results: seq<bool> :: |results| == replication ==> ReportedOnce(results))
            <==> 1 <= replication < 65536
  {
    if 1 <= replication < STATUS_SHIFT {
      forall results: seq<bool> | |results| == replication ensures ReportedOnce(results) {
        forall k: nat | 0 < k < replication ensures Report(StatusAfter(results[..k]), replication) == None {
          ReportAfter(results[..k], replication);
        }
        ReportAfter(results, replication);
      }
    } else {
      var results := seq(replication, _ => true);
      HighHalf(StatusAfter(results));
      assert !ReportedOnce(results);
    }
  }

  // ---- Queueing a put ----

  datatype Item = Item(key: seq<Byte>, value: seq<Byte>, op: nat)

  /** How many of the first n replicas of a key belong to gateway g. */
  function Copies(key: seq<Byte>, n: nat, gateways: nat, g: nat): nat
    requires gateways > 0 && n < WORD
  {
    if n == 0 then 0
    else Copies(key, n - 1, gateways, g) + (if Gateway(key, n - 1, gateways) == g then 1 else 0)
  }

  function Repeat(item: Item, n: nat): seq<Item> {
    seq(n, _ => item)
  }

  /** put: one entry per replica, at the gateway of that replica. */
  method QueuePut(pending: seq<seq<Item>>, key: seq<Byte>, value: seq<Byte>, op: nat, replication: nat)
    returns (after: seq<seq<Item>>)
    requires |pending| > 0 && replication < WORD
    ensures |after| == |pending|
    ensures forall g: nat :: g < |pending| ==>
      after[g] == pending[g] + Repeat(Item(key, value, op), Copies(key, replication, |pending|, g))
  {
    after := pending;
    for i := 0 to replication
      invariant |after| == |pending|
      invariant forall g: nat :: g < |pending| ==>
        after[g] == pending[g] + Repeat(Item(key, value, op), Copies(key, i, |pending|, g))
    {
      var index := ChooseGateway(key, i, |pending|);
      ghost var before := after;
      after := after[index := after[index] + [Item(key, value, op)]];
      forall g: nat | g < |pending|
        ensures after[g] == pending[g] + Repeat(Item(key, value, op), Copies(key, i + 1, |pending|, g))
      {
        RepeatMore(Item(key, value, op), Copies(key, i, |pending|, g));
      }
    }
  }

  lemma RepeatMore(item: Item, n: nat)
    ensures Repeat(item, n) + [item] == Repeat(item, n + 1)
  {
  }

  /** Every replica has its copy where a get's attempt of the same number will look. */
  lemma {:induction false} CopiesAt(key: seq<Byte>, replication: nat, gateways: nat, n: nat)
    requires gateways > 0 && replication < WORD && n < replication
    ensures Copies(key, replication, gateways, Gateway(key, n, gateways)) > 0
  {
    if n < replication - 1 {
      CopiesAt(key, replication - 1, gateways, n);
    }
  }

  lemma {:induction false} SomeCopy(key: seq<Byte>, n: nat, gateways: nat, g: nat) returns (i: nat)
    requires gateways > 0 && n < WORD && Copies(key, n, gateways, g) > 0
    ensures i < n && Gateway(key, i, gateways) == g
  {
    if Gateway(key, n - 1, gateways) == g {
      i := n - 1;
    } else {
      i := SomeCopy(key, n - 1, gateways, g);
    }
  }

  /** With 2^e gateways no gateway gets a second copy. */
  lemma {:induction false} AtMostOneCopy(key: seq<Byte>, n: nat, e: nat, g: nat)
    requires e <= 32 && n <= Size(1, e) && n < WORD
    ensures Size(1, e) > 0 && Copies(key, n, Size(1, e), g) <= 1
  {
    SizePositive(1, e);
    if n > 0 {
      AtMostOneCopy(key, n - 1, e, g);
      if Gateway(key, n - 1, Size(1, e)) == g && Copies(key, n - 1, Size(1, e), g) > 0 {
        var i := SomeCopy(key, n - 1, Size(1, e), g);
        ReplicasDistinct(key, e, n, i, n - 1);
      }
    }
  }

  // ---- Gets ----

  /** A gateway's answer to one get.  NoObject answers carry an empty value for this key, or
      its value when only another key of the same request was missing. */
  datatype Answer = Found(value: seq<Byte>) | NoObject(value: seq<Byte>) | Failed

  /** The value that the get callback receives. */
  function Outcome(answers: seq<Answer>): seq<Byte> {
    if answers == [] then []
    else match answers[0]
      case Found(v) => v
      case NoObject(v) => v
      case Failed => Outcome(answers[1..])
  }

  /** get with its failover, where answers[i] is what replica i would answer: gateways are
      tried in replica order, each at the place where put stored that replica, until one
      does not fail; the callback runs once, at the end, within `replication` attempts. */
  method GetWithFailover(key: seq<Byte>, gateways: nat, answers: seq<Answer>) returns (value: seq<Byte>, tried: seq<nat>)
    requires gateways > 0 && 0 < |answers| < WORD
    ensures value == Outcome(answers)
    ensures 0 < |tried| <= |answers|
    ensures forall i: nat :: i < |tried| ==> tried[i] == Gateway(key, i, gateways)
    ensures forall i: nat :: i + 1 < |tried| ==> answers[i] == Failed
    ensures |tried| < |answers| ==> answers[|tried| - 1] != Failed
  {
    var n := 0;
    tried := [];
    while true
      invariant n < |answers| && |tried| == n
      invariant forall i: nat :: i < n ==> tried[i] == Gateway(key, i, gateways) && answers[i] == Failed
      invariant Outcome(answers) == Outcome(answers[n..])
      decreases |answers| - n
    {
      var index := ChooseGateway(key, n, gateways);
      tried := tried + [index];
      assert answers[n..][1..] == answers[n + 1..];
      if answers[n] != Failed {
        return answers[n].value, tried;
      }
      if n + 1 == |answers| {
        return [], tried;
      }
      n := n + 1;
    }
  }

  /** The outcome is the first answer that is not a failure, or nothing. */
  lemma {:induction false} OutcomeIsFirst(answers: seq<Answer>, i: nat)
    requires i < |answers| && answers[i] != Failed && forall j :: 0 <= j < i ==> answers[j] == Failed
    ensures Outcome(answers) == answers[i].value
  {
    if i > 0 {
      OutcomeIsFirst(answers[1..], i - 1);
    }
  }

  lemma {:induction false} OutcomeIsNothing(answers: seq<Answer>)
    requires forall j :: 0 <= j < |answers| ==> answers[j] == Failed
    ensures Outcome(answers) == []
  {
    if answers != [] {
      OutcomeIsNothing(answers[1..]);
    }
  }
}
