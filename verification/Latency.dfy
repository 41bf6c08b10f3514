/** The load profile's latency figure and the split of its reads among concurrent clients. */
module Latency {

  // ---------- nearest-rank 95th percentile ----------

  /** `ceil(n * 0.95)`, on exact hundredths. */
  function Rank(n: nat): nat { (95 * n + 99) / 100 }

  function Insert(x: real, xs: seq<real>): seq<real> {
    if xs == [] || x < xs[0] then [x] + xs else [xs[0]] + Insert(x, xs[1..])
  }

  function Sort(xs: seq<real>): seq<real> {
    if xs == [] then [] else Insert(xs[|xs| - 1], Sort(xs[..|xs| - 1]))
  }

  ghost predicate Sorted(xs: seq<real>) {
    forall i, j :: 0 <= i < j < |xs| ==> xs[i] <= xs[j]
  }

  function CountAtMost(xs: seq<real>, bound: real): nat {
    if xs == [] then 0 else CountAtMost(xs[..|xs| - 1], bound) + if xs[|xs| - 1] <= bound then 1 else 0
  }

  function CountBelow(xs: seq<real>, bound: real): nat {
    if xs == [] then 0 else CountBelow(xs[..|xs| - 1], bound) + if xs[|xs| - 1] < bound then 1 else 0
  }

  function P95(samples: seq<real>): (p: real)
    requires samples != []
  {
    SortLength(samples);
    RankCovers(|samples|);
    Sort(samples)[Rank(|samples|) - 1]
  }

  lemma {:induction false} CountsConcat(a: seq<real>, b: seq<real>, bound: real)
    ensures CountAtMost(a + b, bound) == CountAtMost(a, bound) + CountAtMost(b, bound)
    ensures CountBelow(a + b, bound) == CountBelow(a, bound) + CountBelow(b, bound)
  {
    if b == [] {
      assert a + b == a;
    } else {
      assert (a + b)[..|a + b| - 1] == a + b[..|b| - 1];
      CountsConcat(a, b[..|b| - 1], bound);
    }
  }

  lemma {:induction false} InsertSorted(x: real, xs: seq<real>)
    requires Sorted(xs)
    ensures |Insert(x, xs)| == |xs| + 1 && Sorted(Insert(x, xs))
    ensures forall y :: y in Insert(x, xs) <==> y == x || y in xs
  {
    if xs != [] && x >= xs[0] {
      InsertSorted(x, xs[1..]);
      assert xs == [xs[0]] + xs[1..];
      var rest := Insert(x, xs[1..]);
      forall j | 0 <= j < |rest| ensures xs[0] <= rest[j] {
        assert rest[j] == x || rest[j] in xs[1..];
      }
    }
  }

  lemma {:induction false} InsertCounts(x: real, xs: seq<real>, bound: real)
    ensures CountAtMost(Insert(x, xs), bound) == CountAtMost([x], bound) + CountAtMost(xs, bound)
    ensures CountBelow(Insert(x, xs), bound) == CountBelow([x], bound) + CountBelow(xs, bound)
  {
    if xs == [] || x < xs[0] {
      CountsConcat([x], xs, bound);
    } else {
      InsertCounts(x, xs[1..], bound);
      assert xs == [xs[0]] + xs[1..];
      CountsConcat([xs[0]], xs[1..], bound);
      CountsConcat([xs[0]], Insert(x, xs[1..]), bound);
    }
  }

  lemma {:induction false} SortFacts(xs: seq<real>, bound: real)
    ensures |Sort(xs)| == |xs| && Sorted(Sort(xs))
    ensures CountAtMost(Sort(xs), bound) == CountAtMost(xs, bound)
    ensures CountBelow(Sort(xs), bound) == CountBelow(xs, bound)
  {
    if xs != [] {
      SortFacts(xs[..|xs| - 1], bound);
      InsertSorted(xs[|xs| - 1], Sort(xs[..|xs| - 1]));
      InsertCounts(xs[|xs| - 1], Sort(xs[..|xs| - 1]), bound);
      CountsConcat(xs[..|xs| - 1], [xs[|xs| - 1]], bound);
      assert xs == xs[..|xs| - 1] + [xs[|xs| - 1]];
    }
  }

  lemma SortLength(xs: seq<real>)
    ensures |Sort(xs)| == |xs|
  {
    SortFacts(xs, 0.0);
  }

  lemma {:induction false} SortedCounts(xs: seq<real>, k: nat, bound: real)
    requires Sorted(xs) && k <= |xs|
    ensures (forall i :: 0 <= i < k ==> xs[i] <= bound) ==> CountAtMost(xs, bound) >= k
    ensures (forall i :: k <= i < |xs| ==> xs[i] >= bound) ==> CountBelow(xs, bound) <= k
  {
    if xs != [] {
      SortedCounts(xs[..|xs| - 1], if k == |xs| then k - 1 else k, bound);
    }
  }

  lemma RankCovers(n: nat)
    requires n > 0
    ensures 1 <= Rank(n) <= n && 100 * Rank(n) >= 95 * n && 100 * (Rank(n) - 1) < 95 * n
  {
  }

  lemma PositionCounts(sorted: seq<real>, k: nat, p: real)
    requires Sorted(sorted) && 1 <= k <= |sorted| && sorted[k - 1] == p
    ensures CountAtMost(sorted, p) >= k && CountBelow(sorted, p) <= k - 1
  {
    SortedCounts(sorted, k, p);
    SortedCounts(sorted, k - 1, p);
  }

  /** For every non-empty list of samples at least 95% of them are at most the reported figure, and fewer than 95%
      are below it. */
  lemma P95IsThe95thPercentile(samples: seq<real>)
    requires samples != []
    ensures 100 * CountAtMost(samples, P95(samples)) >= 95 * |samples|
    ensures 100 * CountBelow(samples, P95(samples)) < 95 * |samples|
  {
    var k, p := Rank(|samples|), P95(samples);
    RankCovers(|samples|);
    SortFacts(samples, p);
    PositionCounts(Sort(samples), k, p);
    assert CountAtMost(samples, p) >= k && CountBelow(samples, p) <= k - 1;
  }

  // ---------- the clients' share of the reads ----------

  /** The indices read by one client, which starts at its own number and strides by the number of clients. */
  function Visits(index: nat, clients: nat, requests: nat): seq<nat>
    requires clients > 0
    decreases requests - index
  {
    if index >= requests then [] else [index] + Visits(index + clients, clients, requests)
  }

  /** One client's loop. */
  method Reads(client: nat, clients: nat, requests: nat) returns (read: seq<nat>)
    requires clients > 0
    ensures read == Visits(client, clients, requests)
  {
    read := [];
    var index := client;
    while index < requests
      invariant read + Visits(index, clients, requests) == Visits(client, clients, requests)
      decreases requests - index
    {
      read := read + [index];
      index := index + clients;
    }
  }

  function Occurrences(xs: seq<nat>, i: nat): nat {
    if xs == [] then 0 else (if xs[0] == i then 1 else 0) + Occurrences(xs[1..], i)
  }

  /** A whole number of strides. */
  predicate Strides(distance: nat, clients: nat)
    requires clients > 0
  {
    distance == 0 || (distance >= clients && Strides(distance - clients, clients))
  }

  lemma {:induction false} VisitsEachOnce(index: nat, clients: nat, requests: nat, i: nat)
    requires clients > 0 && i < requests
    ensures Occurrences(Visits(index, clients, requests), i) == if i >= index && Strides(i - index, clients) then 1 else 0
    decreases requests - index
  {
    if index < requests {
      VisitsEachOnce(index + clients, clients, requests, i);
      var visits := Visits(index, clients, requests);
      assert visits[1..] == Visits(index + clients, clients, requests);
    }
  }

  /** The client that reads index `i`. */
  function Owner(i: nat, clients: nat): (c: nat)
    requires clients > 0
    ensures c < clients
  {
    if i < clients then i else Owner(i - clients, clients)
  }

  lemma {:induction false} OnlyTheOwnerStrides(c: nat, clients: nat, i: nat)
    requires c < clients
    ensures (i >= c && Strides(i - c, clients)) <==> Owner(i, clients) == c
    decreases i
  {
    if i >= clients {
      OnlyTheOwnerStrides(c, clients, i - clients);
    }
  }

  /** All reads of index `i` by the clients below `c`. */
  function ReadsBelow(c: nat, clients: nat, requests: nat, i: nat): nat
    requires clients > 0
  {
    if c == 0 then 0 else ReadsBelow(c - 1, clients, requests, i) + Occurrences(Visits(c - 1, clients, requests), i)
  }

  lemma {:induction false} ReadsBelowIsOwner(c: nat, clients: nat, requests: nat, i: nat)
    requires clients > 0 && c <= clients && i < requests
    ensures ReadsBelow(c, clients, requests, i) == if Owner(i, clients) < c then 1 else 0
  {
    if c > 0 {
      ReadsBelowIsOwner(c - 1, clients, requests, i);
      VisitsEachOnce(c - 1, clients, requests, i);
      OnlyTheOwnerStrides(c - 1, clients, i);
    }
  }

  /** For any number of clients and requests, the clients together read every index exactly once. */
  lemma EveryIndexIsReadOnce(clients: nat, requests: nat, i: nat)
    requires clients > 0 && i < requests
    ensures ReadsBelow(clients, clients, requests, i) == 1
  {
    ReadsBelowIsOwner(clients, clients, requests, i);
  }
}
