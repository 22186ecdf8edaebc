/** Batches of different jobs, worked through in turn. */
module Batches {
  import opened Basics
  import opened JobModel

  /** The first `n` jobs of the batch ended as `ended` says, and every other job is as before. */
  ghost predicate EachEndedAs(before: map<JobId, Job>, after: map<JobId, Job>, batch: seq<JobId>, n: nat,
                              ended: seq<Job>) {
    && n <= |batch| == |ended| && after.Keys == before.Keys
    && (forall i | 0 <= i < n :: batch[i] in after && after[batch[i]] == ended[i])
    && (forall id | id in before && id !in batch[..n] :: after[id] == before[id])
  }

  lemma NextIsNew(batch: seq<JobId>, n: nat)
    requires Distinct(batch) && n < |batch|
    ensures batch[n] !in batch[..n] && batch[..n + 1] == batch[..n] + [batch[n]]
  {
  }

  /** Job `n` is still as it was at the start, and writing its end to it finishes one more job of the batch. */
  lemma OneMoreEnded(start: map<JobId, Job>, before: map<JobId, Job>, batch: seq<JobId>, n: nat, ended: seq<Job>)
    requires Distinct(batch) && n < |batch| && EachEndedAs(start, before, batch, n, ended) && batch[n] in before
    ensures before[batch[n]] == start[batch[n]]
    ensures EachEndedAs(start, before[batch[n] := ended[n]], batch, n + 1, ended)
  {
    PrefixGrows(batch, n);
  }

  /** How often a value occurs. */
  function HowMany<T(==)>(xs: seq<T>, x: T): nat {
    if xs == [] then 0 else HowMany(xs[..|xs| - 1], x) + if xs[|xs| - 1] == x then 1 else 0
  }

  lemma OneMoreOfThem<T>(xs: seq<T>, n: nat)
    requires n < |xs|
    ensures forall x :: HowMany(xs[..n + 1], x) == HowMany(xs[..n], x) + if xs[n] == x then 1 else 0
  {
    assert xs[..n + 1][..n] == xs[..n];
  }

  lemma SameEntry<K, V>(m: map<K, V>, k: K)
    requires k in m
    ensures m[k := m[k]] == m
  {
  }
}
