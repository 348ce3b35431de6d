/** The two-pointer merge at the end of process_overlaps, over the
    positions of the resolved indels and of the buffered sites. */
module Merge {

  /** One step of the merge: write the indel record at index `k`, or queue
      the buffered site at index `j`. */
  datatype Event = WriteIndel(k: nat) | QueueBufferedSite(j: nat)

  /** The events the merge loop performs from indel index `i` and site index
      `j`: an indel goes first when its position is not after the site's;
      in a conflict group every indel is written, otherwise only the first,
      which skips the indel index to the end. */
  function MergeFrom(ip: seq<int>, sp: seq<int>, conflict: bool, i: nat, j: nat): (r: seq<Event>)
    requires i <= |ip| && j <= |sp|
    ensures |r| == (|sp| - j) + (if conflict then |ip| - i else if i < |ip| then 1 else 0)
    decreases |ip| - i + |sp| - j
  {
    if i < |ip| && (j == |sp| || ip[i] <= sp[j]) then
      [WriteIndel(i)] + MergeFrom(ip, sp, conflict, if conflict then i + 1 else |ip|, j)
    else if j < |sp| then
      [QueueBufferedSite(j)] + MergeFrom(ip, sp, conflict, i, j + 1)
    else []
  }

  /** The site indices of an event sequence, in order. */
  function SitesOf(evs: seq<Event>): seq<nat> {
    if evs == [] then []
    else (if evs[0].QueueBufferedSite? then [evs[0].j] else []) + SitesOf(evs[1..])
  }

  /** The indel indices of an event sequence, in order. */
  function IndelsOf(evs: seq<Event>): seq<nat> {
    if evs == [] then []
    else (if evs[0].WriteIndel? then [evs[0].k] else []) + IndelsOf(evs[1..])
  }

  /** The indices from `a` up to, not including, `b`. */
  function Range(a: nat, b: nat): (r: seq<nat>)
    requires a <= b
    ensures |r| == b - a && forall t :: 0 <= t < |r| ==> r[t] == a + t
    decreases b - a
  {
    if a == b then [] else [a] + Range(a + 1, b)
  }

  /** Every buffered site is queued exactly once, in buffer order. */
  lemma {:induction false} MergeQueuesEverySite(ip: seq<int>, sp: seq<int>, conflict: bool, i: nat, j: nat)
    requires i <= |ip| && j <= |sp|
    ensures SitesOf(MergeFrom(ip, sp, conflict, i, j)) == Range(j, |sp|)
    decreases |ip| - i + |sp| - j
  {
    var evs := MergeFrom(ip, sp, conflict, i, j);
    if i < |ip| && (j == |sp| || ip[i] <= sp[j]) {
      var i' := if conflict then i + 1 else |ip|;
      MergeQueuesEverySite(ip, sp, conflict, i', j);
      assert evs[1..] == MergeFrom(ip, sp, conflict, i', j);
    } else if j < |sp| {
      MergeQueuesEverySite(ip, sp, conflict, i, j + 1);
      assert evs[1..] == MergeFrom(ip, sp, conflict, i, j + 1);
    }
  }

  /** A conflict group writes each indel once, in order; otherwise the
      first remaining indel alone is written. */
  lemma {:induction false} MergeWritesIndels(ip: seq<int>, sp: seq<int>, conflict: bool, i: nat, j: nat)
    requires i <= |ip| && j <= |sp|
    ensures IndelsOf(MergeFrom(ip, sp, conflict, i, j)) ==
      if conflict then Range(i, |ip|) else if i < |ip| then [i] else []
    decreases |ip| - i + |sp| - j
  {
    var evs := MergeFrom(ip, sp, conflict, i, j);
    if i < |ip| && (j == |sp| || ip[i] <= sp[j]) {
      var i' := if conflict then i + 1 else |ip|;
      MergeWritesIndels(ip, sp, conflict, i', j);
      assert evs[1..] == MergeFrom(ip, sp, conflict, i', j);
    } else if j < |sp| {
      MergeWritesIndels(ip, sp, conflict, i, j + 1);
      assert evs[1..] == MergeFrom(ip, sp, conflict, i, j + 1);
    }
  }

  /** The event names an indel index in `i..nip` (only `i` itself outside
      a conflict) or a site index in `j..nsp`. */
  predicate InRange(nip: int, nsp: int, conflict: bool, i: nat, j: nat, e: Event) {
    (e.WriteIndel? ==> i <= e.k < nip && (!conflict ==> e.k == i)) &&
    (e.QueueBufferedSite? ==> j <= e.j < nsp)
  }

  /** Every event the merge performs names an index in range. */
  lemma {:induction false} MergeIndices(ip: seq<int>, sp: seq<int>, conflict: bool, i: nat, j: nat)
    requires i <= |ip| && j <= |sp|
    ensures forall t :: 0 <= t < |MergeFrom(ip, sp, conflict, i, j)| ==>
      InRange(|ip|, |sp|, conflict, i, j, MergeFrom(ip, sp, conflict, i, j)[t])
    decreases |ip| - i + |sp| - j
  {
    var evs := MergeFrom(ip, sp, conflict, i, j);
    if i < |ip| && (j == |sp| || ip[i] <= sp[j]) {
      var i' := if conflict then i + 1 else |ip|;
      MergeIndices(ip, sp, conflict, i', j);
      var rest := MergeFrom(ip, sp, conflict, i', j);
      assert evs == [WriteIndel(i)] + rest;
      forall t | 0 <= t < |evs| ensures InRange(|ip|, |sp|, conflict, i, j, evs[t]) {
        if t > 0 {
          assert evs[t] == rest[t - 1];
          assert InRange(|ip|, |sp|, conflict, i', j, rest[t - 1]);
        }
      }
    } else if j < |sp| {
      MergeIndices(ip, sp, conflict, i, j + 1);
      var rest := MergeFrom(ip, sp, conflict, i, j + 1);
      assert evs == [QueueBufferedSite(j)] + rest;
      forall t | 0 <= t < |evs| ensures InRange(|ip|, |sp|, conflict, i, j, evs[t]) {
        if t > 0 {
          assert evs[t] == rest[t - 1];
          assert InRange(|ip|, |sp|, conflict, i, j + 1, rest[t - 1]);
        }
      }
    }
  }

  predicate Sorted(s: seq<int>) {
    forall a, b :: 0 <= a < b < |s| ==> s[a] <= s[b]
  }

  /** Event `x` may come before event `y`: a site before an indel lies
      strictly before it, and an indel before a site lies at or before it. */
  predicate Before(ip: seq<int>, sp: seq<int>, x: Event, y: Event) {
    (x.QueueBufferedSite? && y.WriteIndel? ==> x.j < |sp| && y.k < |ip| && sp[x.j] < ip[y.k]) &&
    (x.WriteIndel? && y.QueueBufferedSite? ==> x.k < |ip| && y.j < |sp| && ip[x.k] <= sp[y.j])
  }

  /** Every pair of events is in position order. */
  predicate InOrder(ip: seq<int>, sp: seq<int>, evs: seq<Event>) {
    forall a, b :: 0 <= a < b < |evs| ==> Before(ip, sp, evs[a], evs[b])
  }

  lemma ConsInOrder(ip: seq<int>, sp: seq<int>, e: Event, rest: seq<Event>)
    requires InOrder(ip, sp, rest)
    requires forall b :: 0 <= b < |rest| ==> Before(ip, sp, e, rest[b])
    ensures InOrder(ip, sp, [e] + rest)
  {
    var evs := [e] + rest;
    forall a, b | 0 <= a < b < |evs| ensures Before(ip, sp, evs[a], evs[b]) {
      assert evs[b] == rest[b - 1];
      if a > 0 {
        assert evs[a] == rest[a - 1];
      }
    }
  }

  /** The merge writes in position order; with equal positions the indel
      therefore always goes first. */
  lemma {:induction false} MergeOrder(ip: seq<int>, sp: seq<int>, conflict: bool, i: nat, j: nat)
    requires i <= |ip| && j <= |sp| && Sorted(ip) && Sorted(sp)
    ensures InOrder(ip, sp, MergeFrom(ip, sp, conflict, i, j))
    decreases |ip| - i + |sp| - j
  {
    if i < |ip| && (j == |sp| || ip[i] <= sp[j]) {
      var i' := if conflict then i + 1 else |ip|;
      MergeOrder(ip, sp, conflict, i', j);
      MergeIndices(ip, sp, conflict, i', j);
      var rest := MergeFrom(ip, sp, conflict, i', j);
      forall b | 0 <= b < |rest| ensures Before(ip, sp, WriteIndel(i), rest[b]) {
        assert InRange(|ip|, |sp|, conflict, i', j, rest[b]);
      }
      ConsInOrder(ip, sp, WriteIndel(i), rest);
    } else if j < |sp| {
      MergeOrder(ip, sp, conflict, i, j + 1);
      MergeIndices(ip, sp, conflict, i, j + 1);
      var rest := MergeFrom(ip, sp, conflict, i, j + 1);
      forall b | 0 <= b < |rest| ensures Before(ip, sp, QueueBufferedSite(j), rest[b]) {
        assert InRange(|ip|, |sp|, conflict, i, j + 1, rest[b]);
      }
      ConsInOrder(ip, sp, QueueBufferedSite(j), rest);
    }
  }
}
