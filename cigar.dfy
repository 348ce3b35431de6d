/** Haplotype alignment paths (get_hap_cigar) and the per-offset ploidy
    count they induce (add_cigar_to_ploidy). */
module Cigar {
  import opened GvcfTypes

  /** Reference bases consumed by a path: MATCH and DELETE runs. */
  function RefSpan(a: seq<Segment>): nat {
    if a == [] then 0
    else RefSpan(a[..|a| - 1]) + (if a[|a| - 1].kind == Insert then 0 else a[|a| - 1].length)
  }

  /** Read bases consumed by a path: MATCH and INSERT runs. */
  function ReadSpan(a: seq<Segment>): nat {
    if a == [] then 0
    else ReadSpan(a[..|a| - 1]) + (if a[|a| - 1].kind == Delete then 0 else a[|a| - 1].length)
  }

  /** How many MATCH bases of `a` land on ploidy offset `k`, when the first
      reference base of the path sits at offset -1. */
  function Hits(a: seq<Segment>, k: int): nat {
    if a == [] then 0
    else
      var p := a[..|a| - 1];
      var s := a[|a| - 1];
      Hits(p, k) +
      (if s.kind == Match && RefSpan(p) - 1 <= k < RefSpan(p) - 1 + s.length then 1 else 0)
  }

  /** Every MATCH base past offset -1 lands inside a vector of length `n`. */
  predicate Fits(a: seq<Segment>, n: int) {
    forall i :: 0 <= i < |a| && a[i].kind == Match && a[i].length > 0 ==>
      RefSpan(a[..i]) + a[i].length - 1 <= n
  }

  /** A run of the given kind, or nothing when the length is zero. */
  function Run(kind: SegType, length: nat): seq<Segment> {
    if length > 0 then [Segment(kind, length)] else []
  }

  /** get_hap_cigar: MATCH(lead), DELETE, INSERT, MATCH(trail), leaving out
      zero-length runs. The source's defaults are lead = 1, trail = 0. */
  function HapCigar(ik: IndelKey, lead: nat, trail: nat): (r: seq<Segment>)
    ensures |r| <= 4
    ensures forall i :: 0 <= i < |r| ==> r[i].length > 0
    ensures |r| == (if lead > 0 then 1 else 0) + (if ik.deleteLength > 0 then 1 else 0)
                   + (if ik.insertLength > 0 then 1 else 0) + (if trail > 0 then 1 else 0)
    ensures lead > 0 ==> r[0] == Segment(Match, lead)
    ensures ik.deleteLength > 0 ==> r[if lead > 0 then 1 else 0] == Segment(Delete, ik.deleteLength)
    ensures ik.insertLength > 0 ==>
      r[(if lead > 0 then 1 else 0) + (if ik.deleteLength > 0 then 1 else 0)] == Segment(Insert, ik.insertLength)
    ensures trail > 0 ==> r[|r| - 1] == Segment(Match, trail)
  {
    Run(Match, lead) + Run(Delete, ik.deleteLength) + Run(Insert, ik.insertLength) + Run(Match, trail)
  }

  lemma {:induction false} RefSpanAppend(a: seq<Segment>, b: seq<Segment>)
    ensures RefSpan(a + b) == RefSpan(a) + RefSpan(b)
    ensures ReadSpan(a + b) == ReadSpan(a) + ReadSpan(b)
  {
    if b == [] {
      assert a + b == a;
    } else {
      var b' := b[..|b| - 1];
      assert (a + b)[..|a + b| - 1] == a + b';
      RefSpanAppend(a, b');
    }
  }

  /** The hits of a concatenation: those of the second part are shifted by
      the reference span of the first. */
  lemma {:induction false} HitsAppend(a: seq<Segment>, b: seq<Segment>, k: int)
    ensures Hits(a + b, k) == Hits(a, k) + Hits(b, k - RefSpan(a))
  {
    if b == [] {
      assert a + b == a;
    } else {
      var b' := b[..|b| - 1];
      assert (a + b)[..|a + b| - 1] == a + b';
      HitsAppend(a, b', k);
      RefSpanAppend(a, b');
    }
  }

  lemma {:induction false} FitsAppend(a: seq<Segment>, b: seq<Segment>, n: int)
    requires Fits(a, n) && Fits(b, n - RefSpan(a))
    ensures Fits(a + b, n)
  {
    var c := a + b;
    forall i | 0 <= i < |c| && c[i].kind == Match && c[i].length > 0
      ensures RefSpan(c[..i]) + c[i].length - 1 <= n
    {
      if i < |a| {
        assert c[..i] == a[..i];
        assert c[i] == a[i];
      } else {
        assert c[..i] == a + b[..i - |a|];
        assert c[i] == b[i - |a|];
        RefSpanAppend(a, b[..i - |a|]);
      }
    }
  }

  lemma RunFacts(kind: SegType, length: nat, k: int, n: int)
    ensures RefSpan(Run(kind, length)) == if kind == Insert then 0 else length
    ensures ReadSpan(Run(kind, length)) == if kind == Delete then 0 else length
    ensures Hits(Run(kind, length), k) == if kind == Match && -1 <= k < length - 1 then 1 else 0
    ensures kind == Match ==> length - 1 <= n ==> Fits(Run(kind, length), n)
    ensures kind != Match ==> Fits(Run(kind, length), n)
  {
    if length > 0 {
      assert Run(kind, length)[..0] == [];
    }
  }

  /** The reference and read lengths a HapCigar path consumes. */
  lemma HapCigarSpans(ik: IndelKey, lead: nat, trail: nat)
    ensures RefSpan(HapCigar(ik, lead, trail)) == lead + ik.deleteLength + trail
    ensures ReadSpan(HapCigar(ik, lead, trail)) == lead + ik.insertLength + trail
  {
    var m, d, i, t := Run(Match, lead), Run(Delete, ik.deleteLength), Run(Insert, ik.insertLength), Run(Match, trail);
    RunFacts(Match, lead, 0, 0);
    RunFacts(Delete, ik.deleteLength, 0, 0);
    RunFacts(Insert, ik.insertLength, 0, 0);
    RunFacts(Match, trail, 0, 0);
    assert HapCigar(ik, lead, trail) == m + d + i + t;
    RefSpanAppend(m, d);
    RefSpanAppend(m + d, i);
    RefSpanAppend(m + d + i, t);
  }

  /** The hits and span of the part of a HapCigar path before its trailing run. */
  lemma HapHeadHits(ik: IndelKey, lead: nat, k: int)
    requires k >= 0
    ensures var h := Run(Match, lead) + Run(Delete, ik.deleteLength) + Run(Insert, ik.insertLength);
      Hits(h, k) == (if k < lead - 1 then 1 else 0) && RefSpan(h) == lead + ik.deleteLength
  {
    var m, d, i := Run(Match, lead), Run(Delete, ik.deleteLength), Run(Insert, ik.insertLength);
    var del := ik.deleteLength;
    RunFacts(Match, lead, k, 0);
    RunFacts(Delete, del, k - lead, 0);
    RunFacts(Insert, ik.insertLength, k - lead - del, 0);
    HitsAppend(m, d, k);
    RefSpanAppend(m, d);
    HitsAppend(m + d, i, k);
    RefSpanAppend(m + d, i);
  }

  /** The ploidy offsets a HapCigar path covers: the lead MATCH run after
      its first base, and the trailing MATCH run after the deleted bases. */
  lemma HapCigarHits(ik: IndelKey, lead: nat, trail: nat, k: int)
    requires k >= 0
    ensures Hits(HapCigar(ik, lead, trail), k) ==
      if k < lead - 1 || (lead + ik.deleteLength - 1 <= k < lead + ik.deleteLength + trail - 1)
      then 1 else 0
  {
    var h := Run(Match, lead) + Run(Delete, ik.deleteLength) + Run(Insert, ik.insertLength);
    var t := Run(Match, trail);
    assert HapCigar(ik, lead, trail) == h + t;
    HapHeadHits(ik, lead, k);
    RunFacts(Match, trail, k - lead - ik.deleteLength, 0);
    HitsAppend(h, t, k);
  }

  /** A HapCigar path fits a vector that reaches the path's last reference
      offset. */
  lemma HapCigarFits(ik: IndelKey, lead: nat, trail: nat, n: int)
    requires trail > 0 ==> lead + ik.deleteLength + trail - 1 <= n
    requires lead - 1 <= n
    ensures Fits(HapCigar(ik, lead, trail), n)
  {
    var m, d, i, t := Run(Match, lead), Run(Delete, ik.deleteLength), Run(Insert, ik.insertLength), Run(Match, trail);
    var del := ik.deleteLength;
    RunFacts(Match, lead, 0, n);
    RunFacts(Delete, del, 0, n - lead);
    RunFacts(Insert, ik.insertLength, 0, n - lead - del);
    RunFacts(Match, trail, 0, n - lead - del);
    RefSpanAppend(m, d);
    RefSpanAppend(m + d, i);
    FitsAppend(m, d, n);
    FitsAppend(m + d, i, n);
    FitsAppend(m + d + i, t, n);
  }

  /** No MATCH base of a path lands at or past the offset where the path
      ends. */
  lemma {:induction false} HitsPast(a: seq<Segment>, k: int)
    requires k >= RefSpan(a) - 1
    ensures Hits(a, k) == 0
  {
    if a != [] {
      HitsPast(a[..|a| - 1], k);
    }
  }

  /** A path covers each offset at most once, so one call of
      add_cigar_to_ploidy raises each ploidy entry by at most one. */
  lemma {:induction false} HitsAtMostOne(a: seq<Segment>, k: int)
    ensures Hits(a, k) <= 1
  {
    if a != [] {
      var p := a[..|a| - 1];
      HitsAtMostOne(p, k);
      if k >= RefSpan(p) - 1 {
        HitsPast(p, k);
      }
    }
  }

  /** add_cigar_to_ploidy: walk the path from offset -1, adding one at each
      MATCH base at a non-negative offset, skipping DELETE runs and ignoring
      INSERT runs. */
  method AddCigarToPloidy(apath: seq<Segment>, ploidy: seq<nat>) returns (r: seq<nat>)
    requires Fits(apath, |ploidy|)
    ensures |r| == |ploidy|
    ensures forall k :: 0 <= k < |r| ==> r[k] == ploidy[k] + Hits(apath, k)
  {
    r := ploidy;
    var offset: int := -1;
    var i := 0;
    while i < |apath|
      invariant 0 <= i <= |apath|
      invariant |r| == |ploidy|
      invariant offset == RefSpan(apath[..i]) - 1
      invariant forall k :: 0 <= k < |r| ==> r[k] == ploidy[k] + Hits(apath[..i], k)
    {
      var ps := apath[i];
      assert apath[..i + 1][..i] == apath[..i];
      assert apath[..i + 1][i] == ps;
      if ps.kind == Match {
        var j := 0;
        while j < ps.length
          invariant 0 <= j <= ps.length
          invariant |r| == |ploidy|
          invariant offset == RefSpan(apath[..i]) - 1 + j
          invariant forall k :: 0 <= k < |r| ==>
            r[k] == ploidy[k] + Hits(apath[..i], k) + (if RefSpan(apath[..i]) - 1 <= k < offset then 1 else 0)
        {
          if offset >= 0 {
            assert offset < |r|;
            r := r[offset := r[offset] + 1];
          }
          offset := offset + 1;
          j := j + 1;
        }
      } else if ps.kind == Delete {
        offset := offset + ps.length;
      }
      i := i + 1;
    }
    assert apath[..|apath|] == apath;
  }
}
