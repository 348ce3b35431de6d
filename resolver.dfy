/** Resolution of one indel group (process_overlaps up to the merge): the
    group is a single indel, a simple overlap of two heterozygous indels, or
    a conflict; the indels and the sites buffered under them are
    re-annotated accordingly. */
module Resolver {
  import opened GvcfTypes
  import opened Cigar
  import opened Modifiers

  predicate IsHetIndel(d: DiIndel) { d.maxGt == Het }

  predicate IsNoIndel(d: DiIndel) { d.maxGt == NoIndel }

  /** is_simple_indel_overlap: exactly two buffered indels, both heterozygous. */
  predicate IsSimpleIndelOverlap(buf: seq<IndelInfo>, size: nat)
    requires size <= |buf|
  {
    size == 2 && IsHetIndel(buf[0].dindel) && IsHetIndel(buf[1].dindel)
  }

  datatype GroupKind = Single | SimpleOverlap | Conflict

  /** The case split at the head of process_overlaps. */
  function Classify(group: seq<IndelInfo>): GroupKind
    requires |group| > 0
  {
    if |group| == 1 then Single
    else if IsSimpleIndelOverlap(group, |group|) then SimpleOverlap
    else Conflict
  }

  /** The three cases are told apart by the group size and the genotypes. */
  lemma ClassifyCases(group: seq<IndelInfo>)
    requires |group| > 0
    ensures Classify(group) == Single <==> |group| == 1
    ensures Classify(group) == SimpleOverlap <==>
      |group| == 2 && group[0].dindel.maxGt == Het && group[1].dindel.maxGt == Het
    ensures Classify(group) == Conflict <==>
      |group| > 2 || (|group| == 2 && (group[0].dindel.maxGt != Het || group[1].dindel.maxGt != Het))
  {
  }

  /** modify_single_indel_record: the default path, then the indel modifiers. */
  function SingleResolved(opt: Options, ii: IndelInfo): IndelInfo {
    AddIndelModifiers(opt, ii.(imod := ii.imod.(cigar := HapCigar(ii.ik, 1, 0))))
  }

  /** One member of modify_conflict_indel_record: the default path, the
      IndelConflict filter, then the indel modifiers. */
  function ConflictResolved(opt: Options, ii: IndelInfo): IndelInfo {
    AddIndelModifiers(opt, ii.(imod := ii.imod.(cigar := HapCigar(ii.ik, 1, 0),
                                                filters := ii.imod.filters.With(IndelConflict))))
  }

  /** std::vector::resize with zero fill. */
  function Resize(p: seq<nat>, n: nat): seq<nat> {
    seq(n, k requires 0 <= k < n => if k < |p| then p[k] else 0)
  }

  /** The ploidy vector after add_cigar_to_ploidy, as a value. */
  function PloidyPlus(p: seq<nat>, c: seq<Segment>): seq<nat> {
    seq(|p|, k requires 0 <= k < |p| => p[k] + Hits(c, k))
  }

  /** The reference bases between the group's first base and this haplotype's
      indel, without the base just before it. */
  function Leading(refSeq: seq<char>, begin: int, h: IndelInfo): string {
    GetSubstring(refSeq, begin, (h.pos - begin) - 1)
  }

  /** trail_len as written: the group end less this haplotype's right end.
      When it is negative the unsigned length wraps and the substring read
      is empty, which the total stand-in for get_substring gives directly. */
  function TrailLen(end: int, h: IndelInfo): int {
    end - h.ik.RightPos()
  }

  function Trailing(refSeq: seq<char>, end: int, h: IndelInfo): string {
    GetSubstring(refSeq, end - TrailLen(end, h), TrailLen(end, h))
  }

  /** The per-haplotype step of modify_overlap_indel_record: ALT extended by
      the leading and trailing reference bases, and the path that says so. */
  function SpliceHap(refSeq: seq<char>, begin: int, end: int, h: IndelInfo): IndelInfo {
    var l := Leading(refSeq, begin, h);
    var t := Trailing(refSeq, end, h);
    h.(vcfIndelSeq := l + h.vcfIndelSeq + t,
       imod := h.imod.(cigar := HapCigar(h.ik, |l| + 1, |t|)))
  }

  /** The shared part written to the first indel: the overlap flag, the
      extended REF from the base before the group to its end, and the
      ploidy vector resized to the group's span. */
  function OverlapStart(refSeq: seq<char>, end: int, ii: IndelInfo): IndelInfo
    requires end >= ii.pos
  {
    ii.(vcfRefSeq := GetSubstring(refSeq, ii.pos - 1, end - (ii.pos - 1)),
        imod := ii.imod.(isOverlap := true, ploidy := Resize(ii.imod.ploidy, end - ii.pos)))
  }

  /** Both qualities lowered to the lesser of the two indels'. */
  function MinQuals(ii: IndelInfo, o: IndelInfo): IndelInfo {
    ii.(dindel := ii.dindel.(indelQ := Min(ii.dindel.indelQ, o.dindel.indelQ),
                             maxGtQ := Min(ii.dindel.maxGtQ, o.dindel.maxGtQ)))
  }

  function WithPath(ii: IndelInfo, c: seq<Segment>): IndelInfo {
    ii.(imod := ii.imod.(ploidy := PloidyPlus(ii.imod.ploidy, c)))
  }

  /** The first indel after haplotype 0. */
  function Hap0(refSeq: seq<char>, end: int, g0: IndelInfo): IndelInfo
    requires end >= g0.pos
  {
    var s := SpliceHap(refSeq, g0.pos - 1, end, OverlapStart(refSeq, end, g0));
    WithPath(s, s.imod.cigar)
  }

  /** modify_overlap_indel_record: both haplotypes spliced, the first indel
      accumulating the shared REF, the ploidy of both paths and the lesser
      qualities, then its indel modifiers. */
  function OverlapResolved(opt: Options, refSeq: seq<char>, end: int, g0: IndelInfo, g1: IndelInfo): seq<IndelInfo>
    requires end >= g0.pos
  {
    var a := Hap0(refSeq, end, g0);
    var h1 := SpliceHap(refSeq, g0.pos - 1, end, g1);
    [AddIndelModifiers(opt, WithPath(MinQuals(a, g1), h1.imod.cigar)), h1]
  }

  /** The resolved group. */
  function ResolveGroup(opt: Options, refSeq: seq<char>, end: int, group: seq<IndelInfo>): seq<IndelInfo>
    requires |group| > 0 && end >= group[0].pos
  {
    match Classify(group)
    case Single => [SingleResolved(opt, group[0])]
    case SimpleOverlap => OverlapResolved(opt, refSeq, end, group[0], group[1])
    case Conflict => seq(|group|, i requires 0 <= i < |group| => ConflictResolved(opt, group[i]))
  }

  /** What resolution keeps and what it sets, case by case. */
  lemma ResolveGroupFacts(opt: Options, refSeq: seq<char>, end: int, group: seq<IndelInfo>)
    requires |group| > 0 && end >= group[0].pos
    requires forall i :: 0 <= i < |group| ==> !group[i].imod.isOverlap
    ensures var r := ResolveGroup(opt, refSeq, end, group);
      |r| == |group| &&
      (forall i :: 0 <= i < |r| ==> r[i].pos == group[i].pos && r[i].ik == group[i].ik) &&
      (forall i :: 0 <= i < |r| ==> (r[i].imod.isOverlap <==> i == 0 && Classify(group) == SimpleOverlap))
    ensures var r := ResolveGroup(opt, refSeq, end, group);
      Classify(group) != SimpleOverlap ==>
      forall i :: 0 <= i < |r| ==>
        r[i].imod.cigar == HapCigar(group[i].ik, 1, 0) &&
        r[i].vcfIndelSeq == group[i].vcfIndelSeq && r[i].dindel == group[i].dindel &&
        r[i].imod.gqx == Min(group[i].dindel.indelQ, group[i].dindel.maxGtQ) &&
        (r[i].imod.filters.indelConflict <==> (group[i].imod.filters.indelConflict || Classify(group) == Conflict))
    ensures var r := ResolveGroup(opt, refSeq, end, group);
      Classify(group) == SimpleOverlap ==>
        r[0].dindel.indelQ == Min(group[0].dindel.indelQ, group[1].dindel.indelQ) &&
        r[0].dindel.maxGtQ == Min(group[0].dindel.maxGtQ, group[1].dindel.maxGtQ) &&
        r[0].imod.gqx == Min(r[0].dindel.indelQ, r[0].dindel.maxGtQ) &&
        r[0].vcfRefSeq == GetSubstring(refSeq, group[0].pos - 1, end - group[0].pos + 1) &&
        |r[0].imod.ploidy| == end - group[0].pos
  {
    var r := ResolveGroup(opt, refSeq, end, group);
    match Classify(group)
    case Single =>
    case SimpleOverlap =>
      assert !r[1].imod.isOverlap;
    case Conflict =>
  }

  /** The merged first indel's ploidy vector: the group's span of zeros
      with both spliced haplotype paths added. */
  lemma OverlapPloidyPaths(opt: Options, refSeq: seq<char>, end: int, g0: IndelInfo, g1: IndelInfo)
    requires g0.pos == g0.ik.pos && g1.pos == g1.ik.pos
    requires g0.pos <= g1.pos <= end
    ensures OverlapResolved(opt, refSeq, end, g0, g1)[0].imod.ploidy ==
      PloidyPlus(PloidyPlus(Resize(g0.imod.ploidy, end - g0.pos),
                            HapCigar(g0.ik, 1, |Trailing(refSeq, end, g0)|)),
                 HapCigar(g1.ik, g1.pos - g0.pos + 1, |Trailing(refSeq, end, g1)|))
  {
    var o := OverlapStart(refSeq, end, g0);
    var s := SpliceHap(refSeq, g0.pos - 1, end, o);
    assert Leading(refSeq, g0.pos - 1, o) == [];
    assert s.imod.cigar == HapCigar(g0.ik, 1, |Trailing(refSeq, end, g0)|);
    var h1 := SpliceHap(refSeq, g0.pos - 1, end, g1);
    assert |Leading(refSeq, g0.pos - 1, g1)| == g1.pos - g0.pos;
    assert h1.imod.cigar == HapCigar(g1.ik, g1.pos - g0.pos + 1, |Trailing(refSeq, end, g1)|);
  }

  /** The ploidy the overlap writes at offset `k` is the sum of the hits of
      the two spliced haplotype paths there. */
  lemma OverlapPloidyHits(opt: Options, refSeq: seq<char>, end: int,
                          g0: IndelInfo, g1: IndelInfo, k: int)
    requires g0.pos == g0.ik.pos && g1.pos == g1.ik.pos
    requires g0.pos <= g1.pos <= end
    requires g0.imod.ploidy == []
    requires 0 <= k < end - g0.pos
    ensures var r := OverlapResolved(opt, refSeq, end, g0, g1)[0];
      |r.imod.ploidy| == end - g0.pos &&
      r.imod.ploidy[k] ==
        Hits(HapCigar(g0.ik, 1, |Trailing(refSeq, end, g0)|), k) +
        Hits(HapCigar(g1.ik, g1.pos - g0.pos + 1, |Trailing(refSeq, end, g1)|), k)
  {
    OverlapPloidyPaths(opt, refSeq, end, g0, g1);
    var z := Resize(g0.imod.ploidy, end - g0.pos);
    assert z[k] == 0;
  }

  /** The ploidy the overlap writes at offset `k` of the group: one from the
      first haplotype past its deletion, one from the second before its
      indel, one from the second past its deletion. */
  lemma OverlapPloidy(opt: Options, refSeq: seq<char>, end: int,
                      g0: IndelInfo, g1: IndelInfo, k: int)
    requires g0.pos == g0.ik.pos && g1.pos == g1.ik.pos
    requires g0.pos <= g1.pos <= end
    requires g0.imod.ploidy == []
    requires 0 <= k < end - g0.pos
    ensures var r := OverlapResolved(opt, refSeq, end, g0, g1)[0];
      |r.imod.ploidy| == end - g0.pos &&
      r.imod.ploidy[k] ==
        (if g0.ik.RightPos() - g0.pos <= k then 1 else 0) +
        (if k < g1.pos - g0.pos then 1 else 0) +
        (if g1.ik.RightPos() - g0.pos <= k then 1 else 0)
  {
    OverlapPloidyHits(opt, refSeq, end, g0, g1, k);
    HapCigarHits(g0.ik, 1, |Trailing(refSeq, end, g0)|, k);
    HapCigarHits(g1.ik, g1.pos - g0.pos + 1, |Trailing(refSeq, end, g1)|, k);
  }

  /** At most one haplotype covers each base of a simple overlap whose
      second indel starts inside or right after the first, so every ploidy
      is 0 or 1 when the group ends where either indel ends. */
  lemma OverlapPloidyAtMostOne(opt: Options, refSeq: seq<char>, end: int, g0: IndelInfo, g1: IndelInfo)
    requires g0.pos == g0.ik.pos && g1.pos == g1.ik.pos
    requires g0.pos <= g1.pos <= g0.ik.RightPos() && g1.pos <= end
    requires end <= g0.ik.RightPos() || end <= g1.ik.RightPos()
    requires g0.imod.ploidy == []
    ensures var r := OverlapResolved(opt, refSeq, end, g0, g1)[0];
      |r.imod.ploidy| == end - g0.pos &&
      forall k :: 0 <= k < |r.imod.ploidy| ==> r.imod.ploidy[k] <= 1
  {
    var r := OverlapResolved(opt, refSeq, end, g0, g1)[0];
    assert |r.imod.ploidy| == end - g0.pos;
    forall k | 0 <= k < |r.imod.ploidy| ensures r.imod.ploidy[k] <= 1 {
      OverlapPloidy(opt, refSeq, end, g0, g1, k);
    }
  }

  /** Both overlap paths fit the resized ploidy vector. */
  lemma OverlapPathsFit(refSeq: seq<char>, end: int, g0: IndelInfo, g1: IndelInfo)
    requires g0.pos == g0.ik.pos && g1.pos == g1.ik.pos
    requires g0.pos <= g1.pos <= end
    ensures Fits(SpliceHap(refSeq, g0.pos - 1, end, OverlapStart(refSeq, end, g0)).imod.cigar, end - g0.pos)
    ensures Fits(SpliceHap(refSeq, g0.pos - 1, end, g1).imod.cigar, end - g0.pos)
  {
    var t0 := |Trailing(refSeq, end, g0)|;
    var l1 := |Leading(refSeq, g0.pos - 1, g1)|;
    var t1 := |Trailing(refSeq, end, g1)|;
    HapCigarFits(g0.ik, 1, t0, end - g0.pos);
    HapCigarFits(g1.ik, l1 + 1, t1, end - g0.pos);
  }

  /** indel_info::get_ploidy (not part of this model): inside a merged
      overlap the accumulated vector; otherwise 1 for a heterozygous indel,
      0 for a homozygous one, 2 for no indel. */
  function GetPloidy(ii: IndelInfo, offset: int): nat
    requires ii.imod.isOverlap ==> 0 <= offset < |ii.imod.ploidy|
  {
    if ii.imod.isOverlap then ii.imod.ploidy[offset]
    else match ii.dindel.maxGt
      case Het => 1
      case Hom => 0
      case NoIndel => 2
  }

  /** The site at `offset` has a ploidy modify_indel_overlap_site accepts. */
  predicate PloidyOk(ii: IndelInfo, offset: int) {
    (ii.imod.isOverlap ==> 0 <= offset < |ii.imod.ploidy|) && GetPloidy(ii, offset) <= 1
  }

  /** One buffered site after resolution. */
  function ResolveSite(opt: Options, first: IndelInfo, conflict: bool, si: SiteInfo): (r: SiteInfo)
    requires conflict || PloidyOk(first, si.pos - first.pos)
    ensures r == si.(genome := r.genome, smod := r.smod)
    ensures conflict ==> r.smod.filters.indelConflict
  {
    if conflict then ModifyIndelConflictSite(si)
    else ModifyIndelOverlapSite(opt, first, GetPloidy(first, si.pos - first.pos), si)
  }

  predicate SitesPloidyOk(first: IndelInfo, sites: seq<SiteInfo>) {
    forall i :: 0 <= i < |sites| ==> PloidyOk(first, sites[i].pos - first.pos)
  }

  /** The site loop of process_overlaps: each buffered site re-annotated
      against the first indel of the resolved group. */
  function ResolveSites(opt: Options, first: IndelInfo, conflict: bool, sites: seq<SiteInfo>): (r: seq<SiteInfo>)
    requires conflict || SitesPloidyOk(first, sites)
    ensures |r| == |sites| && forall i :: 0 <= i < |r| ==> r[i].pos == sites[i].pos
  {
    seq(|sites|, i requires 0 <= i < |sites| => ResolveSite(opt, first, conflict, sites[i]))
  }

  /** The group invariant the aggregator keeps: members whose position is
      their key's, with cleared modifiers and a called indel, in position
      order, each starting no later than the previous one ends, and the
      group ending where its last member ends. */
  predicate GroupOk(group: seq<IndelInfo>, end: int) {
    |group| > 0 &&
    (forall i :: 0 <= i < |group| ==>
       group[i].imod == ClearedIndelMods && group[i].dindel.maxGt != NoIndel &&
       group[i].pos == group[i].ik.pos) &&
    (forall i, j :: 0 <= i < j < |group| ==> group[i].pos <= group[j].pos) &&
    (forall i :: 0 < i < |group| ==> group[i].pos <= group[i - 1].ik.RightPos()) &&
    end == group[|group| - 1].ik.RightPos()
  }

  /** Sites buffered under the group: inside it and in increasing order. */
  predicate SitesUnder(sites: seq<SiteInfo>, group: seq<IndelInfo>, end: int)
    requires |group| > 0
  {
    (forall i :: 0 <= i < |sites| ==> group[0].pos <= sites[i].pos < end) &&
    (forall i, j :: 0 <= i < j < |sites| ==> sites[i].pos < sites[j].pos)
  }

  /** The assertion on any ploidy other than 0 or 1 cannot fail: every site
      under an open group gets ploidy 0 or 1 from the resolved first indel. */
  lemma SitesResolvable(opt: Options, refSeq: seq<char>, end: int, group: seq<IndelInfo>, sites: seq<SiteInfo>)
    requires GroupOk(group, end) && SitesUnder(sites, group, end)
    ensures end >= group[0].pos
    ensures var g := ResolveGroup(opt, refSeq, end, group);
      Classify(group) != Conflict ==> SitesPloidyOk(g[0], sites)
  {
    assert group[0].pos <= group[|group| - 1].pos;
    var g := ResolveGroup(opt, refSeq, end, group);
    if Classify(group) == Single {
      assert !g[0].imod.isOverlap && g[0].dindel == group[0].dindel;
    } else if Classify(group) == SimpleOverlap {
      OverlapPloidyAtMostOne(opt, refSeq, end, group[0], group[1]);
    }
  }
}
