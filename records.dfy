/** The record writer: site and indel records as field tuples, in the
    column order CHROM, POS, REF, ALT, QUAL, FILTER, INFO, SAMPLE (the ID and
    FORMAT columns are the constants "." and "GT:GQX" and are not carried). */
module Records {
  import opened GvcfTypes

  /** The genotype shown in a site's SAMPLE column. site_info::get_gt is not
      part of this model: an override tag wins, an unknown reference shows
      no call, otherwise the selected genotype. */
  datatype SiteGt = CalledGt(gt: Digt) | NoCallGt | ModifiedCallGt(tag: ModifiedGt)

  /** The genotype shown in an indel's SAMPLE column (indel_info::get_gt is
      not part of this model): the selected genotype and whether the record
      carries two merged alleles. */
  datatype IndelSampleGt = IndelSampleGt(gt: IndelGt, isOverlap: bool)

  /** INFO of a block record: END=<end>;<label>. */
  datatype BlockEnd = BlockEnd(endPos: int, blockLabel: string)

  datatype Record =
    | SiteRecord(chrom: string, pos: int, refBase: char, alt: string, qual: Option<int>,
                 filters: FilterSet, info: Option<BlockEnd>, gt: SiteGt, gqx: Option<int>)
    | IndelRecord(chrom: string, pos: int, refSeq: string, alts: seq<string>, indelQual: int,
                  filters: FilterSet, cigars: seq<seq<Segment>>, indelGt: IndelSampleGt, indelGqx: int)
      /** The debug line "INDEL_SIZE: <n>" written when a group is resolved. */
    | IndelSizeLine(size: nat)

  /** The non-reference bases of `gt` below base `b`, in base order. */
  function AltBelow(gt: Digt, refGt: Base, b: nat): seq<Base>
    requires b <= 4
  {
    if b == 0 then []
    else AltBelow(gt, refGt, b - 1) + (if b - 1 != refGt && Expect2(b - 1, gt) > 0 then [(b - 1) as Base] else [])
  }

  /** The bases below `b` are exactly the carried non-reference ones, each
      once and in ascending order. */
  lemma {:induction false} AltBelowSpec(gt: Digt, refGt: Base, b: nat)
    requires b <= 4
    ensures var r := AltBelow(gt, refGt, b);
      (forall i :: 0 <= i < |r| ==> r[i] < b && r[i] != refGt && Expect2(r[i], gt) > 0) &&
      (forall i, j :: 0 <= i < j < |r| ==> r[i] < r[j]) &&
      (forall c: Base :: c < b && c != refGt && Expect2(c, gt) > 0 ==> c in r)
  {
    if b > 0 {
      AltBelowSpec(gt, refGt, b - 1);
    }
  }

  /** The ALT bases of a site call: every base other than the reference base
      that the genotype carries, ascending. */
  function AltBases(gt: Digt, refGt: Base): seq<Base> {
    AltBelow(gt, refGt, 4)
  }

  /** The bases as text, separated by commas. */
  function JoinBases(bs: seq<Base>): string {
    if |bs| == 0 then []
    else if |bs| == 1 then [BaseChar(bs[0])]
    else [BaseChar(bs[0]), ','] + JoinBases(bs[1..])
  }

  /** The ALT column print_vcf_alt writes: the ALT bases, or "." when none. */
  function AltText(gt: Digt, refGt: Base): string {
    var bs := AltBases(gt, refGt);
    if |bs| == 0 then "." else JoinBases(bs)
  }

  /** print_vcf_alt: one pass over the four bases, skipping the reference
      base, writing each carried base with a comma between, "." if none. */
  method PrintVcfAlt(gt: Digt, refGt: Base) returns (os: string)
    ensures os == AltText(gt, refGt)
  {
    os := [];
    var isPrint := false;
    var b := 0;
    while b < 4
      invariant 0 <= b <= 4
      invariant isPrint <==> |AltBelow(gt, refGt, b)| > 0
      invariant os == JoinBases(AltBelow(gt, refGt, b))
    {
      ghost var done := AltBelow(gt, refGt, b);
      if b != refGt && Expect2(b, gt) > 0 {
        assert AltBelow(gt, refGt, b + 1) == done + [b as Base];
        JoinSnoc(done, b as Base);
        if isPrint { os := os + [',']; }
        os := os + [BaseChar(b)];
        isPrint := true;
      } else {
        assert AltBelow(gt, refGt, b + 1) == done;
      }
      b := b + 1;
    }
    if !isPrint { os := os + ['.']; }
  }

  lemma {:induction false} JoinSnoc(bs: seq<Base>, b: Base)
    ensures JoinBases(bs + [b]) == JoinBases(bs) + (if |bs| > 0 then [','] else []) + [BaseChar(b)]
    decreases |bs|
  {
    if |bs| > 1 {
      assert (bs + [b])[1..] == bs[1..] + [b];
      JoinSnoc(bs[1..], b);
    } else if |bs| == 1 {
      assert (bs + [b])[1..] == [b];
    }
  }

  /** A homozygous-reference call has no ALT allele. */
  lemma AltTextHomRef(refGt: Base)
    ensures AltText(refGt, refGt) == "."
  {
    AltBelowSpec(refGt, refGt, 4);
  }

  /** When `o` is the only carried non-reference base, the bases below `b`
      are `o` alone if it is below `b`, else none. */
  lemma {:induction false} AltBelowSingle(gt: Digt, refGt: Base, o: Base, b: nat)
    requires b <= 4
    requires o != refGt && Expect2(o, gt) > 0
    requires forall c: Base :: c != refGt && Expect2(c, gt) > 0 ==> c == o
    ensures AltBelow(gt, refGt, b) == if o < b then [o] else []
  {
    if b > 0 {
      AltBelowSingle(gt, refGt, o, b - 1);
    }
  }

  /** A heterozygous call with one reference allele shows exactly the other one. */
  lemma AltTextHetRef(gt: Digt, refGt: Base)
    requires IsHet(gt) && Expect2(refGt, gt) > 0
    ensures var o := if Alleles(gt).0 == refGt then Alleles(gt).1 else Alleles(gt).0;
      AltText(gt, refGt) == [BaseChar(o)]
  {
    var o: Base := if Alleles(gt).0 == refGt then Alleles(gt).1 else Alleles(gt).0;
    AltBelowSingle(gt, refGt, o, 4);
  }

  /** site_modifiers::is_gqx (not part of this model): a GQX is shown for a
      covered site that is not zero-ploidy. */
  predicate ShowsGqx(smod: SiteMods) {
    smod.isUsedCovered && !smod.isZeroPloidy
  }

  /** site_modifiers::is_qual (not part of this model): a QUAL is shown for
      a covered, non-block, non-zero-ploidy site. */
  predicate ShowsQual(smod: SiteMods) {
    smod.isUsedCovered && !smod.isZeroPloidy && !smod.isBlock
  }

  function SiteSampleGt(smod: SiteMods): SiteGt {
    if smod.modifiedGt != Unmodified then ModifiedCallGt(smod.modifiedGt)
    else if smod.isUnknown then NoCallGt
    else CalledGt(smod.maxGt)
  }

  /** write_site_record, given the open block's run length and minimum GQX,
      which the record uses when it is itself the block's record. */
  function SiteRecordOf(chrom: string, opt: Options, si: SiteInfo, blockCount: nat, blockMin: int): (r: Record)
    ensures r.SiteRecord? && r.pos == si.pos + 1 && r.refBase == si.ref && r.filters == si.smod.filters
    ensures r.alt == if si.smod.isUnknown || si.smod.isBlock then "." else AltText(si.smod.maxGt, si.refGt)
    ensures r.info == if si.smod.isBlock then Some(BlockEnd(si.pos + blockCount, opt.blockLabel)) else None
    ensures r.gqx == if !ShowsGqx(si.smod) then None else if si.smod.isBlock then Some(blockMin) else Some(si.smod.gqx)
  {
    SiteRecord(
      chrom, si.pos + 1, si.ref,
      if si.smod.isUnknown || si.smod.isBlock then "." else AltText(si.smod.maxGt, si.refGt),
      if ShowsQual(si.smod) then Some(si.genome.snpQ) else None,
      si.smod.filters,
      if si.smod.isBlock then Some(BlockEnd(si.pos + blockCount, opt.blockLabel)) else None,
      SiteSampleGt(si.smod),
      if ShowsGqx(si.smod) then Some(if si.smod.isBlock then blockMin else si.smod.gqx) else None)
  }

  /** The buffer indices an indel record covers: one, or two when the record
      at `k` carries a merged overlap. */
  predicate RecordIndexOk(buf: seq<IndelInfo>, k: int) {
    0 <= k < |buf| && (buf[k].imod.isOverlap ==> k + 1 < |buf|)
  }

  /** write_indel_record for buffer index `k`: REF, QUAL, FILTER and SAMPLE
      come from the indel at `k`; ALT and CIGAR list it and, for a merged
      overlap, the indel after it. */
  function IndelRecordOf(chrom: string, buf: seq<IndelInfo>, k: int): (r: Record)
    requires RecordIndexOk(buf, k)
    ensures r.IndelRecord? && r.pos == buf[k].pos && r.refSeq == buf[k].vcfRefSeq
    ensures r.indelQual == buf[k].dindel.indelQ && r.filters == buf[k].imod.filters && r.indelGqx == buf[k].imod.gqx
    ensures |r.alts| == |r.cigars| == (if buf[k].imod.isOverlap then 2 else 1)
    ensures forall i :: 0 <= i < |r.alts| ==>
      r.alts[i] == buf[k + i].vcfIndelSeq && r.cigars[i] == buf[k + i].imod.cigar
  {
    var last := if buf[k].imod.isOverlap then k + 1 else k;
    IndelRecord(
      chrom, buf[k].pos, buf[k].vcfRefSeq,
      seq(last - k + 1, i requires 0 <= i <= last - k => buf[k + i].vcfIndelSeq),
      buf[k].dindel.indelQ, buf[k].imod.filters,
      seq(last - k + 1, i requires 0 <= i <= last - k => buf[k + i].imod.cigar),
      IndelSampleGt(buf[k].dindel.maxGt, buf[k].imod.isOverlap),
      buf[k].imod.gqx)
  }
}
