/** Values the gVCF aggregator reads and annotates: site calls, indel calls,
    their modifiers, the filter flags and the configuration thresholds. */
module GvcfTypes {

  datatype Option<T> = None | Some(value: T)

  /** The VCF filters this core can set. */
  datatype Filter = LowGQX | HighDepth | SiteConflict | IndelConflict

  /** A filter bit set, one flag per filter. */
  datatype FilterSet = FilterSet(lowGqx: bool, highDepth: bool, siteConflict: bool, indelConflict: bool) {
    predicate Has(f: Filter) {
      match f
      case LowGQX => lowGqx
      case HighDepth => highDepth
      case SiteConflict => siteConflict
      case IndelConflict => indelConflict
    }

    /** set_filter: raise one flag. */
    function With(f: Filter): (r: FilterSet)
      ensures r.Has(f)
      ensures forall g :: g != f ==> (r.Has(g) <==> Has(g))
    {
      match f
      case LowGQX => this.(lowGqx := true)
      case HighDepth => this.(highDepth := true)
      case SiteConflict => this.(siteConflict := true)
      case IndelConflict => this.(indelConflict := true)
    }

    /** Bitwise and of two filter sets. */
    function Meet(o: FilterSet): (r: FilterSet)
      ensures forall g :: r.Has(g) <==> Has(g) && o.Has(g)
    {
      FilterSet(lowGqx && o.lowGqx, highDepth && o.highDepth,
                siteConflict && o.siteConflict, indelConflict && o.indelConflict)
    }
  }

  const NoFilters := FilterSet(false, false, false, false)

  /** Genotype override tag set when an indel changes a covered site's ploidy. */
  datatype ModifiedGt = Unmodified | ModZero | ModOne | ModUnknown

  /** The thresholds of the options object that this core consults. The
      floating-point block tolerance is not carried (see Blockable). */
  datatype Options = Options(
    isMinGqx: bool, minGqx: int,
    isMaxDepth: bool, maxDepth: int,
    blockLabel: string)

  /** A base index A=0, C=1, G=2, T=3. */
  type Base = b: nat | b < 4

  /** A diploid genotype index in the order AA, CC, GG, TT, AC, AG, AT, CG, CT, GT:
      the four homozygous genotypes share their index with their base. */
  type Digt = g: nat | g < 10

  function Alleles(gt: Digt): (r: (Base, Base))
    ensures r.0 <= r.1
    ensures gt < 4 <==> r.0 == r.1
    ensures gt < 4 ==> r.0 == gt
  {
    if gt < 4 then (gt, gt)
    else if gt == 4 then (0, 1)
    else if gt == 5 then (0, 2)
    else if gt == 6 then (0, 3)
    else if gt == 7 then (1, 2)
    else if gt == 8 then (1, 3)
    else (2, 3)
  }

  /** Number of copies of base `b` in genotype `gt` (DIGT::expect2). */
  function Expect2(b: Base, gt: Digt): (r: nat)
    ensures r <= 2
    ensures r > 0 <==> b == Alleles(gt).0 || b == Alleles(gt).1
  {
    (if Alleles(gt).0 == b then 1 else 0) + (if Alleles(gt).1 == b then 1 else 0)
  }

  /** DIGT::is_het: the two alleles differ. */
  predicate IsHet(gt: Digt) {
    gt >= 4
  }

  function BaseChar(b: Base): char {
    if b == 0 then 'A' else if b == 1 then 'C' else if b == 2 then 'G' else 'T'
  }

  /** One genotype result set: selected genotype, its quality, the SNP quality. */
  datatype GtResult = GtResult(maxGt: Digt, maxGtQ: int, snpQ: int)

  /** The mutable annotation of a site (site_modifiers). */
  datatype SiteMods = SiteMods(
    isUnknown: bool, isUsedCovered: bool, isCovered: bool,
    isBlock: bool, isZeroPloidy: bool,
    maxGt: Digt, gqx: int,
    filters: FilterSet,
    modifiedGt: ModifiedGt)

  const ClearedSiteMods := SiteMods(false, false, false, false, false, 0, 0, NoFilters, Unmodified)

  /** A site call. `refFracHigh` stands for the outcome of the floating-point
      reference-fraction test: the fraction of used calls matching the
      reference plus the block tolerance exceeds 1. */
  datatype SiteInfo = SiteInfo(
    pos: int, ref: char,
    nUsed: nat, nUnused: nat,
    refGt: Base, isSnp: bool, refFracHigh: bool,
    genome: GtResult, poly: GtResult,
    smod: SiteMods)

  /** A default-constructed site: unknown reference, no calls. */
  const DefaultSite := SiteInfo(0, 'N', 0, 0, 0, false, false,
                                GtResult(0, 0, 0), GtResult(0, 0, 0), ClearedSiteMods)

  datatype IndelGt = NoIndel | Hom | Het

  /** An indel key: left position, deleted and inserted lengths, breakpoint flag. */
  datatype IndelKey = IndelKey(pos: int, deleteLength: nat, insertLength: nat, isBreakpoint: bool) {
    /** The first reference position after the deleted bases. */
    function RightPos(): int { pos + deleteLength }
  }

  /** The diploid indel result: selected genotype and the two qualities. */
  datatype DiIndel = DiIndel(maxGt: IndelGt, indelQ: int, maxGtQ: int)

  /** The indel report info (VCF REF and ALT texts) and the sample report info (depth). */
  datatype IndelReport = IndelReport(vcfRefSeq: string, vcfIndelSeq: string)
  datatype IndelSampleReport = IndelSampleReport(depth: int)

  datatype SegType = Match | Insert | Delete

  /** One run of an alignment path. */
  datatype Segment = Segment(kind: SegType, length: nat)

  /** The mutable annotation of an indel (indel_modifiers). */
  datatype IndelMods = IndelMods(
    cigar: seq<Segment>, ploidy: seq<nat>,
    filters: FilterSet, gqx: int, isOverlap: bool)

  const ClearedIndelMods := IndelMods([], [], NoFilters, 0, false)

  datatype IndelInfo = IndelInfo(
    pos: int, ik: IndelKey, dindel: DiIndel,
    vcfRefSeq: string, vcfIndelSeq: string,
    depth: int, imod: IndelMods)

  /** A default-constructed indel record, used to grow the buffer. */
  const DefaultIndel := IndelInfo(0, IndelKey(0, 0, 0, false), DiIndel(NoIndel, 0, 0), [], [], 0, ClearedIndelMods)

  /** indel_info::init: the modifiers start cleared. */
  function InitIndel(pos: int, ik: IndelKey, dindel: DiIndel,
                     iri: IndelReport, isri: IndelSampleReport): (r: IndelInfo)
    ensures r.pos == pos && r.ik == ik && r.dindel == dindel
    ensures r.imod == ClearedIndelMods
  {
    IndelInfo(pos, ik, dindel, iri.vcfRefSeq, iri.vcfIndelSeq, isri.depth, ClearedIndelMods)
  }

  /** The reference base at `p`, with 'N' outside the stored segment. */
  function RefBase(refSeq: seq<char>, p: int): char {
    if 0 <= p < |refSeq| then refSeq[p] else 'N'
  }

  /** reference_contig_segment::get_substring over an abstract reference
      sequence; a negative length yields the empty string. */
  function GetSubstring(refSeq: seq<char>, start: int, length: int): (r: string)
    ensures |r| == if length < 0 then 0 else length
    ensures forall i :: 0 <= i < |r| ==> r[i] == RefBase(refSeq, start + i)
  {
    seq(if length < 0 then 0 else length, i => RefBase(refSeq, start + i))
  }

  function Min(a: int, b: int): int { if a < b then a else b }
}
