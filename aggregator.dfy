/** The gvcf_aggregator class: a streaming merger of site and indel calls
    into an ordered record stream, with reused buffers and size counters.
    Every method is proved to follow the function of module Aggregation
    that describes it on the abstract state. */
module Aggregator {
  import opened GvcfTypes
  import opened Cigar
  import opened Modifiers
  import opened Records
  import opened Blocks
  import opened Resolver
  import opened Merge
  import opened Aggregation

  class GvcfAggregator {
    const opt: Options
    const chrom: string
    const refSeq: seq<char>
    const reportBegin: int
    const reportEnd: int

    var headPos: int
    var indelEndPos: int
    /** The indel buffer; only the first indelBufferSize entries are live. */
    var indelBuf: seq<IndelInfo>
    var indelBufferSize: nat
    /** The site buffer; only the first siteBufferSize entries are live. */
    var siteBuf: seq<SiteInfo>
    var siteBufferSize: nat
    var block: BlockState
    /** The records written so far. */
    var out: seq<Record>

    function Cfg(): Config {
      Config(opt, chrom, refSeq)
    }

    predicate Sized()
      reads this
    {
      indelBufferSize <= |indelBuf| && siteBufferSize <= |siteBuf|
    }

    /** The live part of the object as a value. */
    function Abstract(): State
      reads this
      requires Sized()
    {
      State(headPos, indelEndPos, indelBuf[..indelBufferSize], siteBuf[..siteBufferSize], Sink(block, out))
    }

    ghost predicate Valid()
      reads this
    {
      Sized() && StateOk(Abstract())
    }

    /** Every field except the block and the output. */
    function Rest(): (int, int, seq<IndelInfo>, nat, seq<SiteInfo>, nat)
      reads this
    {
      (headPos, indelEndPos, indelBuf, indelBufferSize, siteBuf, siteBufferSize)
    }

    /** Every field except the indel buffer. */
    function NonIndel(): (int, int, nat, seq<SiteInfo>, nat, BlockState, seq<Record>)
      reads this
    {
      (headPos, indelEndPos, indelBufferSize, siteBuf, siteBufferSize, block, out)
    }

    /** Every field except the site buffer. */
    function NonSite(): (int, int, seq<IndelInfo>, nat, nat, BlockState, seq<Record>)
      reads this
    {
      (headPos, indelEndPos, indelBuf, indelBufferSize, siteBufferSize, block, out)
    }

    constructor(opt: Options, chrom: string, reportBegin: int, reportEnd: int, refSeq: seq<char>)
      ensures this.opt == opt && this.chrom == chrom && this.refSeq == refSeq
      ensures this.reportBegin == reportBegin && this.reportEnd == reportEnd
      ensures Valid() && Abstract() == InitState(reportBegin)
    {
      this.opt := opt;
      this.chrom := chrom;
      this.refSeq := refSeq;
      this.reportBegin := reportBegin;
      this.reportEnd := reportEnd;
      headPos := reportBegin;
      indelEndPos := 0;
      indelBuf := [];
      indelBufferSize := 0;
      siteBuf := [];
      siteBufferSize := 0;
      block := EmptyBlock;
      out := [];
    }

    /** write_site_record. */
    method WriteSiteRecord(si: SiteInfo)
      modifies this
      ensures Rest() == old(Rest()) && block == old(block)
      ensures out == old(out) + [SiteRecordOf(chrom, opt, si, block.count, block.minGqx)]
    {
      var alt: string;
      if si.smod.isUnknown || si.smod.isBlock {
        alt := ".";
      } else {
        alt := PrintVcfAlt(si.smod.maxGt, si.refGt);
      }
      var qual: Option<int> := if ShowsQual(si.smod) then Some(si.genome.snpQ) else None;
      var info: Option<BlockEnd> := None;
      if si.smod.isBlock {
        info := Some(BlockEnd(si.pos + block.count, opt.blockLabel));
      }
      var gqx: Option<int> := None;
      if ShowsGqx(si.smod) {
        if si.smod.isBlock {
          gqx := Some(block.minGqx);
        } else {
          gqx := Some(si.smod.gqx);
        }
      }
      out := out + [SiteRecord(chrom, si.pos + 1, si.ref, alt, qual, si.smod.filters, info, SiteSampleGt(si.smod), gqx)];
    }

    /** write_block_site_record: write the open block, if any, and reset it. */
    method WriteBlockSiteRecord()
      modifies this
      ensures Rest() == old(Rest())
      ensures Sink(block, out) == Flush(chrom, opt, old(Sink(block, out)))
    {
      if block.count == 0 {
        return;
      }
      WriteSiteRecord(block.record);
      block := EmptyBlock;
    }

    /** queue_site_record. */
    method QueueSiteRecord(si: SiteInfo)
      modifies this
      ensures Rest() == old(Rest())
      ensures Sink(block, out) == QueueSite(chrom, opt, old(Sink(block, out)), si)
    {
      if !Blockable(si) {
        WriteBlockSiteRecord();
        WriteSiteRecord(si);
      }
      if !Accepts(block, si) {
        WriteBlockSiteRecord();
      }
      block := Join(block, si);
    }

    /** write_indel_record: flush the block, then one record for the indel
      at `k` and, when it holds a merged overlap, the indel after it. */
    method WriteIndelRecord(k: nat)
      requires Sized() && RecordIndexOk(indelBuf[..indelBufferSize], k)
      modifies this
      ensures Rest() == old(Rest())
      ensures var f := Flush(chrom, opt, old(Sink(block, out)));
        block == f.block && out == f.out + [IndelRecordOf(chrom, indelBuf[..indelBufferSize], k)]
    {
      ghost var g := indelBuf[..indelBufferSize];
      WriteBlockSiteRecord();
      var ii := indelBuf[k];
      var endIndex := k;
      if ii.imod.isOverlap {
        endIndex := endIndex + 1;
      }
      var alts: seq<string> := [];
      var i := k;
      while i <= endIndex
        invariant k <= i <= endIndex + 1 && |alts| == i - k
        invariant forall t :: 0 <= t < |alts| ==> alts[t] == g[k + t].vcfIndelSeq
      {
        alts := alts + [indelBuf[i].vcfIndelSeq];
        i := i + 1;
      }
      var cigars: seq<seq<Segment>> := [];
      i := k;
      while i <= endIndex
        invariant k <= i <= endIndex + 1 && |cigars| == i - k
        invariant forall t :: 0 <= t < |cigars| ==> cigars[t] == g[k + t].imod.cigar
      {
        cigars := cigars + [indelBuf[i].imod.cigar];
        i := i + 1;
      }
      var rec := IndelRecord(chrom, ii.pos, ii.vcfRefSeq, alts, ii.dindel.indelQ, ii.imod.filters,
                             cigars, IndelSampleGt(ii.dindel.maxGt, ii.imod.isOverlap), ii.imod.gqx);
      assert rec == IndelRecordOf(chrom, g, k);
      out := out + [rec];
    }

    /** modify_single_indel_record. */
    method ModifySingleIndelRecord()
      requires Sized() && indelBufferSize == 1
      modifies this
      ensures NonIndel() == old(NonIndel()) && |indelBuf| == old(|indelBuf|)
      ensures indelBuf[0] == SingleResolved(opt, old(indelBuf[0])) && indelBuf[1..] == old(indelBuf[1..])
    {
      var ii := indelBuf[0];
      ii := ii.(imod := ii.imod.(cigar := HapCigar(ii.ik, 1, 0)));
      ii := AddIndelModifiers(opt, ii);
      indelBuf := indelBuf[0 := ii];
    }

    /** Lower the first indel's qualities to those of haplotype `hap` where
      they are higher. */
    method LowerQuals(hap: nat)
      requires hap < |indelBuf|
      modifies this
      ensures NonIndel() == old(NonIndel())
      ensures indelBuf == old(indelBuf)[0 := MinQuals(old(indelBuf[0]), old(indelBuf[hap]))]
    {
      var first := indelBuf[0];
      if first.dindel.indelQ > indelBuf[hap].dindel.indelQ {
        first := first.(dindel := first.dindel.(indelQ := indelBuf[hap].dindel.indelQ));
      }
      if first.dindel.maxGtQ > indelBuf[hap].dindel.maxGtQ {
        first := first.(dindel := first.dindel.(maxGtQ := indelBuf[hap].dindel.maxGtQ));
      }
      indelBuf := indelBuf[0 := first];
    }

    /** Splice haplotype `hap` against the shared span that starts after
      `begin`: its ALT gains the leading and trailing reference bases and
      its path the matching MATCH runs. */
    method SpliceHapAt(hap: nat, begin: int)
      requires hap < |indelBuf|
      modifies this
      ensures NonIndel() == old(NonIndel())
      ensures indelBuf == old(indelBuf)[hap := SpliceHap(refSeq, begin, indelEndPos, old(indelBuf[hap]))]
    {
      var h := indelBuf[hap];
      var leading := GetSubstring(refSeq, begin, (h.pos - begin) - 1);
      var trailLen := indelEndPos - h.ik.RightPos();
      var trailing := GetSubstring(refSeq, indelEndPos - trailLen, trailLen);
      h := h.(vcfIndelSeq := leading + h.vcfIndelSeq + trailing);
      h := h.(imod := h.imod.(cigar := HapCigar(h.ik, |leading| + 1, |trailing|)));
      indelBuf := indelBuf[hap := h];
    }

    /** add_cigar_to_ploidy on the first indel's ploidy vector. */
    method AddPathToFirst(c: seq<Segment>)
      requires 0 < |indelBuf| && Fits(c, |indelBuf[0].imod.ploidy|)
      modifies this
      ensures NonIndel() == old(NonIndel())
      ensures indelBuf == old(indelBuf)[0 := WithPath(old(indelBuf[0]), c)]
    {
      var p := AddCigarToPloidy(c, indelBuf[0].imod.ploidy);
      assert p == PloidyPlus(indelBuf[0].imod.ploidy, c);
      indelBuf := indelBuf[0 := indelBuf[0].(imod := indelBuf[0].imod.(ploidy := p))];
    }

    /** The haplotype loop of modify_overlap_indel_record, run once the
      first indel holds the shared REF and the resized ploidy vector. */
    method SpliceHaplotypes(ghost g0: IndelInfo, ghost g1: IndelInfo)
      requires 2 <= |indelBuf| && g0.pos == g0.ik.pos && g1.pos == g1.ik.pos
      requires g0.pos <= g1.pos <= indelEndPos
      requires indelBuf[0] == OverlapStart(refSeq, indelEndPos, g0) && indelBuf[1] == g1
      modifies this
      ensures NonIndel() == old(NonIndel()) && |indelBuf| == old(|indelBuf|)
      ensures indelBuf[2..] == old(indelBuf[2..])
      ensures var h1 := SpliceHap(refSeq, g0.pos - 1, indelEndPos, g1);
        indelBuf[0] == WithPath(MinQuals(Hap0(refSeq, indelEndPos, g0), g1), h1.imod.cigar) && indelBuf[1] == h1
    {
      OverlapPathsFit(refSeq, indelEndPos, g0, g1);
      var begin := indelBuf[0].pos - 1;
      ghost var h1 := SpliceHap(refSeq, begin, indelEndPos, g1);
      ghost var a0 := OverlapStart(refSeq, indelEndPos, g0);
      ghost var a1 := Hap0(refSeq, indelEndPos, g0);
      ghost var a2 := WithPath(MinQuals(a1, g1), h1.imod.cigar);
      ghost var rest := indelBuf[2..];
      for hap := 0 to 2
        invariant NonIndel() == old(NonIndel()) && |indelBuf| == old(|indelBuf|)
        invariant indelBuf[2..] == rest
        invariant indelBuf[0] == (if hap == 0 then a0 else if hap == 1 then a1 else a2)
        invariant indelBuf[1] == (if hap < 2 then g1 else h1)
      {
        if hap > 0 {
          LowerQuals(hap);
        }
        assert indelBuf[2..] == rest && |indelBuf[0].imod.ploidy| == indelEndPos - g0.pos;
        SpliceHapAt(hap, begin);
        assert indelBuf[2..] == rest && |indelBuf[0].imod.ploidy| == indelEndPos - g0.pos;
        AddPathToFirst(indelBuf[hap].imod.cigar);
        assert indelBuf[2..] == rest;
      }
    }

    /** modify_overlap_indel_record: the shared REF and ploidy vector go to
      the first indel, then each haplotype is spliced and its path added to
      the ploidy, the second also lowering the first's qualities. */
    method ModifyOverlapIndelRecord()
      requires Sized() && indelBufferSize == 2 && GroupOk(indelBuf[..2], indelEndPos)
      modifies this
      ensures NonIndel() == old(NonIndel()) && |indelBuf| == old(|indelBuf|)
      ensures indelBuf[..2] == OverlapResolved(opt, refSeq, indelEndPos, old(indelBuf[0]), old(indelBuf[1]))
      ensures indelBuf[2..] == old(indelBuf[2..])
    {
      ghost var g0, g1 := indelBuf[0], indelBuf[1];
      assert indelBuf[..2][0] == g0 && indelBuf[..2][1] == g1;
      var ii := indelBuf[0];
      ii := ii.(imod := ii.imod.(isOverlap := true));
      var begin := ii.pos - 1;
      ii := ii.(vcfRefSeq := GetSubstring(refSeq, begin, indelEndPos - begin));
      ii := ii.(imod := ii.imod.(ploidy := Resize(ii.imod.ploidy, indelEndPos - ii.pos)));
      indelBuf := indelBuf[0 := ii];
      SpliceHaplotypes(g0, g1);
      indelBuf := indelBuf[0 := AddIndelModifiers(opt, indelBuf[0])];
    }

    /** modify_conflict_indel_record: every member gets the default path,
      the IndelConflict filter and its indel modifiers. */
    method ModifyConflictIndelRecord()
      requires Sized() && indelBufferSize > 1
      modifies this
      ensures NonIndel() == old(NonIndel()) && |indelBuf| == old(|indelBuf|)
      ensures forall i :: 0 <= i < indelBufferSize ==> indelBuf[i] == ConflictResolved(opt, old(indelBuf[i]))
      ensures forall i :: indelBufferSize <= i < |indelBuf| ==> indelBuf[i] == old(indelBuf[i])
    {
      for i := 0 to indelBufferSize
        invariant NonIndel() == old(NonIndel()) && |indelBuf| == old(|indelBuf|)
        invariant forall t :: 0 <= t < i ==> indelBuf[t] == ConflictResolved(opt, old(indelBuf[t]))
        invariant forall t :: i <= t < |indelBuf| ==> indelBuf[t] == old(indelBuf[t])
      {
        var ii := indelBuf[i];
        ii := ii.(imod := ii.imod.(cigar := HapCigar(ii.ik, 1, 0)));
        ii := ii.(imod := ii.imod.(filters := ii.imod.filters.With(IndelConflict)));
        ii := AddIndelModifiers(opt, ii);
        indelBuf := indelBuf[i := ii];
      }
    }

    /** The first half of process_overlaps: resolve the group in place. */
    method ResolveIndels() returns (isConflictPrint: bool)
      requires Sized() && GroupPartOk(Abstract()) && indelBufferSize > 0
      modifies this
      ensures Sized() && NonIndel() == old(NonIndel())
      ensures var r := Resolved(Cfg(), old(Abstract()));
        indelBuf[..indelBufferSize] == r.0 && isConflictPrint == r.2
    {
      ghost var g := indelBuf[..indelBufferSize];
      ghost var r := Resolved(Cfg(), Abstract());
      isConflictPrint := false;
      if indelBufferSize == 1 {
        ModifySingleIndelRecord();
        assert indelBuf[..indelBufferSize] == [indelBuf[0]];
      } else if IsSimpleIndelOverlap(indelBuf, indelBufferSize) {
        assert Classify(g) == SimpleOverlap;
        assert indelBuf[..2] == g;
        ModifyOverlapIndelRecord();
      } else {
        assert Classify(g) == Conflict;
        ModifyConflictIndelRecord();
        isConflictPrint := true;
      }
    }

    /** The site loop of process_overlaps. */
    method ResolveBufferedSites(isConflictPrint: bool)
      requires Sized() && indelBufferSize > 0
      requires forall t :: 0 <= t < siteBufferSize ==> indelBuf[0].pos <= siteBuf[t].pos
      requires isConflictPrint || SitesPloidyOk(indelBuf[0], siteBuf[..siteBufferSize])
      modifies this
      ensures Sized() && NonSite() == old(NonSite())
      ensures siteBuf[..siteBufferSize] == ResolveSites(opt, indelBuf[0], isConflictPrint, old(siteBuf[..siteBufferSize]))
    {
      ghost var sites := siteBuf[..siteBufferSize];
      for i := 0 to siteBufferSize
        invariant NonSite() == old(NonSite()) && |siteBuf| == old(|siteBuf|)
        invariant forall t :: 0 <= t < i ==> siteBuf[t] == ResolveSite(opt, indelBuf[0], isConflictPrint, sites[t])
        invariant forall t :: i <= t < |siteBuf| ==> siteBuf[t] == old(siteBuf[t])
      {
        assert siteBuf[i] == sites[i];
        var offset := siteBuf[i].pos - indelBuf[0].pos;
        assert offset >= 0;
        if !isConflictPrint {
          siteBuf := siteBuf[i := ModifyIndelOverlapSite(opt, indelBuf[0], GetPloidy(indelBuf[0], offset), siteBuf[i])];
        } else {
          siteBuf := siteBuf[i := ModifyIndelConflictSite(siteBuf[i])];
        }
      }
    }

    /** One step of the merge loop from indel index `i` and site index `j`
      when either buffer has an entry left: the next indel if it lies at or
      before the next site, else the next site. */
    method MergeStep(isConflictPrint: bool, i: nat, j: nat) returns (i': nat, j': nat)
      requires Sized() && MergeOk(indelBuf[..indelBufferSize], isConflictPrint)
      requires i <= indelBufferSize && j <= siteBufferSize && (i < indelBufferSize || j < siteBufferSize)
      requires !isConflictPrint ==> i == 0 || i == indelBufferSize
      modifies this
      ensures Rest() == old(Rest())
      ensures i' <= indelBufferSize && j' <= siteBufferSize && i + j < i' + j'
      ensures !isConflictPrint ==> i' == 0 || i' == indelBufferSize
      ensures var g := indelBuf[..indelBufferSize];
        var sites := siteBuf[..siteBufferSize];
        var ip, sp := IndelPositions(g), SitePositions(sites);
        var evs := MergeFrom(ip, sp, isConflictPrint, i, j);
        evs != [] && evs[1..] == MergeFrom(ip, sp, isConflictPrint, i', j') && EventOk(g, sites, evs[0]) &&
        Sink(block, out) == ApplyEvent(Cfg(), old(Sink(block, out)), g, sites, evs[0])
    {
      ghost var g := indelBuf[..indelBufferSize];
      ghost var sites := siteBuf[..siteBufferSize];
      ghost var ip, sp := IndelPositions(g), SitePositions(sites);
      ghost var evs := MergeFrom(ip, sp, isConflictPrint, i, j);
      MergeEventsOk(g, sites, isConflictPrint, i, j);
      var isIndel := i < indelBufferSize;
      var isSite := j < siteBufferSize;
      assert isIndel ==> indelBuf[i].pos == ip[i];
      assert isSite ==> siteBuf[j] == sites[j];
      if isIndel && (!isSite || indelBuf[i].pos <= siteBuf[j].pos) {
        assert evs[0] == WriteIndel(i);
        WriteIndelRecord(i);
        j' := j;
        if isConflictPrint {
          i' := i + 1;
        } else {
          i' := indelBufferSize;
        }
      } else {
        assert evs[0] == QueueBufferedSite(j);
        QueueSiteRecord(siteBuf[j]);
        i', j' := i, j + 1;
      }
    }

    /** The merge loop of process_overlaps: indels and sites in position
      order, an indel first on a tie. */
    method MergeRecords(isConflictPrint: bool)
      requires Sized() && MergeOk(indelBuf[..indelBufferSize], isConflictPrint)
      modifies this
      ensures Rest() == old(Rest())
      ensures var g := indelBuf[..indelBufferSize];
        var sites := siteBuf[..siteBufferSize];
        var evs := MergeFrom(IndelPositions(g), SitePositions(sites), isConflictPrint, 0, 0);
        EventsOk(g, sites, evs) && Sink(block, out) == ApplyAll(Cfg(), old(Sink(block, out)), g, sites, evs)
    {
      ghost var g := indelBuf[..indelBufferSize];
      ghost var sites := siteBuf[..siteBufferSize];
      ghost var ip, sp := IndelPositions(g), SitePositions(sites);
      ghost var sink0 := Sink(block, out);
      var indelIndex: nat, siteIndex: nat := 0, 0;
      MergeEventsOk(g, sites, isConflictPrint, 0, 0);
      while true
        invariant Rest() == old(Rest())
        invariant indelIndex <= indelBufferSize && siteIndex <= siteBufferSize
        invariant !isConflictPrint ==> indelIndex == 0 || indelIndex == indelBufferSize
        invariant EventsOk(g, sites, MergeFrom(ip, sp, isConflictPrint, indelIndex, siteIndex))
        invariant ApplyAll(Cfg(), Sink(block, out), g, sites, MergeFrom(ip, sp, isConflictPrint, indelIndex, siteIndex))
               == ApplyAll(Cfg(), sink0, g, sites, MergeFrom(ip, sp, isConflictPrint, 0, 0))
        decreases indelBufferSize - indelIndex + siteBufferSize - siteIndex
      {
        var isIndel := indelIndex < indelBufferSize;
        var isSite := siteIndex < siteBufferSize;
        if !(isIndel || isSite) {
          break;
        }
        indelIndex, siteIndex := MergeStep(isConflictPrint, indelIndex, siteIndex);
        MergeEventsOk(g, sites, isConflictPrint, indelIndex, siteIndex);
      }
    }

    /** process_overlaps on an open group, up to the point where both
      buffers are emptied: resolve, write the size line, re-annotate the
      buffered sites and merge. */
    method ProcessGroup()
      requires Sized() && GroupPartOk(Abstract()) && indelBufferSize > 0
      modifies this
      ensures Sized() && headPos == old(headPos) && indelEndPos == old(indelEndPos)
      ensures Sink(block, out) == ProcessSpec(Cfg(), old(Abstract())).sink
    {
      ghost var s0 := Abstract();
      ghost var r := Resolved(Cfg(), s0);
      SitesResolvable(opt, refSeq, indelEndPos, s0.group, s0.sites);
      ResolveGroupFacts(opt, refSeq, indelEndPos, s0.group);
      var isConflictPrint := ResolveIndels();
      out := out + [IndelSizeLine(indelBufferSize)];
      assert siteBuf[..siteBufferSize] == s0.sites;
      ResolveBufferedSites(isConflictPrint);
      MergeRecords(isConflictPrint);
    }

    /** process_overlaps. */
    method ProcessOverlaps()
      requires Sized() && GroupPartOk(Abstract())
      modifies this
      ensures Sized() && Abstract() == ProcessSpec(Cfg(), old(Abstract()))
    {
      if indelBufferSize == 0 {
        return;
      }
      ProcessGroup();
      indelBufferSize := 0;
      siteBufferSize := 0;
    }

    /** Store a site in the next free slot of the site buffer, growing the
      buffer when every slot is in use. */
    method BufferSite(si: SiteInfo)
      requires Sized()
      modifies this
      ensures Sized() && Abstract() == old(Abstract()).(sites := old(Abstract()).sites + [si])
    {
      ghost var sites := siteBuf[..siteBufferSize];
      ghost var others := NonSite();
      while |siteBuf| <= siteBufferSize
        invariant NonSite() == others
        invariant siteBufferSize <= |siteBuf| && siteBuf[..siteBufferSize] == sites
        decreases siteBufferSize + 1 - |siteBuf|
      {
        siteBuf := siteBuf + [DefaultSite];
      }
      siteBuf := siteBuf[siteBufferSize := si];
      siteBufferSize := siteBufferSize + 1;
      assert siteBuf[..siteBufferSize] == sites + [si];
    }

    /** add_site_internal. */
    method AddSiteInternal(si: SiteInfo)
      requires Valid() && si.pos >= headPos
      modifies this
      ensures Valid() && Abstract() == AddSiteInternalSpec(Cfg(), old(Abstract()), si)
    {
      ghost var s1 := Abstract().(head := si.pos + 1);
      headPos := si.pos + 1;
      assert Abstract() == s1 && GroupPartOk(s1);
      if indelBufferSize != 0 {
        if si.pos >= indelEndPos {
          ProcessOverlaps();
        } else {
          BufferSite(si);
          return;
        }
      }
      QueueSiteRecord(si);
    }

    /** skip_to_pos. */
    method SkipToPos(targetPos: int)
      requires Valid()
      modifies this
      ensures Valid() && Abstract() == SkipSpec(Cfg(), old(Abstract()), targetPos)
    {
      while headPos < targetPos
        invariant Valid()
        invariant SkipSpec(Cfg(), Abstract(), targetPos) == SkipSpec(Cfg(), old(Abstract()), targetPos)
        decreases targetPos - headPos
      {
        AddSiteInternal(EmptySite(opt, headPos));
        if indelBufferSize != 0 {
          continue;
        }
        assert block.count != 0;
        block := block.(count := block.count + (targetPos - headPos));
        headPos := targetPos;
      }
    }

    /** add_site. The caller's site is annotated in place in the source;
        here the annotated site is handed back as `annotated`. */
    method AddSite(si: SiteInfo) returns (annotated: SiteInfo)
      requires Valid() && si.pos >= headPos
      modifies this
      ensures annotated == AddSiteModifiers(opt, si)
      ensures Valid() && Abstract() == AddSiteSpec(Cfg(), old(Abstract()), si)
    {
      SkipToPos(si.pos);
      annotated := AddSiteModifiers(opt, si);
      AddSiteInternal(annotated);
    }

    /** Store an indel in the next free slot of the indel buffer, growing
      the buffer when every slot is in use. */
    method BufferIndel(ii: IndelInfo)
      requires Sized()
      modifies this
      ensures Sized() && Abstract() == old(Abstract()).(group := old(Abstract()).group + [ii])
    {
      ghost var g := indelBuf[..indelBufferSize];
      ghost var others := NonIndel();
      while |indelBuf| <= indelBufferSize
        invariant NonIndel() == others
        invariant indelBufferSize <= |indelBuf| && indelBuf[..indelBufferSize] == g
        decreases indelBufferSize + 1 - |indelBuf|
      {
        indelBuf := indelBuf + [DefaultIndel];
      }
      indelBuf := indelBuf[indelBufferSize := ii];
      indelBufferSize := indelBufferSize + 1;
      assert indelBuf[..indelBufferSize] == g + [ii];
    }

    /** The part of add_indel after its two early returns: fill the gap,
      widen the open group's end or open a group, buffer the indel and set
      the group end to its right end. */
    method AddCalledIndel(pos: int, ik: IndelKey, dindel: DiIndel, iri: IndelReport, isri: IndelSampleReport)
      requires Valid() && pos >= headPos && pos == ik.pos
      modifies this
      ensures Sized()
      ensures var s1 := SkipSpec(Cfg(), old(Abstract()), pos);
        var s2 := if |s1.group| != 0 then s1.(end := if s1.end < ik.RightPos() then ik.RightPos() else s1.end) else s1;
        Abstract() == s2.(group := s2.group + [InitIndel(pos, ik, dindel, iri, isri)], end := ik.RightPos())
    {
      SkipToPos(pos);
      if indelBufferSize != 0 {
        if pos <= indelEndPos {
          indelEndPos := if indelEndPos < ik.RightPos() then ik.RightPos() else indelEndPos;
        } else {
          // After skip_to_pos the head is at pos, and an open group always
          // reaches the head, so this call of process_overlaps cannot happen.
          assert false;
        }
      }
      BufferIndel(InitIndel(pos, ik, dindel, iri, isri));
      indelEndPos := ik.RightPos();
    }

    /** add_indel, with the group end overwritten as the source does. */
    method AddIndel(pos: int, ik: IndelKey, dindel: DiIndel, iri: IndelReport, isri: IndelSampleReport)
      requires Valid() && pos >= headPos && pos == ik.pos
      modifies this
      ensures Valid() && Abstract() == AddIndelSpec(Cfg(), old(Abstract()), pos, ik, dindel, iri, isri)
    {
      AddIndelOk(Cfg(), Abstract(), pos, ik, dindel, iri, isri);
      if ik.isBreakpoint {
        return;
      }
      if IsNoIndel(dindel) {
        return;
      }
      AddIndelAfterSkip(Cfg(), Abstract(), pos, ik, dindel, iri, isri);
      AddCalledIndel(pos, ik, dindel, iri, isri);
    }

    /** The destructor: fill to one past the reported range, then close the
      last group. */
    method Finish()
      requires Valid()
      modifies this
      ensures Valid() && Abstract() == FinishSpec(Cfg(), old(Abstract()), reportEnd)
    {
      SkipToPos(reportEnd + 1);
      ProcessOverlaps();
    }
  }
}
