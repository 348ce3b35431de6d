/** Non-variant block compression and the site record queue
    (queue_site_record). The block compressor type is not part of this
    model: `BlockState` stands in for it with the run length, the first
    site of the run and the running minimum GQX. */
module Blocks {
  import opened GvcfTypes
  import opened Modifiers
  import opened Records

  datatype BlockState = BlockState(count: nat, record: SiteInfo, minGqx: int)

  const EmptyBlock := BlockState(0, DefaultSite, 0)

  /** The annotation a site must share with the open block's record to join it. */
  predicate SameShape(a: SiteMods, b: SiteMods) {
    a.filters == b.filters && a.isUnknown == b.isUnknown &&
    a.isUsedCovered == b.isUsedCovered && a.isCovered == b.isCovered &&
    a.isZeroPloidy == b.isZeroPloidy && a.modifiedGt == b.modifiedGt
  }

  /** block.test: an empty block accepts anything; otherwise the site must
      follow the run directly and share its annotation. */
  predicate Accepts(b: BlockState, si: SiteInfo) {
    b.count == 0 || (b.record.pos + b.count == si.pos && SameShape(b.record.smod, si.smod))
  }

  /** block.join: the first site becomes the block's record, every site
      lengthens the run and lowers the minimum GQX. */
  function Join(b: BlockState, si: SiteInfo): (r: BlockState)
    ensures r.count == b.count + 1
    ensures b.count == 0 ==> r.record == si.(smod := si.smod.(isBlock := true)) && r.minGqx == si.smod.gqx
    ensures b.count > 0 ==> r.record == b.record && r.minGqx == Min(b.minGqx, si.smod.gqx)
  {
    if b.count == 0 then BlockState(1, si.(smod := si.smod.(isBlock := true)), si.smod.gqx)
    else BlockState(b.count + 1, b.record, Min(b.minGqx, si.smod.gqx))
  }

  /** The output stream and the open block. */
  datatype Sink = Sink(block: BlockState, out: seq<Record>)

  /** write_block_site_record: write the open block as one record and reset it. */
  function Flush(chrom: string, opt: Options, s: Sink): (r: Sink)
    ensures s.block.count == 0 ==> r == s
    ensures s.block.count > 0 ==>
      r.block.count == 0 &&
      r.out == s.out + [SiteRecordOf(chrom, opt, s.block.record, s.block.count, s.block.minGqx)]
  {
    if s.block.count == 0 then s
    else Sink(EmptyBlock, s.out + [SiteRecordOf(chrom, opt, s.block.record, s.block.count, s.block.minGqx)])
  }

  /** write_site_record for a site outside the block. */
  function WriteSite(chrom: string, opt: Options, s: Sink, si: SiteInfo): Sink {
    s.(out := s.out + [SiteRecordOf(chrom, opt, si, s.block.count, s.block.minGqx)])
  }

  /** queue_site_record as written: an unblockable site flushes the block
      and is written directly, and then, since nothing returns after that
      write, is still tested against the block and joined to it. */
  function QueueSite(chrom: string, opt: Options, s: Sink, si: SiteInfo): Sink {
    var s1 := if !Blockable(si) then WriteSite(chrom, opt, Flush(chrom, opt, s), si) else s;
    var s2 := if !Accepts(s1.block, si) then Flush(chrom, opt, s1) else s1;
    s2.(block := Join(s2.block, si))
  }

  /** An unblockable site is written on its own after the open block, and
      then opens a new block of its own. */
  lemma QueueUnblockable(chrom: string, opt: Options, s: Sink, si: SiteInfo)
    requires !Blockable(si)
    ensures var f := Flush(chrom, opt, s); var r := QueueSite(chrom, opt, s, si);
      r.out == f.out + [SiteRecordOf(chrom, opt, si, 0, f.block.minGqx)] &&
      r.block == BlockState(1, si.(smod := si.smod.(isBlock := true)), si.smod.gqx)
  {
  }

  /** A blockable site the block accepts only lengthens it. */
  lemma QueueExtends(chrom: string, opt: Options, s: Sink, si: SiteInfo)
    requires Blockable(si) && Accepts(s.block, si)
    ensures QueueSite(chrom, opt, s, si) == Sink(Join(s.block, si), s.out)
  {
  }

  /** A blockable site the block rejects closes the block and opens a new one. */
  lemma QueueBreaks(chrom: string, opt: Options, s: Sink, si: SiteInfo)
    requires Blockable(si) && !Accepts(s.block, si)
    ensures var r := QueueSite(chrom, opt, s, si);
      r.out == s.out + [SiteRecordOf(chrom, opt, s.block.record, s.block.count, s.block.minGqx)] &&
      r.block.count == 1 && r.block.record.pos == si.pos
  {
  }

  /** Queue a sequence of sites in order. */
  function QueueAll(chrom: string, opt: Options, s: Sink, sites: seq<SiteInfo>): Sink {
    if sites == [] then s
    else QueueSite(chrom, opt, QueueAll(chrom, opt, s, sites[..|sites| - 1]), sites[|sites| - 1])
  }

  /** A run of blockable sites at consecutive positions with one annotation. */
  predicate IsRun(sites: seq<SiteInfo>) {
    forall i :: 0 <= i < |sites| ==>
      Blockable(sites[i]) && sites[i].pos == sites[0].pos + i && SameShape(sites[0].smod, sites[i].smod)
  }

  function MinGqx(sites: seq<SiteInfo>): int
    requires |sites| > 0
  {
    if |sites| == 1 then sites[0].smod.gqx
    else Min(MinGqx(sites[..|sites| - 1]), sites[|sites| - 1].smod.gqx)
  }

  /** Block correctness: a run queued behind an empty block writes nothing;
      the block then starts at the run's first site, counts every site and
      holds the least GQX, so its record covers exactly the run. */
  lemma {:induction false} QueueRun(chrom: string, opt: Options, s: Sink, sites: seq<SiteInfo>)
    requires s.block.count == 0 && |sites| > 0 && IsRun(sites)
    ensures var r := QueueAll(chrom, opt, s, sites);
      r.out == s.out && r.block.count == |sites| &&
      r.block.record == sites[0].(smod := sites[0].smod.(isBlock := true)) &&
      r.block.minGqx == MinGqx(sites)
  {
    var p := sites[..|sites| - 1];
    if |p| > 0 {
      assert forall i :: 0 <= i < |p| ==> p[i] == sites[i];
      QueueRun(chrom, opt, s, p);
    }
  }

  /** The record a flushed run writes spans the run: POS is its first
      1-based position, END its last, and GQX the least GQX when one is shown. */
  lemma FlushedRunRecord(chrom: string, opt: Options, s: Sink, sites: seq<SiteInfo>)
    requires s.block.count == 0 && |sites| > 0 && IsRun(sites)
    ensures var f := Flush(chrom, opt, QueueAll(chrom, opt, s, sites));
      |f.out| == |s.out| + 1 && f.out[..|s.out|] == s.out &&
      var rec := f.out[|s.out|];
      rec.SiteRecord? && rec.pos == sites[0].pos + 1 &&
      rec.info == Some(BlockEnd(sites[|sites| - 1].pos + 1, opt.blockLabel)) &&
      rec.alt == "." &&
      rec.gqx == (if ShowsGqx(sites[0].smod) then Some(MinGqx(sites)) else None)
  {
    QueueRun(chrom, opt, s, sites);
  }
}
