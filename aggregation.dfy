/** The aggregator's state as a value, and each of its operations as a
    function from the state before to the state after. The class in
    module Aggregator is proved to follow these functions. */
module Aggregation {
  import opened GvcfTypes
  import opened Modifiers
  import opened Records
  import opened Blocks
  import opened Resolver
  import opened Merge

  /** What the aggregator reads and never changes: the options, the
      chromosome name and the reference segment. */
  datatype Config = Config(opt: Options, chrom: string, refSeq: seq<char>)

  /** The next position expected, the open group's end, the open indel group,
      the sites buffered under it and the output side. */
  datatype State = State(head: int, end: int, group: seq<IndelInfo>, sites: seq<SiteInfo>, sink: Sink)

  function InitState(reportBegin: int): State {
    State(reportBegin, 0, [], [], Sink(EmptyBlock, []))
  }

  /** The open group and its buffered sites are well formed. */
  predicate GroupPartOk(s: State) {
    (|s.group| == 0 ==> |s.sites| == 0) &&
    (|s.group| > 0 ==> GroupOk(s.group, s.end) && SitesUnder(s.sites, s.group, s.end))
  }

  /** The aggregator invariant: besides the group being well formed, every
      buffered site lies before the head, and the head lies between the
      last indel and the group's end. */
  predicate StateOk(s: State) {
    GroupPartOk(s) &&
    (|s.group| > 0 ==>
       s.group[|s.group| - 1].pos <= s.head <= s.end &&
       forall i :: 0 <= i < |s.sites| ==> s.sites[i].pos < s.head)
  }

  lemma InitStateOk(reportBegin: int)
    ensures StateOk(InitState(reportBegin)) && InitState(reportBegin).head == reportBegin
    ensures InitState(reportBegin).sink.out == [] && |InitState(reportBegin).group| == 0
  {
  }

  /** The positions the merge compares, for the indel group and for the
      site buffer. The two element types share no common supertype here,
      so each buffer has its own projection. */
  function IndelPositions(g: seq<IndelInfo>): (r: seq<int>)
    ensures |r| == |g| && forall i :: 0 <= i < |g| ==> r[i] == g[i].pos
  {
    seq(|g|, i requires 0 <= i < |g| => g[i].pos)
  }

  function SitePositions(sites: seq<SiteInfo>): (r: seq<int>)
    ensures |r| == |sites| && forall i :: 0 <= i < |sites| ==> r[i] == sites[i].pos
  {
    seq(|sites|, i requires 0 <= i < |sites| => sites[i].pos)
  }

  predicate EventOk(g: seq<IndelInfo>, sites: seq<SiteInfo>, e: Event) {
    (e.WriteIndel? ==> RecordIndexOk(g, e.k)) && (e.QueueBufferedSite? ==> e.j < |sites|)
  }

  predicate EventsOk(g: seq<IndelInfo>, sites: seq<SiteInfo>, evs: seq<Event>) {
    forall t :: 0 <= t < |evs| ==> EventOk(g, sites, evs[t])
  }

  /** write_indel_record (which first flushes the open block) or
      queue_site_record, for one merge event. */
  function ApplyEvent(cfg: Config, sink: Sink, g: seq<IndelInfo>, sites: seq<SiteInfo>, e: Event): Sink
    requires EventOk(g, sites, e)
  {
    match e
    case WriteIndel(k) =>
      var f := Flush(cfg.chrom, cfg.opt, sink);
      f.(out := f.out + [IndelRecordOf(cfg.chrom, g, k)])
    case QueueBufferedSite(j) => QueueSite(cfg.chrom, cfg.opt, sink, sites[j])
  }

  function ApplyAll(cfg: Config, sink: Sink, g: seq<IndelInfo>, sites: seq<SiteInfo>, evs: seq<Event>): Sink
    requires EventsOk(g, sites, evs)
    decreases |evs|
  {
    if evs == [] then sink
    else ApplyAll(cfg, ApplyEvent(cfg, sink, g, sites, evs[0]), g, sites, evs[1..])
  }

  /** The indel records the merge can write: in a conflict group any member
      (none of them merged), otherwise only the first. */
  predicate MergeOk(g: seq<IndelInfo>, conflict: bool) {
    (conflict ==> forall k :: 0 <= k < |g| ==> !g[k].imod.isOverlap) &&
    (!conflict ==> |g| > 0 && RecordIndexOk(g, 0))
  }

  lemma MergeEventsOk(g: seq<IndelInfo>, sites: seq<SiteInfo>, conflict: bool, i: nat, j: nat)
    requires MergeOk(g, conflict) && i <= |g| && j <= |sites|
    requires !conflict ==> i == 0 || i == |g|
    ensures EventsOk(g, sites, MergeFrom(IndelPositions(g), SitePositions(sites), conflict, i, j))
  {
    MergeIndices(IndelPositions(g), SitePositions(sites), conflict, i, j);
  }

  /** The states the resolution step produces: the group, the re-annotated
      sites and whether the group is a conflict. */
  function Resolved(cfg: Config, s: State): (r: (seq<IndelInfo>, seq<SiteInfo>, bool))
    requires GroupPartOk(s) && |s.group| > 0
    ensures |r.0| == |s.group| && |r.1| == |s.sites| && MergeOk(r.0, r.2)
    ensures r.2 <==> Classify(s.group) == Conflict
  {
    SitesResolvable(cfg.opt, cfg.refSeq, s.end, s.group, s.sites);
    ResolveGroupFacts(cfg.opt, cfg.refSeq, s.end, s.group);
    var conflict := Classify(s.group) == Conflict;
    var g := ResolveGroup(cfg.opt, cfg.refSeq, s.end, s.group);
    (g, ResolveSites(cfg.opt, g[0], conflict, s.sites), conflict)
  }

  /** process_overlaps: resolve the group, write the debug size line,
      re-annotate the buffered sites, merge indels and sites into the
      output, and empty both buffers. */
  function ProcessSpec(cfg: Config, s: State): (r: State)
    requires GroupPartOk(s)
    ensures r.group == [] && r.sites == [] && r.head == s.head && r.end == s.end
  {
    if |s.group| == 0 then s
    else
      var (g, sites, conflict) := Resolved(cfg, s);
      MergeEventsOk(g, sites, conflict, 0, 0);
      var evs := MergeFrom(IndelPositions(g), SitePositions(sites), conflict, 0, 0);
      var sink := ApplyAll(cfg, s.sink.(out := s.sink.out + [IndelSizeLine(|s.group|)]), g, sites, evs);
      State(s.head, s.end, [], [], sink)
  }

  /** The output only ever grows. */
  lemma {:induction false} ApplyAllExtends(cfg: Config, sink: Sink, g: seq<IndelInfo>, sites: seq<SiteInfo>, evs: seq<Event>)
    requires EventsOk(g, sites, evs)
    ensures var r := ApplyAll(cfg, sink, g, sites, evs);
      |sink.out| <= |r.out| && r.out[..|sink.out|] == sink.out
    decreases |evs|
  {
    if evs != [] {
      var s1 := ApplyEvent(cfg, sink, g, sites, evs[0]);
      assert |sink.out| <= |s1.out| && s1.out[..|sink.out|] == sink.out;
      ApplyAllExtends(cfg, s1, g, sites, evs[1..]);
      var r := ApplyAll(cfg, s1, g, sites, evs[1..]);
      assert r.out[..|sink.out|] == r.out[..|s1.out|][..|sink.out|];
    }
  }

  /** process_overlaps on an open group: both buffers end empty, the output
      keeps what was written before and continues with the group size. */
  lemma ProcessFacts(cfg: Config, s: State)
    requires GroupPartOk(s)
    ensures |s.group| == 0 ==> ProcessSpec(cfg, s) == s
    ensures var r := ProcessSpec(cfg, s);
      StateOk(r) && |r.group| == 0 && |r.sites| == 0 &&
      (|s.group| > 0 ==>
         |s.sink.out| < |r.sink.out| && r.sink.out[..|s.sink.out| + 1] == s.sink.out + [IndelSizeLine(|s.group|)])
  {
    if |s.group| > 0 {
      var (g, sites, conflict) := Resolved(cfg, s);
      MergeEventsOk(g, sites, conflict, 0, 0);
      var evs := MergeFrom(IndelPositions(g), SitePositions(sites), conflict, 0, 0);
      ApplyAllExtends(cfg, s.sink.(out := s.sink.out + [IndelSizeLine(|s.group|)]), g, sites, evs);
    }
  }

  /** add_site_internal: the head moves past the site; inside an open group
      the site is buffered, otherwise the group is closed first and the site
      is queued. */
  function AddSiteInternalSpec(cfg: Config, s: State, si: SiteInfo): (r: State)
    requires StateOk(s) && si.pos >= s.head
    ensures StateOk(r) && r.head == si.pos + 1
    ensures |r.group| == 0 ==> r.sink.block.count > 0
  {
    var s1 := s.(head := si.pos + 1);
    if |s.group| != 0 && si.pos < s.end then
      s1.(sites := s.sites + [si])
    else
      var s2 := ProcessSpec(cfg, s1);
      s2.(sink := QueueSite(cfg.chrom, cfg.opt, s2.sink, si))
  }

  /** The cases of add_site_internal. */
  lemma AddSiteInternalCases(cfg: Config, s: State, si: SiteInfo)
    requires StateOk(s) && si.pos >= s.head
    ensures var r := AddSiteInternalSpec(cfg, s, si);
      (|s.group| != 0 && si.pos < s.end ==>
         r.sites == s.sites + [si] && r.group == s.group && r.sink == s.sink && r.end == s.end) &&
      (|s.group| == 0 ==> r.sink == QueueSite(cfg.chrom, cfg.opt, s.sink, si) && r.end == s.end) &&
      (|s.group| != 0 && si.pos >= s.end ==>
         var p := ProcessSpec(cfg, s.(head := si.pos + 1));
         r.group == [] && r.sites == [] && r.sink == QueueSite(cfg.chrom, cfg.opt, p.sink, si))
  {
  }

  /** skip_to_pos: add empty sites at the head while a group is open; once
      none is, the last empty site's block absorbs the rest of the gap. */
  function SkipSpec(cfg: Config, s: State, t: int): (r: State)
    requires StateOk(s)
    ensures StateOk(r)
    ensures r.head == if s.head < t then t else s.head
    decreases t - s.head
  {
    if s.head >= t then s
    else
      var s1 := AddSiteInternalSpec(cfg, s, EmptySite(cfg.opt, s.head));
      if |s1.group| != 0 then SkipSpec(cfg, s1, t)
      else
        var b := s1.sink.block;
        s1.(head := t, sink := s1.sink.(block := b.(count := b.count + (t - s1.head))))
  }

  /** Gap filling with no open group writes one empty site and stretches
      its block over the whole gap. */
  lemma SkipWithoutGroup(cfg: Config, s: State, t: int)
    requires StateOk(s) && |s.group| == 0 && s.head < t
    ensures var q := QueueSite(cfg.chrom, cfg.opt, s.sink, EmptySite(cfg.opt, s.head));
      var r := SkipSpec(cfg, s, t);
      r.head == t && |r.group| == 0 && r.sink.out == q.out &&
      r.sink.block == q.block.(count := q.block.count + (t - s.head - 1))
  {
    AddSiteInternalCases(cfg, s, EmptySite(cfg.opt, s.head));
  }

  /** A skip to a position already reached changes nothing. */
  lemma SkipReached(cfg: Config, s: State, t: int)
    requires StateOk(s) && t <= s.head
    ensures SkipSpec(cfg, s, t) == s
  {
  }

  /** add_site: fill the gap, annotate the site, take it in. */
  function AddSiteSpec(cfg: Config, s: State, si: SiteInfo): (r: State)
    requires StateOk(s) && si.pos >= s.head
    ensures StateOk(r) && r.head == si.pos + 1
  {
    AddSiteInternalSpec(cfg, SkipSpec(cfg, s, si.pos), AddSiteModifiers(cfg.opt, si))
  }

  /** add_indel as written: a non-breakpoint called indel fills the gap,
      joins the open group when it starts no later than the group's end or
      closes it otherwise, and the group end is then set to this indel's
      right end even when the group already reached further. */
  function AddIndelSpec(cfg: Config, s: State, pos: int, ik: IndelKey, dindel: DiIndel,
                        iri: IndelReport, isri: IndelSampleReport): (r: State)
    requires StateOk(s) && pos >= s.head && pos == ik.pos
  {
    if ik.isBreakpoint || IsNoIndel(dindel) then s
    else
      var s1 := SkipSpec(cfg, s, pos);
      var s2 :=
        if |s1.group| != 0 && pos <= s1.end then s1.(end := if s1.end < ik.RightPos() then ik.RightPos() else s1.end)
        else ProcessSpec(cfg, s1);
      s2.(group := s2.group + [InitIndel(pos, ik, dindel, iri, isri)], end := ik.RightPos())
  }

  /** The cases of add_indel. */
  lemma AddIndelCases(cfg: Config, s: State, pos: int, ik: IndelKey, dindel: DiIndel,
                      iri: IndelReport, isri: IndelSampleReport)
    requires StateOk(s) && pos >= s.head && pos == ik.pos
    ensures var r := AddIndelSpec(cfg, s, pos, ik, dindel, iri, isri);
      (ik.isBreakpoint || dindel.maxGt == NoIndel ==> r == s) &&
      (!ik.isBreakpoint && dindel.maxGt != NoIndel ==>
         var s1 := SkipSpec(cfg, s, pos);
         var ii := InitIndel(pos, ik, dindel, iri, isri);
         r.end == ik.RightPos() && r.head == pos &&
         (|s1.group| != 0 && pos <= s1.end ==>
            r.group == s1.group + [ii] && r.sites == s1.sites && r.sink == s1.sink) &&
         (!(|s1.group| != 0 && pos <= s1.end) ==>
            r.group == [ii] && r.sites == [] && r.sink == ProcessSpec(cfg, s1).sink))
  {
  }

  /** After the gap fill of add_indel the head is at the indel, and an open
      group always reaches the head: the indel therefore always joins an
      open group, and the call that would close the group first is never
      taken. */
  lemma AddIndelAfterSkip(cfg: Config, s: State, pos: int, ik: IndelKey, dindel: DiIndel,
                          iri: IndelReport, isri: IndelSampleReport)
    requires StateOk(s) && pos >= s.head && pos == ik.pos
    requires !ik.isBreakpoint && dindel.maxGt != NoIndel
    ensures var s1 := SkipSpec(cfg, s, pos);
      var s2 := if |s1.group| != 0 then s1.(end := if s1.end < ik.RightPos() then ik.RightPos() else s1.end) else s1;
      s1.head == pos && (|s1.group| != 0 ==> pos <= s1.end) &&
      AddIndelSpec(cfg, s, pos, ik, dindel, iri, isri) ==
        s2.(group := s2.group + [InitIndel(pos, ik, dindel, iri, isri)], end := ik.RightPos())
  {
  }

  /** An indel at the head that starts within the open group joins it
      without breaking the invariant. */
  lemma JoinOk(s: State, ii: IndelInfo)
    requires StateOk(s) && |s.group| > 0 && s.head == ii.pos && ii.pos <= s.end
    requires ii.pos == ii.ik.pos && ii.imod == ClearedIndelMods && ii.dindel.maxGt != NoIndel
    ensures StateOk(s.(group := s.group + [ii], end := ii.ik.RightPos()))
  {
    var g := s.group + [ii];
    assert forall i :: 0 <= i < |s.group| ==> g[i] == s.group[i];
    assert forall i, j :: 0 <= i < j < |g| ==> g[i].pos <= g[j].pos;
    assert GroupOk(g, ii.ik.RightPos());
  }

  /** add_indel keeps the aggregator invariant. */
  lemma AddIndelOk(cfg: Config, s: State, pos: int, ik: IndelKey, dindel: DiIndel,
                   iri: IndelReport, isri: IndelSampleReport)
    requires StateOk(s) && pos >= s.head && pos == ik.pos
    ensures StateOk(AddIndelSpec(cfg, s, pos, ik, dindel, iri, isri))
  {
    if !(ik.isBreakpoint || IsNoIndel(dindel)) {
      var s1 := SkipSpec(cfg, s, pos);
      var ii := InitIndel(pos, ik, dindel, iri, isri);
      if |s1.group| != 0 && pos <= s1.end {
        JoinOk(s1, ii);
        assert AddIndelSpec(cfg, s, pos, ik, dindel, iri, isri) == s1.(group := s1.group + [ii], end := ik.RightPos());
      } else {
        ProcessFacts(cfg, s1);
      }
    }
  }

  /** The destructor: fill up to one past the reported range, then close
      the last group. */
  function FinishSpec(cfg: Config, s: State, reportEnd: int): (r: State)
    requires StateOk(s)
    ensures StateOk(r) && |r.group| == 0 && |r.sites| == 0
  {
    ProcessFacts(cfg, SkipSpec(cfg, s, reportEnd + 1));
    ProcessSpec(cfg, SkipSpec(cfg, s, reportEnd + 1))
  }

  /** As written, the destructor never writes the open block. With no group
      open, the gap fill leaves the rest of the range in a block, and
      neither it nor process_overlaps flushes that block. An open block left
      at the end of the range also stays unwritten. */
  lemma FinishLeavesBlockOpen(cfg: Config, s: State, reportEnd: int)
    requires StateOk(s) && |s.group| == 0 && (s.head <= reportEnd || s.sink.block.count > 0)
    ensures FinishSpec(cfg, s, reportEnd).sink.block.count > 0
  {
    var s1 := SkipSpec(cfg, s, reportEnd + 1);
    if s.head < reportEnd + 1 {
      SkipWithoutGroup(cfg, s, reportEnd + 1);
    } else {
      SkipReached(cfg, s, reportEnd + 1);
    }
    ProcessFacts(cfg, s1);
  }

  /** The destructor with the final flush that loses nothing queued: the
      open block is written after the last group is closed. */
  function FinishFlushedSpec(cfg: Config, s: State, reportEnd: int): (r: State)
    requires StateOk(s)
    ensures StateOk(r) && |r.group| == 0 && |r.sites| == 0 && r.sink.block.count == 0
    ensures var f := FinishSpec(cfg, s, reportEnd);
      r.head == f.head && |f.sink.out| <= |r.sink.out| && r.sink.out[..|f.sink.out|] == f.sink.out
    ensures var f := FinishSpec(cfg, s, reportEnd);
      f.sink.block.count > 0 ==>
        r.sink.out == f.sink.out + [SiteRecordOf(cfg.chrom, cfg.opt, f.sink.block.record, f.sink.block.count, f.sink.block.minGqx)]
  {
    var f := FinishSpec(cfg, s, reportEnd);
    f.(sink := Flush(cfg.chrom, cfg.opt, f.sink))
  }

  /** With the flush, a range finished with no group open writes one more
      record than the destructor as written. */
  lemma FinishFlushedWritesBlock(cfg: Config, s: State, reportEnd: int)
    requires StateOk(s) && |s.group| == 0 && (s.head <= reportEnd || s.sink.block.count > 0)
    ensures |FinishFlushedSpec(cfg, s, reportEnd).sink.out| == |FinishSpec(cfg, s, reportEnd).sink.out| + 1
  {
    FinishLeavesBlockOpen(cfg, s, reportEnd);
  }
}
