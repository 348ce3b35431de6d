# gVCF aggregator model

A Dafny model of the `gvcf_aggregator` class of the Starling small-variant
caller. The class takes single-base site calls and indel calls in
increasing position order and writes one ordered gVCF record stream. Along
the way it does four things:
- it fills skipped positions with empty sites;
- it compresses runs of non-variant sites into block records;
- it buffers the sites that fall under an open group of overlapping indels;
- it resolves such a group as a single indel, a merged two-haplotype
  heterozygous overlap, or a conflict. Then it merges the indel records and
  the re-annotated sites back into position order.

The model has two layers.

- The imperative layer is module `Aggregator` (`aggregator.dfy`). It defines
  the class `GvcfAggregator` with the source's fields:
  - the head position and the group end;
  - two reused buffers, `seq` fields whose live prefix is the first
    `indelBufferSize` / `siteBufferSize` entries, grown by default entries
    on demand;
  - the block state;
  - the output record stream.

  Every method's `ensures` ties the new abstract state, `Abstract()`, to a
  function of the old one. The loops of the source stay loops:
  - the gap fill;
  - the buffer growth;
  - the two-pointer merge;
  - the haplotype loop;
  - the path walk of `add_cigar_to_ploidy`;
  - the ALT loop of `print_vcf_alt`.
- The value layer holds the functions those methods are proved against, and
  the properties proved about them:
  - `Aggregation`: the state machine;
  - `Blocks`: block compression and `queue_site_record`;
  - `Resolver`: group resolution and ploidy;
  - `Merge`: the merge order;
  - `Cigar`: alignment paths and the ploidy walk;
  - `Modifiers`: quality selection and filters;
  - `Records`: records as field tuples;
  - `GvcfTypes`: the data types.

The model follows the code as written in three places:
- `add_indel` sets the group end to the new indel's right end after
  taking the maximum, so that maximum is overwritten. `AddIndelSpec` does
  the same.
- `queue_site_record` has no return after writing an unblockable site
  directly. The site then still goes through the block test and joins the
  block (`QueueSite`, `QueueUnblockable`).
- `process_overlaps` writes an `INDEL_SIZE:` debug line into the output
  stream. It is the record `IndelSizeLine(n)`.

Two facts about the source follow from the group invariant, and both are proved:
- every ploidy value of a merged overlap is still 0 or 1, so the
  `assert(0)` of `modify_indel_overlap_site` is not reached
  (`Resolver.OverlapPloidyAtMostOne`, `Aggregation.StateOk`,
  `Resolver.SitesResolvable`);
- when each indel at a position arrives before the site at that position,
  the `process_overlaps` call inside `add_indel` is never reached. After `skip_to_pos(pos)` the head is at
  `pos`, and an open group always reaches the head
  (`Aggregation.AddIndelAfterSkip`). The class method puts `assert false`
  in that branch.

The caller's ordering duty appears as `requires`:
- `AddSite` needs `si.pos >= headPos`;
- `AddIndel` needs `pos >= headPos`, so an indel at a position arrives
  before the site at that position;
- `AddIndel` also needs `pos == ik.pos`.

## Model

| member | source | states |
|---|---|---|
| Aggregator.GvcfAggregator.constructor | starka/src/lib/starling_common/gvcf_aggregator.cpp:84-107 | The head starts at the start of the reported range, the group end at 0, both buffers and the output empty, the block empty; the invariant holds. |
| Aggregation.InitStateOk | starka/src/lib/starling_common/gvcf_aggregator.cpp:84-107 | The initial state satisfies the aggregator invariant, has head = range start, no open group and no output. |
| Aggregator.GvcfAggregator.Finish | starka/src/lib/starling_common/gvcf_aggregator.cpp:111-115 | The destructor leaves the state `FinishSpec` gives: gap fill up to one past the range end, then the group closed. |
| Aggregation.FinishSpec | starka/src/lib/starling_common/gvcf_aggregator.cpp:111-115 | After the destructor no group is open and no site is buffered, and the invariant holds. |
| Aggregation.FinishLeavesBlockOpen | starka/src/lib/starling_common/gvcf_aggregator.cpp:111-115 | As written, finishing with no group open and either part of the range ahead or a block already open leaves the block open. Its sites are never written. |
| Aggregation.FinishFlushedSpec | starka/src/lib/starling_common/gvcf_aggregator.cpp:111-115 | The destructor with a final block flush: the block ends empty, and the output is the as-written output plus the open block's record when one was open. |
| Aggregation.FinishFlushedWritesBlock | starka/src/lib/starling_common/gvcf_aggregator.cpp:111-115 | In the as-written case above, the flushed destructor writes exactly one more record. |
| Aggregator.GvcfAggregator.SkipToPos | starka/src/lib/starling_common/gvcf_aggregator.cpp:122-137 | The gap-fill loop leaves exactly the state `SkipSpec` gives and keeps the invariant. |
| Aggregation.SkipSpec | starka/src/lib/starling_common/gvcf_aggregator.cpp:122-137 | The head ends at the target when it was behind it, else it is unchanged; the invariant is kept. |
| Aggregation.SkipWithoutGroup | starka/src/lib/starling_common/gvcf_aggregator.cpp:122-137 | With no open group, the output is what queuing one empty site at the head writes, and that site's block then grows by the rest of the gap (target − head − 1). |
| Aggregation.SkipReached | starka/src/lib/starling_common/gvcf_aggregator.cpp:122-137 | A target at or behind the head changes nothing. |
| Modifiers.EmptySite | starka/src/lib/starling_common/gvcf_aggregator.cpp:106 | The empty site used for gap filling: unknown reference, no coverage, GQX 0, genotype 0, and always blockable. |
| Aggregator.GvcfAggregator.AddSite | starka/src/lib/starling_common/gvcf_aggregator.cpp:141-149 | The gap is filled, the site annotated and taken in, as `AddSiteSpec` says; the invariant holds. The annotation the source writes back into the caller's site is returned as `annotated`, equal to `AddSiteModifiers` of the input. |
| Aggregation.AddSiteSpec | starka/src/lib/starling_common/gvcf_aggregator.cpp:141-149 | After `add_site` the head is one past the site and the invariant holds. |
| Aggregator.GvcfAggregator.AddSiteInternal | starka/src/lib/starling_common/gvcf_aggregator.cpp:153-173 | The new state is `AddSiteInternalSpec` of the old one; the invariant holds. |
| Aggregator.GvcfAggregator.BufferSite | starka/src/lib/starling_common/gvcf_aggregator.cpp:163-167 | The site is appended to the live buffer, growing the storage when full; nothing else changes. |
| Aggregation.AddSiteInternalSpec | starka/src/lib/starling_common/gvcf_aggregator.cpp:153-173 | The head becomes pos + 1, the invariant is kept, and with no open group afterwards the block is non-empty. |
| Aggregation.AddSiteInternalCases | starka/src/lib/starling_common/gvcf_aggregator.cpp:153-173 | Inside an open group, a site before its end is buffered and nothing is written. With no group, the site is queued. A site at or past the end closes the group first, then is queued. |
| Aggregator.GvcfAggregator.AddIndel | starka/src/lib/starling_common/gvcf_aggregator.cpp:191-222 | The new state is `AddIndelSpec` of the old one, the group end overwritten as written; the invariant holds. |
| Aggregator.GvcfAggregator.AddCalledIndel | starka/src/lib/starling_common/gvcf_aggregator.cpp:207-221 | After the gap fill, an open group's end is widened, the indel is appended, and the end is set to the indel's right end. |
| Aggregator.GvcfAggregator.BufferIndel | starka/src/lib/starling_common/gvcf_aggregator.cpp:217-220 | The indel is appended to the live buffer, growing the storage when full; nothing else changes. |
| Aggregation.AddIndelCases | starka/src/lib/starling_common/gvcf_aggregator.cpp:191-222 | Breakpoints and NOINDEL calls change nothing. Otherwise the end becomes the indel's right end, and the head is at the indel. An indel at or before the open group's end (adjacent included) joins it with nothing written. Otherwise the group is closed and the indel starts a new one. |
| Aggregation.AddIndelAfterSkip | starka/src/lib/starling_common/gvcf_aggregator.cpp:207-221 | After the gap fill the head is at the indel and an open group reaches it, so the indel always joins an open group. |
| Aggregation.AddIndelOk | starka/src/lib/starling_common/gvcf_aggregator.cpp:191-222 | `add_indel` keeps the aggregator invariant: members in position order, each starting no later than the previous one ends, the end at the last member's right end, and buffered sites inside the group and before the head. |
| Aggregation.AddIndelSpec | starka/src/lib/starling_common/gvcf_aggregator.cpp:191-222 | `add_indel` as written, on values. It has no contract of its own; `AddIndelCases`, `AddIndelAfterSkip` and `AddIndelOk` state its properties. |
| Aggregation.JoinOk | starka/src/lib/starling_common/gvcf_aggregator.cpp:209-221 | An indel at the head inside the open group's span can join it without breaking the group invariant. |
| Resolver.ClassifyCases | starka/src/lib/starling_common/gvcf_aggregator.cpp:226-235 | Single iff one indel; simple overlap iff exactly two, both heterozygous; conflict otherwise. |
| Resolver.IsHetIndel | starka/src/lib/starling_common/gvcf_aggregator.cpp:177-181 | A called indel is heterozygous when its genotype is HET. |
| Resolver.IsNoIndel | starka/src/lib/starling_common/gvcf_aggregator.cpp:183-187 | A call is a non-indel when its genotype is NOINDEL. |
| Resolver.IsSimpleIndelOverlap | starka/src/lib/starling_common/gvcf_aggregator.cpp:226-235 | Exactly two buffered indels, both heterozygous. The predicate is the definition; `ClassifyCases` states its use. |
| Resolver.Classify | starka/src/lib/starling_common/gvcf_aggregator.cpp:622-635 | The case split of `process_overlaps`: one indel, a simple overlap, or a conflict. Its cases are stated by `ClassifyCases`. |
| Cigar.HapCigarSpans | starka/src/lib/starling_common/gvcf_aggregator.cpp:238-260 | The path MATCH(lead) DELETE INSERT MATCH(trail) consumes lead + del + trail reference bases and lead + ins + trail read bases. |
| Cigar.HapCigar | starka/src/lib/starling_common/gvcf_aggregator.cpp:238-260 | At most four runs, all of positive length, one per non-zero length. The runs are MATCH(lead) first, then DELETE(deleteLength), then INSERT(insertLength), then MATCH(trail) last. |
| Cigar.HapCigarHits | starka/src/lib/starling_common/gvcf_aggregator.cpp:238-283 | The path covers ploidy offset k ≥ 0 exactly when k < lead − 1 or lead + del − 1 ≤ k < lead + del + trail − 1. |
| Cigar.HapCigarFits | starka/src/lib/starling_common/gvcf_aggregator.cpp:238-260 | The path's MATCH bases all fall inside a vector reaching its last reference offset. |
| Cigar.AddCigarToPloidy | starka/src/lib/starling_common/gvcf_aggregator.cpp:263-283 | Each ploidy entry k grows by the number of path MATCH bases at offset k, counted from offset −1, with DELETE skipping and INSERT not advancing. The length is unchanged. |
| Cigar.HitsAtMostOne | starka/src/lib/starling_common/gvcf_aggregator.cpp:263-283 | A path covers each offset at most once, so one call raises each entry by at most 1. |
| Modifiers.SetSiteFilters | starka/src/lib/starling_common/gvcf_aggregator.cpp:36-48 | LowGQX is added iff it is enabled and gqx < minimum. HighDepth is added iff it is enabled and used + unused > maximum. Existing filters stay, and nothing else changes. |
| Modifiers.AddSiteModifiers | starka/src/lib/starling_common/gvcf_aggregator.cpp:26-80 | The annotation is cleared, then the coverage flags are derived. The genotype and GQX come from three cases: an N reference gives 0/0; genome/poly disagreement gives the genome genotype with GQX 0; otherwise the lower-quality result set. The filters are exactly the site filters. |
| Modifiers.AddIndelModifiers | starka/src/lib/starling_common/gvcf_aggregator.cpp:288-301 | GQX is the smaller of the indel and genotype qualities. The LowGQX and HighDepth filters are added on the enabled thresholds, and nothing else changes. |
| Modifiers.PloidyOverride | starka/src/lib/starling_common/gvcf_aggregator.cpp:446-471 | Ploidy 1 caps the SNP quality and GQX at the indel's and sets the genotype tag: UNKNOWN plus SiteConflict for a het site, ZERO for a ref site, ONE otherwise. Ploidy 0 sets UNKNOWN and zero-ploidy. |
| Modifiers.ModifyIndelOverlapSite | starka/src/lib/starling_common/gvcf_aggregator.cpp:438-473 | Site filters are intersected with the indel's, the ploidy override applied, then the site filters re-run. The result has exactly those filters. |
| Modifiers.ModifyIndelConflictSite | starka/src/lib/starling_common/gvcf_aggregator.cpp:477-482 | Only the IndelConflict filter is added. |
| Modifiers.Blockable | starka/src/lib/starling_common/gvcf_aggregator.cpp:307-321 | A called SNP is never blockable; otherwise a site is blockable when its reference is N or its reference fraction is high. The fraction test is the input flag `refFracHigh`. |
| Blocks.QueueUnblockable | starka/src/lib/starling_common/gvcf_aggregator.cpp:328-342 | An unblockable site flushes the block, is written directly, and then (no return, as written) opens a new block of its own. |
| Blocks.QueueSite | starka/src/lib/starling_common/gvcf_aggregator.cpp:328-342 | `queue_site_record` on values: flush and direct write for an unblockable site, then the block test. `QueueUnblockable`, `QueueExtends`, `QueueBreaks` and `QueueRun` state its cases. |
| Blocks.QueueExtends | starka/src/lib/starling_common/gvcf_aggregator.cpp:328-342 | A blockable site the block accepts only joins it; nothing is written. |
| Blocks.QueueBreaks | starka/src/lib/starling_common/gvcf_aggregator.cpp:328-342 | A blockable site the block rejects writes the block's record and starts a new block at that site. |
| Blocks.QueueRun | starka/src/lib/starling_common/gvcf_aggregator.cpp:328-342 | A run of contiguous same-shape blockable sites queued behind an empty block writes nothing. The block then counts every site, holds the first site's annotation and the least GQX. |
| Blocks.FlushedRunRecord | starka/src/lib/starling_common/gvcf_aggregator.cpp:366-421 | The flushed run's record has POS = first position + 1, END = last position + 1 with the block label, ALT ".", and the run's least GQX when GQX is shown. |
| Aggregator.GvcfAggregator.QueueSiteRecord | starka/src/lib/starling_common/gvcf_aggregator.cpp:328-342 | The block and output change as `QueueSite` says; the other fields are unchanged. |
| Records.AltBelowSpec | starka/src/lib/starling_common/gvcf_aggregator.cpp:346-362 | The ALT base list holds exactly the non-reference bases the genotype carries, each once, ascending. |
| Records.PrintVcfAlt | starka/src/lib/starling_common/gvcf_aggregator.cpp:346-362 | The loop writes the comma-separated ALT bases, or "." when there are none. |
| Records.AltTextHomRef | starka/src/lib/starling_common/gvcf_aggregator.cpp:346-362 | A homozygous-reference genotype prints ".". |
| Records.AltTextHetRef | starka/src/lib/starling_common/gvcf_aggregator.cpp:346-362 | A heterozygous genotype with one reference allele prints exactly the other base. |
| Records.SiteRecordOf | starka/src/lib/starling_common/gvcf_aggregator.cpp:366-421 | POS is pos + 1. ALT is "." for unknown or block sites. INFO is END = pos + block count with the label, for blocks only. The GQX column is the block minimum for blocks, the site GQX otherwise, and empty when GQX is not shown. |
| Aggregator.GvcfAggregator.WriteSiteRecord | starka/src/lib/starling_common/gvcf_aggregator.cpp:366-421 | Appends `SiteRecordOf` the site with the current block's count and minimum; nothing else changes. |
| Aggregator.GvcfAggregator.WriteBlockSiteRecord | starka/src/lib/starling_common/gvcf_aggregator.cpp:333-338 | Writes the open block's record and resets the block; an empty block is a no-op. The body of `write_block_site_record` is not in the file, so the call sites are cited. |
| Aggregator.GvcfAggregator.ModifySingleIndelRecord | starka/src/lib/starling_common/gvcf_aggregator.cpp:425-434 | The only indel gets the default path and its indel modifiers; the rest of the buffer is unchanged. |
| Resolver.SingleResolved | starka/src/lib/starling_common/gvcf_aggregator.cpp:425-434 | The single indel: the default path, then the indel modifiers. `ResolveGroupFacts` states the result fields. |
| Aggregator.GvcfAggregator.LowerQuals | starka/src/lib/starling_common/gvcf_aggregator.cpp:513-520 | The first indel's two qualities drop to the haplotype's where higher; nothing else changes. |
| Aggregator.GvcfAggregator.SpliceHapAt | starka/src/lib/starling_common/gvcf_aggregator.cpp:523-533 | The haplotype's ALT gains the leading and trailing reference bases, and its path gains the matching MATCH runs. |
| Aggregator.GvcfAggregator.AddPathToFirst | starka/src/lib/starling_common/gvcf_aggregator.cpp:536 | The path is added to the first indel's ploidy vector. |
| Aggregator.GvcfAggregator.SpliceHaplotypes | starka/src/lib/starling_common/gvcf_aggregator.cpp:505-535 | The two-haplotype loop leaves the first indel with both paths' ploidy and the lesser qualities, and leaves the second indel spliced. |
| Aggregator.GvcfAggregator.ModifyOverlapIndelRecord | starka/src/lib/starling_common/gvcf_aggregator.cpp:486-540 | The first two buffer entries become `OverlapResolved` of the old ones; the rest is unchanged. |
| Resolver.OverlapResolved | starka/src/lib/starling_common/gvcf_aggregator.cpp:486-540 | The two-haplotype merge on values: the shared REF, ploidy and lesser qualities on the first indel, the spliced ALT and path on both. `OverlapPloidy`, `OverlapPloidyAtMostOne` and `ResolveGroupFacts` state its properties. |
| Resolver.OverlapPloidyPaths | starka/src/lib/starling_common/gvcf_aggregator.cpp:486-540 | The merged indel's ploidy is the group span's zero vector plus both spliced haplotype paths. |
| Resolver.OverlapPloidyHits | starka/src/lib/starling_common/gvcf_aggregator.cpp:486-540 | Each ploidy entry is the sum of the two paths' hits there. |
| Resolver.OverlapPloidy | starka/src/lib/starling_common/gvcf_aggregator.cpp:486-540 | Exact ploidy formula at offset k: one for the first haplotype past its deletion, one for the second before its indel, one for the second past its deletion. |
| Resolver.OverlapPloidyAtMostOne | starka/src/lib/starling_common/gvcf_aggregator.cpp:438-540 | For a simple overlap ending where either indel ends, every ploidy value is 0 or 1, so the site override never sees another value. |
| Resolver.OverlapPathsFit | starka/src/lib/starling_common/gvcf_aggregator.cpp:516-533 | Both spliced paths stay inside the group's ploidy vector, as `add_cigar_to_ploidy` requires. |
| Aggregator.GvcfAggregator.ModifyConflictIndelRecord | starka/src/lib/starling_common/gvcf_aggregator.cpp:545-558 | Every live indel gets the default path, the IndelConflict filter and its modifiers; the rest is unchanged. |
| Resolver.ConflictResolved | starka/src/lib/starling_common/gvcf_aggregator.cpp:545-558 | One conflict member: the default path, the IndelConflict filter, then the indel modifiers. |
| Resolver.ResolveGroup | starka/src/lib/starling_common/gvcf_aggregator.cpp:618-635 | The resolved group chosen by `Classify`; `ResolveGroupFacts` states what it keeps and sets in each case. |
| Resolver.ResolveGroupFacts | starka/src/lib/starling_common/gvcf_aggregator.cpp:486-558 | Resolution keeps positions and keys, and only a simple overlap's first indel is marked overlapping. Single and conflict members get the default path, their own qualities and GQX = min; IndelConflict is set exactly in the conflict case. A simple overlap gets the minimum qualities of both indels and the shared REF from the base before the group to its end. |
| Aggregator.GvcfAggregator.WriteIndelRecord | starka/src/lib/starling_common/gvcf_aggregator.cpp:562-610 | Flushes the block, then appends `IndelRecordOf` the indel at the index. |
| Records.IndelRecordOf | starka/src/lib/starling_common/gvcf_aggregator.cpp:562-610 | POS, REF, QUAL, FILTER and GQX come from the indel at the index. ALT and CIGAR list it and, for a merged overlap, the next indel, in order. |
| Aggregator.GvcfAggregator.ResolveIndels | starka/src/lib/starling_common/gvcf_aggregator.cpp:618-635 | The live indel buffer becomes the resolved group, and the conflict flag is set iff the group is a conflict. |
| Aggregator.GvcfAggregator.ResolveBufferedSites | starka/src/lib/starling_common/gvcf_aggregator.cpp:639-649 | Every buffered site is re-annotated, by `ResolveSites`, against the first indel and its ploidy at the site's offset, or as a conflict. |
| Resolver.ResolveSites | starka/src/lib/starling_common/gvcf_aggregator.cpp:639-649 | Site re-annotation keeps the number of sites and each position. |
| Resolver.ResolveSite | starka/src/lib/starling_common/gvcf_aggregator.cpp:639-649 | One site: only its genome quality and annotation change, and a conflict always sets IndelConflict. |
| Resolver.GetPloidy | starka/src/lib/starling_common/gvcf_aggregator.cpp:643-645 | The ploidy a site reads: the merged vector at the site offset inside an overlap, else 1 for a het indel, 0 for a hom indel, 2 for no indel. It stands in for `indel_info::get_ploidy`. |
| Resolver.SitesResolvable | starka/src/lib/starling_common/gvcf_aggregator.cpp:639-649 | Under the group invariant, the group end is not before the first indel, and outside a conflict every buffered site reads a ploidy of 0 or 1 from the resolved first indel. |
| Aggregator.GvcfAggregator.MergeStep | starka/src/lib/starling_common/gvcf_aggregator.cpp:654-671 | One merge step performs the next event of `MergeFrom` and advances the indices past it. |
| Aggregator.GvcfAggregator.MergeRecords | starka/src/lib/starling_common/gvcf_aggregator.cpp:651-672 | The merge loop applies exactly the event sequence `MergeFrom(0, 0)` to the block and output. |
| Merge.MergeFrom | starka/src/lib/starling_common/gvcf_aggregator.cpp:654-672 | The events of the merge loop from indices i and j. There is one event per remaining site, plus every remaining indel in a conflict, else one indel when any remain. |
| Merge.MergeOrder | starka/src/lib/starling_common/gvcf_aggregator.cpp:654-671 | Events come in position order: a site before an indel lies strictly before it, and an indel before a site lies at or before it (an indel wins ties). |
| Merge.MergeQueuesEverySite | starka/src/lib/starling_common/gvcf_aggregator.cpp:654-671 | Every buffered site is queued exactly once, in buffer order. |
| Merge.MergeWritesIndels | starka/src/lib/starling_common/gvcf_aggregator.cpp:654-671 | A conflict group writes every indel once, in order; otherwise exactly one indel record is written. |
| Merge.MergeIndices | starka/src/lib/starling_common/gvcf_aggregator.cpp:654-671 | Every event names a buffer index in range; outside a conflict only indel 0 is written. |
| Aggregation.MergeEventsOk | starka/src/lib/starling_common/gvcf_aggregator.cpp:654-671 | Every merge event writes a valid indel record index or queues an existing site. |
| Aggregator.GvcfAggregator.ProcessGroup | starka/src/lib/starling_common/gvcf_aggregator.cpp:614-672 | Resolving, the debug line, site re-annotation and the merge produce exactly `ProcessSpec`'s output; head and end are unchanged. |
| Aggregator.GvcfAggregator.ProcessOverlaps | starka/src/lib/starling_common/gvcf_aggregator.cpp:614-676 | The new state is `ProcessSpec` of the old one. |
| Aggregation.ProcessSpec | starka/src/lib/starling_common/gvcf_aggregator.cpp:614-676 | Both buffers end empty; head and group end are unchanged. |
| Aggregation.Resolved | starka/src/lib/starling_common/gvcf_aggregator.cpp:618-649 | Resolution keeps the group and site counts, yields mergeable records, and flags a conflict iff the group is one. |
| Aggregation.ProcessFacts | starka/src/lib/starling_common/gvcf_aggregator.cpp:614-676 | On an empty group nothing changes. Otherwise the output keeps what was written and continues with the INDEL_SIZE line; the invariant holds and both buffers are empty. |
| Aggregation.ApplyAllExtends | starka/src/lib/starling_common/gvcf_aggregator.cpp:654-671 | The merge only appends to the output. |

## Left out

- `src/c++/lib/blt_util/binomial_test.hh` holds only declarations of statistical tests; it is not part of this model.
- The floating-point reference-fraction test of `is_site_record_blockable` (and its division by a possibly zero call count) is the input flag `refFracHigh`. `Blockable` keeps that an `is_snp` site is never blockable.
- Byte-level stream formatting and integer-to-text rendering are not modelled. Records are field tuples (`Records.Record`), and the constant ID and FORMAT columns are not carried.
- Reference storage is an abstract `seq<char>` read through `GetSubstring`. Outside it reads 'N', and a negative length gives the empty string.
- The upstream genotype and indel calculators are given integer fields (`GtResult`, `DiIndel`).
- Header and metadata emission and configuration parsing are not in this file. Only the thresholds used here are carried (`Options`).
- The block compressor's own source is not part of this model. `BlockState` stands in for it: a run length, the first site and the running minimum GQX. Its `test` accepts for an empty block or a contiguous site of the same annotation shape.
- `indel_info::get_ploidy`, `indel_info::get_gt`, `indel_info::init`, `site_info::get_gt`, `site_modifiers::is_gqx`/`is_qual` and the filter writer are not part of this model. Stand-ins with the documented behaviour are used: `GetPloidy`, `IndelSampleGt`, `InitIndel`, `SiteSampleGt`, `ShowsGqx`/`ShowsQual`, `FilterSet`.
- The DIGT genotype table is not part of this model. The stand-in order is AA, CC, GG, TT, AC, AG, AT, CG, CT, GT, with `Alleles`, `Expect2` and `IsHet` over it.
- `indel_key::right_pos` is not part of this model. The stand-in is `pos + deleteLength` (`IndelKey.RightPos`).
- The bodies of `write_block_site_record` and `get_empty_site` are not in the file. `Flush` writes the open block as one record and resets it, and `EmptySite` moves the annotated default site to the position.
- Finish: keeps the destructor as written, so the open block is not written at shutdown; see Findings.
- The chromosome name is set outside this file (the constructor sets it to NULL). Here it is a constructor parameter.
- The constructor's assertions on the range and on a missing output stream are not modelled. The output is always the `out` field.
- Positions and qualities are unbounded integers. The one unsigned wrap that matters, a negative trailing length in `modify_overlap_indel_record`, reads the empty substring.
- Calls out of position order are excluded by `requires` (`AddSite`, `AddIndel`). The source only trusts that order.
- AddIndel: requires `pos >= headPos`, which also excludes a site at a position followed by an indel at that same position. The source accepts that interleaving. After it, an insertion at p leaves the group end at p behind the head p + 1, and the `process_overlaps` call at line 213 is then reachable for the next indel. The model does not cover that case.
- AddIndel: requires `pos == ik.pos`, which the caller guarantees and the source does not check.
- Aggregation.AddIndelSpec: carries no `ensures` of its own; its properties are the lemmas `AddIndelCases`, `AddIndelAfterSkip` and `AddIndelOk`.

## Findings

| source | as written | input that shows it | evidently intended | confidence | as-written member | corrected member |
|---|---|---|---|---|---|---|
| starka/src/lib/starling_common/gvcf_aggregator.cpp:111-115 | The destructor fills to one past the range end and closes the last group, but never calls `write_block_site_record`. Every queued site ends in the block join, so the last open block is dropped. | No open group and the head at or before the range end: the gap fill leaves a non-empty block that no later step writes. | The shutdown flush: every queued site is written, so the open block is flushed after the last group. | not executed | Aggregation.FinishLeavesBlockOpen | Aggregation.FinishFlushedSpec |
