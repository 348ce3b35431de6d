/** Quality selection and threshold filters for sites and indels, and the
    re-annotation of a site covered by an indel group. */
module Modifiers {
  import opened GvcfTypes

  /** set_site_filters: LowGQX when enabled and the site GQX is below the
      minimum; HighDepth when enabled and used plus unused calls exceed the
      maximum. Filters already present stay. */
  function SetSiteFilters(opt: Options, si: SiteInfo): (r: SiteInfo)
    ensures r == si.(smod := si.smod.(filters := r.smod.filters))
    ensures r.smod.filters == si.smod.filters.(
      lowGqx := si.smod.filters.lowGqx || (opt.isMinGqx && si.smod.gqx < opt.minGqx),
      highDepth := si.smod.filters.highDepth || (opt.isMaxDepth && si.nUsed + si.nUnused > opt.maxDepth))
  {
    var f1 := if opt.isMinGqx && si.smod.gqx < opt.minGqx then si.smod.filters.With(LowGQX) else si.smod.filters;
    var f2 := if opt.isMaxDepth && si.nUsed + si.nUnused > opt.maxDepth then f1.With(HighDepth) else f1;
    si.(smod := si.smod.(filters := f2))
  }

  /** add_site_modifiers: clear the annotation, derive the coverage flags,
      select genotype and GQX, then apply the site filters. */
  function AddSiteModifiers(opt: Options, si: SiteInfo): (r: SiteInfo)
    ensures r == si.(smod := r.smod)
    ensures r.smod.isUnknown == (si.ref == 'N')
    ensures r.smod.isUsedCovered == (si.nUsed != 0)
    ensures r.smod.isCovered == (si.nUsed != 0 || si.nUnused != 0)
    ensures !r.smod.isBlock && !r.smod.isZeroPloidy && r.smod.modifiedGt == Unmodified
    ensures si.ref == 'N' ==> r.smod.gqx == 0 && r.smod.maxGt == 0
    ensures si.ref != 'N' && si.genome.maxGt != si.poly.maxGt ==>
      r.smod.gqx == 0 && r.smod.maxGt == si.genome.maxGt
    ensures si.ref != 'N' && si.genome.maxGt == si.poly.maxGt ==>
      r.smod.maxGt == si.genome.maxGt && r.smod.gqx == Min(si.genome.maxGtQ, si.poly.maxGtQ)
    ensures r.smod.filters == NoFilters.(
      lowGqx := opt.isMinGqx && r.smod.gqx < opt.minGqx,
      highDepth := opt.isMaxDepth && si.nUsed + si.nUnused > opt.maxDepth)
  {
    var unknown := si.ref == 'N';
    var used := si.nUsed != 0;
    var covered := used || si.nUnused != 0;
    var sel: (Digt, int) :=
      if unknown then (0, 0)
      else if si.genome.maxGt != si.poly.maxGt then (si.genome.maxGt, 0)
      else if si.genome.maxGtQ < si.poly.maxGtQ then (si.genome.maxGt, si.genome.maxGtQ)
      else (si.poly.maxGt, si.poly.maxGtQ);
    var smod := ClearedSiteMods.(isUnknown := unknown, isUsedCovered := used, isCovered := covered,
                                 maxGt := sel.0, gqx := sel.1);
    SetSiteFilters(opt, si.(smod := smod))
  }

  /** add_indel_modifiers: GQX is the lesser of the indel quality and the
      genotype quality, then the LowGQX and HighDepth filters. */
  function AddIndelModifiers(opt: Options, ii: IndelInfo): (r: IndelInfo)
    ensures r == ii.(imod := ii.imod.(gqx := r.imod.gqx, filters := r.imod.filters))
    ensures r.imod.gqx <= ii.dindel.indelQ && r.imod.gqx <= ii.dindel.maxGtQ
    ensures r.imod.gqx == ii.dindel.indelQ || r.imod.gqx == ii.dindel.maxGtQ
    ensures r.imod.filters == ii.imod.filters.(
      lowGqx := ii.imod.filters.lowGqx || (opt.isMinGqx && r.imod.gqx < opt.minGqx),
      highDepth := ii.imod.filters.highDepth || (opt.isMaxDepth && ii.depth > opt.maxDepth))
  {
    var gqx := Min(ii.dindel.indelQ, ii.dindel.maxGtQ);
    var f1 := if opt.isMinGqx && gqx < opt.minGqx then ii.imod.filters.With(LowGQX) else ii.imod.filters;
    var f2 := if opt.isMaxDepth && ii.depth > opt.maxDepth then f1.With(HighDepth) else f1;
    ii.(imod := ii.imod.(gqx := gqx, filters := f2))
  }

  /** The genotype tag a single-ploidy context gives a site's call. */
  function OnePloidyGt(si: SiteInfo): ModifiedGt {
    if IsHet(si.smod.maxGt) then ModUnknown
    else if si.smod.maxGt == si.refGt then ModZero
    else ModOne
  }

  /** The ploidy override of modify_indel_overlap_site: ploidy 1 caps the
      SNP quality and GQX at the indel's and re-derives the displayed
      genotype, a heterozygous call becoming a site conflict; ploidy 0 marks
      the site zero-ploidy with an unknown genotype. */
  function PloidyOverride(ii: IndelInfo, ploidy: nat, si: SiteInfo): (r: SiteInfo)
    requires ploidy <= 1
    ensures r == si.(genome := si.genome.(snpQ := r.genome.snpQ),
                     smod := si.smod.(gqx := r.smod.gqx, filters := r.smod.filters,
                                      modifiedGt := r.smod.modifiedGt, isZeroPloidy := r.smod.isZeroPloidy))
    ensures ploidy == 1 ==>
      r.genome.snpQ == Min(si.genome.snpQ, ii.dindel.indelQ) &&
      r.smod.gqx == Min(si.smod.gqx, ii.dindel.maxGtQ) &&
      r.smod.isZeroPloidy == si.smod.isZeroPloidy &&
      r.smod.modifiedGt == OnePloidyGt(si)
    ensures ploidy == 0 ==>
      r.genome == si.genome && r.smod.gqx == si.smod.gqx &&
      r.smod.modifiedGt == ModUnknown && r.smod.isZeroPloidy
    ensures r.smod.filters == si.smod.filters.(
      siteConflict := si.smod.filters.siteConflict || (ploidy == 1 && IsHet(si.smod.maxGt)))
  {
    if ploidy == 1 then
      var capped := si.(genome := si.genome.(snpQ := Min(si.genome.snpQ, ii.dindel.indelQ)),
                        smod := si.smod.(gqx := Min(si.smod.gqx, ii.dindel.maxGtQ)));
      if IsHet(capped.smod.maxGt) then
        capped.(smod := capped.smod.(filters := capped.smod.filters.With(SiteConflict), modifiedGt := ModUnknown))
      else
        capped.(smod := capped.smod.(modifiedGt := OnePloidyGt(si)))
    else
      si.(smod := si.smod.(modifiedGt := ModUnknown, isZeroPloidy := true))
  }

  /** modify_indel_overlap_site: intersect the site's filters with the
      indel's, apply the ploidy override, then rerun the site filters. Any
      ploidy other than 0 or 1 is an assertion failure in the source. */
  function ModifyIndelOverlapSite(opt: Options, ii: IndelInfo, ploidy: nat, si: SiteInfo): (r: SiteInfo)
    requires ploidy <= 1
    ensures var o := PloidyOverride(ii, ploidy, si);
      r == o.(smod := o.smod.(filters := r.smod.filters))
    ensures var inherited := si.smod.filters.Meet(ii.imod.filters);
      r.smod.filters == inherited.(
        siteConflict := inherited.siteConflict || (ploidy == 1 && IsHet(si.smod.maxGt)),
        lowGqx := inherited.lowGqx || (opt.isMinGqx && r.smod.gqx < opt.minGqx),
        highDepth := inherited.highDepth || (opt.isMaxDepth && si.nUsed + si.nUnused > opt.maxDepth))
  {
    var inherited := si.(smod := si.smod.(filters := si.smod.filters.Meet(ii.imod.filters)));
    SetSiteFilters(opt, PloidyOverride(ii, ploidy, inherited))
  }

  /** modify_indel_conflict_site: only the IndelConflict filter is added. */
  function ModifyIndelConflictSite(si: SiteInfo): (r: SiteInfo)
    ensures r == si.(smod := si.smod.(filters := si.smod.filters.(indelConflict := true)))
  {
    si.(smod := si.smod.(filters := si.smod.filters.With(IndelConflict)))
  }

  /** is_site_record_blockable: a called SNP never joins a block; with a
      known reference base the reference fraction must be high enough. */
  predicate Blockable(si: SiteInfo) {
    !si.isSnp && (si.ref == 'N' || si.refFracHigh)
  }

  /** get_empty_site: the annotated default site moved to `pos`. */
  function EmptySite(opt: Options, pos: int): (r: SiteInfo)
    ensures r.pos == pos && r.ref == 'N' && r.nUsed == 0 && r.nUnused == 0
    ensures r.smod.isUnknown && !r.smod.isCovered && r.smod.gqx == 0 && r.smod.maxGt == 0
    ensures Blockable(r)
  {
    AddSiteModifiers(opt, DefaultSite).(pos := pos)
  }
}
