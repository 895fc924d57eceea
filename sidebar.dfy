/** The client sidebar (src/components/client/ClientSidebar.tsx): which menu
    entries of the 'services' section are shown, given the activation-required
    service types and the caller's activated ones, and which sections are
    drawn. The section list and the activation-required types are inputs; they
    live in a data file that is not part of this model. */
module Sidebar {
  import opened Common

  datatype SidebarItem = SidebarItem(id: string, title: string)
  datatype SidebarSection = SidebarSection(id: string, title: string, items: seq<SidebarItem>)

  const ServicesSection := "services"

  /** Whether a services entry stays: one that needs no activation always does;
      one that does stays only once loaded and when its type is activated. */
  predicate KeepItem(item: SidebarItem, isLoading: bool, required: seq<string>, activated: set<string>) {
    item.id !in required || (!isLoading && item.id in activated)
  }

  function FilterSection(section: SidebarSection, isLoading: bool, required: seq<string>, activated: set<string>): (r: SidebarSection)
    ensures r.id == section.id && r.title == section.title
    ensures section.id != ServicesSection ==> r == section
    ensures section.id == ServicesSection ==>
      forall item :: item in r.items <==> item in section.items && KeepItem(item, isLoading, required, activated)
  {
    if section.id != ServicesSection then section
    else section.(items := Filter(section.items, (item: SidebarItem) => KeepItem(item, isLoading, required, activated)))
  }

  /** `filterSidebarSections`. */
  function FilterSidebarSections(sections: seq<SidebarSection>, isLoading: bool, required: seq<string>,
                                 activated: set<string>): (r: seq<SidebarSection>)
    ensures |r| == |sections|
    ensures forall i :: 0 <= i < |r| ==> r[i] == FilterSection(sections[i], isLoading, required, activated)
  {
    seq(|sections|, i requires 0 <= i < |sections| => FilterSection(sections[i], isLoading, required, activated))
  }

  /** Filtering only removes entries and keeps their order. */
  lemma FilterKeepsOrder(sections: seq<SidebarSection>, isLoading: bool, required: seq<string>, activated: set<string>)
    ensures var r := FilterSidebarSections(sections, isLoading, required, activated);
      forall i :: 0 <= i < |r| ==> IsSubsequence(r[i].items, sections[i].items)
  {
    var r := FilterSidebarSections(sections, isLoading, required, activated);
    forall i | 0 <= i < |r| ensures IsSubsequence(r[i].items, sections[i].items) {
      if sections[i].id == ServicesSection {
        FilterIsSubsequence(sections[i].items, (item: SidebarItem) => KeepItem(item, isLoading, required, activated));
      } else {
        SubsequenceRefl(sections[i].items);
      }
    }
  }

  /** While loading, exactly the entries that need no activation are shown. */
  lemma LoadingShowsUnrestricted(sections: seq<SidebarSection>, required: seq<string>, activated: set<string>)
    ensures var r := FilterSidebarSections(sections, true, required, activated);
      forall i :: 0 <= i < |r| && sections[i].id == ServicesSection ==>
        forall item :: item in r[i].items <==> item in sections[i].items && item.id !in required
  {
  }

  /** Whatever the activated types turn out to be, the loading menu is a
      sub-list of the loaded one. */
  lemma LoadingIsSublistOfLoaded(sections: seq<SidebarSection>, required: seq<string>, activated: set<string>)
    ensures var loading := FilterSidebarSections(sections, true, required, activated);
      var loaded := FilterSidebarSections(sections, false, required, activated);
      forall i :: 0 <= i < |sections| ==> IsSubsequence(loading[i].items, loaded[i].items)
  {
    var loading := FilterSidebarSections(sections, true, required, activated);
    var loaded := FilterSidebarSections(sections, false, required, activated);
    forall i | 0 <= i < |sections| ensures IsSubsequence(loading[i].items, loaded[i].items) {
      if sections[i].id == ServicesSection {
        FilterStrongerIsSubsequence(sections[i].items,
          (item: SidebarItem) => KeepItem(item, true, required, activated),
          (item: SidebarItem) => KeepItem(item, false, required, activated));
      } else {
        SubsequenceRefl(sections[i].items);
      }
    }
  }

  /** Activating more service types never hides an entry. */
  lemma MoreActivatedShowsMore(sections: seq<SidebarSection>, required: seq<string>, activated: set<string>, more: set<string>)
    requires activated <= more
    ensures var before := FilterSidebarSections(sections, false, required, activated);
      var after := FilterSidebarSections(sections, false, required, more);
      forall i :: 0 <= i < |sections| ==> IsSubsequence(before[i].items, after[i].items)
  {
    var before := FilterSidebarSections(sections, false, required, activated);
    var after := FilterSidebarSections(sections, false, required, more);
    forall i | 0 <= i < |sections| ensures IsSubsequence(before[i].items, after[i].items) {
      if sections[i].id == ServicesSection {
        FilterStrongerIsSubsequence(sections[i].items,
          (item: SidebarItem) => KeepItem(item, false, required, activated),
          (item: SidebarItem) => KeepItem(item, false, required, more));
      } else {
        SubsequenceRefl(sections[i].items);
      }
    }
  }

  /** The sections drawn: `section.items.length > 0`. */
  function RenderedSections(sections: seq<SidebarSection>): (r: seq<SidebarSection>)
    ensures forall i :: 0 <= i < |r| ==> |r[i].items| > 0 && r[i] in sections
    ensures forall i :: 0 <= i < |sections| && |sections[i].items| > 0 ==> sections[i] in r
  {
    Filter(sections, (s: SidebarSection) => |s.items| > 0)
  }

  /** A services section whose every entry is filtered away is not drawn,
      while every other section keeps its place. */
  lemma EmptyServicesNotRendered(sections: seq<SidebarSection>, isLoading: bool, required: seq<string>, activated: set<string>)
    ensures var r := FilterSidebarSections(sections, isLoading, required, activated);
      IsSubsequence(RenderedSections(r), r)
      && forall i :: 0 <= i < |r| && |r[i].items| == 0 ==> r[i] !in RenderedSections(r)
  {
    var r := FilterSidebarSections(sections, isLoading, required, activated);
    FilterIsSubsequence(r, (s: SidebarSection) => |s.items| > 0);
  }
}
