/** The page client the course page mounts: one wrapped block per section
    whose tag it knows, in document order. Nine tags are rendered; every
    other tag, `testimonials` included, is dropped. */
module PageClient {
  import opened Base
  import opened Types
  import opened SectionKinds
  import opened PageView
  import Seqs
  import FaqSection
  import CourseSlider

  /** The nine tags this client renders. */
  const MountedTags: seq<string> :=
    ["instructors", "features", "pointers", "about", "feature_explanations",
     "free_items", "requirements", "how_to_pay", "faq"]

  /** The kinds whose component receives the section; the other rendered
      kinds get no props at all. */
  predicate TakesSection(k: Kind) {
    k.Instructors? || k.Features? || k.Pointers? || k.About? || k.FeatureExplanations?
  }

  /** `renderSection`: a block exactly for the nine tags, wrapped in a `div`
      whose id is the tag. */
  function RenderSection(s: Section): (r: Option<Block>)
    ensures r.Some? <==> s.sectionType in MountedTags
    ensures r.Some? ==> r.value.Wrapped? && r.value.anchor == s.sectionType && r.value.kind == KindOf(s.sectionType)
    ensures r.Some? && TakesSection(r.value.kind) ==> r.value.props == SpreadSection(s)
    ensures r.Some? && !TakesSection(r.value.kind) ==> r.value.props == NoProps
  {
    var k := KindOf(s.sectionType);
    match k
    case Instructors => Some(Wrapped("instructors", k, SpreadSection(s)))
    case Features => Some(Wrapped("features", k, SpreadSection(s)))
    case Pointers => Some(Wrapped("pointers", k, SpreadSection(s)))
    case About => Some(Wrapped("about", k, SpreadSection(s)))
    case FeatureExplanations => Some(Wrapped("feature_explanations", k, SpreadSection(s)))
    case FreeItems => Some(Wrapped("free_items", k, NoProps))
    case Requirements => Some(Wrapped("requirements", k, NoProps))
    case HowToPay => Some(Wrapped("how_to_pay", k, NoProps))
    case Faq => Some(Wrapped("faq", k, NoProps))
    case Testimonials => None
    case Unrecognised(_) => None
  }

  /** The mounted tags are the recognised ones without `testimonials`. */
  lemma MountedTagsAreRecognisedButTestimonials(t: string)
    ensures t in MountedTags <==> t in RecognisedTags && t != "testimonials"
  {
  }

  predicate Mounted(s: Section) {
    s.sectionType in MountedTags
  }

  /** The section list rendered: each section's block, nulls dropped. */
  function RenderList(sections: seq<Section>): seq<Block> {
    Seqs.Somes(Seqs.Map(sections, RenderSection))
  }

  /** The rendered list has one block per section with a mounted tag, in
      document order and with repeated tags each rendered; the others are
      dropped silently. */
  lemma RenderListKeepsOrder(sections: seq<Section>)
    ensures |RenderList(sections)| == |Seqs.Filter(sections, Mounted)|
    ensures forall i :: 0 <= i < |RenderList(sections)| ==>
              Some(RenderList(sections)[i]) == RenderSection(Seqs.Filter(sections, Mounted)[i])
    ensures forall i :: 0 <= i < |RenderList(sections)| ==>
              RenderList(sections)[i].anchor == Seqs.Filter(sections, Mounted)[i].sectionType
  {
    Seqs.SomesOfMapIsMapOfFilter(sections, RenderSection, Mounted);
  }

  /** A document whose sections are all unknown renders nothing. */
  lemma UnknownSectionsRenderNothing(sections: seq<Section>)
    requires forall i :: 0 <= i < |sections| ==> !Mounted(sections[i])
    ensures RenderList(sections) == []
  {
    RenderListKeepsOrder(sections);
    Seqs.FilterNone(sections, Mounted);
  }

  /** For the four kinds rendered without props the block does not depend
      on the section at all: two sections with the same such tag give the
      same block. */
  lemma StaticKindsIgnoreContent(a: Section, b: Section)
    requires a.sectionType == b.sectionType
    requires a.sectionType in ["free_items", "requirements", "how_to_pay", "faq"]
    ensures RenderSection(a) == RenderSection(b)
  {
  }

  /** The FAQ block gets no props, so it always shows the default heading
      and the built-in questions, whatever the document's FAQ section
      holds. */
  lemma MountedFaqShowsFallback(s: Section, l: Language)
    requires s.sectionType == "faq"
    ensures var b := RenderSection(s).value;
            && FaqSection.DisplayData(PropsValues(b.props), l) == FaqSection.Fallback(l)
            && FaqSection.Heading(PropsName(b.props), l) == (if l == Bn then "সচরাচর জিজ্ঞাসা" else "Frequently Asked Questions")
  {
  }

  /** A document with a pointers section, a section of an unknown type and
      an FAQ section renders two blocks, anchored 'pointers' and 'faq'. */
  lemma PointersUnknownFaq(p: Section, u: Section, f: Section)
    requires p.sectionType == "pointers" && f.sectionType == "faq" && u.sectionType == "x"
    ensures RenderList([p, u, f]) == [Wrapped("pointers", Pointers, SpreadSection(p)), Wrapped("faq", Faq, NoProps)]
  {
    var m := Seqs.Map([p, u, f], RenderSection);
    assert m == [Some(Wrapped("pointers", Pointers, SpreadSection(p))), None, Some(Wrapped("faq", Faq, NoProps))];
    assert m[1..][1..] == [m[2]];
    assert [m[2]][1..] == [];
    assert Seqs.Somes([m[2]]) == [m[2].value];
    assert Seqs.Somes(m[1..]) == Seqs.Somes([m[2]]);
  }

  /** Every section the slider's tabs scroll to is one this client renders
      with that anchor id, so a tab's target exists whenever the document
      has the section. */
  lemma SliderTargetsAreRendered(s: Section)
    requires exists a :: a in CourseSlider.TabToSection && CourseSlider.TabToSection[a] == s.sectionType
    ensures RenderSection(s).Some? && RenderSection(s).value.anchor == s.sectionType
  {
  }

  /** The page: the chosen view, and for the content view the blocks of the
      chosen document. With a server document the blocks are always shown,
      from the query's data once it has some. */
  function Page(isLoading: bool, error: Option<string>, data: Option<CourseData>,
                initialData: Option<CourseData>): (r: (View, seq<Block>))
    ensures initialData.Some? ==> r == (Content(data.GetOr(initialData.value)), RenderList(data.GetOr(initialData.value).sections))
    ensures initialData.None? && isLoading ==> r == (Loading, [])
    ensures initialData.None? && !isLoading && error.Some? ==> r == (Failed(error.value), [])
    ensures initialData.None? && !isLoading && error.None? && data.Some? ==> r == (Content(data.value), RenderList(data.value.sections))
    ensures initialData.None? && !isLoading && error.None? && data.None? ==> r == (Crash, [])
  {
    var v := SelectView(isLoading, error, data, initialData);
    (v, if v.Content? then RenderList(v.data.sections) else [])
  }
}
