/** The second page client, which the course page does not mount. It lists
    the ten supported tags, renders a block for each, and hands the
    supported sections to the tab slider. Its testimonials case passes the
    section under a prop the widget never reads. */
module PageClientAlt {
  import opened Base
  import opened Types
  import opened SectionKinds
  import opened PageView
  import Seqs
  import StudentsOpinion
  import FaqSection
  import PageClient

  /** `SUPPORTED_SECTION_TYPES`. */
  const SupportedTypes: seq<string> :=
    ["instructors", "features", "pointers", "about", "feature_explanations",
     "free_items", "testimonials", "requirements", "how_to_pay", "faq"]

  /** The supported list is exactly the recognised tags, ten of them, in the
      same order. */
  lemma SupportedAreRecognised()
    ensures SupportedTypes == RecognisedTags && |SupportedTypes| == 10
  {
  }

  predicate Supported(s: Section) {
    s.sectionType in SupportedTypes
  }

  /** `renderSection`, as written: a block exactly for the supported tags.
      Nine are wrapped in a `div` whose id is the section's type; the FAQ
      component is rendered bare and sets the same id itself. */
  function RenderSection(s: Section): (r: Option<Block>)
    ensures r.Some? <==> Supported(s)
    ensures r.Some? ==> r.value.kind == KindOf(s.sectionType)
    ensures r.Some? && r.value.kind != Faq ==> r.value.Wrapped? && r.value.anchor == s.sectionType
    ensures r.Some? && r.value.kind == Faq ==> r.value == Bare(Faq, SpreadSection(s))
    ensures r.Some? && r.value.kind == Testimonials ==> r.value.props == TestimonialDataOnly(s)
    ensures r.Some? && r.value.kind == FreeItems ==> r.value.props == NoProps
  {
    var k := KindOf(s.sectionType);
    match k
    case Instructors => Some(Wrapped(s.sectionType, k, SpreadSection(s)))
    case Features => Some(Wrapped(s.sectionType, k, SpreadSection(s)))
    case Pointers => Some(Wrapped(s.sectionType, k, SpreadSection(s)))
    case About => Some(Wrapped(s.sectionType, k, SpreadSection(s)))
    case FeatureExplanations => Some(Wrapped(s.sectionType, k, SpreadSection(s)))
    case FreeItems => Some(Wrapped(s.sectionType, k, NoProps))
    case Testimonials => Some(Wrapped(s.sectionType, k, TestimonialDataOnly(s)))
    case Requirements => Some(Wrapped(s.sectionType, k, SpreadSection(s)))
    case HowToPay => Some(Wrapped(s.sectionType, k, SpreadSection(s)))
    case Faq => Some(Bare(k, SpreadSection(s)))
    case Unrecognised(_) => None
  }

  /** The anchor a rendered block exposes: the wrapper's id, or for the bare
      FAQ component the id it sets from its `type` prop. */
  function AnchorOf(b: Block): string {
    match b
    case Wrapped(a, _, _) => a
    case Bare(_, p) => if p.SpreadSection? then p.section.sectionType else ""
  }

  /** Every rendered block, the bare FAQ one included, is anchored at the
      section's type. */
  lemma AnchorIsType(s: Section)
    requires Supported(s)
    ensures AnchorOf(RenderSection(s).value) == s.sectionType
  {
  }

  /** `supportedSections`: the sections whose type is supported, in order.
      A section is kept exactly when it is in the document and supported. */
  function SupportedSections(sections: seq<Section>): (r: seq<Section>)
    ensures |r| <= |sections|
    ensures forall i :: 0 <= i < |r| ==> Supported(r[i]) && r[i] in sections
    ensures forall s :: s in r <==> s in sections && Supported(s)
  {
    var r := Seqs.Filter(sections, Supported);
    assert forall s :: s in r <==> s in sections && Supported(s) by {
      forall s ensures s in r <==> s in sections && Supported(s) {
        Seqs.FilterMembership(sections, Supported, s);
      }
    }
    r
  }

  /** The supported sections of a concatenation are those of each part, in
      the same order: with `SupportedOne` this fixes the list, so nothing
      supported is dropped, nothing is reordered and repeats are kept. */
  lemma SupportedSectionsAppend(a: seq<Section>, b: seq<Section>)
    ensures SupportedSections(a + b) == SupportedSections(a) + SupportedSections(b)
  {
    Seqs.FilterAppend(a, b, Supported);
  }

  /** A single section is kept exactly when it is supported. */
  lemma SupportedOne(s: Section)
    ensures SupportedSections([s]) == if Supported(s) then [s] else []
  {
    assert [s][1..] == [];
  }

  /** The section list rendered: each section's block, nulls dropped. */
  function RenderList(sections: seq<Section>): seq<Block> {
    Seqs.Somes(Seqs.Map(sections, RenderSection))
  }

  /** The rendered list has exactly one block per supported section, in
      document order, duplicates included; it is the supported sections
      rendered one by one. */
  lemma RenderListIsSupportedRendered(sections: seq<Section>)
    ensures |RenderList(sections)| == |SupportedSections(sections)|
    ensures forall i :: 0 <= i < |RenderList(sections)| ==>
              Some(RenderList(sections)[i]) == RenderSection(SupportedSections(sections)[i])
  {
    Seqs.SomesOfMapIsMapOfFilter(sections, RenderSection, Supported);
  }

  /** The testimonials widget reads `values`, but this client passes the
      section as `testimonialData`: the widget sees no values and shows its
      built-in pair whatever the section holds. */
  lemma TestimonialsIgnoreSection(s: Section, l: Language)
    requires s.sectionType == "testimonials"
    ensures var b := RenderSection(s).value;
            && StudentsOpinion.DisplayData(PropsValues(b.props), l) == StudentsOpinion.Fallback(l)
            && StudentsOpinion.Heading(PropsName(b.props), l) == (if l == Bn then "শিক্ষার্থীদের মতামত" else "Students Opinion")
  {
  }

  /** `renderSection` as evidently intended for testimonials: the section is
      spread into the widget's props like the other content sections. */
  function RenderSectionIntended(s: Section): (r: Option<Block>)
    ensures s.sectionType == "testimonials" ==> r == Some(Wrapped(s.sectionType, Testimonials, SpreadSection(s)))
    ensures s.sectionType != "testimonials" ==> r == RenderSection(s)
  {
    if s.sectionType == "testimonials" then Some(Wrapped(s.sectionType, Testimonials, SpreadSection(s)))
    else RenderSection(s)
  }

  /** With the section spread, a testimonials section with entries shows
      them, normalised and in order, under the section's own name. */
  lemma IntendedTestimonialsShowSection(s: Section, l: Language)
    requires s.sectionType == "testimonials" && |s.values| > 0
    ensures var b := RenderSectionIntended(s).value;
            && StudentsOpinion.DisplayData(PropsValues(b.props), l) == Seqs.Map(s.values, StudentsOpinion.Normalise)
            && PropsName(b.props) == Some(s.name)
  {
  }

  /** Unlike the mounted client, this one gives the FAQ component the
      section, so a non-empty FAQ section shows its own entries. */
  lemma FaqShowsSection(s: Section, l: Language)
    requires s.sectionType == "faq" && |s.values| > 0
    ensures FaqSection.DisplayData(PropsValues(RenderSection(s).value.props), l) == Seqs.Map(s.values, FaqSection.FromValue)
  {
  }

  /** The page: the same view as the mounted client for every query state;
      for the content view, the blocks, which are the slider's section list
      rendered one by one (the slider, taking only a class name, ignores
      the list). */
  function Page(isLoading: bool, error: Option<string>, data: Option<CourseData>,
                initialData: Option<CourseData>): (r: (View, seq<Block>, seq<Section>))
    ensures r.0 == PageClient.Page(isLoading, error, data, initialData).0
    ensures r.0.Content? ==> |r.1| == |r.2| && forall i :: 0 <= i < |r.1| ==> Some(r.1[i]) == RenderSection(r.2[i])
    ensures r.0.Content? ==> r.2 == SupportedSections(r.0.data.sections)
    ensures !r.0.Content? ==> r.1 == [] && r.2 == []
  {
    var v := SelectView(isLoading, error, data, initialData);
    if v.Content? then
      RenderListIsSupportedRendered(v.data.sections);
      (v, RenderList(v.data.sections), SupportedSections(v.data.sections))
    else (v, [], [])
  }
}
