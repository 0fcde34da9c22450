/** The course document as the content API returns it (`ICourseData`,
    `ISection`, `ICourseResponse`) and the two interface languages
    (`ILanguage`). Fields the modelled code never reads are left out. */
module Types {
  import opened Base

  /** `ILanguage`: the interface language, English or Bengali. */
  datatype Language = En | Bn

  /** The language's code as it appears in URLs and in storage. */
  function LanguageCode(l: Language): string {
    match l
    case En => "en"
    case Bn => "bn"
  }

  /** One entry of a section's `values`. The source casts `values` to the
      shape its `type` implies without validating it, so an entry is kept
      as the string fields it carries; a field that is not there is
      `undefined`. */
  datatype Item = Item(fields: map<string, string>) {
    function Field(name: string): (r: Option<string>)
      ensures r.Some? <==> name in fields
      ensures r.Some? ==> r.value == fields[name]
    {
      if name in fields then Some(fields[name]) else None
    }
  }

  /** `ISection`: one typed content block of the document. */
  datatype Section = Section(
    sectionType: string,
    name: string,
    description: string,
    bgColor: string,
    orderIdx: int,
    values: seq<Item>)

  /** `IMedia`. */
  datatype Media = Media(name: string, resourceType: string, resourceValue: string)

  /** `IChecklist`. */
  datatype Checklist = Checklist(color: string, icon: string, id: string, listPageVisibility: bool, text: string)

  /** `IMeta`: one `defaultMeta` entry of the SEO block. */
  datatype Meta = Meta(content: string, metaType: string, value: string)

  /** `ISeo`. The page reads `keywords` and `defaultMeta` through optional
      chaining, so their absence is modelled. */
  datatype Seo = Seo(
    defaultMeta: Option<seq<Meta>>,
    description: string,
    keywords: Option<seq<string>>,
    title: string)

  /** `ICourseData.cta_text`. */
  datatype CtaText = CtaText(name: string, value: string)

  /** `ICourseData`: the course document. The page reads `seo` through
      optional chaining, so its absence is modelled. */
  datatype CourseData = CourseData(
    slug: string,
    id: int,
    title: string,
    description: string,
    media: seq<Media>,
    checklist: seq<Checklist>,
    seo: Option<Seo>,
    ctaText: CtaText,
    sections: seq<Section>)

  /** `ICourseResponse`: the envelope every endpoint answers with. `code` is
      the business status, independent of the HTTP status. */
  datatype Envelope<D> = Envelope(code: int, data: D, message: string)
}
