/** The server page: the metadata it derives from the course document, and
    the choice between its own error page and the client page. The fetch is
    `getCourseDetailsData`; its result is an input. */
module CoursePage {
  import opened Base
  import opened Types
  import opened Strings
  import CourseActions
  import Translations

  /** The one course the page shows. */
  const Slug: string := "ielts-course"

  const FallbackTitle: string := "10 Minute School - Course"
  const FallbackDescription: string := "Learn with the best online courses in Bangladesh"
  const DefaultKeywords: string := "IELTS, English, Course, 10 Minute School"
  const SiteProduct: string := "https://10minuteschool.com/product/"

  /** The page language: the `lang` search parameter when it is a non-empty
      string, and 'en' otherwise. */
  function LangOf(param: Option<string>): (r: string)
    ensures Truthy(param) ==> r == param.value
    ensures !Truthy(param) ==> r == "en"
  {
    Or(param, "en")
  }

  /** The request both entry points make: the fixed slug in the page
      language. */
  lemma PageRequest(param: Option<string>)
    ensures CourseActions.DetailsRequest(Some(Slug), Some(LangOf(param))).path == CourseActions.ProductsPath + "ielts-course"
    ensures CourseActions.DetailsRequest(Some(Slug), Some(LangOf(param))).params == [("lang", LangOf(param))]
  {
  }

  /** The description with its tags removed, cut to 160 characters. */
  function ShortDescription(description: string): (r: string)
    ensures |r| <= 160
    ensures |r| <= |StripTags(description)| && r == StripTags(description)[..|r|]
    ensures |StripTags(description)| <= 160 ==> r == StripTags(description)
    ensures NoTag(r)
  {
    var stripped := StripTags(description);
    StripTagsLeavesNoTag(description);
    var r := Take(stripped, 160);
    assert forall i, j :: 0 <= i < j < |r| ==> r[i] == stripped[i] && r[j] == stripped[j];
    r
  }

  /** The keyword string: the SEO keywords joined with ', ' when that is
      non-empty, and the default list otherwise. */
  function Keywords(keywords: Option<seq<string>>): (r: string)
    ensures keywords.Some? && Join(keywords.value, ", ") != "" ==> r == Join(keywords.value, ", ")
    ensures keywords.None? || Join(keywords.value, ", ") == "" ==> r == DefaultKeywords
  {
    match keywords
    case None => DefaultKeywords
    case Some(ks) => OrStr(Join(ks, ", "), DefaultKeywords)
  }

  /** No keywords, or only empty ones, give the default list. */
  lemma EmptyKeywordsGiveDefault()
    ensures Keywords(Some([])) == DefaultKeywords
    ensures Keywords(Some([""])) == DefaultKeywords
  {
  }

  /** `media.find(m => m.name === 'thumbnail')`: the first media entry named
      'thumbnail'. */
  function FindThumbnail(media: seq<Media>): (r: Option<nat>)
    ensures r.Some? ==> r.value < |media| && media[r.value].name == "thumbnail"
    ensures r.Some? ==> forall j :: 0 <= j < r.value ==> media[j].name != "thumbnail"
    ensures r.None? ==> forall j :: 0 <= j < |media| ==> media[j].name != "thumbnail"
    decreases |media|
  {
    if media == [] then None
    else if media[0].name == "thumbnail" then Some(0)
    else match FindThumbnail(media[1..])
      case None => None
      case Some(i) => Some(i + 1)
  }

  /** The image link: the first thumbnail's resource value, or '' when
      there is no thumbnail. */
  function ImageUrl(media: seq<Media>): (r: string)
    ensures FindThumbnail(media).None? ==> r == ""
    ensures FindThumbnail(media).Some? ==> r == media[FindThumbnail(media).value].resourceValue
  {
    match FindThumbnail(media)
    case None => ""
    case Some(i) => OrStr(media[i].resourceValue, "")
  }

  /** A later thumbnail never replaces the first. */
  lemma FirstThumbnailWins(a: Media, b: Media, rest: seq<Media>)
    requires a.name == "thumbnail"
    ensures ImageUrl([a, b] + rest) == a.resourceValue
  {
  }

  /** The Open Graph locale. */
  function Locale(lang: string): (r: string)
    ensures lang == "bn" ==> r == "bn_BD"
    ensures lang != "bn" ==> r == "en_US"
  {
    if lang == "bn" then "bn_BD" else "en_US"
  }

  /** The `defaultMeta` reduce: entries are written into an object keyed by
      their type, first to last. */
  function MetaFold(metas: seq<Meta>): map<string, string>
    decreases |metas|
  {
    if metas == [] then map[]
    else
      var last := metas[|metas| - 1];
      MetaFold(metas[..|metas| - 1])[last.metaType := last.content]
  }

  /** The object has a key for every type that occurs, and no other. */
  lemma {:induction false} MetaFoldKeys(metas: seq<Meta>)
    ensures MetaFold(metas).Keys == set i | 0 <= i < |metas| :: metas[i].metaType
    decreases |metas|
  {
    if metas != [] {
      var init := metas[..|metas| - 1];
      MetaFoldKeys(init);
      forall k | k in set i | 0 <= i < |metas| :: metas[i].metaType
        ensures k in MetaFold(metas)
      {
        var i :| 0 <= i < |metas| && metas[i].metaType == k;
        if i < |init| {
          assert init[i].metaType == k;
        }
      }
      forall k | k in MetaFold(metas)
        ensures k in set i | 0 <= i < |metas| :: metas[i].metaType
      {
        if k != metas[|metas| - 1].metaType {
          var i :| 0 <= i < |init| && init[i].metaType == k;
          assert metas[i].metaType == k;
        }
      }
    }
  }

  /** The last entry of each type wins: an entry that no later entry of the
      same type follows gives that type's content. */
  lemma {:induction false} MetaFoldLastWins(metas: seq<Meta>, i: nat)
    requires i < |metas|
    requires forall j :: i < j < |metas| ==> metas[j].metaType != metas[i].metaType
    ensures metas[i].metaType in MetaFold(metas)
    ensures MetaFold(metas)[metas[i].metaType] == metas[i].content
    decreases |metas|
  {
    if i < |metas| - 1 {
      var init := metas[..|metas| - 1];
      assert init[i] == metas[i];
      forall j | i < j < |init| ensures init[j].metaType != init[i].metaType {
        assert init[j] == metas[j];
      }
      MetaFoldLastWins(init, i);
      assert metas[|metas| - 1].metaType != metas[i].metaType;
    }
  }

  /** Two entries of the same type: the second one's content is kept. */
  lemma MetaFoldSameTypeTwice(t: string, first: string, second: string, v1: string, v2: string)
    ensures MetaFold([Meta(first, t, v1), Meta(second, t, v2)]) == map[t := second]
  {
    var ms := [Meta(first, t, v1), Meta(second, t, v2)];
    assert ms[..1] == [Meta(first, t, v1)];
    assert [Meta(first, t, v1)][..0] == [];
    assert MetaFold([Meta(first, t, v1)]) == map[t := first];
    assert MetaFold(ms) == map[t := first][t := second];
  }

  /** The other-metadata object: the fold spread into a fresh object, empty
      when the document has no SEO block or no default meta. */
  function OtherMeta(seo: Option<Seo>): (r: map<string, string>)
    ensures seo.None? || seo.value.defaultMeta.None? ==> r == map[]
    ensures seo.Some? && seo.value.defaultMeta.Some? ==> r.Keys == set i | 0 <= i < |seo.value.defaultMeta.value| :: seo.value.defaultMeta.value[i].metaType
  {
    if seo.Some? && seo.value.defaultMeta.Some? then
      MetaFoldKeys(seo.value.defaultMeta.value);
      MetaFold(seo.value.defaultMeta.value)
    else map[]
  }

  datatype Image = Image(url: string, width: int, height: int, alt: string)
  datatype OpenGraph = OpenGraph(title: string, description: string, images: seq<Image>, ogType: string, locale: string)
  datatype Twitter = Twitter(card: string, title: string, description: string, images: seq<string>)
  datatype Alternates = Alternates(canonical: string, languages: map<string, string>)

  /** The page metadata: the full record derived from the document, or the
      fixed title and description when the fetch threw. */
  datatype Metadata =
    | Full(title: string, description: string, keywords: string, openGraph: OpenGraph,
           twitter: Twitter, alternates: Alternates, other: map<string, string>)
    | Basic(title: string, description: string)

  /** `seo?.field || fallback` for the SEO block's title and description. */
  function SeoOr(seo: Option<Seo>, pick: Seo -> string, fallback: string): string {
    if seo.Some? && pick(seo.value) != "" then pick(seo.value) else fallback
  }

  function SeoTitle(s: Seo): string { s.title }
  function SeoDescription(s: Seo): string { s.description }

  /** `generateMetadata`. */
  function GenerateMetadata(param: Option<string>, fetched: Result<CourseData>): (r: Metadata)
    ensures fetched.Failure? ==> r == Basic(FallbackTitle, FallbackDescription)
    ensures fetched.Success? ==> r.Full?
    ensures fetched.Success? && fetched.value.seo.Some? && fetched.value.seo.value.title != "" ==>
              r.title == fetched.value.seo.value.title
    ensures fetched.Success? && (fetched.value.seo.None? || fetched.value.seo.value.title == "") ==>
              r.title == fetched.value.title
    ensures fetched.Success? && fetched.value.seo.Some? && fetched.value.seo.value.description != "" ==>
              r.description == fetched.value.seo.value.description
    ensures fetched.Success? && (fetched.value.seo.None? || fetched.value.seo.value.description == "") ==>
              r.description == ShortDescription(fetched.value.description)
    ensures fetched.Success? ==> r.keywords == Keywords(if fetched.value.seo.Some? then fetched.value.seo.value.keywords else None)
    ensures fetched.Success? ==> r.openGraph.title == fetched.value.title && r.twitter.title == fetched.value.title
    ensures fetched.Success? ==> r.openGraph.description == ShortDescription(fetched.value.description)
    ensures fetched.Success? ==> |r.openGraph.description| <= 160 && r.twitter.description == r.openGraph.description
    ensures fetched.Success? ==> r.openGraph.ogType == "website" && r.twitter.card == "summary_large_image"
    ensures fetched.Success? ==> r.openGraph.locale == (if LangOf(param) == "bn" then "bn_BD" else "en_US")
    ensures fetched.Success? ==> r.openGraph.images == [Image(ImageUrl(fetched.value.media), 1200, 630, fetched.value.title)]
    ensures fetched.Success? ==> r.twitter.images == [ImageUrl(fetched.value.media)]
    ensures fetched.Success? ==> r.alternates.canonical == SiteProduct + Slug
    ensures fetched.Success? ==> r.alternates.languages == map["en" := SiteProduct + Slug + "?lang=en", "bn" := SiteProduct + Slug + "?lang=bn"]
    ensures fetched.Success? ==> r.other == OtherMeta(fetched.value.seo)
  {
    var lang := LangOf(param);
    match fetched
    case Failure(_) => Basic(FallbackTitle, FallbackDescription)
    case Success(d) =>
      var short := ShortDescription(d.description);
      var url := ImageUrl(d.media);
      var keywords := if d.seo.Some? then d.seo.value.keywords else None;
      Full(
        SeoOr(d.seo, SeoTitle, d.title),
        SeoOr(d.seo, SeoDescription, short),
        Keywords(keywords),
        OpenGraph(d.title, short, [Image(url, 1200, 630, d.title)], "website", Locale(lang)),
        Twitter("summary_large_image", d.title, short, [url]),
        Alternates(SiteProduct + Slug,
                   map["en" := SiteProduct + Slug + "?lang=en", "bn" := SiteProduct + Slug + "?lang=bn"]),
        OtherMeta(d.seo))
  }

  /** What the page's `catch` holds: an `Error` with its message, or any
      other thrown value. */
  datatype Caught = Fetched(data: CourseData) | CaughtError(message: string) | CaughtOther

  /** The outcome of `getCourseDetailsData` as the page's `try` sees it: it
      only ever throws `Error` objects. */
  function FromResult(r: Result<CourseData>): (c: Caught)
    ensures r.Success? <==> c.Fetched?
    ensures r.Success? ==> c.data == r.value
    ensures r.Failure? ==> c == CaughtError(r.message)
  {
    match r
    case Success(d) => Fetched(d)
    case Failure(m) => CaughtError(m)
  }

  /** The server's own error page, with its fixed English heading and
      button, or the client page with the document (if any) and language. */
  datatype PageResult =
    | ErrorPage(heading: string, message: string, retry: string)
    | ClientPage(initialData: Option<CourseData>, lang: string)

  /** The error text: the Error's message, or a fixed text for anything
      else thrown; none when the fetch succeeded. */
  function ErrorText(c: Caught): (r: Option<string>)
    ensures c.Fetched? ==> r.None?
    ensures c.CaughtError? ==> r == Some(c.message)
    ensures c.CaughtOther? ==> r == Some("Failed to load course data")
  {
    match c
    case Fetched(_) => None
    case CaughtError(m) => Some(m)
    case CaughtOther => Some("Failed to load course data")
  }

  /** `CoursePage`: the error page when the error text is non-empty;
      otherwise the client page, with the document when the fetch
      succeeded. */
  function Page(param: Option<string>, c: Caught): (r: PageResult)
    ensures Truthy(ErrorText(c)) ==> r == ErrorPage("Error loading course", ErrorText(c).value, "Retry")
    ensures !Truthy(ErrorText(c)) ==> r.ClientPage? && r.lang == LangOf(param)
    ensures c.Fetched? ==> r == ClientPage(Some(c.data), LangOf(param))
  {
    var error := ErrorText(c);
    if Truthy(error) then ErrorPage("Error loading course", error.value, "Retry")
    else ClientPage(if c.Fetched? then Some(c.data) else None, LangOf(param))
  }

  /** For the real fetch, the error page is shown exactly when the fetch
      failed, with the failure's message; every failure message is
      non-empty, so no failure reaches the client page. */
  lemma ErrorPageIffFetchFailed(param: Option<string>, o: CourseActions.Outcome<CourseData>)
    ensures var res := CourseActions.GetCourseDetailsData(o);
            && (Page(param, FromResult(res)).ErrorPage? <==> res.Failure?)
            && (res.Failure? ==> Page(param, FromResult(res)).message == res.message)
            && (res.Success? ==> Page(param, FromResult(res)) == ClientPage(Some(res.value), LangOf(param)))
  {
    var res := CourseActions.GetCourseDetailsData(o);
    if res.Failure? {
      assert |res.message| > 0 by {
        assert res.message == CourseActions.DetailsUnexpected
            || res.message[..|CourseActions.DetailsPrefix|] == CourseActions.DetailsPrefix;
      }
    }
  }

  /** The server error page is in English whatever the language, and its
      texts are the English table's entries for the error keys. */
  lemma ErrorPageIsEnglish(param: Option<string>, c: Caught)
    requires Page(param, c).ErrorPage?
    ensures Page(param, c).heading == Translations.Table(En)["error.title"]
    ensures Page(param, c).retry == Translations.Table(En)["error.retry"]
  {
  }
}
