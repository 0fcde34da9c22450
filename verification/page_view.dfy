/** What the two page clients share: the rendered blocks they produce per
    section, the query options they pass to the course hook, and the choice
    between the loading, error and content views. */
module PageView {
  import opened Base
  import opened Types
  import SectionKinds
  import CourseQuery
  import Translations

  /** The props a section component is given: none, the section spread
      into props (its name, type, order and values among them), or the
      section under a `testimonialData` prop only. */
  datatype Props = NoProps | SpreadSection(section: Section) | TestimonialDataOnly(section: Section)

  /** The `values` prop a section component sees; the component defaults
      it to `[]` when it is not given. */
  function PropsValues(p: Props): (r: seq<Item>)
    ensures p.SpreadSection? ==> r == p.section.values
    ensures !p.SpreadSection? ==> r == []
  {
    match p
    case SpreadSection(s) => s.values
    case _ => []
  }

  /** The `name` prop a section component sees. */
  function PropsName(p: Props): (r: Option<string>)
    ensures p.SpreadSection? ==> r == Some(p.section.name)
    ensures !p.SpreadSection? ==> r == None
  {
    match p
    case SpreadSection(s) => Some(s.name)
    case _ => None
  }

  /** One rendered block: a wrapper `div` with an anchor id around a section
      component, or the component on its own. */
  datatype Block =
    | Wrapped(anchor: string, kind: SectionKinds.Kind, props: Props)
    | Bare(kind: SectionKinds.Kind, props: Props)

  /** The staleness the page asks for: five minutes when the server already
      supplied the document, none otherwise. */
  function StaleTime(initialData: Option<CourseData>): (r: int)
    ensures initialData.Some? ==> r == 300000
    ensures initialData.None? ==> r == 0
  {
    if initialData.Some? then 5 * 60 * 1000 else 0
  }

  /** The `queryOptions` the page passes: the server document (or an
      explicit `undefined`) as initial data, and the staleness above. */
  function PageQueryOptions(initialData: Option<CourseData>): CourseQuery.Options {
    map[
      "initialData" := if initialData.Some? then CourseQuery.QData(initialData.value) else CourseQuery.QUndefined,
      "staleTime" := CourseQuery.QNum(StaleTime(initialData))
    ]
  }

  /** The page's course query: the 'ielts-course' document in the page's
      language, the hook's retry, garbage-collection and refetch defaults
      kept, and only the staleness and initial data overridden. */
  lemma PageQuery(lang: string, initialData: Option<CourseData>)
    ensures var r := CourseQuery.UseCourseQuery(Some("ielts-course"), Some(lang), Some(PageQueryOptions(initialData)));
            && r["queryKey"] == CourseQuery.QKey([CourseQuery.KStr("course"), CourseQuery.KStr("ielts-course"), CourseQuery.KStr(lang)])
            && r["staleTime"] == CourseQuery.QNum(if initialData.Some? then 300000 else 0)
            && r["retry"] == CourseQuery.QNum(3) && r["retryDelay"] == CourseQuery.QRetryDelay
            && r["gcTime"] == CourseQuery.QNum(600000)
            && r["refetchOnWindowFocus"] == CourseQuery.QBool(false)
            && (initialData.Some? ==> r["initialData"] == CourseQuery.QData(initialData.value))
  {
    var o := PageQueryOptions(initialData);
    var r := CourseQuery.UseCourseQuery(Some("ielts-course"), Some(lang), Some(o));
    assert "retry" !in o && "retryDelay" !in o && "gcTime" !in o && "refetchOnWindowFocus" !in o;
    assert "retry" in CourseQuery.CourseDefaults("", "");
    assert "retryDelay" in CourseQuery.CourseDefaults("", "");
    assert "gcTime" in CourseQuery.CourseDefaults("", "");
    assert "refetchOnWindowFocus" in CourseQuery.CourseDefaults("", "");
  }

  /** Which view the page renders. `Crash` is the `initialData!` read of a
      missing document when neither data nor initial data exist. */
  datatype View =
    | Loading
    | Failed(message: string)
    | Content(data: CourseData)
    | Crash

  /** The view for the query's state: loading only while there is no
      initial data; then the error only while there is no initial data;
      otherwise the query's data, or the initial data when the query has
      none. */
  function SelectView(isLoading: bool, error: Option<string>, data: Option<CourseData>,
                      initialData: Option<CourseData>): (r: View)
    ensures r == Loading <==> isLoading && initialData.None?
    ensures r.Failed? <==> !isLoading && error.Some? && initialData.None?
    ensures r.Failed? ==> r.message == error.value
    ensures r.Content? && data.Some? ==> r.data == data.value
    ensures r.Content? && data.None? ==> initialData.Some? && r.data == initialData.value
    ensures r == Crash <==> !isLoading && error.None? && data.None? && initialData.None?
  {
    if isLoading && initialData.None? then Loading
    else if error.Some? && initialData.None? then Failed(error.value)
    else if data.Some? then Content(data.value)
    else if initialData.Some? then Content(initialData.value)
    else Crash
  }

  /** With a server document the page never shows the loading or error
      view and never crashes: it shows the query's data or, until there is
      some, the server document. */
  lemma InitialDataAlwaysShows(isLoading: bool, error: Option<string>, data: Option<CourseData>, d: CourseData)
    ensures SelectView(isLoading, error, data, Some(d)) == Content(data.GetOr(d))
  {
  }

  /** The texts of the loading view and of the error view (heading and
      retry button), looked up in the current language. */
  datatype ViewTexts = ViewTexts(loading: string, errorTitle: string, retry: string)

  function Texts(l: Language): ViewTexts {
    ViewTexts(Translations.Translate(l, "loading"), Translations.Translate(l, "error.title"),
              Translations.Translate(l, "error.retry"))
  }

  /** With the lookup as written, the loading text translates but the error
      view shows its heading and button as the raw keys 'error.title' and
      'error.retry'. */
  lemma ErrorViewShowsKeys(l: Language)
    ensures Texts(l).loading == Translations.Table(l)["loading"]
    ensures Texts(l).errorTitle == "error.title"
    ensures Texts(l).retry == "error.retry"
  {
    Translations.TablesHaveSameKeys();
    Translations.OnlyLoadingTranslates(l, "loading");
    Translations.DottedTableKeyUntranslated(l, "error.title");
    Translations.DottedTableKeyUntranslated(l, "error.retry");
  }

  /** The same texts with the whole-key lookup. */
  function TextsIntended(l: Language): ViewTexts {
    ViewTexts(Translations.TranslateFlat(l, "loading"), Translations.TranslateFlat(l, "error.title"),
              Translations.TranslateFlat(l, "error.retry"))
  }

  /** With the whole-key lookup all three texts come from the current
      language's table, and the loading text is the same as before. */
  lemma IntendedErrorViewTranslates(l: Language)
    ensures TextsIntended(l).loading == Translations.Table(l)["loading"] == Texts(l).loading
    ensures TextsIntended(l).errorTitle == Translations.Table(l)["error.title"]
    ensures TextsIntended(l).retry == Translations.Table(l)["error.retry"]
  {
    Translations.TablesHaveSameKeys();
    Translations.TranslateFlatFindsEveryKey(l, "loading");
    Translations.OnlyLoadingTranslates(l, "loading");
  }
}
