/** The server actions that fetch course documents. The HTTP transport is
    not modelled: each request's outcome is an input, either the envelope
    the API answered with, an axios error (with the message the response
    body carried, if any, and the error's own message), or any other thrown
    value. */
module CourseActions {
  import opened Base
  import opened Types
  import Seqs

  /** What the transport produced for one request. */
  datatype Outcome<D> =
    | Ok(envelope: Envelope<D>)
    | AxiosErr(bodyMessage: Option<string>, message: string)
    | OtherErr

  /** A GET request: path and query parameters, in order. */
  datatype Request = Request(path: string, params: seq<(string, string)>)

  const DefaultSlug: string := "ielts-course"
  const DefaultLang: string := "en"
  const ProductsPath: string := "/discovery-service/api/v1/products/"
  const SearchPath: string := "/discovery-service/api/v1/search"

  const DetailsPrefix: string := "Failed to fetch course data: "
  const DetailsUnexpected: string := "An unexpected error occurred while fetching course data"
  const ApiPrefix: string := "API Error: "
  const ApiFallback: string := "Failed to fetch course data"
  const SearchPrefix: string := "Search failed: "
  const SearchUnexpected: string := "An unexpected error occurred during search"

  /** The request `getCourseDetailsData` issues; a missing slug or language
      takes its default. */
  function DetailsRequest(slug: Option<string>, lang: Option<string>): (r: Request)
    ensures slug.None? ==> r.path == ProductsPath + "ielts-course"
    ensures slug.Some? ==> r.path == ProductsPath + slug.value
    ensures lang.None? ==> r.params == [("lang", "en")]
    ensures lang.Some? ==> r.params == [("lang", lang.value)]
  {
    Request(ProductsPath + slug.GetOr(DefaultSlug), [("lang", lang.GetOr(DefaultLang))])
  }

  /** What the `try` block of `getCourseDetailsData` ends with: the data it
      returns, or the value it throws. */
  datatype Thrown =
    | AxiosError(bodyMessage: Option<string>, message: string)
    | PlainError(message: string)
    | NonAxios

  datatype TryEnd<D> = Returned(data: D) | Threw(thrown: Thrown)

  /** The `try` block: a non-200 business code throws an `Error` whose
      message starts with 'API Error: '. */
  function DetailsTry(o: Outcome<CourseData>): TryEnd<CourseData> {
    match o
    case Ok(env) =>
      if env.code != 200 then
        Threw(PlainError(ApiPrefix + OrStr(env.message, ApiFallback)))
      else
        Returned(env.data)
    case AxiosErr(body, msg) => Threw(AxiosError(body, msg))
    case OtherErr => Threw(NonAxios)
  }

  /** The `catch` block: only axios errors keep a specific message. */
  function DetailsCatch(e: Thrown): string {
    match e
    case AxiosError(body, msg) => DetailsPrefix + Or(body, msg)
    case _ => DetailsUnexpected
  }

  /** `getCourseDetailsData`, as written: the envelope's data exactly when
      the business code is 200; the error raised for any other code is
      caught by the same `try`, is not an axios error, and so surfaces as
      the generic message. */
  function GetCourseDetailsData(o: Outcome<CourseData>): (r: Result<CourseData>)
    ensures r.Success? <==> o.Ok? && o.envelope.code == 200
    ensures r.Success? ==> r.value == o.envelope.data
    ensures o.Ok? && o.envelope.code != 200 ==> r == Failure(DetailsUnexpected)
    ensures o.AxiosErr? && Truthy(o.bodyMessage) ==> r == Failure(DetailsPrefix + o.bodyMessage.value)
    ensures o.AxiosErr? && !Truthy(o.bodyMessage) ==> r == Failure(DetailsPrefix + o.message)
    ensures o.OtherErr? ==> r == Failure(DetailsUnexpected)
  {
    match DetailsTry(o)
    case Returned(d) => Success(d)
    case Threw(e) => Failure(DetailsCatch(e))
  }

  /** The message the 'API Error: ' branch evidently meant to surface. */
  function ApiErrorMessage(env: Envelope<CourseData>): string {
    ApiPrefix + OrStr(env.message, ApiFallback)
  }

  /** `getCourseDetailsData` as evidently intended: the business-code error
      is rethrown with its own message instead of being swallowed by the
      generic handler. */
  function GetCourseDetailsDataIntended(o: Outcome<CourseData>): (r: Result<CourseData>)
    ensures r.Success? <==> o.Ok? && o.envelope.code == 200
    ensures r.Success? ==> r.value == o.envelope.data
    ensures o.Ok? && o.envelope.code != 200 && o.envelope.message != "" ==>
              r == Failure(ApiPrefix + o.envelope.message)
    ensures o.Ok? && o.envelope.code != 200 && o.envelope.message == "" ==>
              r == Failure(ApiPrefix + ApiFallback)
    ensures !o.Ok? ==> r == GetCourseDetailsData(o)
  {
    match o
    case Ok(env) => if env.code != 200 then Failure(ApiErrorMessage(env)) else Success(env.data)
    case _ => GetCourseDetailsData(o)
  }

  /** A business failure with code 404 and message 'Course not found' is
      reported with the generic text: the envelope's message is lost, while
      the intended handler reports it. */
  lemma ApiErrorMessageIsLost()
    ensures var o := Ok(Envelope(404, Placeholder(), "Course not found"));
            && GetCourseDetailsData(o) == Failure(DetailsUnexpected)
            && GetCourseDetailsDataIntended(o) == Failure(ApiPrefix + "Course not found")
  {
  }

  /** The two handlers agree on everything except the message of a business
      failure. */
  lemma IntendedDiffersOnlyInApiMessage(o: Outcome<CourseData>)
    ensures GetCourseDetailsData(o).Success? <==> GetCourseDetailsDataIntended(o).Success?
    ensures GetCourseDetailsData(o).Success? ==> GetCourseDetailsData(o) == GetCourseDetailsDataIntended(o)
    ensures !(o.Ok? && o.envelope.code != 200) ==> GetCourseDetailsData(o) == GetCourseDetailsDataIntended(o)
  {
  }

  /** A course document with no content, for concrete examples. */
  function Placeholder(): CourseData {
    CourseData("", 0, "", "", [], [], None, CtaText("", ""), [])
  }

  /** The requests `getMultipleCoursesData` issues: one per slug, in order,
      each in the given language. */
  function BatchRequests(slugs: seq<string>, lang: Option<string>): (r: seq<Request>)
    ensures |r| == |slugs|
    ensures forall i :: 0 <= i < |slugs| ==> r[i] == DetailsRequest(Some(slugs[i]), lang)
  {
    Seqs.Map(slugs, (s: string) => DetailsRequest(Some(s), lang))
  }

  /** The document one settled request contributes to a batch, if any. */
  function Settled(o: Outcome<CourseData>): Option<CourseData> {
    GetCourseDetailsData(o).ToOption()
  }

  /** `getMultipleCoursesData`, given the outcome of each request in
      `BatchRequests` order: the fulfilled results in their original order;
      rejected ones are dropped and nothing is thrown. */
  function GetMultipleCoursesData(outcomes: seq<Outcome<CourseData>>): (r: seq<CourseData>)
    ensures |r| <= |outcomes|
    ensures forall k :: 0 <= k < |r| ==>
              exists i :: 0 <= i < |outcomes| && outcomes[i].Ok? && outcomes[i].envelope.code == 200
                                               && outcomes[i].envelope.data == r[k]
  {
    var r := Seqs.Somes(Seqs.Map(outcomes, Settled));
    assert forall k :: 0 <= k < |r| ==>
             exists i :: 0 <= i < |outcomes| && Settled(outcomes[i]) == Some(r[k]);
    r
  }

  /** The batch of a concatenation is the concatenation of the batches: the
      successes keep their relative order. */
  lemma BatchAppend(a: seq<Outcome<CourseData>>, b: seq<Outcome<CourseData>>)
    ensures GetMultipleCoursesData(a + b) == GetMultipleCoursesData(a) + GetMultipleCoursesData(b)
  {
    assert Seqs.Map(a + b, Settled) == Seqs.Map(a, Settled) + Seqs.Map(b, Settled);
    Seqs.SomesAppend(Seqs.Map(a, Settled), Seqs.Map(b, Settled));
  }

  /** A one-request batch holds that request's document exactly when it
      succeeded. */
  lemma BatchSingle(o: Outcome<CourseData>)
    ensures GetCourseDetailsData(o).Success? ==> GetMultipleCoursesData([o]) == [GetCourseDetailsData(o).value]
    ensures GetCourseDetailsData(o).Failure? ==> GetMultipleCoursesData([o]) == []
  {
    assert Seqs.Map([o], Settled) == [Settled(o)];
    assert Seqs.Somes([Settled(o)])
        == (if Settled(o).Some? then [Settled(o).value] else []);
  }

  /** The successful outcomes of a batch. */
  predicate Succeeded(o: Outcome<CourseData>) {
    GetCourseDetailsData(o).Success?
  }

  /** The batch holds, position by position, the documents of the
      successful outcomes: as many as there were successes. */
  lemma BatchIsSuccessesInOrder(outcomes: seq<Outcome<CourseData>>)
    ensures |GetMultipleCoursesData(outcomes)| == |Seqs.Filter(outcomes, Succeeded)|
    ensures forall k :: 0 <= k < |GetMultipleCoursesData(outcomes)| ==>
              GetMultipleCoursesData(outcomes)[k] == Seqs.Filter(outcomes, Succeeded)[k].envelope.data
  {
    Seqs.SomesOfMapIsMapOfFilter(outcomes, Settled, Succeeded);
  }

  /** When every fetch fails the batch is empty (and does not throw). */
  lemma BatchAllFail(outcomes: seq<Outcome<CourseData>>)
    requires forall i :: 0 <= i < |outcomes| ==> !Succeeded(outcomes[i])
    ensures GetMultipleCoursesData(outcomes) == []
  {
    BatchIsSuccessesInOrder(outcomes);
    Seqs.FilterNone(outcomes, Succeeded);
  }

  /** Three slugs of which the second fails: the batch holds the first and
      third documents, in that order. */
  lemma BatchMiddleFails(da: CourseData, dc: CourseData, failure: Outcome<CourseData>)
    requires !Succeeded(failure)
    ensures GetMultipleCoursesData([Ok(Envelope(200, da, "")), failure, Ok(Envelope(200, dc, ""))]) == [da, dc]
  {
    var oa: Outcome<CourseData> := Ok(Envelope(200, da, ""));
    var oc: Outcome<CourseData> := Ok(Envelope(200, dc, ""));
    BatchSingle(oa);
    BatchSingle(failure);
    BatchSingle(oc);
    BatchAppend([oa], [failure]);
    BatchAppend([oa, failure], [oc]);
    assert [oa] + [failure] == [oa, failure];
    assert [oa, failure] + [oc] == [oa, failure, oc];
  }

  /** The request `searchCourses` issues. */
  function SearchRequest(query: string, lang: Option<string>): (r: Request)
    ensures r.path == SearchPath
    ensures r.params == [("q", query), ("lang", lang.GetOr("en"))]
  {
    Request(SearchPath, [("q", query), ("lang", lang.GetOr(DefaultLang))])
  }

  /** `searchCourses`: the envelope is handed back as it came, whatever its
      business code; transport failures become errors. */
  function SearchCourses<D>(o: Outcome<D>): (r: Result<Envelope<D>>)
    ensures r.Success? <==> o.Ok?
    ensures o.Ok? ==> r.value == o.envelope
    ensures o.AxiosErr? ==> r == Failure(SearchPrefix + Or(o.bodyMessage, o.message))
    ensures o.OtherErr? ==> r == Failure(SearchUnexpected)
  {
    match o
    case Ok(env) => Success(env)
    case AxiosErr(body, msg) => Failure(SearchPrefix + Or(body, msg))
    case OtherErr => Failure(SearchUnexpected)
  }
}
