/** The query hooks. The request cache itself (staleness, garbage
    collection, retry scheduling, deduplication) is not modelled; what is
    modelled is the options object each hook hands it: the defaults, the
    caller's overrides spread on top, the query key, the `enabled` rule and
    the retry-delay formula. */
module CourseQuery {
  import opened Base
  import opened Types

  /** One part of a query key. */
  datatype KeyPart = KStr(s: string) | KList(items: seq<string>)

  /** A value in the options object. Functions are named by what they do;
      `QUndefined` is an explicitly present `undefined`. */
  datatype QValue =
    | QNum(n: int)
    | QBool(b: bool)
    | QKey(parts: seq<KeyPart>)
    | QData(data: CourseData)
    | QUndefined
    | QRetryDelay
    | QFetchCourse(slug: string, lang: string)
    | QFetchCourses(slugs: seq<string>, lang: string)

  /** The options object as a record of own properties. */
  type Options = map<string, QValue>

  const StaleTimeMs: int := 5 * 60 * 1000
  const GcTimeMs: int := 10 * 60 * 1000
  const RetryBudget: int := 3
  const MaxRetryDelayMs: int := 30000

  /** `2 ** n`. */
  function Pow2(n: nat): (r: nat)
    ensures r >= 1
  {
    if n == 0 then 1 else 2 * Pow2(n - 1)
  }

  lemma {:induction false} Pow2Monotone(a: nat, b: nat)
    requires a <= b
    ensures Pow2(a) <= Pow2(b)
    decreases b - a
  {
    if a < b {
      Pow2Monotone(a, b - 1);
    }
  }

  /** `retryDelay(attemptIndex) = min(1000 * 2 ** attemptIndex, 30000)`:
      between one second and the 30-second cap. */
  function RetryDelay(attempt: nat): (r: int)
    ensures 1000 <= r <= MaxRetryDelayMs
  {
    var d := 1000 * Pow2(attempt);
    if d < MaxRetryDelayMs then d else MaxRetryDelayMs
  }

  /** The delay never shrinks as attempts go on. */
  lemma RetryDelayMonotone(a: nat, b: nat)
    requires a <= b
    ensures RetryDelay(a) <= RetryDelay(b)
  {
    Pow2Monotone(a, b);
  }

  /** The delay doubles from one second up to the fifth attempt, and is
      capped at 30 seconds from then on. */
  lemma {:induction false} RetryDelaySchedule(a: nat)
    ensures a <= 4 ==> RetryDelay(a) == 1000 * Pow2(a)
    ensures a >= 5 ==> RetryDelay(a) == MaxRetryDelayMs
  {
    assert Pow2(4) == 16 by {
      assert Pow2(1) == 2 && Pow2(2) == 4 && Pow2(3) == 8;
    }
    assert Pow2(5) == 32;
    if a <= 4 {
      Pow2Monotone(a, 4);
    } else {
      Pow2Monotone(5, a);
    }
  }

  /** The first delays are 1, 2, 4, 8 and 16 seconds, then 30. */
  lemma RetryDelayValues()
    ensures RetryDelay(0) == 1000 && RetryDelay(1) == 2000 && RetryDelay(2) == 4000
    ensures RetryDelay(3) == 8000 && RetryDelay(4) == 16000 && RetryDelay(5) == 30000
  {
    RetryDelaySchedule(0);
    RetryDelaySchedule(1);
    RetryDelaySchedule(2);
    RetryDelaySchedule(3);
    RetryDelaySchedule(4);
    RetryDelaySchedule(5);
    assert Pow2(4) == 16 by {
      assert Pow2(1) == 2 && Pow2(2) == 4 && Pow2(3) == 8;
    }
  }

  /** `{ ...defaults, ...overrides }`: every property of the overrides wins
      (even an explicit `undefined`), every other default stays. */
  function Spread(defaults: Options, overrides: Options): (r: Options)
    ensures r.Keys == defaults.Keys + overrides.Keys
    ensures forall k :: k in overrides ==> r[k] == overrides[k]
    ensures forall k :: k in defaults && k !in overrides ==> r[k] == defaults[k]
  {
    defaults + overrides
  }

  /** The defaults `useCourseQuery` sets before the caller's options. */
  function CourseDefaults(slug: string, lang: string): Options {
    map[
      "queryKey" := QKey([KStr("course"), KStr(slug), KStr(lang)]),
      "queryFn" := QFetchCourse(slug, lang),
      "staleTime" := QNum(StaleTimeMs),
      "gcTime" := QNum(GcTimeMs),
      "retry" := QNum(RetryBudget),
      "retryDelay" := QRetryDelay,
      "refetchOnWindowFocus" := QBool(false),
      "refetchOnMount" := QBool(false)
    ]
  }

  /** `useCourseQuery({courseSlug, lang, queryOptions})`: slug and language
      default to 'ielts-course' and 'en' and name the query key; caller
      options (which by their type cannot carry a key or a fetcher) override
      the defaults field by field. */
  function UseCourseQuery(slug: Option<string>, lang: Option<string>, queryOptions: Option<Options>): (r: Options)
    requires queryOptions.Some? ==> "queryKey" !in queryOptions.value && "queryFn" !in queryOptions.value
    ensures "queryKey" in r && r["queryKey"] == QKey([KStr("course"), KStr(slug.GetOr("ielts-course")), KStr(lang.GetOr("en"))])
    ensures "queryFn" in r && r["queryFn"] == QFetchCourse(slug.GetOr("ielts-course"), lang.GetOr("en"))
    ensures queryOptions.Some? ==> forall k :: k in queryOptions.value ==> k in r && r[k] == queryOptions.value[k]
    ensures forall k :: k in CourseDefaults("", "") && (queryOptions.None? || k !in queryOptions.value) ==>
              k in r && (k != "queryKey" && k != "queryFn" ==> r[k] == CourseDefaults("", "")[k])
    ensures queryOptions.None? ==> r.Keys == CourseDefaults("", "").Keys
  {
    var s := slug.GetOr("ielts-course");
    var l := lang.GetOr("en");
    Spread(CourseDefaults(s, l), queryOptions.GetOr(map[]))
  }

  /** With no overrides the hook retries three times with the backoff
      formula, keeps data fresh for five minutes and collected after ten,
      and does not refetch on focus or remount. */
  lemma CourseQueryDefaults(slug: Option<string>, lang: Option<string>)
    ensures var r := UseCourseQuery(slug, lang, None);
            && r["retry"] == QNum(3) && r["retryDelay"] == QRetryDelay
            && r["staleTime"] == QNum(300000) && r["gcTime"] == QNum(600000)
            && r["refetchOnWindowFocus"] == QBool(false) && r["refetchOnMount"] == QBool(false)
  {
  }

  /** `useMultipleCoursesQuery(courseSlugs, lang)`. */
  function UseMultipleCoursesQuery(slugs: seq<string>, lang: Option<string>): (r: Options)
    ensures "enabled" in r && (r["enabled"] == QBool(true) <==> |slugs| > 0)
    ensures "queryKey" in r && r["queryKey"] == QKey([KStr("courses"), KList(slugs), KStr(lang.GetOr("en"))])
    ensures "retry" !in r
  {
    var l := lang.GetOr("en");
    map[
      "queryKey" := QKey([KStr("courses"), KList(slugs), KStr(l)]),
      "queryFn" := QFetchCourses(slugs, l),
      "enabled" := QBool(|slugs| > 0),
      "staleTime" := QNum(StaleTimeMs),
      "gcTime" := QNum(GcTimeMs),
      "refetchOnWindowFocus" := QBool(false)
    ]
  }
}
