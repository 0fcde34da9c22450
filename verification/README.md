# IELTS course landing page, modelled in Dafny

The system is a Next.js landing page for one course: the 10 Minute School
IELTS course, with slug `ielts-course`. This project models the page's core:

- **Server page.** The page reads the `lang` search parameter and fetches the
  course document from the discovery API. From that document it derives the
  page metadata. It then either shows its own error page or mounts a client
  page seeded with the document.
- **Client page.** The client page runs a cached course query. It shows a
  loading view, an error view or the content. The content is one block per
  document section, chosen by the section's `type` tag.
- **Two client variants.** There are two variants of the client. The one the
  page mounts renders nine tags and drops `testimonials`. The other renders
  all ten tags and also hands the supported sections to the tab slider.
- **Language provider.** It holds two flat translation tables, the `t` lookup
  and the stored-language check. The language toggle switches the language
  and rewrites the `lang` query parameter.
- **Section widgets.** Four widgets are modelled as pure state machines:
  - the call-to-action price label;
  - the FAQ list: open questions, the four-item limit and answer clean-up;
  - the testimonial carousel: two cards per page, page buttons, per-card
    video and expansion flags, and truncation at 150 characters;
  - the six-tab course slider: active tab, view index and arrow states.

I/O is never performed. Each HTTP outcome, stored value, scroll
measurement and query state is a parameter. Each operation returns what the
source would render, return or throw.

Modules, one per source file (plus shared helpers):

| module | models |
|---|---|
| `Base`, `Strings`, `Seqs` | option/result, the JavaScript `or` default, split/join/replace/tag stripping, filter and filter-map |
| `Types` | the course document (`ICourseData`, sections, media, SEO block, API envelope) |
| `SectionKinds` | the closed set of section tags, with a catch-all |
| `CourseActions` | `getCourseDetailsData`, `getMultipleCoursesData`, `searchCourses` |
| `CourseQuery` | the options objects of `useCourseQuery` and `useMultipleCoursesQuery`, and the retry backoff |
| `Translations` | the tables, `t`, and language hydration |
| `LanguageToggle` | the toggle button and the `lang` parameter rewrite |
| `CallToAction` | the price label and enrol button |
| `FaqSection`, `StudentsOpinion`, `CourseSlider` | the three stateful section widgets |
| `PageView` | props, blocks, query options and view selection shared by both clients |
| `PageClient`, `PageClientAlt` | the mounted client and the second client |
| `CoursePage` | `generateMetadata` and the server page |

## Model

| member | source | states |
|---|---|---|
| SectionKinds.KindOf | src/components/client-pages/CoursePageClient.tsx:49-123 | every tag gets a kind whose tag is the original tag; the catch-all is used exactly for tags outside the ten recognised ones |
| SectionKinds.KindOfTag | src/components/client-pages/CoursePageClient.tsx:49-123 | tags and well-formed kinds correspond one to one |
| SectionKinds.RecognisedTagsAreTagsOfRecognised | src/components/client-pages/CoursePageClient.tsx:34-45 | there are ten recognised tags, all different, in the listed order |
| CourseActions.DetailsRequest | src/actions/course-actions.ts:32-42 | the request path ends in the slug ('ielts-course' by default) and its only parameter is `lang` ('en' by default) |
| CourseActions.GetCourseDetailsData | src/actions/course-actions.ts:36-55 | returns the envelope's data exactly when the business code is 200; an axios failure reports the response body's message, or else the error's own message, after 'Failed to fetch course data: '; every other failure, a non-200 code included, gives the generic unexpected-error text |
| CourseActions.GetCourseDetailsDataIntended | src/actions/course-actions.ts:44-46 | corrected handler: a non-200 code fails with 'API Error: ' and the envelope's message, or 'Failed to fetch course data' when that message is empty; all other outcomes are as written |
| CourseActions.ApiErrorMessageIsLost | src/actions/course-actions.ts:44-54 | a 404 'Course not found' envelope surfaces as the generic text, where the intended handler surfaces 'API Error: Course not found' |
| CourseActions.IntendedDiffersOnlyInApiMessage | src/actions/course-actions.ts:44-55 | the two handlers succeed on the same outcomes with the same data and differ only in the message of a business failure |
| CourseActions.BatchRequests | src/actions/course-actions.ts:64-69 | one details request per slug, in slug order, all in the same language |
| CourseActions.GetMultipleCoursesData | src/actions/course-actions.ts:68-74 | the batch is never longer than its outcomes, and each of its documents came from a 200 envelope |
| CourseActions.BatchAppend | src/actions/course-actions.ts:70-74 | the batch of a concatenation is the concatenation of the batches, so successes keep their relative order |
| CourseActions.BatchSingle | src/actions/course-actions.ts:70-74 | a one-request batch holds its document exactly when that request succeeded |
| CourseActions.BatchIsSuccessesInOrder | src/actions/course-actions.ts:70-74 | the batch is, position by position, the data of the successful outcomes |
| CourseActions.BatchAllFail | src/actions/course-actions.ts:70-74 | when every request fails, the batch is empty and nothing is thrown |
| CourseActions.BatchMiddleFails | src/actions/course-actions.ts:70-74 | with the second of three requests failing, the batch holds the first and third documents in order |
| CourseActions.SearchRequest | src/actions/course-actions.ts:95-100 | the search request goes to the search path with parameters `q` and `lang` |
| CourseActions.SearchCourses | src/actions/course-actions.ts:94-109 | any answered envelope is returned as it came, whatever its code; axios failures and other failures give the two search error texts |
| CourseQuery.RetryDelay | src/hooks/use-course-query.ts:25 | the delay is always between one second and the 30-second cap |
| CourseQuery.RetryDelayMonotone | src/hooks/use-course-query.ts:25 | the delay never shrinks as the attempt index grows |
| CourseQuery.RetryDelaySchedule | src/hooks/use-course-query.ts:25 | the delay is 1000·2^n for attempts 0 to 4, and 30000 from attempt 5 on |
| CourseQuery.RetryDelayValues | src/hooks/use-course-query.ts:25 | the first six delays are 1, 2, 4, 8, 16 and 30 seconds |
| CourseQuery.Spread | src/hooks/use-course-query.ts:28 | every override wins, even an explicit `undefined`; every other default stays; nothing else appears |
| CourseQuery.UseCourseQuery | src/hooks/use-course-query.ts:14-29 | the key and fetcher name the slug and language (defaulting to 'ielts-course' and 'en'); caller options override field by field; defaults they do not name survive |
| CourseQuery.CourseQueryDefaults | src/hooks/use-course-query.ts:20-27 | with no overrides: 3 retries with the backoff, 5 minutes fresh, collected after 10 minutes, no refetch on focus or mount |
| CourseQuery.UseMultipleCoursesQuery | src/hooks/use-course-query.ts:33-44 | the query is enabled exactly when the slug list is non-empty; its key holds the list and language; it sets no retry |
| Translations.TablesHaveSameKeys | src/providers/LanguageProvider.tsx:12-41 | both tables have the same twelve distinct keys, each with a non-empty text |
| Translations.Step | src/providers/LanguageProvider.tsx:76 | a property read never yields the table object again |
| Translations.Walk | src/providers/LanguageProvider.tsx:75-77 | after at least one piece the walk has left the table object |
| Translations.WalkUndef | src/providers/LanguageProvider.tsx:76 | once `undefined`, the walk stays `undefined` |
| Translations.Translate | src/providers/LanguageProvider.tsx:71-80 | the result is the key itself unless the key's first dot-separated piece is a table key |
| Translations.DotFreeKey | src/providers/LanguageProvider.tsx:71-80 | a key without a dot gives its table entry if it has one, and itself otherwise |
| Translations.DottedKeyUntranslated | src/providers/LanguageProvider.tsx:72-79 | a dotted key whose first piece is not a table key comes back unchanged |
| Translations.KeyShapes | src/providers/LanguageProvider.tsx:13-26 | every key but 'loading' contains a dot, and no other key starts with 'l' |
| Translations.TableKeyIsKey | src/providers/LanguageProvider.tsx:12-41 | the table keys are among the twelve listed keys |
| Translations.DotFreeKeyIsLoading | src/providers/LanguageProvider.tsx:13-26 | 'loading' is the only dot-free key |
| Translations.DottedTableKeyUntranslated | src/providers/LanguageProvider.tsx:71-80 | every table key except 'loading' resolves to itself |
| Translations.OnlyLoadingTranslates | src/providers/LanguageProvider.tsx:71-80 | a table key translates (differs from itself) if and only if it is 'loading' |
| Translations.LoadingIndexYieldsCharacter | src/providers/LanguageProvider.tsx:72-79 | 'loading.<n>' walks into the loading text and yields its n-th character |
| Translations.TranslateFlat | src/providers/LanguageProvider.tsx:71-80 | corrected lookup: a key with a non-empty table entry gives that entry, and any other key gives itself |
| Translations.TranslateFlatFindsEveryKey | src/providers/LanguageProvider.tsx:12-41 | the whole-key lookup finds every table key, and agrees with `t` on dot-free keys |
| Translations.Hydrate | src/providers/LanguageProvider.tsx:56-62 | a stored 'en' or 'bn' is adopted, and any other stored value keeps the current language |
| Translations.HydrateFromInitial | src/providers/LanguageProvider.tsx:52-62 | starting from English, Bengali is chosen if and only if 'bn' was stored |
| LanguageToggle.Toggle | src/components/ui/LanguageToggle.tsx:12 | the new language always differs; English goes to Bengali and Bengali to English |
| LanguageToggle.ToggleTwice | src/components/ui/LanguageToggle.tsx:12 | two toggles restore the language |
| LanguageToggle.ButtonText | src/components/ui/LanguageToggle.tsx:26 | the button reads 'বাংলা' in English and 'English' in Bengali |
| LanguageToggle.AriaLabel | src/components/ui/LanguageToggle.tsx:24 | the accessible label is 'Switch to Bengali' or 'Switch to English' |
| LanguageToggle.ButtonNamesTarget | src/components/ui/LanguageToggle.tsx:24-26 | text and label both name the language the click switches to |
| LanguageToggle.SetParamEffect | src/components/ui/LanguageToggle.tsx:15-16 | after `set`, exactly one pair has the name and it carries the new value; the other parameters are unchanged and in order; a new name is appended |
| LanguageToggle.SetFirstEffect | src/components/ui/LanguageToggle.tsx:16 | replacing at the first occurrence keeps one pair with the name and every other parameter in order |
| LanguageToggle.ToggleLanguage | src/components/ui/LanguageToggle.tsx:11-18 | the click switches the language and pushes the parameters with `lang` set to the new code once, others kept |
| CallToAction.PriceLabel | src/components/sections/CallToActionSection.tsx:11-18 | an untranslated key gives the fallback sign and the price; a translation without '1000' is shown unchanged; otherwise its first '1000' (no earlier occurrence) is replaced by the price; a missing price counts as 1000 |
| CallToAction.PriceOf | src/components/sections/CallToActionSection.tsx:11 | the price shown is the one given, or 1000 when none is given |
| CallToAction.MissingPriceIsDefault | src/components/sections/CallToActionSection.tsx:11 | leaving the price out gives the same label as passing 1000 |
| CallToAction.PriceLabelAsWritten | src/components/sections/CallToActionSection.tsx:18 | with `t` as written, both languages show the mis-encoded 'à§³' fallback, which is not the taka sign |
| CallToAction.PriceLabelIntended | src/components/sections/CallToActionSection.tsx:18 | corrected label: the fallback is '৳' and the price; a translation is handled as before |
| CallToAction.PriceLabelIntendedEnglish | src/components/sections/CallToActionSection.tsx:18 | with the whole-key lookup, the English label is 'Price: ৳' and the price |
| CallToAction.PriceLabelIntendedBengali | src/components/sections/CallToActionSection.tsx:18 | the Bengali text has Bengali digits, so no '1000' is replaced and the price is ignored |
| CallToAction.IntendedSignMatchesTables | src/components/sections/CallToActionSection.tsx:18 | the corrected sign is the one both tables use |
| CallToAction.ButtonText | src/components/sections/CallToActionSection.tsx:27 | a non-empty name is shown, and otherwise the translated 'enroll.now' |
| CallToAction.EmptyNameShowsKey | src/components/sections/CallToActionSection.tsx:27 | with `t` as written, an empty name shows the raw key 'enroll.now' |
| FaqSection.Heading | src/components/sections/FAQSection.tsx:28 | a non-empty section name is shown, else the default heading in the current language |
| FaqSection.FromValue | src/components/sections/FAQSection.tsx:31-35 | the item carries the entry's id, question and answer, each possibly missing |
| FaqSection.Fallback | src/components/sections/FAQSection.tsx:38-67 | four built-in questions, in order |
| FaqSection.FallbackShape | src/components/sections/FAQSection.tsx:38-67 | the built-in ids are "1" to "4", and each built-in question has a text and an answer |
| FaqSection.DisplayData | src/components/sections/FAQSection.tsx:69 | a non-empty value list is shown entry by entry, in order, and an empty one gives the built-in four |
| FaqSection.ToggleFlipsOnlyClicked | src/components/sections/FAQSection.tsx:71-77 | a click opens the question if and only if it was closed, and leaves every other question as it was |
| FaqSection.ToggleKeepsNoDup | src/components/sections/FAQSection.tsx:71-77 | the open list never holds an id twice |
| FaqSection.ToggleTwiceRestores | src/components/sections/FAQSection.tsx:71-77 | opening and closing a question restores the open list exactly |
| FaqSection.DisplayedItems | src/components/sections/FAQSection.tsx:79 | show-all shows everything; otherwise the first four (or fewer) are shown, in order |
| FaqSection.NoControlMeansAllShown | src/components/sections/FAQSection.tsx:141-147 | without the control (four or fewer items), everything is shown; with it and collapsed, exactly four of more are shown |
| FaqSection.ControlLabel | src/components/sections/FAQSection.tsx:96-97 | the control reads 'See less' or 'See all', or the Bengali pair, by state and language |
| FaqSection.PlainAnswerUnchanged | src/components/sections/FAQSection.tsx:82-94 | an answer with no '<' and no '&' is shown verbatim |
| FaqSection.EscapedEntityDecodedOnce | src/components/sections/FAQSection.tsx:84-91 | '&amp;lt;' is shown as '&lt;': each entity is decoded once, in the listed order |
| FaqSection.EscapedMarkupSurvives | src/components/sections/FAQSection.tsx:84-91 | tags are stripped before entities are decoded, so '&lt;b&gt;' is shown as '<b>' |
| FaqSection.AnswerOf | src/components/sections/FAQSection.tsx:130-133 | a closed question shows nothing; an open one shows its cleaned answer; an open one with no answer throws |
| Strings.StripTagsLeavesNoTag | src/components/sections/FAQSection.tsx:85 | after tags are removed, no '<' is followed later by a '>' |
| StudentsOpinion.Heading | src/components/sections/StudentsOpinionSection.tsx:36 | the heading is never blank: a non-empty section name is shown, else the default heading in the current language |
| StudentsOpinion.Normalise | src/components/sections/StudentsOpinionSection.tsx:39-48 | the id is kept as it came; each of the seven text fields is the entry's non-empty value, else '' |
| StudentsOpinion.NormaliseEntryOf | src/components/sections/StudentsOpinionSection.tsx:39-48 | normalising the entry that carries a card's fields gives that card back, a missing id included |
| StudentsOpinion.NormaliseIdempotent | src/components/sections/StudentsOpinionSection.tsx:39-48 | normalising a normalised card's entry changes nothing |
| StudentsOpinion.FallbackEntry | src/components/sections/StudentsOpinionSection.tsx:51-76 | a built-in testimonial has no video, profile image or thumbnail |
| StudentsOpinion.Fallback | src/components/sections/StudentsOpinionSection.tsx:51-76 | the two built-in testimonials, in order |
| StudentsOpinion.FallbackShape | src/components/sections/StudentsOpinionSection.tsx:51-76 | the built-in ids are "1" and "2", and both texts fit within 150 characters |
| StudentsOpinion.DisplayData | src/components/sections/StudentsOpinionSection.tsx:78 | the card list is never empty: the normalised entries in order, or the built-in pair |
| StudentsOpinion.TotalPages | src/components/sections/StudentsOpinionSection.tsx:80-81 | the fewest two-card pages that hold all the cards |
| StudentsOpinion.CurrentItems | src/components/sections/StudentsOpinionSection.tsx:106-109 | a page holds at most two cards: the slice from 2·index, clamped, and empty past the end |
| StudentsOpinion.CardOnItsPage | src/components/sections/StudentsOpinionSection.tsx:106-109 | card p is at position p mod 2 of page p div 2, and that page exists |
| StudentsOpinion.PagesUpToIsPrefix | src/components/sections/StudentsOpinionSection.tsx:106-109 | the first k pages hold the first 2k cards, or all of them |
| StudentsOpinion.AllPagesShowAllCards | src/components/sections/StudentsOpinionSection.tsx:80-109 | paging through all pages shows every card once, in order |
| StudentsOpinion.NextSlide | src/components/sections/StudentsOpinionSection.tsx:90-96 | the next page, wrapping from last to first; videos stop and cards collapse |
| StudentsOpinion.PrevSlide | src/components/sections/StudentsOpinionSection.tsx:98-104 | the previous page, wrapping from first to last; videos stop and cards collapse |
| StudentsOpinion.SlidesAreInverse | src/components/sections/StudentsOpinionSection.tsx:90-104 | next and previous undo each other on every page |
| StudentsOpinion.ClickNext | src/components/sections/StudentsOpinionSection.tsx:156-165 | on the last page the disabled button does nothing; elsewhere it moves to the next page |
| StudentsOpinion.ClickPrev | src/components/sections/StudentsOpinionSection.tsx:143-152 | on the first page the disabled button does nothing; elsewhere it moves to the previous page |
| StudentsOpinion.ClicksNeverWrap | src/components/sections/StudentsOpinionSection.tsx:143-165 | clicking moves one page towards an end and stops there, so the wrap-around is never reached |
| StudentsOpinion.OnePageDisablesBoth | src/components/sections/StudentsOpinionSection.tsx:143-165 | with one or two cards there is one page, and both buttons are disabled |
| StudentsOpinion.PlayVideo | src/components/sections/StudentsOpinionSection.tsx:116-121 | the clicked card is marked playing; other cards, the page and the expansion flags are unchanged |
| StudentsOpinion.ToggleExpansion | src/components/sections/StudentsOpinionSection.tsx:123-128 | the clicked card's flag flips, and nothing else changes |
| StudentsOpinion.ToggleExpansionTwice | src/components/sections/StudentsOpinionSection.tsx:123-128 | two toggles leave every card's expansion as it was |
| StudentsOpinion.MissingIdsShareFlags | src/components/sections/StudentsOpinionSection.tsx:123-128 | cards without an id share the flag named 'undefined' |
| StudentsOpinion.Truncated | src/components/sections/StudentsOpinionSection.tsx:130-133 | texts of up to 150 characters are kept; a longer text keeps its first 150 characters and gains '...' |
| StudentsOpinion.ExpandButtonOnlyWhenCut | src/components/sections/StudentsOpinionSection.tsx:173 | the expand button shows if and only if the text exceeds 150 characters; without it the shown text is whole |
| StudentsOpinion.EmbedUrl | src/components/sections/StudentsOpinionSection.tsx:111-114 | no video id gives '', and an id gives the autoplaying embed link |
| StudentsOpinion.CardBodyOf | src/components/sections/StudentsOpinionSection.tsx:193-257 | a video card shows the player once playing, else the thumbnail; a text card shows its text, whole when expanded and truncated otherwise, with a toggle exactly when the text is long |
| StudentsOpinion.NewPageStartsCollapsed | src/components/sections/StudentsOpinionSection.tsx:90-104 | after a page change, text cards show truncated text and video cards show thumbnails |
| StudentsOpinion.NameInitial | src/components/sections/StudentsOpinionSection.tsx:274 | the first character of the name, or '' for an empty name |
| CourseSlider.TabsAreMapped | src/components/sections/CourseSliderSection.tsx:16-33 | six tabs with distinct ids, each mapped to a section |
| CourseSlider.TargetsAreDistinctTags | src/components/sections/CourseSliderSection.tsx:25-33 | the map covers only the tabs; its targets are distinct recognised section tags |
| CourseSlider.TabClick | src/components/sections/CourseSliderSection.tsx:89-111 | the clicked tab becomes active, both indices move to it, and the page scrolls to its mapped section |
| CourseSlider.ClickActivatesOnlyClicked | src/components/sections/CourseSliderSection.tsx:89-92 | after a click, a tab is shown active if and only if it is the clicked one |
| CourseSlider.GoLeft | src/components/sections/CourseSliderSection.tsx:113-117 | one tab back when not at the start and the arrow is enabled; otherwise no change |
| CourseSlider.GoRight | src/components/sections/CourseSliderSection.tsx:119-123 | one tab on when not at the end and the arrow is enabled; otherwise no change |
| CourseSlider.CheckScroll | src/components/sections/CourseSliderSection.tsx:45-57 | left is disabled if and only if at the start; right is disabled within a pixel of the end; nothing changes without a container; the indices are untouched |
| CourseSlider.StepKeepsValid | src/components/sections/CourseSliderSection.tsx:89-123 | every click, arrow press or measurement keeps both indices on a tab |
| CourseSlider.RunKeepsValid | src/components/sections/CourseSliderSection.tsx:89-123 | no sequence of events moves the indices off the six tabs |
| CourseSlider.InitialIsValid | src/components/sections/CourseSliderSection.tsx:36-40 | the slider starts on the first tab with no active tab, left disabled and right enabled |
| PageView.PropsValues | src/components/sections/FAQSection.tsx:16-22 | a widget sees the section's values only when the section is spread into its props, and otherwise `[]` |
| PageView.PropsName | src/components/sections/FAQSection.tsx:16-22 | a widget sees the section's name only when the section is spread into its props |
| PageView.StaleTime | src/components/client-pages/course-page-client.tsx:120 | five minutes of freshness with a server document, and none without |
| PageView.PageQuery | src/components/client-pages/course-page-client.tsx:115-122 | the page queries 'ielts-course' in its language; it overrides only staleness and initial data and keeps retry, backoff, collection time and the focus rule |
| PageView.SelectView | src/components/client-pages/course-page-client.tsx:124-153 | loading if and only if loading without a server document; the error if and only if failed without one; otherwise the query's data, else the server document; a crash when neither exists |
| PageView.InitialDataAlwaysShows | src/components/client-pages/course-page-client.tsx:124-153 | with a server document the content is always shown, from the query's data once there is some |
| PageView.ErrorViewShowsKeys | src/components/client-pages/course-page-client.tsx:124-150 | with `t` as written, the loading text translates but the error view shows 'error.title' and 'error.retry' raw |
| PageView.IntendedErrorViewTranslates | src/components/client-pages/course-page-client.tsx:124-150 | with the whole-key lookup, all three view texts come from the current table |
| PageClient.RenderSection | src/components/client-pages/course-page-client.tsx:33-111 | a block exactly for the nine mounted tags, wrapped under an anchor equal to the tag; the five content kinds get the section, the others no props |
| PageClient.MountedTagsAreRecognisedButTestimonials | src/components/client-pages/course-page-client.tsx:33-111 | the mounted tags are the recognised tags without 'testimonials' |
| PageClient.RenderListKeepsOrder | src/components/client-pages/course-page-client.tsx:173-175 | one block per mounted section, in document order with repeats kept, each anchored at its type |
| PageClient.UnknownSectionsRenderNothing | src/components/client-pages/course-page-client.tsx:173-175 | a document with no mounted tag renders no blocks |
| PageClient.StaticKindsIgnoreContent | src/components/client-pages/course-page-client.tsx:80-107 | the four prop-less blocks do not depend on the section's content |
| PageClient.MountedFaqShowsFallback | src/components/client-pages/course-page-client.tsx:101-107 | the mounted FAQ always shows the default heading and the built-in questions |
| PageClient.PointersUnknownFaq | src/components/client-pages/course-page-client.tsx:173-175 | pointers, an unknown tag and faq render as exactly two blocks, 'pointers' then 'faq' |
| PageClient.SliderTargetsAreRendered | src/components/client-pages/course-page-client.tsx:33-79 | every section a slider tab targets is rendered under an anchor equal to its type |
| PageClient.Page | src/components/client-pages/course-page-client.tsx:113-175 | with a server document, the content of the query's data or that document, with its blocks; without one, loading, error or content by query state, and the crash view with no blocks when the query has neither error nor data |
| PageClientAlt.SupportedAreRecognised | src/components/client-pages/CoursePageClient.tsx:34-45 | the supported list is exactly the ten recognised tags, in order |
| PageClientAlt.RenderSection | src/components/client-pages/CoursePageClient.tsx:48-124 | a block exactly for supported tags; FAQ is bare with the section spread; testimonials gets only `testimonialData`; free items get no props; the rest are wrapped under their type |
| PageClientAlt.AnchorIsType | src/components/client-pages/CoursePageClient.tsx:48-124 | every rendered block, the bare FAQ included, is anchored at the section's type |
| PageClientAlt.SupportedSections | src/components/client-pages/CoursePageClient.tsx:169-171 | a section is kept if and only if it is in the document and supported, and only such sections are kept |
| PageClientAlt.SupportedSectionsAppend | src/components/client-pages/CoursePageClient.tsx:169-171 | the supported sections of two lists joined are each list's supported sections, in order |
| PageClientAlt.SupportedOne | src/components/client-pages/CoursePageClient.tsx:169-171 | a one-section list keeps its section if and only if it is supported |
| PageClientAlt.RenderListIsSupportedRendered | src/components/client-pages/CoursePageClient.tsx:190-192 | the blocks are the supported sections rendered one by one, in order |
| PageClientAlt.TestimonialsIgnoreSection | src/components/client-pages/CoursePageClient.tsx:101-106 | as written, the testimonials widget shows the default heading and built-in pair whatever the section holds |
| PageClientAlt.RenderSectionIntended | src/components/client-pages/CoursePageClient.tsx:101-106 | corrected dispatch: testimonials get the section spread; every other tag is as written |
| PageClientAlt.IntendedTestimonialsShowSection | src/components/client-pages/CoursePageClient.tsx:101-106 | with the section spread, its entries are shown normalised and in order, under its own name |
| PageClientAlt.FaqShowsSection | src/components/client-pages/CoursePageClient.tsx:119-120 | this client's FAQ shows the section's own entries |
| PageClientAlt.Page | src/components/client-pages/CoursePageClient.tsx:126-192 | the same view as the mounted client; with content, the blocks are the slider's section list rendered one by one |
| CoursePage.LangOf | src/app/page.tsx:15 | a non-empty `lang` parameter is used, else 'en' |
| CoursePage.PageRequest | src/app/page.tsx:16-19 | the page requests the 'ielts-course' product in the page language |
| CoursePage.ShortDescription | src/app/page.tsx:23 | a tag-free prefix of the stripped description, at most 160 characters, and all of it when it fits |
| CoursePage.Keywords | src/app/page.tsx:24 | the SEO keywords joined by ', ' when that is non-empty, else the default list |
| CoursePage.EmptyKeywordsGiveDefault | src/app/page.tsx:24 | an empty keyword list, or one holding only '', gives the default list |
| CoursePage.FindThumbnail | src/app/page.tsx:30 | the first media entry named 'thumbnail', or none when there is none |
| CoursePage.ImageUrl | src/app/page.tsx:30 | the first thumbnail's resource value, or '' without a thumbnail |
| CoursePage.FirstThumbnailWins | src/app/page.tsx:30 | a later thumbnail never replaces the first |
| CoursePage.Locale | src/app/page.tsx:37 | 'bn_BD' if and only if the language is 'bn', else 'en_US' |
| CoursePage.MetaFoldKeys | src/app/page.tsx:52-57 | the other-metadata object has a key for exactly the types that occur |
| CoursePage.MetaFoldLastWins | src/app/page.tsx:53-56 | each type maps to the content of its last entry |
| CoursePage.MetaFoldSameTypeTwice | src/app/page.tsx:53-56 | of two entries of one type, the second's content is kept |
| CoursePage.OtherMeta | src/app/page.tsx:52-57 | empty without an SEO block or default meta, else keyed by exactly the meta types |
| CoursePage.GenerateMetadata | src/app/page.tsx:11-65 | a failed fetch gives the fixed title and description. Otherwise: SEO title/description when non-empty, else the course title and short description; keywords are the joined SEO keywords or the default; Open Graph and Twitter carry the course title and always the short description, never the SEO one; the locale follows the language; the thumbnail image is 1200×630; canonical and language URLs point at the product page; `other` is the folded default meta |
| CoursePage.FromResult | src/app/page.tsx:75-79 | the fetch either returns the document or throws an Error carrying the failure message |
| CoursePage.ErrorText | src/app/page.tsx:77-79 | no error text after a fetch; an Error's message; a fixed text for anything else thrown |
| CoursePage.Page | src/app/page.tsx:67-107 | a non-empty error text gives the English error page; otherwise the client in the page language, with the document when fetched |
| CoursePage.ErrorPageIffFetchFailed | src/app/page.tsx:72-96 | for the real fetch, the error page shows if and only if it failed, with its message; a success mounts the client with the document |
| CoursePage.ErrorPageIsEnglish | src/app/page.tsx:85-91 | the server error page's heading and button are the English table's error texts, whatever the language |

## Left out

- Transport: the HTTP client, base URL, timeout, headers and the error-logging interceptor. The outcome of each request is a parameter.
- React Query internals are not modelled: caching, deduplication, retry scheduling and garbage collection. The options objects are modelled, not their effect.
- The browser is not modelled: DOM scrolling, `scrollTo`, `getElementById`, `setTimeout`, offsets and `window.location.reload`. Scroll measurements and the query state are inputs.
- `localStorage` reads and writes are not modelled. The stored value is a parameter of `Translations.Hydrate`.
- `useLanguage`'s throw outside a provider, the React context and `Suspense` are plumbing with no data logic.
- The static section components (free items, course details, payment process) and `CourseInfoSection`, `StickyChecklistSection` and the other content widgets are not part of this model. Their blocks are kept as kinds with props.
- `layout.tsx` and `AppProvider.tsx` are left out: they hold the layout and providers, with no page logic.
- `console.log` and `console.error` are side effects only.
- Translations.Translate: the walk does not model inherited properties such as `constructor`, or a string's `length`. A key like 'loading.length' or 'constructor' would behave differently in JavaScript.
- CoursePage.LangOf: a repeated `lang` parameter arrives as an array in the source and is not modelled. Only a missing or single string value is.
- CoursePage.ShortDescription: it counts characters, where the source counts UTF-16 code units. The two differ only for characters outside the Basic Multilingual Plane.
- StudentsOpinion.Truncated: it counts characters, not UTF-16 code units, for the same reason.
- StudentsOpinion.NameInitial: it returns the first character, not the first UTF-16 code unit.
- CallToAction.PriceLabel: the price is an integer. A fractional JavaScript number such as 38.5 would print with its decimals, and that is not modelled.
- StudentsOpinion.CardBodyOf: the playing and expanded flags are read as own keys only, as are PlayVideo and ToggleExpansion. In JavaScript `{}['constructor']` is truthy, so a card whose id is 'constructor' would start out playing and expanded.
- Section values are string-valued fields only. Non-string fields, casts and the section fields the page never reads are left out.
- URL encoding of query parameters is left out: the toggle's parameters are modelled as decoded pairs.

## Findings

| source | as written | input that shows it | evidently intended | confidence | as-written member | corrected member |
|---|---|---|---|---|---|---|
| src/providers/LanguageProvider.tsx:71-80 | `t` splits the key on '.' and walks nested objects, but both tables are flat with dotted keys | `t('error.title')` returns 'error.title' | the whole key is looked up, giving 'Error loading course' | not executed | Translations.OnlyLoadingTranslates | Translations.TranslateFlat |
| src/actions/course-actions.ts:44-54 | the 'API Error' thrown for a non-200 code is caught by the same `try` and replaced by the generic message | an envelope with code 404 and message 'Course not found' | the failure reports 'API Error: Course not found' | not executed | CourseActions.ApiErrorMessageIsLost | CourseActions.GetCourseDetailsDataIntended |
| src/components/sections/CallToActionSection.tsx:18 | the fallback label starts with 'à§³', the UTF-8 bytes of '৳' read as Latin-1 | any price, because the key never translates: the label is 'à§³1000' | '৳1000' | not executed | CallToAction.PriceLabelAsWritten | CallToAction.PriceLabelIntended |
| src/components/client-pages/CoursePageClient.tsx:101-106 | the testimonials section is passed as a `testimonialData` prop, which the widget never reads | a testimonials section with entries shows the two built-in testimonials | the section is spread into the widget's props | not executed | PageClientAlt.TestimonialsIgnoreSection | PageClientAlt.RenderSectionIntended |
