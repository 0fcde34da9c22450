/** The testimonial carousel: its heading, the testimonial list (the
    section's values with missing fields defaulted, or a built-in pair), two
    cards per page, the page buttons, and the per-card "playing" and
    "expanded" flags. Images, the video player and styling are not
    modelled. */
module StudentsOpinion {
  import opened Base
  import opened Types
  import Seqs

  /** One testimonial card. Every field but `id` defaults to the empty
      string when the entry lacks it; `id` is kept as it came. */
  datatype Testimonial = Testimonial(
    id: Option<string>,
    name: string,
    description: string,
    profileImage: string,
    testimonial: string,
    thumb: string,
    videoType: string,
    videoUrl: string)

  /** The heading: the section's name, or a default in the current language
      when the name is missing or empty; so the carousel never has a blank
      heading. */
  function Heading(name: Option<string>, l: Language): (r: string)
    ensures r != ""
    ensures Truthy(name) ==> r == name.value
    ensures !Truthy(name) && l == Bn ==> r == "শিক্ষার্থীদের মতামত"
    ensures !Truthy(name) && l == En ==> r == "Students Opinion"
  {
    Or(name, if l == Bn then "শিক্ষার্থীদের মতামত" else "Students Opinion")
  }

  /** The card built from one value entry: each text field is the entry's
      field when that is a non-empty string, and '' otherwise. */
  function Normalise(v: Item): (r: Testimonial)
    ensures r.id == v.Field("id")
    ensures Truthy(v.Field("name")) ==> r.name == v.fields["name"]
    ensures !Truthy(v.Field("name")) ==> r.name == ""
    ensures Truthy(v.Field("description")) ==> r.description == v.fields["description"]
    ensures !Truthy(v.Field("description")) ==> r.description == ""
    ensures Truthy(v.Field("profile_image")) ==> r.profileImage == v.fields["profile_image"]
    ensures !Truthy(v.Field("profile_image")) ==> r.profileImage == ""
    ensures Truthy(v.Field("testimonial")) ==> r.testimonial == v.fields["testimonial"]
    ensures !Truthy(v.Field("testimonial")) ==> r.testimonial == ""
    ensures Truthy(v.Field("thumb")) ==> r.thumb == v.fields["thumb"]
    ensures !Truthy(v.Field("thumb")) ==> r.thumb == ""
    ensures Truthy(v.Field("video_type")) ==> r.videoType == v.fields["video_type"]
    ensures !Truthy(v.Field("video_type")) ==> r.videoType == ""
    ensures Truthy(v.Field("video_url")) ==> r.videoUrl == v.fields["video_url"]
    ensures !Truthy(v.Field("video_url")) ==> r.videoUrl == ""
  {
    Testimonial(
      v.Field("id"),
      Or(v.Field("name"), ""),
      Or(v.Field("description"), ""),
      Or(v.Field("profile_image"), ""),
      Or(v.Field("testimonial"), ""),
      Or(v.Field("thumb"), ""),
      Or(v.Field("video_type"), ""),
      Or(v.Field("video_url"), ""))
  }

  /** The entry that carries a card's id (when it has one) and all its
      text fields, under the API's field names. */
  function EntryOf(c: Testimonial): Item {
    var texts := map[
      "name" := c.name, "description" := c.description, "profile_image" := c.profileImage,
      "testimonial" := c.testimonial, "thumb" := c.thumb, "video_type" := c.videoType,
      "video_url" := c.videoUrl];
    Item(if c.id.Some? then texts["id" := c.id.value] else texts)
  }

  /** Normalising the entry written from a card gives the card back: every
      field survives, an empty one as '' and a missing id as missing. */
  lemma NormaliseEntryOf(c: Testimonial)
    ensures Normalise(EntryOf(c)) == c
  {
  }

  /** Normalising is idempotent: the entry written from a normalised card
      normalises to the same card. */
  lemma NormaliseIdempotent(v: Item)
    ensures Normalise(EntryOf(Normalise(v))) == Normalise(v)
  {
    NormaliseEntryOf(Normalise(v));
  }

  /** The built-in names, descriptions and texts, in Bengali and in
      English. */
  const FallbackNameBn: seq<string> := ["রহিম উদ্দিন", "ফাতিমা খাতুন"]
  const FallbackNameEn: seq<string> := ["Rahim Uddin", "Fatima Khatun"]
  const FallbackTextBn: seq<string> := [
    "এই কোর্সটি আমার IELTS প্রস্তুতিতে অনেক সাহায্য করেছে। শিক্ষকদের পড়ানোর পদ্ধতি খুবই কার্যকর এবং বোধগম্য।",
    "অনলাইন ক্লাসগুলো খুবই ভালো। যেকোনো সময় দেখতে পারি এবং বার বার প্র্যাকটিস করতে পারি।"]
  const FallbackTextEn: seq<string> := [
    "This course has helped me a lot in my IELTS preparation. The teaching method of the instructors is very effective and understandable.",
    "The online classes are very good. I can watch them anytime and practice repeatedly."]

  /** Built-in testimonial `n` (0 or 1), with the id `n + 1` and no image
      or video. */
  function FallbackEntry(l: Language, n: nat): (r: Testimonial)
    requires n < 2
    ensures r.videoUrl == "" && r.profileImage == "" && r.thumb == ""
  {
    Testimonial(
      Some(if n == 0 then "1" else "2"),
      if l == Bn then FallbackNameBn[n] else FallbackNameEn[n],
      if l == Bn then "IELTS প্রস্তুতিকারী" else "IELTS Candidate",
      "",
      if l == Bn then FallbackTextBn[n] else FallbackTextEn[n],
      "", "", "")
  }

  /** The two built-in testimonials. */
  function Fallback(l: Language): (r: seq<Testimonial>)
    ensures |r| == 2 && r[0] == FallbackEntry(l, 0) && r[1] == FallbackEntry(l, 1)
  {
    [FallbackEntry(l, 0), FallbackEntry(l, 1)]
  }

  /** The built-in testimonials are text cards with ids "1" and "2"; both
      texts are short enough to be shown whole. */
  lemma FallbackShape(l: Language)
    ensures Fallback(l)[0].id == Some("1") && Fallback(l)[1].id == Some("2")
    ensures forall i :: 0 <= i < 2 ==> |Fallback(l)[i].testimonial| <= CharacterLimit
  {
  }

  /** The cards: the section's entries, normalised in order, when there is
      at least one, and the built-in pair otherwise; never empty. */
  function DisplayData(values: seq<Item>, l: Language): (r: seq<Testimonial>)
    ensures |r| > 0
    ensures |values| > 0 ==> |r| == |values| && forall i :: 0 <= i < |values| ==> r[i] == Normalise(values[i])
    ensures |values| == 0 ==> r == Fallback(l)
  {
    if |values| > 0 then Seqs.Map(values, Normalise) else Fallback(l)
  }

  const ItemsPerPage: nat := 2
  const CharacterLimit: nat := 150

  /** `Math.ceil(n / 2)`: the fewest pages of two that hold `n` cards. */
  function TotalPages(n: nat): (r: nat)
    ensures ItemsPerPage * r >= n
    ensures r > 0 ==> ItemsPerPage * (r - 1) < n
    ensures n > 0 <==> r > 0
  {
    (n + 1) / 2
  }

  /** `getCurrentItems`: `slice(2 * index, 2 * index + 2)`, which clamps
      both ends to the list. */
  function CurrentItems<T>(data: seq<T>, index: nat): (r: seq<T>)
    ensures |r| <= ItemsPerPage
    ensures 2 * index >= |data| ==> r == []
    ensures 2 * index < |data| ==>
              r == data[2 * index..if 2 * index + 2 <= |data| then 2 * index + 2 else |data|]
  {
    var start := 2 * index;
    var end := start + 2;
    if start >= |data| then [] else data[start..if end <= |data| then end else |data|]
  }

  /** Every card is on exactly one page: card `p` is at position `p % 2` of
      page `p / 2`, and that page exists. */
  lemma CardOnItsPage<T>(data: seq<T>, p: nat)
    requires p < |data|
    ensures p / 2 < TotalPages(|data|)
    ensures p % 2 < |CurrentItems(data, p / 2)|
    ensures CurrentItems(data, p / 2)[p % 2] == data[p]
  {
  }

  /** The pages before page `k`, concatenated. */
  function PagesUpTo<T>(data: seq<T>, k: nat): seq<T> {
    if k == 0 then [] else PagesUpTo(data, k - 1) + CurrentItems(data, k - 1)
  }

  /** The first `k` pages hold the first `2k` cards (or all of them). */
  lemma {:induction false} PagesUpToIsPrefix<T>(data: seq<T>, k: nat)
    ensures PagesUpTo(data, k) == data[..if 2 * k <= |data| then 2 * k else |data|]
  {
    if k > 0 {
      PagesUpToIsPrefix(data, k - 1);
      var a := if 2 * (k - 1) <= |data| then 2 * (k - 1) else |data|;
      var b := if 2 * k <= |data| then 2 * k else |data|;
      assert data[..a] + data[a..b] == data[..b];
    }
  }

  /** Paging through every page shows every card once, in order. */
  lemma AllPagesShowAllCards<T>(data: seq<T>)
    ensures PagesUpTo(data, TotalPages(|data|)) == data
  {
    PagesUpToIsPrefix(data, TotalPages(|data|));
  }

  /** The carousel's state: the current page and the per-card flags, keyed
      by the card id as a property name. */
  datatype Carousel = Carousel(index: nat, playing: map<string, bool>, expanded: map<string, bool>)

  /** The state the carousel starts in. */
  const Initial: Carousel := Carousel(0, map[], map[])

  /** The property name an id becomes: a missing id is the name
      'undefined'. */
  function Key(id: Option<string>): string {
    id.GetOr("undefined")
  }

  /** `flags[key]` read for truthiness: an absent key is false. */
  predicate IsSet(m: map<string, bool>, key: string) {
    key in m && m[key]
  }

  /** `nextSlide`: the next page, wrapping from the last to the first; stop
      every video and collapse every card. */
  function NextSlide(c: Carousel, pages: nat): (r: Carousel)
    requires pages > 0
    ensures r.index < pages
    ensures c.index + 1 < pages ==> r.index == c.index + 1
    ensures c.index + 1 == pages ==> r.index == 0
    ensures r.playing == map[] && r.expanded == map[]
  {
    Carousel((c.index + 1) % pages, map[], map[])
  }

  /** `prevSlide`: the previous page, wrapping from the first to the last;
      stop every video and collapse every card. */
  function PrevSlide(c: Carousel, pages: nat): (r: Carousel)
    requires pages > 0
    ensures r.index < pages
    ensures 0 < c.index <= pages ==> r.index == c.index - 1
    ensures c.index == 0 ==> r.index == pages - 1
    ensures r.playing == map[] && r.expanded == map[]
  {
    Carousel((c.index - 1 + pages) % pages, map[], map[])
  }

  /** From any page, next then previous (or previous then next) comes back
      to it. */
  lemma SlidesAreInverse(c: Carousel, pages: nat)
    requires 0 < pages && c.index < pages
    ensures PrevSlide(NextSlide(c, pages), pages).index == c.index
    ensures NextSlide(PrevSlide(c, pages), pages).index == c.index
  {
  }

  /** The previous-page button is disabled on the first page. */
  predicate PrevDisabled(c: Carousel) {
    c.index == 0
  }

  /** The next-page button is disabled on the last page. */
  predicate NextDisabled(c: Carousel, pages: nat) {
    c.index == pages - 1
  }

  /** A click on the next-page button: nothing happens while it is
      disabled. */
  function ClickNext(c: Carousel, pages: nat): (r: Carousel)
    requires pages > 0
    ensures NextDisabled(c, pages) ==> r == c
    ensures !NextDisabled(c, pages) ==> r == NextSlide(c, pages)
  {
    if NextDisabled(c, pages) then c else NextSlide(c, pages)
  }

  /** A click on the previous-page button: nothing happens while it is
      disabled. */
  function ClickPrev(c: Carousel, pages: nat): (r: Carousel)
    requires pages > 0
    ensures PrevDisabled(c) ==> r == c
    ensures !PrevDisabled(c) ==> r == PrevSlide(c, pages)
  {
    if PrevDisabled(c) then c else PrevSlide(c, pages)
  }

  /** Because the buttons are disabled at the ends, the wrap-around in the
      slide functions is never reached by clicking: a click moves one page
      towards its end and stops there. */
  lemma ClicksNeverWrap(c: Carousel, pages: nat)
    requires 0 < pages && c.index < pages
    ensures ClickNext(c, pages).index == if c.index + 1 < pages then c.index + 1 else c.index
    ensures ClickPrev(c, pages).index == if c.index > 0 then c.index - 1 else 0
  {
  }

  /** With at most two cards there is one page and both buttons are
      disabled. */
  lemma OnePageDisablesBoth(c: Carousel, n: nat)
    requires 0 < n <= 2 && c.index < TotalPages(n)
    ensures TotalPages(n) == 1 && PrevDisabled(c) && NextDisabled(c, TotalPages(n))
  {
  }

  /** `handlePlayVideo(id)`: mark the card as playing. */
  function PlayVideo(c: Carousel, id: Option<string>): (r: Carousel)
    ensures IsSet(r.playing, Key(id))
    ensures forall k :: k != Key(id) ==> (IsSet(r.playing, k) <==> IsSet(c.playing, k))
    ensures r.index == c.index && r.expanded == c.expanded
  {
    c.(playing := c.playing[Key(id) := true])
  }

  /** `toggleTestimonialExpansion(id)`: flip the card's expanded flag. */
  function ToggleExpansion(c: Carousel, id: Option<string>): (r: Carousel)
    ensures IsSet(r.expanded, Key(id)) <==> !IsSet(c.expanded, Key(id))
    ensures forall k :: k != Key(id) ==> (IsSet(r.expanded, k) <==> IsSet(c.expanded, k))
    ensures r.index == c.index && r.playing == c.playing
  {
    c.(expanded := c.expanded[Key(id) := !IsSet(c.expanded, Key(id))])
  }

  /** Expanding and collapsing a card leaves every card as it was. */
  lemma ToggleExpansionTwice(c: Carousel, id: Option<string>, k: string)
    ensures IsSet(ToggleExpansion(ToggleExpansion(c, id), id).expanded, k) <==> IsSet(c.expanded, k)
  {
  }

  /** Two cards whose ids are both missing share one flag: expanding one
      expands the other. */
  lemma MissingIdsShareFlags(c: Carousel)
    ensures IsSet(ToggleExpansion(c, None).expanded, Key(None)) <==> !IsSet(c.expanded, "undefined")
    ensures Key(None) == Key(Some("undefined"))
  {
  }

  /** `getTruncatedText(text, 150)`: texts of at most 150 characters are
      kept; longer ones are cut to 150 and marked with '...'. */
  function Truncated(text: string): (r: string)
    ensures |text| <= CharacterLimit ==> r == text
    ensures |text| > CharacterLimit ==> |r| == CharacterLimit + 3
    ensures |text| > CharacterLimit ==> r[..CharacterLimit] == text[..CharacterLimit] && r[CharacterLimit..] == "..."
  {
    if |text| <= CharacterLimit then text else text[..CharacterLimit] + "..."
  }

  /** The expand button shows exactly when the text is longer than the
      limit. */
  predicate ShowExpand(t: Testimonial) {
    t.testimonial != "" && |t.testimonial| > CharacterLimit
  }

  /** Without the expand button nothing is hidden: the truncated text is
      the whole text; with it, the shown text keeps only the first 150
      characters. */
  lemma ExpandButtonOnlyWhenCut(t: Testimonial)
    ensures ShowExpand(t) <==> |t.testimonial| > CharacterLimit
    ensures !ShowExpand(t) ==> Truncated(t.testimonial) == t.testimonial
    ensures ShowExpand(t) ==> Truncated(t.testimonial) == t.testimonial[..CharacterLimit] + "..."
  {
  }

  /** The video player link for a video id, or '' when there is none. */
  function EmbedUrl(videoUrl: string): (r: string)
    ensures videoUrl == "" ==> r == ""
    ensures videoUrl != "" ==> r == "https://www.youtube.com/embed/" + videoUrl + "?autoplay=1&rel=0"
  {
    if videoUrl == "" then "" else "https://www.youtube.com/embed/" + videoUrl + "?autoplay=1&rel=0"
  }

  /** What a card shows above the author line: the player, the thumbnail
      with a play overlay, or the text with its optional toggle label. */
  datatype CardBody =
    | Player(src: string)
    | Thumbnail(thumb: string)
    | Text(shown: string, toggleLabel: Option<string>)

  /** The toggle label: collapse while expanded, expand otherwise. */
  function ToggleLabel(expanded: bool, l: Language): string {
    if expanded then (if l == Bn then "সংক্ষিপ্ত করুন ▲" else "See less ▲")
    else (if l == Bn then "আরও দেখুন ▼" else "See more ▼")
  }

  /** The body of one card: a card with a video shows the player once it is
      playing and the thumbnail before; a card without one shows its text,
      whole when expanded and truncated otherwise. */
  function CardBodyOf(c: Carousel, t: Testimonial, l: Language): (r: CardBody)
    ensures t.videoUrl != "" && IsSet(c.playing, Key(t.id)) ==> r == Player(EmbedUrl(t.videoUrl))
    ensures t.videoUrl != "" && !IsSet(c.playing, Key(t.id)) ==> r == Thumbnail(t.thumb)
    ensures t.videoUrl == "" ==> r.Text?
    ensures t.videoUrl == "" && IsSet(c.expanded, Key(t.id)) ==> r.shown == t.testimonial
    ensures t.videoUrl == "" && !IsSet(c.expanded, Key(t.id)) ==> r.shown == Truncated(t.testimonial)
    ensures t.videoUrl == "" ==> (r.toggleLabel.Some? <==> ShowExpand(t))
  {
    if t.videoUrl != "" then
      if IsSet(c.playing, Key(t.id)) then Player(EmbedUrl(t.videoUrl)) else Thumbnail(t.thumb)
    else
      var expanded := IsSet(c.expanded, Key(t.id));
      Text(if expanded then t.testimonial else Truncated(t.testimonial),
           if ShowExpand(t) then Some(ToggleLabel(expanded, l)) else None)
  }

  /** Changing page collapses the cards, so every card on the new page shows
      its truncated text and no player. */
  lemma NewPageStartsCollapsed(c: Carousel, pages: nat, t: Testimonial, l: Language)
    requires pages > 0
    ensures t.videoUrl == "" ==> CardBodyOf(NextSlide(c, pages), t, l).shown == Truncated(t.testimonial)
    ensures t.videoUrl != "" ==> CardBodyOf(PrevSlide(c, pages), t, l) == Thumbnail(t.thumb)
  {
  }

  /** The first character of the author's name, shown when there is no
      image ('' for an empty name). */
  function NameInitial(name: string): (r: string)
    ensures name == "" ==> r == ""
    ensures name != "" ==> r == [name[0]]
  {
    if name == "" then "" else [name[0]]
  }
}
