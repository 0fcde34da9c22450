/** The FAQ section: its heading, the question list (the section's values
    or a built-in fallback), the set of open questions, the four-item limit
    with its see-all control, and the clean-up applied to an answer before
    it is shown. Layout and styling are not modelled. */
module FaqSection {
  import opened Base
  import opened Types
  import opened Strings
  import Seqs

  /** One question as the section reads it from a value entry; a field the
      entry does not carry is `undefined`. */
  datatype FaqItem = FaqItem(id: Option<string>, question: Option<string>, answer: Option<string>)

  /** The heading: the section's name, or a default in the current
      language when the name is missing or empty. */
  function Heading(name: Option<string>, l: Language): (r: string)
    ensures Truthy(name) ==> r == name.value
    ensures !Truthy(name) && l == Bn ==> r == "সচরাচর জিজ্ঞাসা"
    ensures !Truthy(name) && l == En ==> r == "Frequently Asked Questions"
  {
    Or(name, if l == Bn then "সচরাচর জিজ্ঞাসা" else "Frequently Asked Questions")
  }

  /** The `{id, question, answer}` projection of one value entry. */
  function FromValue(v: Item): (r: FaqItem)
    ensures r.id == v.Field("id") && r.question == v.Field("question") && r.answer == v.Field("answer")
  {
    FaqItem(v.Field("id"), v.Field("question"), v.Field("answer"))
  }

  /** The built-in question texts, in Bengali and in English. */
  const FallbackQuestionBn: seq<string> := [
    "কোর্স কেনার পর কিভাবে শুরু করবো?",
    "যেকোনো টেকনিকাল সমস্যায় কোথায় যোগাযোগ করবো?",
    "এই কোর্স কি একাডেমিক নাকি জেনারেল IELTS এর জন্য?",
    "অনলাইনে পড়ার সুবিধা কি?"]
  const FallbackQuestionEn: seq<string> := [
    "How do I start after purchasing the course?",
    "Where should I contact for any technical issues?",
    "Is this course designed for Academic or General IELTS?",
    "What are the benefits of studying online?"]

  /** The text of built-in question `n`. */
  function FallbackQuestion(l: Language, n: nat): string
    requires n < 4
  {
    if l == Bn then FallbackQuestionBn[n] else FallbackQuestionEn[n]
  }

  /** The built-in answers, in Bengali and in English. */
  const FallbackAnswerBn: seq<string> := [
    "কোর্স কেনার পর আপনি একটি ইমেইল পাবেন লগইন তথ্য এবং কোর্স অ্যাক্সেসের নির্দেশনা সহ। আপনি তৎক্ষণাৎ আপনার ড্যাশবোর্ড থেকে শেখা শুরু করতে পারবেন।",
    "যেকোনো টেকনিকাল সমস্যার জন্য আপনি আমাদের সাপোর্ট টিমের সাথে support@10minuteschool.com এ যোগাযোগ করতে পারেন অথবা আমাদের হেল্পলাইনে কল করতে পারেন।",
    "এই কোর্সটি একাডেমিক এবং জেনারেল উভয় IELTS এর জন্য ডিজাইন করা হয়েছে। কোর্সের বিষয়বস্তু উভয় ধরনের IELTS পরীক্ষার জন্য প্রয়োজনীয় সকল মডিউল কভার করে।",
    "অনলাইন শিক্ষা নমনীয়তা, পুনর্বিবেচনার জন্য রেকর্ড করা লেকচার, ইন্টারঅ্যাক্টিভ উপকরণ, ব্যক্তিগতকৃত প্রতিক্রিয়া এবং ঐতিহ্যবাহী অফলাইন কোর্সের তুলনায় খরচ-কার্যকারিতা প্রদান করে।"]
  const FallbackAnswerEn: seq<string> := [
    "After purchasing the course, you will receive an email with login credentials and course access instructions. You can immediately start learning from your dashboard.",
    "For any technical issues, you can contact our support team at support@10minuteschool.com or call our helpline. We provide 24/7 customer support for all technical queries.",
    "This course is designed for both Academic and General IELTS. The course content covers all modules required for both types of IELTS examinations.",
    "Online learning offers flexibility, recorded lectures for revision, interactive materials, personalized feedback, and cost-effectiveness compared to traditional offline courses."]

  /** The answer to built-in question `n`. */
  function FallbackAnswer(l: Language, n: nat): string
    requires n < 4
  {
    if l == Bn then FallbackAnswerBn[n] else FallbackAnswerEn[n]
  }

  /** Built-in question `n` (0 to 3), with the id `n + 1`. */
  function FallbackEntry(l: Language, n: nat): FaqItem
    requires n < 4
  {
    FaqItem(Some(NatToString(n + 1)), Some(FallbackQuestion(l, n)), Some(FallbackAnswer(l, n)))
  }

  /** The four built-in questions, ids "1" to "4", in the current
      language. */
  function Fallback(l: Language): (r: seq<FaqItem>)
    ensures |r| == 4 && forall i :: 0 <= i < 4 ==> r[i] == FallbackEntry(l, i)
  {
    [FallbackEntry(l, 0), FallbackEntry(l, 1), FallbackEntry(l, 2), FallbackEntry(l, 3)]
  }

  /** The built-in ids are "1" to "4", all different, and every built-in
      question has a text and an answer. */
  lemma FallbackShape(l: Language)
    ensures Seqs.Map(Fallback(l), (q: FaqItem) => q.id) == [Some("1"), Some("2"), Some("3"), Some("4")]
    ensures forall i :: 0 <= i < |Fallback(l)| ==> Fallback(l)[i].question.Some? && Fallback(l)[i].answer.Some?
  {
    assert NatToString(1) == "1" && NatToString(2) == "2";
    assert NatToString(3) == "3" && NatToString(4) == "4";
  }

  /** The questions shown: the section's entries, projected in order, when
      there is at least one, and the fallback otherwise. */
  function DisplayData(values: seq<Item>, l: Language): (r: seq<FaqItem>)
    ensures |values| > 0 ==> |r| == |values| && forall i :: 0 <= i < |values| ==> r[i] == FromValue(values[i])
    ensures |values| == 0 ==> r == Fallback(l)
  {
    if |values| > 0 then Seqs.Map(values, FromValue) else Fallback(l)
  }

  function Differs<T(==)>(id: T): T -> bool {
    (x: T) => x != id
  }

  /** `toggleItem(id)`: an open question is closed by removing every copy
      of its id; a closed one is opened by appending its id. */
  function ToggleItem<T(==)>(open: seq<T>, id: T): seq<T> {
    if id in open then Seqs.Filter(open, Differs(id)) else open + [id]
  }

  /** Toggling flips the clicked question and no other. */
  lemma ToggleFlipsOnlyClicked<T>(open: seq<T>, id: T, x: T)
    ensures id in ToggleItem(open, id) <==> id !in open
    ensures x != id ==> (x in ToggleItem(open, id) <==> x in open)
  {
    Seqs.FilterMembership(open, Differs(id), id);
    Seqs.FilterMembership(open, Differs(id), x);
  }

  /** The list of open ids, started empty, never holds an id twice. */
  lemma ToggleKeepsNoDup<T>(open: seq<T>, id: T)
    requires Seqs.NoDup(open)
    ensures Seqs.NoDup(ToggleItem(open, id))
  {
    if id in open {
      Seqs.FilterKeepsNoDup(open, Differs(id));
    } else {
      var r := open + [id];
      forall i, j | 0 <= i < j < |r| ensures r[i] != r[j] {
        assert r[i] == open[i];
      }
    }
  }

  /** Clicking a closed question twice restores the open list exactly. */
  lemma ToggleTwiceRestores<T>(open: seq<T>, id: T)
    requires id !in open
    ensures ToggleItem(ToggleItem(open, id), id) == open
  {
    var r := open + [id];
    assert id in r;
    Seqs.FilterAppend(open, [id], Differs(id));
    Seqs.FilterAll(open, Differs(id));
    assert Seqs.Filter([id], Differs(id)) == [];
  }

  /** `displayedItems`: everything when `showAll` is set, otherwise the
      first four. */
  function DisplayedItems<T>(data: seq<T>, showAll: bool): (r: seq<T>)
    ensures showAll ==> r == data
    ensures !showAll ==> |r| == (if |data| <= 4 then |data| else 4) && r == data[..|r|]
  {
    if showAll || |data| <= 4 then data else data[..4]
  }

  /** The see-all control is rendered exactly when the list is longer than
      four; with four or fewer, the limited view already shows them all. */
  predicate ShowAllControl<T>(data: seq<T>) {
    |data| > 4
  }

  lemma NoControlMeansAllShown<T>(data: seq<T>, showAll: bool)
    ensures !ShowAllControl(data) ==> DisplayedItems(data, showAll) == data
    ensures ShowAllControl(data) && !showAll ==> |DisplayedItems(data, showAll)| == 4 < |data|
  {
  }

  /** The control's label: 'See less' while everything is shown, 'See all'
      otherwise, in the current language. */
  function ControlLabel(showAll: bool, l: Language): (r: string)
    ensures showAll && l == En ==> r == "See less"
    ensures !showAll && l == En ==> r == "See all"
    ensures showAll && l == Bn ==> r == "কম দেখুন"
    ensures !showAll && l == Bn ==> r == "সব দেখুন"
  {
    var seeAll := if l == Bn then "সব দেখুন" else "See all";
    var seeLess := if l == Bn then "কম দেখুন" else "See less";
    if showAll then seeLess else seeAll
  }

  /** `renderAnswer`: strip the tags, then decode `&nbsp;`, `&lt;`, `&gt;`,
      `&amp;`, `&quot;` and `&#39;`, each globally and in that order. */
  function RenderAnswer(answer: string): string {
    var noTags := StripTags(answer);
    var s1 := ReplaceAll(noTags, "&nbsp;", " ");
    var s2 := ReplaceAll(s1, "&lt;", "<");
    var s3 := ReplaceAll(s2, "&gt;", ">");
    var s4 := ReplaceAll(s3, "&amp;", "&");
    var s5 := ReplaceAll(s4, "&quot;", "\"");
    ReplaceAll(s5, "&#39;", "'")
  }

  /** An answer with no tag opener and no entity is shown as it is. */
  lemma PlainAnswerUnchanged(s: string)
    requires '<' !in s && '&' !in s
    ensures RenderAnswer(s) == s
  {
    StripTagsNoOpen(s);
    ReplaceAllAbsent(s, "&nbsp;", " ");
    ReplaceAllAbsent(s, "&lt;", "<");
    ReplaceAllAbsent(s, "&gt;", ">");
    ReplaceAllAbsent(s, "&amp;", "&");
    ReplaceAllAbsent(s, "&quot;", "\"");
    ReplaceAllAbsent(s, "&#39;", "'");
  }

  /** A replacement that does not match at the only '&' leaves the string
      as it is. */
  lemma NoMatchAtOnlyAmpersand(b: string, pat: string, rep: string)
    requires |pat| > 0 && pat[0] == '&' && '&' !in b
    requires !StartsWith("&" + b, pat)
    ensures ReplaceAll("&" + b, pat, rep) == "&" + b
  {
    ReplaceAllSkip('&', b, pat, rep);
    ReplaceAllAbsent(b, pat, rep);
  }

  /** Entities are decoded once, in order: an escaped '&lt;' ('&amp;lt;')
      comes out as the text '&lt;', not as '<', because '&lt;' is decoded
      before '&amp;'. */
  lemma EscapedEntityDecodedOnce(s: string)
    requires s == "&amp;lt;"
    ensures RenderAnswer(s) == "&lt;"
  {
    StripTagsNoOpen(s);
    assert ReplaceAll(s, "&nbsp;", " ") == s by { EntityNoMatch(s, "&nbsp;", " "); }
    assert ReplaceAll(s, "&lt;", "<") == s by { EntityNoMatch(s, "&lt;", "<"); }
    assert ReplaceAll(s, "&gt;", ">") == s by { EntityNoMatch(s, "&gt;", ">"); }
    assert ReplaceAll(s, "&amp;", "&") == "&lt;" by { AmpStep(s); }
    assert ReplaceAll("&lt;", "&quot;", "\"") == "&lt;" by { EntityNoMatch("&lt;", "&quot;", "\""); }
    assert ReplaceAll("&lt;", "&#39;", "'") == "&lt;" by { EntityNoMatch("&lt;", "&#39;", "'"); }
  }

  /** '&amp;' matches once, at the start of '&amp;lt;'. */
  lemma AmpStep(s: string)
    requires s == "&amp;lt;"
    ensures ReplaceAll(s, "&amp;", "&") == "&lt;"
  {
    var tail := "lt;";
    assert s == "&amp;" + tail;
    ReplaceAllHead(tail, "&amp;", "&");
    ReplaceAllAbsent(tail, "&amp;", "&");
  }

  /** In a string whose only '&' is its first character, a pattern that
      starts with '&' but differs at the second character never matches. */
  lemma EntityNoMatch(s: string, pat: string, rep: string)
    requires |s| > 1 && s[0] == '&' && '&' !in s[1..]
    requires |pat| > 1 && pat[0] == '&' && pat[1] != s[1]
    ensures ReplaceAll(s, pat, rep) == s
  {
    MismatchAt(s, pat, 1);
    assert s == "&" + s[1..];
    NoMatchAtOnlyAmpersand(s[1..], pat, rep);
  }

  /** Tags are stripped before entities are decoded, so escaped markup
      such as '&lt;b&gt;' is shown as the markup '<b>'. */
  lemma EscapedMarkupSurvives(s: string)
    requires s == "&lt;b&gt;"
    ensures RenderAnswer(s) == "<b>"
  {
    StripTagsNoOpen(s);
    assert ReplaceAll(s, "&nbsp;", " ") == s by { MarkupStep1(); }
    assert ReplaceAll(s, "&lt;", "<") == "<b&gt;" by { MarkupStep2(); }
    assert ReplaceAll("<b&gt;", "&gt;", ">") == "<b>" by { MarkupStep3(); }
    ReplaceAllAbsent("<b>", "&amp;", "&");
    ReplaceAllAbsent("<b>", "&quot;", "\"");
    ReplaceAllAbsent("<b>", "&#39;", "'");
  }

  /** '&nbsp;' matches at neither '&' of '&lt;b&gt;'. */
  lemma MarkupStep1()
    ensures ReplaceAll("&lt;b&gt;", "&nbsp;", " ") == "&lt;b&gt;"
  {
    var gt := "&gt;";
    NoMatchAtOnlyAmpersand("gt;", "&nbsp;", " ");
    ReplaceAllKeepsPrefix("lt;b", gt, "&nbsp;", " ");
    MismatchAt("&" + ("lt;b" + gt), "&nbsp;", 1);
    ReplaceAllSkip('&', "lt;b" + gt, "&nbsp;", " ");
    assert "&" + ("lt;b" + gt) == "&lt;b&gt;";
  }

  /** '&lt;' matches at the first '&' of '&lt;b&gt;' only. */
  lemma MarkupStep2()
    ensures ReplaceAll("&lt;b&gt;", "&lt;", "<") == "<b&gt;"
  {
    var gt := "&gt;";
    MismatchAt("&" + "gt;", "&lt;", 1);
    NoMatchAtOnlyAmpersand("gt;", "&lt;", "<");
    ReplaceAllKeepsPrefix("b", gt, "&lt;", "<");
    ReplaceAllHead("b" + gt, "&lt;", "<");
    assert "&lt;" + ("b" + gt) == "&lt;b&gt;";
    assert "<" + ("b" + gt) == "<b&gt;";
  }

  /** '&gt;' matches at the '&' of '<b&gt;'. */
  lemma MarkupStep3()
    ensures ReplaceAll("<b&gt;", "&gt;", ">") == "<b>"
  {
    ReplaceAllHead("", "&gt;", ">");
    assert "&gt;" + "" == "&gt;";
    ReplaceAllKeepsPrefix("<b", "&gt;", "&gt;", ">");
    assert "<b" + "&gt;" == "<b&gt;";
  }

  /** What an open or closed question shows below its button. An open
      question whose entry has no answer makes `renderAnswer` throw. */
  datatype AnswerView = Hidden | Shown(text: string) | Throws

  /** The answer area of one question, given the open list. */
  function AnswerOf(open: seq<Option<string>>, q: FaqItem): (r: AnswerView)
    ensures r.Hidden? <==> q.id !in open
    ensures r.Throws? <==> q.id in open && q.answer.None?
    ensures r.Shown? ==> r.text == RenderAnswer(q.answer.value)
  {
    if q.id !in open then Hidden
    else if q.answer.None? then Throws
    else Shown(RenderAnswer(q.answer.value))
  }
}
