/** The language provider: the two translation tables, the `t` lookup and
    the validation of a stored language. Storage and the React context are
    not modelled; the stored value is an input. */
module Translations {
  import opened Base
  import opened Types
  import opened Strings

  /** The translation table of a language. Both tables are flat objects
      whose keys are the whole dotted strings. */
  function Table(l: Language): map<string, string> {
    match l
    case En => map[
      "loading" := "Loading course data...",
      "error.title" := "Error loading course",
      "error.retry" := "Retry",
      "price.default" := "Price: ৳1000",
      "enroll.now" := "Enroll Now",
      "course.instructor" := "Course Instructor",
      "course.features" := "Course Features",
      "what.you.learn" := "What you will learn",
      "course.details" := "Course Details",
      "course.about" := "About this course",
      "feature.explanations" := "How the course is laid out",
      "course.pointers" := "What you will learn by doing the course"
    ]
    case Bn => map[
      "loading" := "কোর্সের তথ্য লোড হচ্ছে...",
      "error.title" := "কোর্স লোড করতে সমস্যা",
      "error.retry" := "আবার চেষ্টা করুন",
      "price.default" := "মূল্য: ৳১০০০",
      "enroll.now" := "এনরোল করুন",
      "course.instructor" := "কোর্স ইন্সট্রাক্টর",
      "course.features" := "কোর্সের বৈশিষ্ট্য",
      "what.you.learn" := "যা শিখবেন",
      "course.details" := "কোর্সের বিস্তারিত",
      "course.about" := "এই কোর্স সম্পর্কে",
      "feature.explanations" := "কোর্সটি কীভাবে সাজানো হয়েছে",
      "course.pointers" := "কোর্স করে যা শিখবেন"
    ]
  }

  /** The twelve keys, in table order. */
  const Keys: seq<string> :=
    ["loading", "error.title", "error.retry", "price.default", "enroll.now",
     "course.instructor", "course.features", "what.you.learn", "course.details",
     "course.about", "feature.explanations", "course.pointers"]

  /** Both tables have exactly the same twelve keys, each mapped to a
      non-empty text. */
  lemma TablesHaveSameKeys()
    ensures |Keys| == 12
    ensures forall i, j :: 0 <= i < j < |Keys| ==> Keys[i] != Keys[j]
    ensures forall l: Language :: Table(l).Keys == set k | k in Keys
    ensures forall l: Language, k :: k in Table(l) ==> Table(l)[k] != ""
  {
    KeysDistinct();
    TableKeys(En);
    TableKeys(Bn);
  }

  lemma KeysDistinct()
    ensures |Keys| == 12
    ensures forall i, j :: 0 <= i < j < |Keys| ==> Keys[i] != Keys[j]
  {
  }

  lemma TableKeys(l: Language)
    ensures Table(l).Keys == set k | k in Keys
    ensures forall k :: k in Table(l) ==> Table(l)[k] != ""
  {
  }

  /** The value reached while walking a key path through the table: the
      table object itself, a string, or `undefined`. */
  datatype JsValue = Obj(props: map<string, string>) | Str(s: string) | Undef

  /** A canonical array index: decimal digits without a leading zero. */
  predicate IsArrayIndex(k: string) {
    && |k| >= 1
    && (forall i :: 0 <= i < |k| ==> '0' <= k[i] <= '9')
    && (|k| == 1 || k[0] != '0')
  }

  /** `value?.[k]`: a property of the table; a one-character string when a
      string is indexed by a position inside it; `undefined` otherwise. */
  function Step(v: JsValue, k: string): (r: JsValue)
    ensures !r.Obj?
  {
    match v
    case Obj(m) => if k in m then Str(m[k]) else Undef
    case Str(s) =>
      if IsArrayIndex(k) && 0 <= DigitsValue(k) < |s| then Str([s[DigitsValue(k)]]) else Undef
    case Undef => Undef
  }

  /** The `for (const k of keys) value = value?.[k]` walk. */
  function Walk(v: JsValue, keys: seq<string>): (r: JsValue)
    ensures |keys| > 0 ==> !r.Obj?
    decreases |keys|
  {
    if keys == [] then v else Walk(Step(v, keys[0]), keys[1..])
  }

  /** `undefined` stays `undefined` whatever is left of the path. */
  lemma {:induction false} WalkUndef(keys: seq<string>)
    ensures Walk(Undef, keys) == Undef
    decreases |keys|
  {
    if keys != [] {
      WalkUndef(keys[1..]);
    }
  }

  /** `t(key)`, as written: split the key on '.', walk the current table
      along the pieces, and return what was found when it is a non-empty
      string, or else the key itself. Never throws. */
  function Translate(l: Language, key: string): (r: string)
    ensures r == key || Split(key, '.')[0] in Table(l)
  {
    var ps := Split(key, '.');
    WalkUndef(ps[1..]);
    var w := Walk(Obj(Table(l)), Split(key, '.'));
    if w.Str? && w.s != "" then w.s else key
  }

  /** A key without a dot is looked up directly: it yields its table entry
      when the table has a non-empty one, and itself otherwise. */
  lemma DotFreeKey(l: Language, key: string)
    requires '.' !in key
    ensures key in Table(l) ==> Translate(l, key) == Table(l)[key]
    ensures key !in Table(l) ==> Translate(l, key) == key
  {
    SplitCount(key, '.');
    assert Split(key, '.') == [key];
    assert Walk(Obj(Table(l)), [key]) == Walk(Step(Obj(Table(l)), key), []);
    TablesHaveSameKeys();
  }

  /** A key with a dot is split before the lookup, so unless its first piece
      is itself a table key it resolves to the key string. */
  lemma DottedKeyUntranslated(l: Language, key: string)
    requires '.' in key
    requires Split(key, '.')[0] !in Table(l)
    ensures Translate(l, key) == key
  {
    var ps := Split(key, '.');
    SplitCount(key, '.');
    assert Step(Obj(Table(l)), ps[0]) == Undef;
    WalkUndef(ps[1..]);
  }

  /** Every key but the first contains a dot, and only the first starts
      with 'l'. */
  lemma KeyShapes()
    ensures forall i :: 1 <= i < |Keys| ==> '.' in Keys[i]
    ensures forall i :: 1 <= i < |Keys| ==> Keys[i][0] != 'l'
    ensures Keys[0] == "loading"
  {
    forall i | 1 <= i < |Keys| ensures '.' in Keys[i] && Keys[i][0] != 'l' {
      KeyHasDot(i);
    }
  }

  /** Key `i` has a dot at a known position and starts with another
      letter than 'l'. */
  lemma KeyHasDot(i: nat)
    requires 1 <= i < |Keys|
    ensures '.' in Keys[i] && Keys[i][0] != 'l'
  {
    var k := Keys[i];
    if i == 1 { assert k[5] == '.'; }
    else if i == 2 { assert k[5] == '.'; }
    else if i == 3 { assert k[5] == '.'; }
    else if i == 4 { assert k[6] == '.'; }
    else if i == 5 { assert k[6] == '.'; }
    else if i == 6 { assert k[6] == '.'; }
    else if i == 7 { assert k[4] == '.'; }
    else if i == 8 { assert k[6] == '.'; }
    else if i == 9 { assert k[6] == '.'; }
    else if i == 10 { assert k[7] == '.'; }
    else { assert k[6] == '.'; }
  }

  /** A table key is one of the twelve keys. */
  lemma TableKeyIsKey(l: Language, k: string)
    requires k in Table(l)
    ensures k in Keys
  {
  }

  /** The only dot-free key is 'loading'. */
  lemma DotFreeKeyIsLoading(p: string)
    requires p in Keys && '.' !in p
    ensures p == Keys[0]
  {
    KeyShapes();
    var j :| 0 <= j < |Keys| && Keys[j] == p;
  }

  /** Every table key other than 'loading' is a dotted key whose first
      piece is not a table key, so it resolves to itself. */
  lemma DottedTableKeyUntranslated(l: Language, key: string)
    requires key in Keys && key != "loading"
    ensures Translate(l, key) == key
  {
    KeyShapes();
    var i :| 0 <= i < |Keys| && Keys[i] == key;
    assert key[0] != 'l';
    var p := Split(key, '.')[0];
    SplitFirstIsPrefix(key, '.');
    if p in Table(l) {
      TableKeyIsKey(l, p);
      DotFreeKeyIsLoading(p);
      assert false;
    }
    DottedKeyUntranslated(l, key);
  }

  /** Of the twelve table keys only 'loading' translates; every dotted key
      such as 'error.title' or 'price.default' comes back unchanged. */
  lemma OnlyLoadingTranslates(l: Language, key: string)
    requires key in Table(l)
    ensures Translate(l, key) != key <==> key == "loading"
    ensures key == "loading" ==> Translate(l, key) == Table(l)["loading"]
  {
    TablesHaveSameKeys();
    assert key in Keys;
    if key == "loading" {
      DotFreeKey(l, key);
    } else {
      DottedTableKeyUntranslated(l, key);
    }
  }

  /** After the 'loading' piece the walk indexes into the loading text:
      'loading.<n>' for a position n inside it yields that one character
      (so 'loading.0' yields 'L' in English). */
  lemma LoadingIndexYieldsCharacter(l: Language, d: string)
    requires IsArrayIndex(d) && 0 <= DigitsValue(d) < |Table(l)["loading"]|
    ensures Translate(l, "loading" + "." + d) == [Table(l)["loading"][DigitsValue(d)]]
    ensures Table(En)["loading"][0] == 'L'
  {
    var head := Keys[0];
    assert '.' !in head;
    SplitAtFirst(head, d, '.');
    assert '.' !in d;
    SplitCount(d, '.');
    var ps := Split(head + "." + d, '.');
    assert ps == [head, d];
    var v := Step(Obj(Table(l)), head);
    assert v == Str(Table(l)[head]);
    assert Walk(Obj(Table(l)), ps) == Walk(Step(v, d), []);
  }

  /** `t(key)` as evidently intended for flat tables: the whole key is
      looked up. */
  function TranslateFlat(l: Language, key: string): (r: string)
    ensures key in Table(l) && Table(l)[key] != "" ==> r == Table(l)[key]
    ensures !(key in Table(l) && Table(l)[key] != "") ==> r == key
  {
    if key in Table(l) && Table(l)[key] != "" then Table(l)[key] else key
  }

  /** With the whole-key lookup every table key yields its entry, and the
      two lookups agree on every dot-free key. */
  lemma TranslateFlatFindsEveryKey(l: Language, key: string)
    ensures key in Table(l) ==> TranslateFlat(l, key) == Table(l)[key]
    ensures '.' !in key ==> TranslateFlat(l, key) == Translate(l, key)
  {
    TablesHaveSameKeys();
    if '.' !in key {
      DotFreeKey(l, key);
    }
  }

  /** The language the provider starts with. */
  const InitialLanguage: Language := En

  /** The language after hydration: the stored value is adopted only when it
      is exactly 'en' or 'bn'; anything else keeps the current language. */
  function Hydrate(current: Language, saved: Option<string>): (r: Language)
    ensures saved == Some("en") ==> r == En
    ensures saved == Some("bn") ==> r == Bn
    ensures saved != Some("en") && saved != Some("bn") ==> r == current
  {
    if saved.Some? && (saved.value == "en" || saved.value == "bn") then
      if saved.value == "en" then En else Bn
    else
      current
  }

  /** Starting from the initial language, Bengali is chosen exactly when
      'bn' was stored. */
  lemma HydrateFromInitial(saved: Option<string>)
    ensures Hydrate(InitialLanguage, saved) == Bn <==> saved == Some("bn")
  {
  }
}
