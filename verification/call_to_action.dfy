/** The call-to-action block: a price label built from the translated
    default price, and the enrol button's text. The lookup `t` is applied by
    the caller; its result for the key is an input here, so the label can be
    stated for either lookup. */
module CallToAction {
  import opened Base
  import opened Types
  import opened Strings
  import Translations

  const DefaultPrice: int := 1000
  const PriceKey: string := "price.default"
  const EnrollKey: string := "enroll.now"

  /** The currency prefix of the fallback label as the source spells it:
      the UTF-8 bytes of the taka sign read as three Latin-1 characters. */
  const MojibakeTaka: string := "à§³"

  /** The taka sign itself, as the translation tables write it. */
  const Taka: string := "৳"

  /** The price shown: the given one, or 1000 when the caller passes
      none. */
  function PriceOf(price: Option<int>): (r: int)
    ensures price.Some? ==> r == price.value
    ensures price.None? ==> r == DefaultPrice
  {
    price.GetOr(DefaultPrice)
  }

  /** The price label for `translated = t('price.default')`, as written: a
      translation that differs from the key has its first '1000' replaced by
      the price; otherwise the fallback is the mis-encoded sign followed by
      the price. */
  function PriceLabel(translated: string, price: Option<int>): (r: string)
    ensures translated == PriceKey ==> r == MojibakeTaka + IntToString(PriceOf(price))
    ensures translated != PriceKey && !Contains(translated, "1000") ==> r == translated
    ensures translated != PriceKey && Contains(translated, "1000") ==>
              exists i: nat :: i + 4 <= |translated| && translated[i..i + 4] == "1000"
                && (forall j: nat :: j < i ==> !OccursAt(translated, "1000", j))
                && r == translated[..i] + IntToString(PriceOf(price)) + translated[i + 4..]
  {
    if translated != PriceKey then
      var r := ReplaceFirst(translated, "1000", IntToString(PriceOf(price)));
      assert Contains(translated, "1000") ==> OccursAt(translated, "1000", IndexOf(translated, "1000").value);
      r
    else MojibakeTaka + IntToString(PriceOf(price))
  }

  /** Leaving the price out is the same as passing 1000. */
  lemma MissingPriceIsDefault(translated: string)
    ensures PriceLabel(translated, None) == PriceLabel(translated, Some(1000))
  {
  }

  /** With the lookup as written the key never translates, so the label is
      always the fallback: the mis-encoded sign and the price, in both
      languages. */
  lemma PriceLabelAsWritten(l: Language, price: Option<int>)
    ensures PriceLabel(Translations.Translate(l, PriceKey), price) == MojibakeTaka + IntToString(PriceOf(price))
    ensures MojibakeTaka != Taka
  {
    Translations.TablesHaveSameKeys();
    Translations.OnlyLoadingTranslates(l, PriceKey);
  }

  /** The price label as evidently intended: the fallback uses the taka
      sign. */
  function PriceLabelIntended(translated: string, price: Option<int>): (r: string)
    ensures translated == PriceKey ==> r == Taka + IntToString(PriceOf(price))
    ensures translated != PriceKey ==> r == PriceLabel(translated, price)
  {
    if translated != PriceKey then ReplaceFirst(translated, "1000", IntToString(PriceOf(price)))
    else Taka + IntToString(PriceOf(price))
  }

  /** With the whole-key lookup the English label is 'Price: ৳' followed
      by the price. */
  lemma PriceLabelIntendedEnglish(price: Option<int>)
    ensures PriceLabelIntended(Translations.TranslateFlat(En, PriceKey), price) == "Price: ৳" + IntToString(PriceOf(price))
  {
    var en := Translations.Table(En)[PriceKey];
    assert en == "Price: ৳1000";
    assert en[..8] == "Price: ৳";
    assert en[8..12] == "1000";
    assert OccursAt(en, "1000", 8);
    FirstOccurrence(en, "1000", 8);
    assert en[..8] + IntToString(PriceOf(price)) + en[12..] == "Price: ৳" + IntToString(PriceOf(price));
  }

  /** The Bengali text writes its amount in Bengali digits, so it has no
      '1000' to replace: with the whole-key lookup the Bengali label is the
      table text whatever the price. */
  lemma PriceLabelIntendedBengali(price: Option<int>)
    ensures PriceLabelIntended(Translations.TranslateFlat(Bn, PriceKey), price) == "মূল্য: ৳১০০০"
  {
    var bn := Translations.Table(Bn)[PriceKey];
    assert bn == "মূল্য: ৳১০০০";
    AbsentFirstChar(bn, "1000");
  }

  /** The intended fallback's sign is the one both tables use. */
  lemma IntendedSignMatchesTables()
    ensures Taka == [Translations.Table(En)[PriceKey][7]] == [Translations.Table(Bn)[PriceKey][7]]
  {
  }

  /** The button text: the name when it is non-empty, else the translated
      'enroll.now'. */
  function ButtonText(name: string, enrollText: string): (r: string)
    ensures name != "" ==> r == name
    ensures name == "" ==> r == enrollText
  {
    OrStr(name, enrollText)
  }

  /** With the lookup as written an empty name shows the raw key. */
  lemma EmptyNameShowsKey(l: Language)
    ensures ButtonText("", Translations.Translate(l, EnrollKey)) == EnrollKey
  {
    Translations.TablesHaveSameKeys();
    Translations.OnlyLoadingTranslates(l, EnrollKey);
  }
}
