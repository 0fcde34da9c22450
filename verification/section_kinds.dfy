/** The closed set of section kinds the page clients switch over, with an
    explicit catch-all for every other `type` tag. */
module SectionKinds {

  datatype Kind =
    | Instructors
    | Features
    | Pointers
    | About
    | FeatureExplanations
    | FreeItems
    | Testimonials
    | Requirements
    | HowToPay
    | Faq
    | Unrecognised(tag: string)

  /** The recognised kinds, in the order the page clients list them. */
  const Recognised: seq<Kind> :=
    [Instructors, Features, Pointers, About, FeatureExplanations,
     FreeItems, Testimonials, Requirements, HowToPay, Faq]

  /** The `type` tag a kind is written as in the document. */
  function Tag(k: Kind): string {
    match k
    case Instructors => "instructors"
    case Features => "features"
    case Pointers => "pointers"
    case About => "about"
    case FeatureExplanations => "feature_explanations"
    case FreeItems => "free_items"
    case Testimonials => "testimonials"
    case Requirements => "requirements"
    case HowToPay => "how_to_pay"
    case Faq => "faq"
    case Unrecognised(t) => t
  }

  /** The tags of the recognised kinds. */
  const RecognisedTags: seq<string> :=
    ["instructors", "features", "pointers", "about", "feature_explanations",
     "free_items", "testimonials", "requirements", "how_to_pay", "faq"]

  /** A kind is well formed when its catch-all case does not hide a
      recognised tag. */
  predicate WellFormed(k: Kind) {
    k.Unrecognised? ==> k.tag !in RecognisedTags
  }

  /** The kind a document tag denotes. Every tag is classified, and the
      classification loses nothing: the kind's tag is the original tag. */
  function KindOf(tag: string): (k: Kind)
    ensures Tag(k) == tag
    ensures WellFormed(k)
    ensures k.Unrecognised? <==> tag !in RecognisedTags
  {
    match tag
    case "instructors" => Instructors
    case "features" => Features
    case "pointers" => Pointers
    case "about" => About
    case "feature_explanations" => FeatureExplanations
    case "free_items" => FreeItems
    case "testimonials" => Testimonials
    case "requirements" => Requirements
    case "how_to_pay" => HowToPay
    case "faq" => Faq
    case _ => Unrecognised(tag)
  }

  /** Classifying a well-formed kind's tag gives the kind back, so tags and
      well-formed kinds correspond one to one. */
  lemma KindOfTag(k: Kind)
    requires WellFormed(k)
    ensures KindOf(Tag(k)) == k
  {
  }

  /** The recognised tags are exactly the tags of the recognised kinds, ten
      of them, all different. */
  lemma RecognisedTagsAreTagsOfRecognised()
    ensures |RecognisedTags| == |Recognised| == 10
    ensures forall i :: 0 <= i < 10 ==> RecognisedTags[i] == Tag(Recognised[i])
    ensures forall i, j :: 0 <= i < j < 10 ==> RecognisedTags[i] != RecognisedTags[j]
  {
  }
}
