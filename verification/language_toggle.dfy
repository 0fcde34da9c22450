/** The language toggle button: it switches the context language and writes
    the new language to the `lang` query parameter, keeping every other
    parameter. Navigation itself is not modelled; the parameter list that
    would be pushed is the result. */
module LanguageToggle {
  import opened Types
  import Seqs

  /** A query parameter, name and value. */
  type Param = (string, string)

  /** The language the toggle switches to: English becomes Bengali and
      anything else becomes English. */
  function Toggle(l: Language): (r: Language)
    ensures r != l
    ensures l == En <==> r == Bn
  {
    if l == En then Bn else En
  }

  /** Toggling twice returns to the starting language. */
  lemma ToggleTwice(l: Language)
    ensures Toggle(Toggle(l)) == l
  {
  }

  /** The button text names the language the toggle switches to. */
  function ButtonText(l: Language): (r: string)
    ensures l == En ==> r == "বাংলা"
    ensures l != En ==> r == "English"
  {
    if l == En then "বাংলা" else "English"
  }

  /** The accessible label names the switch target. */
  function AriaLabel(l: Language): (r: string)
    ensures l == En ==> r == "Switch to Bengali"
    ensures l != En ==> r == "Switch to English"
  {
    "Switch to " + (if l == En then "Bengali" else "English")
  }

  /** The button names, in its own language, the language the toggle
      switches to. */
  lemma ButtonNamesTarget(l: Language)
    ensures ButtonText(l) == (if Toggle(l) == Bn then "বাংলা" else "English")
    ensures AriaLabel(l) == "Switch to " + (if Toggle(l) == Bn then "Bengali" else "English")
  {
  }

  function Named(name: string): Param -> bool {
    (p: Param) => p.0 == name
  }

  function NotNamed(name: string): Param -> bool {
    (p: Param) => p.0 != name
  }

  /** Some parameter has the name. */
  predicate HasParam(ps: seq<Param>, name: string) {
    exists i :: 0 <= i < |ps| && ps[i].0 == name
  }

  /** The first parameter with the name gets the value; later ones with the
      same name are dropped. */
  function SetFirst(ps: seq<Param>, name: string, value: string): (r: seq<Param>)
    requires HasParam(ps, name)
    decreases |ps|
  {
    if ps[0].0 == name then [(name, value)] + Seqs.Filter(ps[1..], NotNamed(name))
    else [ps[0]] + SetFirst(ps[1..], name, value)
  }

  /** `URLSearchParams.set(name, value)`: replace the value of the first
      parameter with that name and drop the others, or append the pair when
      there is none. */
  function SetParam(ps: seq<Param>, name: string, value: string): seq<Param> {
    if HasParam(ps, name) then SetFirst(ps, name, value) else ps + [(name, value)]
  }

  /** Setting a parameter leaves exactly one pair with its name, carrying
      the new value, and every other parameter as it was, in order. */
  lemma {:induction false} SetParamEffect(ps: seq<Param>, name: string, value: string)
    ensures Seqs.Filter(SetParam(ps, name, value), Named(name)) == [(name, value)]
    ensures Seqs.Filter(SetParam(ps, name, value), NotNamed(name)) == Seqs.Filter(ps, NotNamed(name))
    ensures !HasParam(ps, name) ==> SetParam(ps, name, value) == ps + [(name, value)]
    decreases |ps|
  {
    if HasParam(ps, name) {
      SetFirstEffect(ps, name, value);
    } else {
      var r := ps + [(name, value)];
      Seqs.FilterAppend(ps, [(name, value)], Named(name));
      Seqs.FilterAppend(ps, [(name, value)], NotNamed(name));
      Seqs.FilterNone(ps, Named(name));
      assert Seqs.Filter([(name, value)], NotNamed(name)) == [];
      assert Seqs.Filter([(name, value)], Named(name)) == [(name, value)];
    }
  }

  lemma {:induction false} SetFirstEffect(ps: seq<Param>, name: string, value: string)
    requires HasParam(ps, name)
    ensures Seqs.Filter(SetFirst(ps, name, value), Named(name)) == [(name, value)]
    ensures Seqs.Filter(SetFirst(ps, name, value), NotNamed(name)) == Seqs.Filter(ps, NotNamed(name))
    decreases |ps|
  {
    var rest := Seqs.Filter(ps[1..], NotNamed(name));
    if ps[0].0 == name {
      var r := [(name, value)] + rest;
      Seqs.FilterAppend([(name, value)], rest, Named(name));
      Seqs.FilterAppend([(name, value)], rest, NotNamed(name));
      Seqs.FilterNone(rest, Named(name));
      Seqs.FilterAll(rest, NotNamed(name));
      assert Seqs.Filter([(name, value)], NotNamed(name)) == [];
      assert Seqs.Filter([(name, value)], Named(name)) == [(name, value)];
    } else {
      var i :| 0 <= i < |ps| && ps[i].0 == name;
      assert ps[1..][i - 1].0 == name;
      SetFirstEffect(ps[1..], name, value);
      var tail := SetFirst(ps[1..], name, value);
      Seqs.FilterAppend([ps[0]], tail, Named(name));
      Seqs.FilterAppend([ps[0]], tail, NotNamed(name));
      assert Seqs.Filter([ps[0]], Named(name)) == [];
      assert Seqs.Filter([ps[0]], NotNamed(name)) == [ps[0]];
    }
  }

  /** `toggleLanguage`: the new language, and the query parameters to
      navigate to, with `lang` set to its code. */
  function ToggleLanguage(l: Language, params: seq<Param>): (r: (Language, seq<Param>))
    ensures r.0 == Toggle(l)
    ensures Seqs.Filter(r.1, Named("lang")) == [("lang", LanguageCode(Toggle(l)))]
    ensures Seqs.Filter(r.1, NotNamed("lang")) == Seqs.Filter(params, NotNamed("lang"))
  {
    var newLang := Toggle(l);
    SetParamEffect(params, "lang", LanguageCode(newLang));
    (newLang, SetParam(params, "lang", LanguageCode(newLang)))
  }
}
