/**
 * Translation application (`translate`): each element carrying a
 * `data-translate` key receives the looked-up text, in its placeholder when
 * it is an `INPUT` or `TEXTAREA`, in its inner HTML otherwise.
 */
module Translation {
  import opened Wrappers
  import opened Flattening

  /**
   * A document element as `translate` sees it. `key` is its `data-translate`
   * attribute (`None` when absent, so the selector does not pick it);
   * `None` in `placeholder` or `content` is the JavaScript `undefined`
   * assigned for a key with no translation.
   */
  datatype Element = Element(
    tagName: string,
    key: Option<string>,
    placeholder: Option<string>,
    content: Option<string>)

  /** `specialElements`: the form controls whose placeholder is written. */
  const SpecialElements: seq<string> := ["INPUT", "TEXTAREA"]

  /** `specialElements.includes(element.tagName)`. */
  function IsSpecial(tagName: string): (r: bool)
    ensures r <==> tagName == "INPUT" || tagName == "TEXTAREA"
  {
    tagName in SpecialElements
  }

  /** `translations[name]`: the text, or `undefined` when the key is absent. */
  function Lookup(translations: Flat, name: string): (r: Option<string>)
    ensures r.Some? <==> name in translations
    ensures r.Some? ==> r.value == translations[name]
  {
    if name in translations then Some(translations[name]) else None
  }

  /** The body of the `forEach` for one element, or no change for an element the selector skips. */
  function Apply(e: Element, translations: Flat): (r: Element)
    ensures r.tagName == e.tagName && r.key == e.key
    ensures e.key.None? ==> r == e
    ensures e.key.Some? && IsSpecial(e.tagName) ==>
      r.placeholder == Lookup(translations, e.key.value) && r.content == e.content
    ensures e.key.Some? && !IsSpecial(e.tagName) ==>
      r.content == Lookup(translations, e.key.value) && r.placeholder == e.placeholder
  {
    match e.key
    case None => e
    case Some(name) =>
      if IsSpecial(e.tagName) then e.(placeholder := Lookup(translations, name))
      else e.(content := Lookup(translations, name))
  }

  /** The elements after one `translate` pass over them, in document order. */
  function TranslateAll(elements: seq<Element>, translations: Flat): (r: seq<Element>)
    ensures |r| == |elements|
    ensures forall i :: 0 <= i < |r| ==> r[i] == Apply(elements[i], translations)
  {
    if elements == [] then []
    else [Apply(elements[0], translations)] + TranslateAll(elements[1..], translations)
  }

  /** Translating an element a second time with the same table changes nothing. */
  lemma ApplyIdempotent(e: Element, translations: Flat)
    ensures Apply(Apply(e, translations), translations) == Apply(e, translations)
  {
  }

  /** A second `translate` pass with the same resource changes nothing. */
  lemma {:induction false} TranslateAllIdempotent(elements: seq<Element>, translations: Flat)
    ensures TranslateAll(TranslateAll(elements, translations), translations) == TranslateAll(elements, translations)
  {
    var once := TranslateAll(elements, translations);
    forall i | 0 <= i < |elements|
      ensures TranslateAll(once, translations)[i] == once[i]
    {
      ApplyIdempotent(elements[i], translations);
    }
  }

  /** The examples: content for a `DIV`, placeholder for an `INPUT`, `undefined` for a missing key. */
  lemma ApplyExamples()
    ensures Apply(Element("DIV", Some("nav.home.title"), None, Some("Home")), map["nav.home.title" := "Accueil"])
      == Element("DIV", Some("nav.home.title"), None, Some("Accueil"))
    ensures Apply(Element("INPUT", Some("nav.home.title"), Some("Home"), None), map["nav.home.title" := "Accueil"])
      == Element("INPUT", Some("nav.home.title"), Some("Accueil"), None)
    ensures Apply(Element("P", Some("missing"), None, Some("Hello")), map["nav.home.title" := "Accueil"])
      == Element("P", Some("missing"), None, None)
  {
    assert IsSpecial("INPUT");
    assert !IsSpecial("DIV") && !IsSpecial("P");
  }
}
