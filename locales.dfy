/**
 * The `PureLocale` class: configuration, detection, the decision to load a
 * resource, and the translation pass, wired together as its constructor does.
 */
module Locales {
  import opened Wrappers
  import opened Dynamic
  import opened Configuration
  import opened Detection
  import opened Flattening
  import opened Translation

  /** `${language}` in a template literal: `undefined` prints as "undefined". */
  function LanguageText(language: Option<string>): (r: string)
    ensures language.Some? ==> r == language.value
    ensures language.None? ==> r == "undefined"
  {
    match language
    case Some(s) => s
    case None => "undefined"
  }

  /**
   * What `initialize` asks `fetch` for: nothing when the current language is
   * the default, otherwise `${locales_folder}/${language}.json`.
   */
  function ResourceRequest(language: Option<string>, c: Config): (r: Option<string>)
    ensures r.None? <==> language == Some(c.defaultLanguage)
    ensures r.Some? ==> r.value == c.localesFolder + "/" + LanguageText(language) + ".json"
  {
    if language == Some(c.defaultLanguage) then None
    else Some(c.localesFolder + "/" + LanguageText(language) + ".json")
  }

  /** The parts of a resource path can be read back from it. */
  lemma ResourcePathParts(folder: string, language: string)
    ensures var p := folder + "/" + language + ".json";
      |p| == |folder| + |language| + 6 &&
      p[..|folder|] == folder && p[|folder|] == '/' &&
      p[|folder| + 1..|p| - 5] == language && p[|p| - 5..] == ".json"
  {
    var p := folder + "/" + language + ".json";
    assert p == folder + ("/" + language + ".json");
    assert p[|folder| + 1..|p| - 5] == language by {
      assert forall i :: 0 <= i < |language| ==> p[|folder| + 1 + i] == language[i];
    }
  }

  /** Within one locales folder, different languages load different resources. */
  lemma ResourcePathInjective(c: Config, l1: string, l2: string)
    requires ResourceRequest(Some(l1), c).Some? && ResourceRequest(Some(l2), c).Some?
    requires ResourceRequest(Some(l1), c) == ResourceRequest(Some(l2), c)
    ensures l1 == l2
  {
    ResourcePathParts(c.localesFolder, l1);
    ResourcePathParts(c.localesFolder, l2);
  }

  /**
   * The elements once the request (if any) has settled: a failed fetch
   * (`None` from `load`) leaves them as they were, a loaded resource is
   * flattened and applied.
   */
  function AfterLoad(elements: seq<Element>, request: Option<string>, load: string -> Option<Entries>): (r: seq<Element>)
    ensures |r| == |elements|
    ensures request.None? || load(request.value).None? ==> r == elements
    ensures forall i :: 0 <= i < |r| && elements[i].key.None? ==> r[i] == elements[i]
    ensures forall i :: 0 <= i < |r| ==> r[i].tagName == elements[i].tagName && r[i].key == elements[i].key
  {
    match request
    case None => elements
    case Some(path) =>
      match load(path)
      case None => elements
      case Some(json) => TranslateAll(elements, FlatObject(json))
  }

  /** What `new PureLocale(supplied)` ends with when it does not throw. */
  datatype Started = Started(language: string, request: Option<string>, elements: seq<Element>)

  /**
   * The whole constructor as one value: merge the configuration, resolve the
   * language, decide the request, and apply the loaded resource.
   */
  function Startup(supplied: map<string, Value>, tag: Option<string>, elements: seq<Element>,
                   load: string -> Option<Entries>): (r: Result<Started, Exception>)
    ensures r.Err? <==> Resolve(tag, Merge(Defaults, supplied)).Err?
    ensures r.Err? ==> r.error == Resolve(tag, Merge(Defaults, supplied)).error
    ensures r.Ok? ==> r.value.language == Resolve(tag, Merge(Defaults, supplied)).value
    ensures r.Ok? ==> |r.value.elements| == |elements|
  {
    var c := Merge(Defaults, supplied);
    match Resolve(tag, c)
    case Err(e) => Err(e)
    case Ok(language) =>
      var request := ResourceRequest(Some(language), c);
      Ok(Started(language, request, AfterLoad(elements, request, load)))
  }

  /**
   * Resolving to the default language issues no request and changes no
   * element; any other language is requested from the locales folder, and
   * the language is always the default or an allowed one.
   */
  lemma StartupDecision(supplied: map<string, Value>, tag: Option<string>, elements: seq<Element>,
                        load: string -> Option<Entries>)
    requires Startup(supplied, tag, elements, load).Ok?
    ensures var c := Merge(Defaults, supplied);
      var s := Startup(supplied, tag, elements, load).value;
      (s.language == c.defaultLanguage || Allowed(c, s.language)) &&
      (s.request.None? <==> s.language == c.defaultLanguage) &&
      (s.request.None? ==> s.elements == elements) &&
      (s.request.Some? ==> s.request.value == c.localesFolder + "/" + s.language + ".json")
  {
  }

  /** With the default configuration only English is allowed, so nothing is ever loaded. */
  lemma StartupWithDefaults(tag: string, elements: seq<Element>, load: string -> Option<Entries>)
    ensures Startup(map[], Some(tag), elements, load) == Ok(Started("en", None, elements))
  {
    MergeEmpty(Defaults);
    var p := PrimaryTag(tag);
    if p == "en" {
      assert Allowed(Defaults, p);
    } else {
      assert !Includes([Str("en")], p);
    }
  }

  /** `"fr-CA"` with French allowed loads `locales/fr.json` and translates from it. */
  lemma StartupFrench(elements: seq<Element>, load: string -> Option<Entries>)
    ensures var supplied := map["allowed_languages" := Array([Str("en"), Str("fr")])];
      Startup(supplied, Some("fr-CA"), elements, load).Ok? &&
      Startup(supplied, Some("fr-CA"), elements, load).value.language == "fr" &&
      Startup(supplied, Some("fr-CA"), elements, load).value.request == Some("locales/fr.json")
  {
    var supplied := map["allowed_languages" := Array([Str("en"), Str("fr")])];
    assert Merge(Defaults, supplied) == Config(true, "en", Array([Str("en"), Str("fr")]), "locales");
    assert PrimaryTag("fr-CA") == "fr" by {
      assert PrimaryTag("-CA") == "";
    }
    assert Includes([Str("en"), Str("fr")], "fr");
    assert "locales" + "/" + "fr" + ".json" == "locales/fr.json";
  }

  class PureLocale {
    var config: Config
    var currentLanguage: Option<string>

    /**
     * The part of the constructor that cannot throw: the defaults, merged
     * with the supplied configuration. `Start` does the rest.
     */
    constructor (supplied: map<string, Value>)
      ensures config == Merge(Defaults, supplied)
      ensures currentLanguage == None
    {
      config := Defaults;
      currentLanguage := None;
      new;
      ParseConfiguration(supplied);
    }

    /** `parseConfiguration`: each field is replaced when the supplied value has the right `typeof`. */
    method ParseConfiguration(supplied: map<string, Value>)
      modifies this
      ensures config == Merge(old(config), supplied)
      ensures currentLanguage == old(currentLanguage)
    {
      var twoCode := Member(supplied, "two_code");
      if TypeOf(twoCode) == "boolean" {
        config := config.(twoCode := twoCode.b);
      }
      var default := Member(supplied, "default");
      if TypeOf(default) == "string" {
        config := config.(defaultLanguage := default.s);
      }
      var folder := Member(supplied, "locales_folder");
      if TypeOf(folder) == "string" {
        config := config.(localesFolder := folder.s);
      }
      var allowed := Member(supplied, "allowed_languages");
      if TypeOf(allowed) == "object" {
        config := config.(allowedLanguages := allowed);
      }
    }

    /** `setLanguage`. */
    method SetLanguage(name: string)
      modifies this
      ensures currentLanguage == Some(name)
      ensures config == old(config)
    {
      currentLanguage := Some(name);
    }

    /** `getLanguage`: `None` before a language has been set. */
    method GetLanguage() returns (name: Option<string>)
      ensures name == currentLanguage
    {
      name := currentLanguage;
    }

    /**
     * `detectLanguage` for the browser tag `tag`: stores the resolved
     * language, or returns the exception it throws and stores nothing.
     */
    method DetectLanguage(tag: Option<string>) returns (thrown: Option<Exception>)
      modifies this
      ensures config == old(config)
      ensures Resolve(tag, config).Ok? ==> thrown == None && currentLanguage == Some(Resolve(tag, config).value)
      ensures Resolve(tag, config).Err? ==> thrown == Some(Resolve(tag, config).error) && currentLanguage == old(currentLanguage)
    {
      var userLanguage := config.defaultLanguage;
      if config.twoCode {
        if tag.None? {
          return Some(SplitOfUndefined);
        }
        var detected := PrimaryTag(tag.value);
        if !config.allowedLanguages.Array? {
          return Some(IncludesOfNonArray);
        }
        if Includes(config.allowedLanguages.items, detected) {
          SetLanguage(detected);
          return None;
        }
      }
      SetLanguage(userLanguage);
      thrown := None;
    }

    /**
     * `initialize`: no request for the default language; otherwise the
     * resource path is requested and, when `load` delivers it, translated.
     */
    method Initialize(elements: array<Element>, load: string -> Option<Entries>) returns (request: Option<string>)
      modifies elements
      ensures request == ResourceRequest(currentLanguage, config)
      ensures elements[..] == AfterLoad(old(elements[..]), request, load)
    {
      var language := GetLanguage();
      if language == Some(config.defaultLanguage) {
        return None;
      }
      var path := config.localesFolder + "/" + LanguageText(language) + ".json";
      request := Some(path);
      var json := load(path);
      if json.Some? {
        Translate(json.value, elements);
      }
    }

    /** `translate(phrases)` over the elements the `[data-translate]` query returns. */
    method Translate(phrases: Entries, elements: array<Element>)
      modifies elements
      ensures elements[..] == TranslateAll(old(elements[..]), FlatObject(phrases))
    {
      var translations := FlatObject(phrases);
      var i := 0;
      while i < elements.Length
        invariant 0 <= i <= elements.Length
        invariant forall j :: 0 <= j < i ==> elements[j] == Apply(old(elements[j]), translations)
        invariant forall j :: i <= j < elements.Length ==> elements[j] == old(elements[j])
      {
        var element := elements[i];
        if element.key.Some? {
          var name := element.key.value;
          if IsSpecial(element.tagName) {
            elements[i] := element.(placeholder := Lookup(translations, name));
          } else {
            elements[i] := element.(content := Lookup(translations, name));
          }
        }
        i := i + 1;
      }
    }

    /** The rest of the constructor: `detectLanguage()` then `initialize()`. */
    method Start(tag: Option<string>, elements: array<Element>, load: string -> Option<Entries>)
      returns (outcome: Result<Option<string>, Exception>)
      modifies this, elements
      ensures config == old(config)
      ensures Resolve(tag, config).Err? ==>
        outcome == Err(Resolve(tag, config).error) &&
        currentLanguage == old(currentLanguage) && elements[..] == old(elements[..])
      ensures Resolve(tag, config).Ok? ==>
        currentLanguage == Some(Resolve(tag, config).value) &&
        outcome == Ok(ResourceRequest(currentLanguage, config)) &&
        elements[..] == AfterLoad(old(elements[..]), ResourceRequest(currentLanguage, config), load)
    {
      var thrown := DetectLanguage(tag);
      if thrown.Some? {
        return Err(thrown.value);
      }
      var request := Initialize(elements, load);
      outcome := Ok(request);
    }
  }

  /** `new PureLocale(supplied)`, with the browser tag and the document's elements passed in. */
  method Construct(supplied: map<string, Value>, tag: Option<string>, elements: array<Element>,
                   load: string -> Option<Entries>)
    returns (locale: PureLocale, outcome: Result<Option<string>, Exception>)
    modifies elements
    ensures fresh(locale) && locale.config == Merge(Defaults, supplied)
    ensures Startup(supplied, tag, old(elements[..]), load).Err? ==>
      outcome == Err(Startup(supplied, tag, old(elements[..]), load).error) &&
      locale.currentLanguage == None && elements[..] == old(elements[..])
    ensures Startup(supplied, tag, old(elements[..]), load).Ok? ==>
      var s := Startup(supplied, tag, old(elements[..]), load).value;
      outcome == Ok(s.request) && locale.currentLanguage == Some(s.language) && elements[..] == s.elements
  {
    locale := new PureLocale(supplied);
    outcome := locale.Start(tag, elements, load);
  }
}
