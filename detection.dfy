/**
 * Language detection (`detectLanguage`): the choice between the primary
 * subtag of the browser's language tag and the configured default.
 */
module Detection {
  import opened Wrappers
  import opened Dynamic
  import opened Configuration

  /** The TypeErrors that detection can raise. */
  datatype Exception =
    | SplitOfUndefined    // the browser reported no language, and `.split` is called on `undefined`
    | IncludesOfNonArray  // `allowed_languages` is `null` or an object without `includes`

  /**
   * `tag.split('-')[0]`: the part of the tag before its first `-`, or the
   * whole tag when it has none.
   */
  function PrimaryTag(tag: string): (p: string)
    ensures p <= tag
    ensures '-' !in p
    ensures |p| < |tag| ==> tag[|p|] == '-'
  {
    if tag == [] || tag[0] == '-' then [] else [tag[0]] + PrimaryTag(tag[1..])
  }

  /** `list.includes(x)` on an array: some element is the string `x`. */
  function Includes(list: seq<Value>, x: string): (r: bool)
    ensures r <==> exists i :: 0 <= i < |list| && list[i] == Str(x)
  {
    Str(x) in list
  }

  /** The language allowed by `c`: a string element of `allowed_languages`. */
  function Allowed(c: Config, language: string): (r: bool)
    ensures r <==> (c.allowedLanguages.Array? &&
                    exists i :: 0 <= i < |c.allowedLanguages.items| && c.allowedLanguages.items[i] == Str(language))
  {
    c.allowedLanguages.Array? && Includes(c.allowedLanguages.items, language)
  }

  /**
   * The language that `detectLanguage` stores for the browser tag `tag`
   * (`navigator.language || navigator.userLanguage`, `None` when both are
   * missing), or the exception it throws.
   */
  function Resolve(tag: Option<string>, c: Config): (r: Result<string, Exception>)
    ensures r.Ok? ==> r.value == c.defaultLanguage || Allowed(c, r.value)
    ensures r.Err? <==> c.twoCode && (tag.None? || !c.allowedLanguages.Array?)
  {
    if !c.twoCode then Ok(c.defaultLanguage)
    else if tag.None? then Err(SplitOfUndefined)
    else
      var detected := PrimaryTag(tag.value);
      match c.allowedLanguages
      case Array(items) => if Includes(items, detected) then Ok(detected) else Ok(c.defaultLanguage)
      case _ => Err(IncludesOfNonArray)
  }

  /**
   * When two-letter matching is on and the primary subtag is allowed, it is
   * the result; in every other case that does not throw, the default is.
   */
  lemma ResolveChoice(tag: Option<string>, c: Config)
    ensures c.twoCode && tag.Some? && Allowed(c, PrimaryTag(tag.value))
      ==> Resolve(tag, c) == Ok(PrimaryTag(tag.value))
    ensures !c.twoCode ==> Resolve(tag, c) == Ok(c.defaultLanguage)
    ensures c.twoCode && tag.Some? && c.allowedLanguages.Array? && !Allowed(c, PrimaryTag(tag.value))
      ==> Resolve(tag, c) == Ok(c.defaultLanguage)
  {
  }

  /** A tag without `-` is its own primary subtag. */
  lemma PrimaryTagOfPlain(tag: string)
    requires '-' !in tag
    ensures PrimaryTag(tag) == tag
  {
  }

  /** Cutting at the first `-` twice is cutting once. */
  lemma PrimaryTagIdempotent(tag: string)
    ensures PrimaryTag(PrimaryTag(tag)) == PrimaryTag(tag)
  {
    PrimaryTagOfPlain(PrimaryTag(tag));
  }

  /** The region part of a tag never matters: only the primary subtag is compared. */
  lemma ResolveIgnoresRegion(t1: string, t2: string, c: Config)
    requires PrimaryTag(t1) == PrimaryTag(t2)
    ensures Resolve(Some(t1), c) == Resolve(Some(t2), c)
  {
  }

  /** A language chosen from the tag resolves to itself when reported again. */
  lemma ResolveStable(tag: string, c: Config)
    requires Resolve(Some(tag), c) == Ok(PrimaryTag(tag))
    ensures Resolve(Some(PrimaryTag(tag)), c) == Ok(PrimaryTag(tag))
  {
    PrimaryTagIdempotent(tag);
  }

  /** `"fr-CA"`, `"de-DE"` against the allow-list `["fr"]` with default `"en"`. */
  lemma ResolveExamples()
    ensures Resolve(Some("fr-CA"), Config(true, "en", Array([Str("fr")]), "locales")) == Ok("fr")
    ensures Resolve(Some("de-DE"), Config(true, "en", Array([Str("fr")]), "locales")) == Ok("en")
    ensures Resolve(Some("fr-CA"), Config(false, "en", Array([Str("fr")]), "locales")) == Ok("en")
    ensures Resolve(None, Config(true, "en", Array([Str("fr")]), "locales")) == Err(SplitOfUndefined)
    ensures Resolve(Some("fr-CA"), Config(true, "en", Object(map[]), "locales")) == Err(IncludesOfNonArray)
  {
    assert PrimaryTag("fr-CA") == "fr" by {
      assert PrimaryTag("CA") == "CA";
      assert PrimaryTag("-CA") == "";
    }
    assert PrimaryTag("de-DE") == "de" by {
      assert PrimaryTag("-DE") == "";
    }
  }
}
