/**
 * The `config` object of `PureLocale`: its defaults and the field-by-field
 * merge performed by `parseConfiguration`.
 */
module Configuration {
  import opened Dynamic

  /**
   * `two_code`, `default`, `allowed_languages` and `locales_folder`.
   * `allowed_languages` keeps whatever object the caller supplied, which
   * need not be an array.
   */
  datatype Config = Config(
    twoCode: bool,
    defaultLanguage: string,
    allowedLanguages: ObjectValue,
    localesFolder: string)

  /** The configuration the constructor starts from. */
  const Defaults: Config := Config(true, "en", Array([Str("en")]), "locales")

  /**
   * The configuration after `parseConfiguration(supplied)` on `c`: each field
   * is taken from `supplied` exactly when the supplied value has the expected
   * `typeof`, and is otherwise left as it was.
   */
  function Merge(c: Config, supplied: map<string, Value>): (r: Config)
    ensures TypeOf(Member(supplied, "two_code")) == "boolean" ==> Bool(r.twoCode) == Member(supplied, "two_code")
    ensures TypeOf(Member(supplied, "two_code")) != "boolean" ==> r.twoCode == c.twoCode
    ensures TypeOf(Member(supplied, "default")) == "string" ==> Str(r.defaultLanguage) == Member(supplied, "default")
    ensures TypeOf(Member(supplied, "default")) != "string" ==> r.defaultLanguage == c.defaultLanguage
    ensures TypeOf(Member(supplied, "locales_folder")) == "string" ==> Str(r.localesFolder) == Member(supplied, "locales_folder")
    ensures TypeOf(Member(supplied, "locales_folder")) != "string" ==> r.localesFolder == c.localesFolder
    ensures TypeOf(Member(supplied, "allowed_languages")) == "object" ==> r.allowedLanguages == Member(supplied, "allowed_languages")
    ensures TypeOf(Member(supplied, "allowed_languages")) != "object" ==> r.allowedLanguages == c.allowedLanguages
  {
    var twoCode := Member(supplied, "two_code");
    var default := Member(supplied, "default");
    var allowed := Member(supplied, "allowed_languages");
    var folder := Member(supplied, "locales_folder");
    Config(
      if twoCode.Bool? then twoCode.b else c.twoCode,
      if default.Str? then default.s else c.defaultLanguage,
      if allowed.Null? || allowed.Array? || allowed.Object? then allowed else c.allowedLanguages,
      if folder.Str? then folder.s else c.localesFolder)
  }

  /** Each field is decided by its own key alone: the other keys of `supplied` play no part. */
  lemma MergeFieldsIndependent(c: Config, s1: map<string, Value>, s2: map<string, Value>)
    ensures Member(s1, "two_code") == Member(s2, "two_code") ==> Merge(c, s1).twoCode == Merge(c, s2).twoCode
    ensures Member(s1, "default") == Member(s2, "default") ==> Merge(c, s1).defaultLanguage == Merge(c, s2).defaultLanguage
    ensures Member(s1, "allowed_languages") == Member(s2, "allowed_languages") ==> Merge(c, s1).allowedLanguages == Merge(c, s2).allowedLanguages
    ensures Member(s1, "locales_folder") == Member(s2, "locales_folder") ==> Merge(c, s1).localesFolder == Merge(c, s2).localesFolder
  {
  }

  /** Supplying nothing (the constructor's `config = {}`) keeps the configuration. */
  lemma MergeEmpty(c: Config)
    ensures Merge(c, map[]) == c
  {
  }

  /** Parsing the same supplied object twice changes nothing the second time. */
  lemma MergeIdempotent(c: Config, supplied: map<string, Value>)
    ensures Merge(Merge(c, supplied), supplied) == Merge(c, supplied)
  {
  }

  /** A field supplied with the wrong type, such as `two_code: "yes"`, keeps the default. */
  lemma MergeIgnoresWrongTypes()
    ensures Merge(Defaults, map["two_code" := Str("yes"), "default" := Number, "locales_folder" := Null, "allowed_languages" := Str("fr")]) == Defaults
  {
  }
}
