# pure-locale.js in Dafny

A model of `PureLocale`, a small client-side localisation helper. When the
page loads it runs four steps:

1. It merges the caller's configuration over its defaults (`parseConfiguration`).
2. It picks a language from the browser's language tag (`detectLanguage`).
3. It loads `locales/<language>.json`, unless the language is the default (`initialize`).
4. It flattens that nested resource into a table keyed by dot paths (`flatObject`).
   Then it writes each looked-up text into every element marked `data-translate`
   (`translate`). `INPUT` and `TEXTAREA` elements get the text as their
   placeholder. Every other element gets it as its inner HTML.

Modules, one per component of the class:

- `Wrappers`: `Option` and `Result`. `None` stands for JavaScript's `undefined`.
- `Dynamic`: the JavaScript values a caller may put in the configuration object, and `typeof` on them.
- `Configuration`: the defaults and the field-by-field merge.
- `Detection`: `split('-')[0]`, `includes`, and the language choice. The choice is a total function that returns either a language or the TypeError the code throws.
- `Flattening`: the resource as a tree (`Leaf(text)` or `Node(entries)`), with `flat` and `flatObject` written as the code writes them. Beside them is an independent description that lists each leaf with its key path and assigns the joined paths in order. A lemma proves that the two give the same table.
- `Translation`: element records and the effect of one translation pass.
- `Locales`: the class `PureLocale`. Its fields `config` and `currentLanguage` are updated in place, as the code does. `Translate` is a loop over an array of elements, changed in place. `Startup` is the whole constructor as one value, and lemmas about it cover the decision to skip loading.

Behaviour of the code that the model keeps as it is:

- **Missing browser tag.** With `two_code` on, a missing tag makes `.split` throw, and `Resolve` returns `Err(SplitOfUndefined)`. With `two_code` off, the default is chosen.
- **Arrays in a resource.** The test `typeof val === 'object'` recurses into arrays, using their indices as keys. The `Tree` type has no arrays (see below).
- **Missing keys.** When a key has no translation, the code still writes `translations[name]`, which is `undefined`, over the element's placeholder or content. The model writes `None`.
- **`allowed_languages`.** The code keeps any value whose `typeof` is `"object"`, and that includes `null` and plain objects. `includes` on such a value throws, and `Resolve` returns `Err(IncludesOfNonArray)`.

## Model

| member | source | states |
|---|---|---|
| `Dynamic.TypeOf` | pure-locale.js:72-81 | `typeof`: one of the five names these values can have (`"function"`, `"symbol"` and `"bigint"` cannot arise, since the configuration holds no such values); `"object"` exactly for `null`, arrays and objects, `"boolean"` exactly for booleans, `"string"` exactly for strings |
| `Dynamic.Member` | pure-locale.js:72-81 | reading `config.<name>`: the supplied value when the name is present, `undefined` when it is absent |
| `Configuration.Defaults` | pure-locale.js:8-13 | no contract; the constant is the definition: `two_code` on, default `"en"`, allowed `["en"]`, folder `"locales"` |
| `Configuration.Merge` | pure-locale.js:71-84 | each of the four fields takes the supplied value exactly when its `typeof` is the expected one (boolean, string, string, object); otherwise the previous value is kept |
| `Configuration.MergeFieldsIndependent` | pure-locale.js:72-83 | each field depends only on its own supplied key, never on the other keys |
| `Configuration.MergeEmpty` | pure-locale.js:7-14 | supplying no configuration (`config = {}`) leaves the defaults in place |
| `Configuration.MergeIdempotent` | pure-locale.js:71-84 | parsing the same supplied object a second time changes nothing |
| `Configuration.MergeIgnoresWrongTypes` | pure-locale.js:8-14 | fields supplied with the wrong type (a string for `two_code`, a number for `default`, `null` for the folder, a string for the allow-list) all keep their defaults |
| `Detection.PrimaryTag` | pure-locale.js:39 | the result is a prefix of the tag with no `-`, and it is followed by `-` in the tag unless it is the whole tag |
| `Detection.PrimaryTagOfPlain` | pure-locale.js:39 | a tag without `-` is returned whole |
| `Detection.PrimaryTagIdempotent` | pure-locale.js:39 | cutting at the first `-` twice gives the same result as cutting once |
| `Detection.Includes` | pure-locale.js:40 | `includes` holds exactly when some element of the array is the string itself |
| `Detection.Allowed` | pure-locale.js:40 | a language is allowed exactly when `allowed_languages` is an array and some element of it is that string |
| `Detection.Resolve` | pure-locale.js:35-45 | a result that does not throw is the default or a string element of `allowed_languages`; it throws exactly when `two_code` is on and either the tag is missing or `allowed_languages` is not an array |
| `Detection.ResolveChoice` | pure-locale.js:38-44 | with `two_code` on, an allowed primary subtag is the result and a primary subtag that is not allowed gives the default; with `two_code` off the result is always the default |
| `Detection.ResolveIgnoresRegion` | pure-locale.js:39-40 | two tags with the same primary subtag resolve alike |
| `Detection.ResolveStable` | pure-locale.js:39-41 | a language chosen from a tag resolves to itself when that language is reported as the tag |
| `Detection.ResolveExamples` | pure-locale.js:35-45 | with allow-list `["fr"]` and default `"en"`: `"fr-CA"` gives `"fr"`, `"de-DE"` gives `"en"`, `"fr-CA"` with `two_code` off gives `"en"`, a missing tag throws, and a plain-object allow-list throws |
| `Flattening.NonEmpty` | pure-locale.js:110 | `filter(v => v)`: no segment of the result is empty |
| `Flattening.Join` | pure-locale.js:110 | `join('.')`: the result starts with the first segment |
| `Flattening.JoinAll` | pure-locale.js:110 | the filtered join is empty exactly when no segment is non-empty |
| `Flattening.JoinPath` | pure-locale.js:110 | no contract; the body is the definition (`JoinAll([pre, key])`); `JoinPathCases` states its three cases |
| `Flattening.JoinPathCases` | pure-locale.js:110 | an empty `pre` gives the key alone, so there is no leading dot; an empty key gives `pre`; otherwise the result is `pre + "." + key` |
| `Flattening.FlatValue` | pure-locale.js:109-114 | `flat` never removes a key from the accumulator; `FlatEntriesIsInsert` states what it adds |
| `Flattening.FlatEntries` | pure-locale.js:112 | the `reduce` never removes a key from the accumulator; `FlatEntriesIsInsert` states exactly what it assigns |
| `Flattening.FlatObject` | pure-locale.js:116 | its own contract says only that the empty input gives the empty table; `FlatObjectIsInsert`, `LeafLandsAtJoinedPath` and `FlatKeysAreLeafPaths` state the full result |
| `Flattening.JoinPathExtends` | pure-locale.js:110 | joining the joined prefix with the next key gives the join of the longer path, so `[pre, key].filter(v => v).join('.')` applied step by step joins the non-empty segments of the whole path |
| `Flattening.JoinAllShape` | pure-locale.js:110 | a path with no non-empty segment joins to `""`; otherwise the join starts with the first non-empty segment, so no leading dot is added; a single key joins to itself |
| `Flattening.FlatEntriesIsInsert` | pure-locale.js:109-114 | the `reduce` over `flat` assigns, into the accumulator and in enumeration order, exactly the leaves below the entries, each at its joined key path |
| `Flattening.FlatObjectIsInsert` | pure-locale.js:116 | `flatObject` equals assigning every leaf's joined path, in order, into the empty table |
| `Flattening.InsertLastWins` | pure-locale.js:113 | after the overwriting assignments, a key holds the value of the last pair that assigns it |
| `Flattening.InsertDomain` | pure-locale.js:113 | the assignments produce exactly the keys assigned, plus those already present |
| `Flattening.InsertUntouched` | pure-locale.js:113 | a key that no later pair assigns keeps its earlier value |
| `Flattening.LeafLandsAtJoinedPath` | pure-locale.js:109-116 | a leaf at key path `k1..kn` is found in the flat table under the join of its non-empty keys, unless a later leaf lands on the same joined key |
| `Flattening.FlatKeysAreLeafPaths` | pure-locale.js:109-116 | a key is in the flat table exactly when it is the joined path of some leaf |
| `Flattening.NestedExample` | pure-locale.js:108-117 | `{"nav":{"home":{"title":"Home"}}}` flattens to `{"nav.home.title":"Home"}` |
| `Flattening.FlatOnFlatInput` | pure-locale.js:110-116 | on input whose values are all leaves with distinct keys (the empty key included), the flat table has exactly those keys with those values |
| `Flattening.FlatExample` | pure-locale.js:108-117 | `{"a":"x","b":"y"}` flattens to itself, and so does `{"":"x"}` |
| `Flattening.FlatEmpty` | pure-locale.js:116 | the empty mapping flattens to the empty table |
| `Flattening.EmptyNodeAddsNothing` | pure-locale.js:112 | an empty nested mapping inserted anywhere among the entries leaves the result of the fold unchanged |
| `Flattening.FlatIgnoresEmptyMappings` | pure-locale.js:108-117 | removing every nested mapping that holds no leaf, at any depth, leaves the flat table unchanged |
| `Translation.SpecialElements` | pure-locale.js:53 | no contract; the constant is the definition: `["INPUT", "TEXTAREA"]` |
| `Translation.IsSpecial` | pure-locale.js:58 | `includes(element.tagName)`: exactly the tags `INPUT` and `TEXTAREA` |
| `Translation.Lookup` | pure-locale.js:59 | `translations[name]` is the text exactly when the key is present, and `undefined` otherwise |
| `Translation.Apply` | pure-locale.js:56-63 | an element without a `data-translate` key is untouched; an `INPUT` or `TEXTAREA` gets the looked-up value as its placeholder and keeps its content; any other element gets it as its content and keeps its placeholder; tag and key never change |
| `Translation.TranslateAll` | pure-locale.js:56-63 | the pass keeps the number of elements and transforms each element on its own |
| `Translation.ApplyIdempotent` | pure-locale.js:56-63 | translating an element twice with the same table gives the same result as translating it once |
| `Translation.TranslateAllIdempotent` | pure-locale.js:52-64 | a second translation pass with the same resource changes nothing |
| `Translation.ApplyExamples` | pure-locale.js:58-62 | `{"nav.home.title":"Accueil"}` sets a `DIV`'s content and an `INPUT`'s placeholder to `"Accueil"`; a missing key writes `undefined` over the content |
| `Locales.LanguageText` | pure-locale.js:27 | the template text of the language: the name itself when set, `"undefined"` when not |
| `Locales.ResourceRequest` | pure-locale.js:23-27 | no request exactly when the current language equals the default; otherwise the request is `locales_folder + "/" + language + ".json"` |
| `Locales.ResourcePathParts` | pure-locale.js:27 | the folder, the `/`, the language and the `.json` suffix can be read back from the request path |
| `Locales.ResourcePathInjective` | pure-locale.js:27 | within one folder, two languages that are both requested give different paths unless they are the same language |
| `Locales.AfterLoad` | pure-locale.js:27-29 | the `.then` callback keeps the number of elements, tags and keys; with no request or a failed load nothing changes; elements without a key never change |
| `Locales.Startup` | pure-locale.js:7-17 | the constructor throws exactly when `Resolve` throws on the merged configuration, with the same exception; otherwise the language is the one resolved and the element count is kept; `StartupDecision` states the rest |
| `Locales.StartupDecision` | pure-locale.js:7-30 | after construction the language is the default or an allowed one; no request is issued and no element changes exactly when it is the default; otherwise the request is the resource path for that language |
| `Locales.StartupWithDefaults` | pure-locale.js:8-30 | with the default configuration, every browser tag resolves to `"en"` and no request is issued |
| `Locales.StartupFrench` | pure-locale.js:14-27 | with `allowed_languages` `["en","fr"]`, the tag `"fr-CA"` resolves to `"fr"` and requests `locales/fr.json` |
| `Locales.PureLocale.constructor` | pure-locale.js:7-14 | the configuration is the defaults merged with the supplied object, and no language is set yet |
| `Locales.PureLocale.ParseConfiguration` | pure-locale.js:71-84 | the new configuration is `Merge` of the old one with the supplied object, and the language is unchanged |
| `Locales.PureLocale.SetLanguage` | pure-locale.js:91-93 | the current language becomes the given name, and the configuration is unchanged |
| `Locales.PureLocale.GetLanguage` | pure-locale.js:99-101 | returns the current language |
| `Locales.PureLocale.DetectLanguage` | pure-locale.js:35-45 | stores `Resolve` of the tag and the configuration, or returns the exception and stores nothing |
| `Locales.PureLocale.Initialize` | pure-locale.js:22-30 | issues `ResourceRequest` for the current language; the elements end as `AfterLoad` of the request (unchanged when there is no request or the load fails) |
| `Locales.PureLocale.Translate` | pure-locale.js:52-64 | the array afterwards is `TranslateAll` of its old contents with the flattened resource |
| `Locales.PureLocale.Start` | pure-locale.js:15-16 | detection followed by initialisation: on an exception nothing changes; otherwise the language is the resolved one, the request is issued for it, and the elements are translated from what loads |
| `Locales.Construct` | pure-locale.js:7-17 | `new PureLocale(config)` ends in the state `Startup` describes: the exception with no language set and the elements unchanged, or the language, the request and the translated elements |

## Left out

- `fetch`, the promise chain and `response.json()` (pure-locale.js:27-29) are network I/O and asynchronous. The model passes in a function `load` from a request path to an optional parsed resource. `None` stands for a fetch or parse that fails, and then the `.then` callback never runs. In the code the constructor returns before `translate` runs, and `translate` queries the document only when the callback fires. So the `elements` state that `Startup`, `Start` and `Construct` describe is one the page reaches only after the constructor has returned, with its elements as they are at that later moment.
- The read of `navigator.language || navigator.userLanguage` (pure-locale.js:37) is a global read. The model passes in its value as `Option<string>`. An empty `navigator.language` falls through to `userLanguage` within that expression, so it is part of what the caller passes.
- `document.querySelectorAll('[data-translate]')` (pure-locale.js:54) is modelled by an array of element records. Records without a key stand for the elements the selector does not match. Elements added to the document later are outside the model.
- The model does not cover the HTML meaning of `innerHTML` or the DOM's conversion of an assigned `undefined` to text. Content and placeholder are opaque optional strings.
- `translations[name]` also finds properties inherited from `Object.prototype`, such as `toString`. The flat table is modelled as a map with no prototype.
- `Object.keys` lists integer-like keys first, in numeric order. The model takes a node's entries in the order they are given, which is the enumeration order.
- The `Tree` type has only string leaves and nested mappings. So the model leaves out three cases: arrays, which the code recurses into with index keys; numbers and booleans, which the code stores as-is; and `null`, which makes `Object.keys` throw.
- An input to `flatObject` that is not an object is not modelled.
- A parsed object never lists a key twice, but a `Node` may. The lemmas also cover such nodes, and there both subtrees of a repeated key are folded in, in order. A parsed object would keep only the last one.
- A leaf at the key `__proto__` is left out. There, `Object.assign` would invoke the prototype setter instead of adding an entry.
- The configuration argument is modelled as a plain object, a map from names to values. An argument of `null` would make `config.two_code` throw, and that case is not modelled.
- Among the values whose `typeof` is `"object"`, only arrays have an `includes` method in the model. An object that defines its own `includes` is not modelled.
- `language == this.config.default` (pure-locale.js:24) is loose equality. It is modelled as plain equality, because both sides are strings, or the language is `undefined`.
- Dafny constructors cannot throw. So the model splits `constructor` (pure-locale.js:7-17) into `PureLocale.constructor`, which covers the defaults and the merge, and `PureLocale.Start`, which covers detection and initialisation. `Construct` runs the two in sequence, as `new PureLocale(config)` does.
