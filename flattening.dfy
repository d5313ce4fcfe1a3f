/**
 * Resource flattening (`flatObject` and its inner `flat`): a nested
 * translation resource becomes one map from dot-joined key paths to texts.
 */
module Flattening {

  /**
   * A parsed translation resource. A node lists its entries in the order in
   * which `Object.keys` enumerates them.
   */
  datatype Tree = Leaf(text: string) | Node(entries: seq<Entry>)

  /** One property of a nested mapping: its key and its value. */
  datatype Entry = Entry(key: string, value: Tree)

  type Entries = seq<Entry>

  /** The flat lookup table: dot path to text. */
  type Flat = map<string, string>

  /** The non-empty segments of a path, in order (`filter(v => v)`). */
  function NonEmpty(path: seq<string>): (q: seq<string>)
    ensures forall i :: 0 <= i < |q| ==> q[i] != ""
  {
    if path == [] then []
    else if path[0] == "" then NonEmpty(path[1..])
    else [path[0]] + NonEmpty(path[1..])
  }

  /** `segments.join('.')`. */
  function Join(segments: seq<string>): (r: string)
    ensures segments != [] ==> segments[0] <= r
  {
    if segments == [] then ""
    else if |segments| == 1 then segments[0]
    else segments[0] + "." + Join(segments[1..])
  }

  /** `path.filter(v => v).join('.')`: a path with its empty segments dropped, joined by dots. */
  function JoinAll(path: seq<string>): (r: string)
    ensures r == "" <==> NonEmpty(path) == []
  {
    Join(NonEmpty(path))
  }

  /** `[pre, key].filter(v => v).join('.')`, the prefix of one step of `flat`. */
  function JoinPath(pre: string, key: string): string {
    JoinAll([pre, key])
  }

  /**
   * `flat(res, key, val, pre)`: a leaf is assigned at its joined path,
   * overwriting, and a nested mapping is folded into `res` entry by entry.
   */
  function FlatValue(res: Flat, key: string, val: Tree, pre: string): (r: Flat)
    ensures res.Keys <= r.Keys
    decreases val
  {
    var prefix := JoinPath(pre, key);
    match val
    case Leaf(text) => res[prefix := text]
    case Node(entries) => FlatEntries(res, entries, prefix)
  }

  /** `Object.keys(val).reduce((prev, curr) => flat(prev, curr, val[curr], prefix), res)`. */
  function FlatEntries(res: Flat, entries: Entries, prefix: string): (r: Flat)
    ensures res.Keys <= r.Keys
    decreases entries
  {
    if entries == [] then res
    else FlatEntries(FlatValue(res, entries[0].key, entries[0].value, prefix), entries[1..], prefix)
  }

  /** `flatObject(input)`, starting from the empty object and the empty prefix. */
  function FlatObject(input: Entries): (r: Flat)
    ensures input == [] ==> r == map[]
  {
    FlatEntries(map[], input, "")
  }

  // ---------------------------------------------------------------------
  // An independent description: list every leaf with its key path, then
  // assign the joined paths in that order.

  /** Every leaf below `entries`, with the full key path leading to it, in enumeration order. */
  function Leaves(entries: Entries, path: seq<string>): seq<(seq<string>, string)>
    decreases entries
  {
    if entries == [] then []
    else
      var here := path + [entries[0].key];
      (match entries[0].value
       case Leaf(text) => [(here, text)]
       case Node(children) => Leaves(children, here))
      + Leaves(entries[1..], path)
  }

  /** Each leaf's path replaced by its joined key. */
  function Keyed(leaves: seq<(seq<string>, string)>): (r: seq<(string, string)>)
    ensures |r| == |leaves|
    ensures forall i :: 0 <= i < |r| ==> r[i] == (JoinAll(leaves[i].0), leaves[i].1)
  {
    if leaves == [] then [] else [(JoinAll(leaves[0].0), leaves[0].1)] + Keyed(leaves[1..])
  }

  /** Assign the pairs one after another; a later pair overwrites an earlier one. */
  function Insert(m: Flat, kvs: seq<(string, string)>): Flat
    decreases kvs
  {
    if kvs == [] then m else Insert(m[kvs[0].0 := kvs[0].1], kvs[1..])
  }

  // ---------------------------------------------------------------------
  // Path joining

  lemma {:induction false} NonEmptySnoc(path: seq<string>, k: string)
    ensures NonEmpty(path + [k]) == NonEmpty(path) + (if k == "" then [] else [k])
  {
    if path != [] {
      assert (path + [k])[1..] == path[1..] + [k];
      NonEmptySnoc(path[1..], k);
    }
  }

  lemma {:induction false} JoinSnoc(segments: seq<string>, k: string)
    ensures Join(segments + [k]) == if segments == [] then k else Join(segments) + "." + k
  {
    if |segments| > 1 {
      assert (segments + [k])[1..] == segments[1..] + [k];
      JoinSnoc(segments[1..], k);
    }
  }

  /**
   * The prefix of one step of `flat` is the key alone under an empty
   * prefix (so there is no leading dot), the prefix alone for an empty key,
   * and otherwise the two separated by a dot.
   */
  lemma JoinPathCases(pre: string, key: string)
    ensures pre == "" ==> JoinPath(pre, key) == key
    ensures key == "" ==> JoinPath(pre, key) == pre
    ensures pre != "" && key != "" ==> JoinPath(pre, key) == pre + "." + key
  {
    assert [pre, key][1..] == [key] && [key][1..] == [];
    assert NonEmpty([key]) == if key == "" then [] else [key];
    assert NonEmpty([pre, key]) == if pre == "" then NonEmpty([key]) else [pre] + NonEmpty([key]);
    if pre != "" && key != "" {
      assert NonEmpty([pre, key]) == [pre, key] by {
        assert [pre] + [key] == [pre, key];
      }
      assert [pre, key][1..] == [key];
      assert Join([pre, key]) == pre + "." + Join([key]);
    }
  }

  /**
   * One step of `flat` extends the joined path by one segment: the prefix
   * built from the joined prefix and the next key is the joined longer path.
   */
  lemma JoinPathExtends(path: seq<string>, k: string)
    ensures JoinPath(JoinAll(path), k) == JoinAll(path + [k])
  {
    NonEmptySnoc(path, k);
    JoinPathCases(JoinAll(path), k);
    if k == "" {
      assert NonEmpty(path + [k]) == NonEmpty(path) + [];
      assert NonEmpty(path) + [] == NonEmpty(path);
    } else {
      JoinSnoc(NonEmpty(path), k);
    }
  }

  /**
   * There is never a leading dot: the joined path starts with the first
   * non-empty segment, and segments are separated by single dots.
   */
  lemma JoinAllShape(path: seq<string>)
    ensures NonEmpty(path) == [] ==> JoinAll(path) == ""
    ensures NonEmpty(path) != [] ==> NonEmpty(path)[0] <= JoinAll(path)
    ensures forall k :: JoinAll([k]) == k
  {
    forall k ensures JoinAll([k]) == k {
      NonEmptySnoc([], k);
      assert [] + [k] == [k];
    }
  }

  // ---------------------------------------------------------------------
  // Flattening equals the leaf listing

  lemma {:induction false} InsertAppend(m: Flat, a: seq<(string, string)>, b: seq<(string, string)>)
    ensures Insert(m, a + b) == Insert(Insert(m, a), b)
    decreases a
  {
    if a != [] {
      assert (a + b)[1..] == a[1..] + b;
      InsertAppend(m[a[0].0 := a[0].1], a[1..], b);
    } else {
      assert a + b == b;
    }
  }

  lemma {:induction false} KeyedAppend(a: seq<(seq<string>, string)>, b: seq<(seq<string>, string)>)
    ensures Keyed(a + b) == Keyed(a) + Keyed(b)
  {
  }

  /** The heart of the flattening: the fold assigns exactly the listed leaves, in order. */
  lemma {:induction false} FlatEntriesIsInsert(res: Flat, entries: Entries, path: seq<string>)
    ensures FlatEntries(res, entries, JoinAll(path)) == Insert(res, Keyed(Leaves(entries, path)))
    decreases entries
  {
    if entries != [] {
      var k, v := entries[0].key, entries[0].value;
      var here := path + [k];
      JoinPathExtends(path, k);
      var first := match v case Leaf(text) => [(here, text)] case Node(children) => Leaves(children, here);
      var rest := Leaves(entries[1..], path);
      assert Leaves(entries, path) == first + rest;
      var res' := FlatValue(res, k, v, JoinAll(path));
      assert res' == Insert(res, Keyed(first)) by {
        match v
        case Leaf(text) =>
          assert Keyed(first) == [(JoinAll(here), text)];
        case Node(children) =>
          FlatEntriesIsInsert(res, children, here);
      }
      FlatEntriesIsInsert(res', entries[1..], path);
      KeyedAppend(first, rest);
      InsertAppend(res, Keyed(first), Keyed(rest));
    }
  }

  /** `flatObject(input)` assigns every leaf at its joined path, in enumeration order. */
  lemma FlatObjectIsInsert(input: Entries)
    ensures FlatObject(input) == Insert(map[], Keyed(Leaves(input, [])))
  {
    assert JoinAll([]) == "";
    FlatEntriesIsInsert(map[], input, []);
  }

  /** The fold assigns exactly the keys of `m` and of the pairs. */
  lemma {:induction false} InsertDomain(m: Flat, kvs: seq<(string, string)>, k: string)
    ensures k in Insert(m, kvs) <==> k in m || exists i :: 0 <= i < |kvs| && kvs[i].0 == k
    decreases kvs
  {
    if kvs != [] {
      InsertDomain(m[kvs[0].0 := kvs[0].1], kvs[1..], k);
      if exists i :: 0 <= i < |kvs| && kvs[i].0 == k {
        var i :| 0 <= i < |kvs| && kvs[i].0 == k;
        if i > 0 {
          assert kvs[1..][i - 1].0 == k;
        }
      }
      if exists i :: 0 <= i < |kvs[1..]| && kvs[1..][i].0 == k {
        var i :| 0 <= i < |kvs[1..]| && kvs[1..][i].0 == k;
        assert kvs[i + 1].0 == k;
      }
    }
  }

  /** A key that no pair assigns keeps its value. */
  lemma {:induction false} InsertUntouched(m: Flat, kvs: seq<(string, string)>, k: string)
    requires k in m
    requires forall i :: 0 <= i < |kvs| ==> kvs[i].0 != k
    ensures k in Insert(m, kvs) && Insert(m, kvs)[k] == m[k]
    decreases kvs
  {
    if kvs != [] {
      assert kvs[0].0 != k;
      assert forall i :: 0 <= i < |kvs[1..]| ==> kvs[1..][i] == kvs[i + 1];
      InsertUntouched(m[kvs[0].0 := kvs[0].1], kvs[1..], k);
    }
  }

  /** The last pair with a given key wins. */
  lemma {:induction false} InsertLastWins(m: Flat, kvs: seq<(string, string)>, i: nat)
    requires i < |kvs|
    requires forall j :: i < j < |kvs| ==> kvs[j].0 != kvs[i].0
    ensures kvs[i].0 in Insert(m, kvs) && Insert(m, kvs)[kvs[i].0] == kvs[i].1
    decreases kvs
  {
    var m' := m[kvs[0].0 := kvs[0].1];
    assert forall j :: 0 <= j < |kvs[1..]| ==> kvs[1..][j] == kvs[j + 1];
    if i == 0 {
      InsertUntouched(m', kvs[1..], kvs[0].0);
    } else {
      InsertLastWins(m', kvs[1..], i - 1);
    }
  }

  /**
   * A leaf at key path `p` is found under `JoinAll(p)` in the flat table,
   * unless a later leaf lands at the same joined path.
   */
  lemma LeafLandsAtJoinedPath(input: Entries, i: nat)
    requires i < |Leaves(input, [])|
    requires forall j :: i < j < |Leaves(input, [])| ==>
      JoinAll(Leaves(input, [])[j].0) != JoinAll(Leaves(input, [])[i].0)
    ensures JoinAll(Leaves(input, [])[i].0) in FlatObject(input)
    ensures FlatObject(input)[JoinAll(Leaves(input, [])[i].0)] == Leaves(input, [])[i].1
  {
    FlatObjectIsInsert(input);
    InsertLastWins(map[], Keyed(Leaves(input, [])), i);
  }

  /** The flat table holds no key besides the joined leaf paths. */
  lemma FlatKeysAreLeafPaths(input: Entries, k: string)
    ensures k in FlatObject(input) <==> exists i :: 0 <= i < |Leaves(input, [])| && JoinAll(Leaves(input, [])[i].0) == k
  {
    var ls := Leaves(input, []);
    var kvs := Keyed(ls);
    FlatObjectIsInsert(input);
    InsertDomain(map[], kvs, k);
    if exists i :: 0 <= i < |kvs| && kvs[i].0 == k {
      var i :| 0 <= i < |kvs| && kvs[i].0 == k;
      assert JoinAll(ls[i].0) == k;
    }
    if exists i :: 0 <= i < |ls| && JoinAll(ls[i].0) == k {
      var i :| 0 <= i < |ls| && JoinAll(ls[i].0) == k;
      assert kvs[i].0 == k;
    }
  }

  /** The example `{"nav":{"home":{"title":"Home"}}}`. */
  lemma NestedExample()
    ensures FlatObject([Entry("nav", Node([Entry("home", Node([Entry("title", Leaf("Home"))]))]))]) == map["nav.home.title" := "Home"]
  {
    var title := [Entry("title", Leaf("Home"))];
    var home := [Entry("home", Node(title))];
    JoinPathCases("", "nav");
    JoinPathCases("nav", "home");
    JoinPathCases("nav.home", "title");
    assert JoinPath("", "nav") == "nav";
    assert "nav" + "." + "home" == "nav.home";
    assert "nav.home" + "." + "title" == "nav.home.title";
    assert FlatValue(map[], "title", Leaf("Home"), "nav.home") == map["nav.home.title" := "Home"];
    assert title[1..] == [] && home[1..] == [];
    assert FlatEntries(map[], title, "nav.home") == map["nav.home.title" := "Home"];
    assert FlatEntries(map[], home, "nav") == map["nav.home.title" := "Home"];
  }

  /**
   * On input that is already flat (only leaves, distinct keys, the empty
   * key included),
   * flattening returns the same key/value mapping.
   */
  lemma FlatOnFlatInput(input: Entries)
    requires forall i :: 0 <= i < |input| ==> input[i].value.Leaf?
    requires forall i, j :: 0 <= i < j < |input| ==> input[i].key != input[j].key
    ensures forall k :: k in FlatObject(input) <==> exists i :: 0 <= i < |input| && input[i].key == k
    ensures forall i :: 0 <= i < |input| ==> FlatObject(input)[input[i].key] == input[i].value.text
  {
    var ls := Leaves(input, []);
    LeavesOfFlat(input);
    JoinAllShape([]);
    var kvs := Keyed(ls);
    assert forall i :: 0 <= i < |input| ==> kvs[i] == (input[i].key, input[i].value.text);
    FlatObjectIsInsert(input);
    forall k ensures k in FlatObject(input) <==> exists i :: 0 <= i < |input| && input[i].key == k {
      InsertDomain(map[], kvs, k);
    }
    forall i | 0 <= i < |input| ensures FlatObject(input)[input[i].key] == input[i].value.text {
      InsertLastWins(map[], kvs, i);
    }
  }

  lemma {:induction false} LeavesOfFlat(input: Entries)
    requires forall i :: 0 <= i < |input| ==> input[i].value.Leaf?
    ensures |Leaves(input, [])| == |input|
    ensures forall i :: 0 <= i < |input| ==> Leaves(input, [])[i] == ([input[i].key], input[i].value.text)
  {
    if input != [] {
      LeavesOfFlat(input[1..]);
      assert [] + [input[0].key] == [input[0].key];
      assert forall i :: 1 <= i < |input| ==> input[1..][i - 1] == input[i];
    }
  }

  /** The example `{"a":"x","b":"y"}` is returned unchanged, and so is a lone empty key. */
  lemma FlatExample()
    ensures FlatObject([Entry("a", Leaf("x")), Entry("b", Leaf("y"))]) == map["a" := "x", "b" := "y"]
    ensures FlatObject([Entry("", Leaf("x"))]) == map["" := "x"]
  {
    var input := [Entry("a", Leaf("x")), Entry("b", Leaf("y"))];
    FlatOnFlatInput(input);
    var r := FlatObject(input);
    assert input[0].key == "a" && input[1].key == "b";
    assert r.Keys == {"a", "b"};
  }

  // ---------------------------------------------------------------------
  // Empty nested mappings

  /** Flattening the empty mapping gives the empty table. */
  lemma FlatEmpty()
    ensures FlatObject([]) == map[]
  {
  }

  /** An empty nested mapping among the entries at any position adds nothing. */
  lemma {:induction false} EmptyNodeAddsNothing(res: Flat, a: Entries, k: string, b: Entries, prefix: string)
    ensures FlatEntries(res, a + [Entry(k, Node([]))] + b, prefix) == FlatEntries(res, a + b, prefix)
    decreases a
  {
    if a == [] {
      assert a + [Entry(k, Node([]))] + b == [Entry(k, Node([]))] + b;
      assert ([Entry(k, Node([]))] + b)[1..] == b;
      assert a + b == b;
    } else {
      assert (a + [Entry(k, Node([]))] + b)[1..] == a[1..] + [Entry(k, Node([]))] + b;
      assert (a + b)[1..] == a[1..] + b;
      EmptyNodeAddsNothing(FlatValue(res, a[0].key, a[0].value, prefix), a[1..], k, b, prefix);
    }
  }

  /** The entries with every nested mapping that holds no leaf removed, at every depth. */
  function Prune(entries: Entries): Entries
    decreases entries
  {
    if entries == [] then []
    else
      var rest := Prune(entries[1..]);
      match entries[0].value
      case Leaf(_) => [entries[0]] + rest
      case Node(children) =>
        var kept := Prune(children);
        if kept == [] then rest else [Entry(entries[0].key, Node(kept))] + rest
  }

  lemma {:induction false} PruneKeepsLeaves(entries: Entries, path: seq<string>)
    ensures Leaves(Prune(entries), path) == Leaves(entries, path)
    decreases entries
  {
    if entries != [] {
      var rest := Prune(entries[1..]);
      PruneKeepsLeaves(entries[1..], path);
      match entries[0].value
      case Leaf(_) =>
        assert ([entries[0]] + rest)[1..] == rest;
      case Node(children) =>
        var kept := Prune(children);
        PruneKeepsLeaves(children, path + [entries[0].key]);
        if kept != [] {
          assert ([Entry(entries[0].key, Node(kept))] + rest)[1..] == rest;
        }
    }
  }

  /** Empty nested mappings, however deep, do not change the flat table. */
  lemma FlatIgnoresEmptyMappings(input: Entries)
    ensures FlatObject(Prune(input)) == FlatObject(input)
  {
    PruneKeepsLeaves(input, []);
    FlatObjectIsInsert(input);
    FlatObjectIsInsert(Prune(input));
  }
}
