/**
 * A parsed locale file: nested JSON objects whose leaves are strings (or
 * null), and the two ways the translation tools turn a key path into a
 * dotted string.
 */
module JsonTree {
  import opened Wrappers

  /** A JSON value as it occurs in a locale file. */
  datatype Node = Str(text: string) | Null | Obj(children: map<string, Node>)

  /** The node reached by following `path` from `n` through objects, if there is one. */
  function Lookup(n: Node, path: seq<string>): Option<Node> {
    if path == [] then Some(n)
    else match n
      case Obj(m) => if path[0] in m then Lookup(m[path[0]], path[1..]) else None
      case _ => None
  }

  /** `path` leads from `n` to a leaf (a string or null). */
  predicate IsLeafAt(n: Node, path: seq<string>) {
    Lookup(n, path).Some? && !Lookup(n, path).value.Obj?
  }

  /** `path` leads from `n` to an object. */
  predicate IsObjAt(n: Node, path: seq<string>) {
    Lookup(n, path).Some? && Lookup(n, path).value.Obj?
  }

  /** The children of `m[k]` when it is an object, and no children otherwise. */
  function ChildrenAt(m: map<string, Node>, k: string): map<string, Node> {
    if k in m && m[k].Obj? then m[k].children else map[]
  }

  /** Following `[k] + path` is following `k`, then `path`. */
  lemma LookupCons(m: map<string, Node>, k: string, path: seq<string>)
    ensures Lookup(Obj(m), [k] + path) == if k in m then Lookup(m[k], path) else None
  {
    assert ([k] + path)[1..] == path;
  }

  /** Following a path one step further from where it ends. */
  lemma {:induction false} LookupSnoc(n: Node, path: seq<string>, k: string)
    ensures Lookup(n, path + [k]) ==
      if IsObjAt(n, path) && k in Lookup(n, path).value.children then Some(Lookup(n, path).value.children[k]) else None
  {
    if path != [] {
      assert (path + [k])[0] == path[0] && (path + [k])[1..] == path[1..] + [k];
      if n.Obj? && path[0] in n.children {
        LookupSnoc(n.children[path[0]], path[1..], k);
      }
    } else {
      assert [k][1..] == [];
    }
  }

  /** `[...path].join('.')`. */
  function Dotted(path: seq<string>): string {
    if path == [] then ""
    else if |path| == 1 then path[0]
    else Dotted(path[..|path| - 1]) + "." + path[|path| - 1]
  }

  /** One step of `flatten`'s key: `prefix ? `${prefix}.${k}` : k`; an empty prefix is falsy. */
  function JoinKey(prefix: string, k: string): string {
    if prefix == "" then k else prefix + "." + k
  }

  /** The key `flatten` builds for `path` when it starts from `prefix`. */
  function FlatKeyFrom(prefix: string, path: seq<string>): string
    decreases |path|
  {
    if path == [] then prefix else FlatKeyFrom(JoinKey(prefix, path[0]), path[1..])
  }

  /** With no empty key along the way, extending a dotted prefix by a path is dotting the whole path. */
  lemma {:induction false} FlatKeyFromDotted(prefix: seq<string>, path: seq<string>)
    requires forall i :: 0 <= i < |prefix| ==> prefix[i] != ""
    requires forall i :: 0 <= i < |path| ==> path[i] != ""
    ensures FlatKeyFrom(Dotted(prefix), path) == Dotted(prefix + path)
    decreases |path|
  {
    if path != [] {
      var next := prefix + [path[0]];
      var rest := path[1..];
      assert forall i :: 0 <= i < |next| ==> next[i] != "";
      assert forall i :: 0 <= i < |rest| ==> rest[i] != "";
      calc {
        FlatKeyFrom(Dotted(prefix), path);
        FlatKeyFrom(JoinKey(Dotted(prefix), path[0]), rest);
        { DottedSnoc(prefix, path[0]); }
        FlatKeyFrom(Dotted(next), rest);
        { FlatKeyFromDotted(next, rest); }
        Dotted(next + rest);
        { assert next + rest == prefix + path; }
        Dotted(prefix + path);
      }
    } else {
      assert prefix + path == prefix;
    }
  }

  /** Dotting one more key onto a path whose first key is not empty. */
  lemma DottedSnoc(prefix: seq<string>, k: string)
    requires prefix != [] ==> prefix[0] != ""
    ensures Dotted(prefix + [k]) == JoinKey(Dotted(prefix), k)
  {
    var next := prefix + [k];
    assert next[..|next| - 1] == prefix && next[|next| - 1] == k;
    if prefix != [] {
      DottedNonEmpty(prefix);
    }
  }

  /** A dotted path whose first key is not empty is not empty. */
  lemma {:induction false} DottedNonEmpty(path: seq<string>)
    requires path != [] && path[0] != ""
    ensures Dotted(path) != ""
  {
    if |path| > 1 {
      assert path[..|path| - 1][0] == path[0];
      DottedNonEmpty(path[..|path| - 1]);
    }
  }

  /** `flatten` and `join('.')` build the same key for a path with no empty key. */
  lemma FlatKeyIsDotted(path: seq<string>)
    requires forall i :: 0 <= i < |path| ==> path[i] != ""
    ensures FlatKeyFrom("", path) == Dotted(path)
  {
    FlatKeyFromDotted([], path);
    assert [] + path == path;
  }

  /** An empty first key is where the two disagree: `flatten` drops the dot that `join('.')` keeps. */
  lemma EmptyKeyDiffers()
    ensures FlatKeyFrom("", ["", "b"]) == "b"
    ensures Dotted(["", "b"]) == ".b"
  {
    assert ["", "b"][..1] == [""];
  }

  /**
   * The properties a plain JavaScript object inherits from `Object.prototype`.
   * JavaScript's `key in obj` holds for each of them even when `obj` has no
   * own property of that name.
   */
  const PrototypeKeys: set<string> := {
    "constructor", "hasOwnProperty", "isPrototypeOf", "propertyIsEnumerable", "toLocaleString", "toString",
    "valueOf", "__proto__", "__defineGetter__", "__defineSetter__", "__lookupGetter__", "__lookupSetter__"}

  /** The last key of the path is named like an inherited property. */
  predicate EndsInPrototypeKey(p: seq<string>) {
    |p| > 0 && p[|p| - 1] in PrototypeKeys
  }

  /** A file of the locales directory with the JSON it parses to. */
  datatype LocaleFile = LocaleFile(name: string, data: Node)

  /** The top-level object of a parsed file; `null` (and, here, a bare string) counts as `{}`. */
  function TopObject(n: Node): map<string, Node> {
    if n.Obj? then n.children else map[]
  }

  predicate EndsWith(s: string, suffix: string) {
    |suffix| <= |s| && s[|s| - |suffix|..] == suffix
  }

  /**
   * `path.basename(file, '.json')` of a directory entry (a name without a
   * slash): a trailing ".json" is removed, and a file named just ".json"
   * gives "".
   */
  function LocaleName(file: string): (r: string)
    ensures EndsWith(file, ".json") ==> r + ".json" == file
    ensures !EndsWith(file, ".json") ==> r == file
  {
    if EndsWith(file, ".json") then file[..|file| - 5] else file
  }

  /** The locale name of "fr.json" is "fr", and that of ".json" is empty. */
  lemma LocaleNameExamples()
    ensures LocaleName("fr.json") == "fr" && LocaleName(".json") == ""
  {
    assert EndsWith("fr.json", ".json");
    assert EndsWith(".json", ".json");
  }

  /** `files.filter(f => f.endsWith('.json'))`, in directory order. */
  function JsonFiles(files: seq<LocaleFile>): (r: seq<LocaleFile>)
    ensures forall i :: 0 <= i < |r| ==> EndsWith(r[i].name, ".json")
    ensures forall f :: f in r <==> f in files && EndsWith(f.name, ".json")
  {
    if files == [] then []
    else JsonFiles(files[..|files| - 1]) + if EndsWith(files[|files| - 1].name, ".json") then [files[|files| - 1]] else []
  }

  /** `en.json` is at index `e` of the listing, and at no earlier one. */
  predicate English(json: seq<LocaleFile>, e: int) {
    0 <= e < |json| && json[e].name == "en.json" && forall i :: 0 <= i < e ==> json[i].name != "en.json"
  }

  /** No file of the listing is `en.json`. */
  predicate NoEnglish(json: seq<LocaleFile>) {
    forall i :: 0 <= i < |json| ==> json[i].name != "en.json"
  }

  /** The scripts' search for `en.json`: its first index, or the length of the listing when there is none. */
  method FindEnglish(json: seq<LocaleFile>) returns (e: int)
    ensures e == |json| <==> NoEnglish(json)
    ensures e != |json| ==> English(json, e)
  {
    e := 0;
    while e < |json| && json[e].name != "en.json"
      invariant 0 <= e <= |json|
      invariant forall i :: 0 <= i < e ==> json[i].name != "en.json"
    {
      e := e + 1;
    }
  }

  // ---------------------------------------------------------------- recorded key paths

  /** The elements of a sequence. */
  function Elems<T>(s: seq<T>): set<T> {
    set x | x in s
  }

  /** No element occurs twice. */
  predicate NoDup<T(==)>(s: seq<T>) {
    forall i, j :: 0 <= i < j < |s| ==> s[i] != s[j]
  }

  /** The paths of `ps`, each below `path`. */
  function Under(path: seq<string>, ps: set<seq<string>>): set<seq<string>> {
    set p | p in ps :: path + p
  }

  /** Two duplicate-free sequences with no element in common concatenate to a duplicate-free one. */
  lemma NoDupAppend<T>(a: seq<T>, b: seq<T>)
    requires NoDup(a) && NoDup(b)
    requires forall x :: x in a ==> x !in b
    ensures NoDup(a + b)
  {
    forall i, j | 0 <= i < j < |a + b|
      ensures (a + b)[i] != (a + b)[j]
    {
      if i < |a| && j >= |a| {
        assert (a + b)[i] in a && (a + b)[j] == b[j - |a|];
      }
    }
  }

  /** A duplicate-free sequence has as many elements as its set. */
  lemma {:induction false} NoDupCard<T>(s: seq<T>)
    requires NoDup(s)
    ensures |Elems(s)| == |s|
  {
    if s != [] {
      var init := s[..|s| - 1];
      assert NoDup(init);
      NoDupCard(init);
      assert Elems(s) == Elems(init) + {s[|s| - 1]};
      assert s[|s| - 1] !in Elems(init);
    }
  }

  /** Joining every path of a duplicate-free listing of `ps` lists the joined paths of `ps`, one per path. */
  lemma DottedList(paths: seq<seq<string>>, ps: set<seq<string>>, added: seq<string>)
    requires Elems(paths) == ps && NoDup(paths)
    requires |added| == |paths| && forall i :: 0 <= i < |paths| ==> added[i] == Dotted(paths[i])
    ensures |added| == |ps|
    ensures forall p :: p in ps ==> Dotted(p) in added
    ensures forall i :: 0 <= i < |added| ==> exists p :: p in ps && added[i] == Dotted(p)
  {
    NoDupCard(paths);
    forall p | p in ps
      ensures Dotted(p) in added
    {
      assert p in Elems(paths);
      var i :| 0 <= i < |paths| && paths[i] == p;
      assert added[i] == Dotted(p);
    }
    forall i | 0 <= i < |added|
      ensures exists p :: p in ps && added[i] == Dotted(p)
    {
      assert paths[i] in Elems(paths);
    }
  }
}
