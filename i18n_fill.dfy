/**
 * The translation fill tool: every English leaf a locale lacks is copied into
 * it as a placeholder, and the locale file is rewritten when something was
 * added.
 */
module I18nFill {
  import opened Wrappers
  import opened JsonTree

  // ---------------------------------------------------------------- specification

  /** `String(v)` of an English leaf: a string stays, null becomes "null". */
  function Placeholder(n: Node): Node
    requires !n.Obj?
  {
    match n
    case Str(s) => Str(s)
    case Null => Str("null")
  }

  /** What `walk(e, t)` leaves in `t`. */
  function Fill(e: map<string, Node>, t: map<string, Node>): map<string, Node>
    decreases Obj(e), 1
  {
    map k | k in e.Keys + t.Keys :: FillEntry(e, t, k)
  }

  /**
   * Entry `k` after the walk: an English object is filled into the target's
   * object there, or into `{}` when the target holds anything else; an English
   * leaf keeps the target's value, or becomes a placeholder when the target has none.
   */
  function FillEntry(e: map<string, Node>, t: map<string, Node>, k: string): Node
    requires k in e.Keys + t.Keys
    decreases Obj(e), 0
  {
    if k in e && e[k].Obj? then Obj(Fill(e[k].children, ChildrenAt(t, k)))
    else if k in t then t[k]
    else Placeholder(e[k])
  }

  /** The key paths the walk pushes onto `added`. */
  function Added(e: map<string, Node>, t: map<string, Node>): set<seq<string>>
    decreases Obj(e), 1
  {
    set k, p | k in e && p in EntryAdded(e, t, k) :: [k] + p
  }

  /** The paths added below English key `k`, relative to it. */
  function EntryAdded(e: map<string, Node>, t: map<string, Node>, k: string): set<seq<string>>
    requires k in e
    decreases Obj(e), 0
  {
    if e[k].Obj? then Added(e[k].children, ChildrenAt(t, k))
    else if k in t then {}
    else {[]}
  }

  // ---------------------------------------------------------------- what the walk adds

  /** Every added path leads to an English leaf the target has nothing at. */
  lemma {:induction false} AddedSound(e: map<string, Node>, t: map<string, Node>, p: seq<string>)
    requires p in Added(e, t)
    ensures IsLeafAt(Obj(e), p) && Lookup(Obj(t), p).None?
    decreases Obj(e)
  {
    var k, rest :| k in e && rest in EntryAdded(e, t, k) && p == [k] + rest;
    LookupCons(e, k, rest);
    LookupCons(t, k, rest);
    if e[k].Obj? {
      AddedSound(e[k].children, ChildrenAt(t, k), rest);
      if k in t && t[k].Obj? {
        assert t[k] == Obj(ChildrenAt(t, k));
      } else if k in t && rest != [] {
        assert Lookup(t[k], rest).None?;
      }
    }
  }

  /** Every English leaf the target has nothing at is added. */
  lemma {:induction false} AddedComplete(e: map<string, Node>, t: map<string, Node>, p: seq<string>)
    requires IsLeafAt(Obj(e), p) && Lookup(Obj(t), p).None?
    ensures p in Added(e, t)
    decreases Obj(e)
  {
    var k, rest := p[0], p[1..];
    assert p == [k] + rest;
    LookupCons(e, k, rest);
    LookupCons(t, k, rest);
    if rest == [] {
      assert [] in EntryAdded(e, t, k);
    } else {
      assert e[k].Obj?;
      if k in t && t[k].Obj? {
        assert t[k] == Obj(ChildrenAt(t, k));
      } else {
        assert Lookup(Obj(ChildrenAt(t, k)), rest).None?;
      }
      AddedComplete(e[k].children, ChildrenAt(t, k), rest);
      assert rest in EntryAdded(e, t, k);
    }
  }

  /** `added` is exactly the English leaves the target lacks: both directions. */
  lemma AddedExact(e: map<string, Node>, t: map<string, Node>, p: seq<string>)
    ensures p in Added(e, t) <==> IsLeafAt(Obj(e), p) && Lookup(Obj(t), p).None?
  {
    if p in Added(e, t) {
      AddedSound(e, t, p);
    } else if IsLeafAt(Obj(e), p) && Lookup(Obj(t), p).None? {
      AddedComplete(e, t, p);
    }
  }

  // ---------------------------------------------------------------- what the walk leaves

  /** After the walk every English leaf path leads somewhere in the target. */
  lemma {:induction false} FillCovers(e: map<string, Node>, t: map<string, Node>, p: seq<string>)
    requires IsLeafAt(Obj(e), p)
    ensures Lookup(Obj(Fill(e, t)), p).Some?
    decreases Obj(e)
  {
    var k, rest := p[0], p[1..];
    assert p == [k] + rest;
    LookupCons(e, k, rest);
    LookupCons(Fill(e, t), k, rest);
    if rest != [] {
      FillCovers(e[k].children, ChildrenAt(t, k), rest);
    }
  }

  /** An added path holds the placeholder of its English leaf. */
  lemma {:induction false} FillAddsPlaceholder(e: map<string, Node>, t: map<string, Node>, p: seq<string>)
    requires p in Added(e, t)
    ensures IsLeafAt(Obj(e), p)
    ensures Lookup(Obj(Fill(e, t)), p) == Some(Placeholder(Lookup(Obj(e), p).value))
    decreases Obj(e)
  {
    AddedSound(e, t, p);
    var k, rest :| k in e && rest in EntryAdded(e, t, k) && p == [k] + rest;
    LookupCons(e, k, rest);
    LookupCons(Fill(e, t), k, rest);
    if e[k].Obj? {
      FillAddsPlaceholder(e[k].children, ChildrenAt(t, k), rest);
    }
  }

  /**
   * A target leaf is never overwritten, unless English has an object at that
   * very path (then the leaf gives way to `{}`, filled from English).
   */
  lemma {:induction false} FillKeepsLeaves(e: map<string, Node>, t: map<string, Node>, p: seq<string>)
    requires IsLeafAt(Obj(t), p) && !IsObjAt(Obj(e), p)
    ensures Lookup(Obj(Fill(e, t)), p) == Lookup(Obj(t), p)
    decreases Obj(e)
  {
    var k, rest := p[0], p[1..];
    assert p == [k] + rest;
    LookupCons(e, k, rest);
    LookupCons(t, k, rest);
    LookupCons(Fill(e, t), k, rest);
    if k in e && e[k].Obj? {
      assert t[k] == Obj(ChildrenAt(t, k));
      FillKeepsLeaves(e[k].children, ChildrenAt(t, k), rest);
    }
  }

  /** Where English has an object the filled target has one too, whatever the target held there. */
  lemma {:induction false} FillObjectsWhereEnglishHas(e: map<string, Node>, t: map<string, Node>, p: seq<string>)
    requires IsObjAt(Obj(e), p)
    ensures IsObjAt(Obj(Fill(e, t)), p)
    decreases Obj(e)
  {
    if p != [] {
      var k, rest := p[0], p[1..];
      assert p == [k] + rest;
      LookupCons(e, k, rest);
      LookupCons(Fill(e, t), k, rest);
      FillObjectsWhereEnglishHas(e[k].children, ChildrenAt(t, k), rest);
    }
  }

  // ---------------------------------------------------------------- idempotence

  /** Filling a filled target changes nothing. */
  lemma {:induction false} FillIdempotent(e: map<string, Node>, t: map<string, Node>)
    ensures Fill(e, Fill(e, t)) == Fill(e, t)
    decreases Obj(e)
  {
    var f := Fill(e, t);
    forall k | k in e.Keys + f.Keys
      ensures FillEntry(e, f, k) == f[k]
    {
      if k in e && e[k].Obj? {
        assert k in e.Keys + t.Keys;
        assert f[k] == FillEntry(e, t, k) == Obj(Fill(e[k].children, ChildrenAt(t, k)));
        assert ChildrenAt(f, k) == Fill(e[k].children, ChildrenAt(t, k));
        FillIdempotent(e[k].children, ChildrenAt(t, k));
      }
    }
  }

  /** Filling a filled target adds nothing. */
  lemma FillAddsNothingTwice(e: map<string, Node>, t: map<string, Node>)
    ensures Added(e, Fill(e, t)) == {}
  {
    forall p | p in Added(e, Fill(e, t))
      ensures false
    {
      AddedSound(e, Fill(e, t), p);
      FillCovers(e, t, p);
    }
  }

  /** The example of the translation guide: French `{"a":"x"}` gains `b.c` from English and keeps its own `a`. */
  lemma ExampleFill()
    ensures var en := map["a" := Str("1"), "b" := Obj(map["c" := Str("2")])];
      var fr := map["a" := Str("x")];
      && Fill(en, fr) == map["a" := Str("x"), "b" := Obj(map["c" := Str("2")])]
      && Added(en, fr) == {["b", "c"]}
  {
    var b := map["c" := Str("2")];
    var en := map["a" := Str("1"), "b" := Obj(b)];
    var fr := map["a" := Str("x")];
    assert ChildrenAt(fr, "b") == map[];
    assert Fill(b, map[]) == b by {
      assert FillEntry(b, map[], "c") == Str("2");
    }
    assert FillEntry(en, fr, "a") == Str("x");
    assert FillEntry(en, fr, "b") == Obj(b);
    assert Fill(en, fr) == map["a" := Str("x"), "b" := Obj(b)];
    assert EntryAdded(b, map[], "c") == {[]};
    assert Added(b, map[]) == {["c"]} by {
      forall p ensures p in Added(b, map[]) <==> p == ["c"] {
        if p == ["c"] {
          assert ["c"] == ["c"] + [];
        }
      }
    }
    assert EntryAdded(en, fr, "a") == {};
    assert EntryAdded(en, fr, "b") == {["c"]};
    assert Added(en, fr) == {["b", "c"]} by {
      forall p ensures p in Added(en, fr) <==> p == ["b", "c"] {
        if p == ["b", "c"] {
          assert p == ["b"] + ["c"];
        }
      }
    }
  }

  /**
   * The paths the script, as written, adds: its `key in t` also holds for a
   * key the target inherits, so an English leaf named like one is never
   * filled in. Objects are unaffected, because an inherited function is not
   * an object to `isObject` and is replaced by `{}`.
   */
  function AddedAsWritten(e: map<string, Node>, t: map<string, Node>): (r: set<seq<string>>)
    ensures forall p :: p in r <==> p in Added(e, t) && !EndsInPrototypeKey(p)
  {
    set p | p in Added(e, t) && !EndsInPrototypeKey(p)
  }

  /**
   * An English leaf named "constructor" and an empty target: the model adds
   * its placeholder, while the script, as written, adds nothing.
   */
  lemma PrototypeLeafNotFilled()
    ensures var en := map["constructor" := Str("x")];
      Added(en, map[]) == {["constructor"]} && AddedAsWritten(en, map[]) == {}
  {
    var en := map["constructor" := Str("x")];
    var none: map<string, Node> := map[];
    assert EntryAdded(en, none, "constructor") == {[]};
    assert Added(en, none) == {["constructor"]} by {
      forall p ensures p in Added(en, none) <==> p == ["constructor"] {
        if p == ["constructor"] {
          assert p == ["constructor"] + [];
        }
      }
    }
    assert EndsInPrototypeKey(["constructor"]);
  }

  // ---------------------------------------------------------------- the walk

  /** The target once the keys `done` of English have been walked. */
  function FillSome(e: map<string, Node>, t: map<string, Node>, done: set<string>): map<string, Node>
    requires done <= e.Keys
  {
    map k | k in t.Keys + done :: if k in done then FillEntry(e, t, k) else t[k]
  }

  /** The paths added once the keys `done` of English have been walked. */
  function AddedSome(e: map<string, Node>, t: map<string, Node>, done: set<string>): set<seq<string>>
    requires done <= e.Keys
  {
    set k, p | k in done && p in EntryAdded(e, t, k) :: [k] + p
  }

  /** Walking one more key changes that key only, and only from what the target held there. */
  lemma FillStep(e: map<string, Node>, t: map<string, Node>, done: set<string>, key: string)
    requires done <= e.Keys && key in e && key !in done
    ensures FillSome(e, t, done + {key}) == FillSome(e, t, done)[key := FillEntry(e, t, key)]
    ensures key in FillSome(e, t, done) <==> key in t
    ensures key in t ==> FillSome(e, t, done)[key] == t[key]
    ensures ChildrenAt(FillSome(e, t, done), key) == ChildrenAt(t, key)
  {
  }

  /** Walking one more key adds that key's paths, each below it. */
  lemma AddedStep(e: map<string, Node>, t: map<string, Node>, done: set<string>, key: string, path: seq<string>)
    requires done <= e.Keys && key in e && key !in done
    ensures Under(path, AddedSome(e, t, done + {key})) == Under(path, AddedSome(e, t, done)) + Under(path + [key], EntryAdded(e, t, key))
    ensures forall q :: q in Under(path, AddedSome(e, t, done)) ==> |q| > |path| && q[|path|] in done
    ensures forall q :: q in Under(path + [key], EntryAdded(e, t, key)) ==> |q| > |path| && q[|path|] == key
  {
    forall q | q in Under(path, AddedSome(e, t, done + {key}))
      ensures q in Under(path, AddedSome(e, t, done)) + Under(path + [key], EntryAdded(e, t, key))
    {
      var r :| r in AddedSome(e, t, done + {key}) && q == path + r;
      var k, p :| k in done + {key} && p in EntryAdded(e, t, k) && r == [k] + p;
      if k == key {
        assert q == (path + [key]) + p;
      }
    }
    forall q | q in Under(path + [key], EntryAdded(e, t, key))
      ensures q in Under(path, AddedSome(e, t, done + {key}))
    {
      var p :| p in EntryAdded(e, t, key) && q == (path + [key]) + p;
      assert [key] + p in AddedSome(e, t, done + {key});
      assert q == path + ([key] + p);
    }
    forall q | q in Under(path, AddedSome(e, t, done))
      ensures q in Under(path, AddedSome(e, t, done + {key})) && |q| > |path| && q[|path|] in done
    {
      var r :| r in AddedSome(e, t, done) && q == path + r;
      var k, p :| k in done && p in EntryAdded(e, t, k) && r == [k] + p;
      assert r in AddedSome(e, t, done + {key});
      assert q[|path|] == r[0] == k;
    }
    forall q | q in Under(path + [key], EntryAdded(e, t, key))
      ensures |q| > |path| && q[|path|] == key
    {
      var p :| p in EntryAdded(e, t, key) && q == (path + [key]) + p;
    }
  }

  /** Appending the paths recorded under one more key keeps the record exact and duplicate-free. */
  lemma AppendAdded(e: map<string, Node>, t: map<string, Node>, done: set<string>, key: string, path: seq<string>,
                    added: seq<seq<string>>, more: seq<seq<string>>)
    requires done <= e.Keys && key in e && key !in done
    requires Elems(added) == Under(path, AddedSome(e, t, done)) && NoDup(added)
    requires Elems(more) == Under(path + [key], EntryAdded(e, t, key)) && NoDup(more)
    ensures Elems(added + more) == Under(path, AddedSome(e, t, done + {key}))
    ensures NoDup(added + more)
  {
    AddedStep(e, t, done, key, path);
    forall x | x in added
      ensures x !in more
    {
      assert x in Elems(added);
    }
    NoDupAppend(added, more);
    assert Elems(added + more) == Elems(added) + Elems(more);
  }

  /** The walk's state once the English keys `done` are walked: the partial fill, and the added paths below `path`, each once. */
  predicate Walked(e: map<string, Node>, t: map<string, Node>, path: seq<string>, done: set<string>,
                   filled: map<string, Node>, added: seq<seq<string>>)
  {
    && done <= e.Keys
    && filled == FillSome(e, t, done)
    && Elems(added) == Under(path, AddedSome(e, t, done))
    && NoDup(added)
  }

  /** Before the first key nothing is walked. */
  lemma WalkStart(e: map<string, Node>, t: map<string, Node>, path: seq<string>)
    ensures Walked(e, t, path, {}, t, [])
  {
    assert FillSome(e, t, {}) == t;
  }

  /** Once every English key is walked, the partial fill and record are the whole ones. */
  lemma WalkedAll(e: map<string, Node>, t: map<string, Node>, path: seq<string>, filled: map<string, Node>, added: seq<seq<string>>)
    requires Walked(e, t, path, e.Keys, filled, added)
    ensures filled == Fill(e, t)
    ensures Elems(added) == Under(path, Added(e, t))
    ensures NoDup(added)
  {
    assert FillSome(e, t, e.Keys) == Fill(e, t);
    assert AddedSome(e, t, e.Keys) == Added(e, t);
  }

  /**
   * `walk(e, t, path)`: every English key is visited once, in some order; an
   * object is walked into (the target's object there, or a fresh `{}`), a leaf
   * the target lacks gets its placeholder and its path is recorded. The
   * result is the specification's fill, and the recorded paths are exactly
   * the added ones, each once.
   */
  method Walk(e: map<string, Node>, t: map<string, Node>, path: seq<string>) returns (filled: map<string, Node>, added: seq<seq<string>>)
    ensures filled == Fill(e, t)
    ensures Elems(added) == Under(path, Added(e, t))
    ensures NoDup(added)
    decreases Obj(e), 1
  {
    filled := t;
    added := [];
    var done: set<string> := {};
    WalkStart(e, t, path);
    while done != e.Keys
      invariant Walked(e, t, path, done, filled, added)
      decreases e.Keys - done
    {
      assert exists k :: k in e.Keys && k !in done;
      var key :| key in e.Keys && key !in done;
      filled, added := WalkKey(e, t, path, done, key, filled, added);
      done := done + {key};
    }
    WalkedAll(e, t, path, filled, added);
  }

  /** One turn of the walk's loop: English key `key`, with the keys `done` already walked. */
  method WalkKey(e: map<string, Node>, t: map<string, Node>, path: seq<string>, ghost done: set<string>, key: string,
                 filled: map<string, Node>, added: seq<seq<string>>)
    returns (filled': map<string, Node>, added': seq<seq<string>>)
    requires key in e && key !in done
    requires Walked(e, t, path, done, filled, added)
    ensures Walked(e, t, path, done + {key}, filled', added')
    decreases Obj(e), 0
  {
    FillStep(e, t, done, key);
    if e[key].Obj? {
      var sub, subAdded := Walk(e[key].children, ChildrenAt(filled, key), path + [key]);
      AppendAdded(e, t, done, key, path, added, subAdded);
      filled' := filled[key := Obj(sub)];
      added' := added + subAdded;
    } else if key !in filled {
      assert EntryAdded(e, t, key) == {[]};
      assert Under(path + [key], {[]}) == {path + [key]} by {
        assert (path + [key]) + [] == path + [key];
      }
      assert Elems([path + [key]]) == {path + [key]};
      AppendAdded(e, t, done, key, path, added, [path + [key]]);
      filled' := filled[key := Placeholder(e[key])];
      added' := added + [path + [key]];
    } else {
      assert EntryAdded(e, t, key) == {};
      assert Elems(added + []) == Elems(added);
      AppendAdded(e, t, done, key, path, added, []);
      filled', added' := filled, added;
    }
  }

  // ---------------------------------------------------------------- fillMissing and main

  /**
   * `fillMissing(en, target)`: a target that is not an object is replaced by
   * `{}`; the result is the fill, and `added` holds the dotted key of every
   * added path, one entry per path.
   */
  method FillMissing(en: map<string, Node>, target: Node) returns (filled: map<string, Node>, added: seq<string>)
    ensures filled == Fill(en, TopObject(target))
    ensures |added| == |Added(en, TopObject(target))|
    ensures forall p :: p in Added(en, TopObject(target)) ==> Dotted(p) in added
    ensures forall i :: 0 <= i < |added| ==> exists p :: p in Added(en, TopObject(target)) && added[i] == Dotted(p)
  {
    var t := TopObject(target);
    var paths;
    filled, paths := Walk(en, t, []);
    assert Under([], Added(en, t)) == Added(en, t) by {
      forall p: seq<string> ensures [] + p == p {}
    }
    added := seq(|paths|, i requires 0 <= i < |paths| => Dotted(paths[i]));
    DottedList(paths, Added(en, t), added);
  }

  /** What the fill prints for one locale: how many placeholders it added, or that none was missing. */
  datatype Note = Placeholders(locale: string, count: nat) | NoMissing(locale: string)

  /** The locale files that are filled: every JSON file but `en.json`. */
  predicate Filled(f: LocaleFile) {
    f.name != "en.json"
  }

  /** The note on one locale. */
  function NoteOf(en: map<string, Node>, f: LocaleFile): Note {
    var n := |Added(en, TopObject(f.data))|;
    if n > 0 then Placeholders(LocaleName(f.name), n) else NoMissing(LocaleName(f.name))
  }

  /** The file written for one locale, if any: only when something was added. */
  function WriteOf(en: map<string, Node>, f: LocaleFile): seq<LocaleFile> {
    if Added(en, TopObject(f.data)) != {} then [LocaleFile(f.name, Obj(Fill(en, TopObject(f.data))))] else []
  }

  /** The notes on `files`, in order, skipping `en.json`. */
  function Notes(en: map<string, Node>, files: seq<LocaleFile>): seq<Note> {
    if files == [] then []
    else
      var f := files[|files| - 1];
      Notes(en, files[..|files| - 1]) + if Filled(f) then [NoteOf(en, f)] else []
  }

  /** The files written for `files`, in order: never `en.json`, and a locale only when something was added to it. */
  function Writes(en: map<string, Node>, files: seq<LocaleFile>): (r: seq<LocaleFile>)
    ensures forall w :: w in r ==> w.name != "en.json"
  {
    if files == [] then []
    else
      var f := files[|files| - 1];
      Writes(en, files[..|files| - 1]) + if Filled(f) then WriteOf(en, f) else []
  }

  /**
   * `en.json` holds `null` and some other locale file is listed: the first
   * call of `fillMissing` then asks for `Object.keys(null)`, which throws.
   */
  predicate NullEnglishThrows(json: seq<LocaleFile>) {
    exists e :: 0 <= e < |json| && English(json, e) && json[e].data.Null? && exists i :: 0 <= i < |json| && Filled(json[i])
  }

  /**
   * The script's `main` over the directory listing: without `en.json` it stops
   * with exit code 1 and writes nothing; otherwise every other JSON file is
   * filled from English and rewritten when placeholders were added. A `null`
   * `en.json` makes the first walk throw before anything is written, which
   * the script's `catch` turns into exit code 1; a top-level string is read
   * as `{}`.
   */
  method FillLocales(files: seq<LocaleFile>) returns (exitCode: int, writes: seq<LocaleFile>, notes: seq<Note>)
    ensures var json := JsonFiles(files);
      && (exitCode == 1 <==> NoEnglish(json) || NullEnglishThrows(json))
      && (exitCode == 1 ==> writes == [] && notes == [])
      && (exitCode != 1 ==>
            exitCode == 0 && exists e :: English(json, e) && FillsFrom(json, TopObject(json[e].data), writes, notes))
  {
    var json := JsonFiles(files);
    var e := FindEnglish(json);
    if e == |json| {
      return 1, [], [];
    }
    assert forall e' :: English(json, e') ==> e' == e;
    if json[e].data.Null? && exists i :: 0 <= i < |json| && Filled(json[i]) {
      return 1, [], [];
    }
    var en := TopObject(json[e].data);
    writes, notes := FillAll(en, json);
    exitCode := 0;
    assert English(JsonFiles(files), e) && FillsFrom(json, TopObject(json[e].data), writes, notes);
  }

  /** The writes and notes are those of filling `json` from `en`. */
  predicate FillsFrom(json: seq<LocaleFile>, en: map<string, Node>, writes: seq<LocaleFile>, notes: seq<Note>) {
    writes == Writes(en, json) && notes == Notes(en, json)
  }

  /** The loop over the JSON files. */
  method FillAll(en: map<string, Node>, json: seq<LocaleFile>) returns (writes: seq<LocaleFile>, notes: seq<Note>)
    ensures writes == Writes(en, json)
    ensures notes == Notes(en, json)
  {
    writes := [];
    notes := [];
    for i := 0 to |json|
      invariant writes == Writes(en, json[..i])
      invariant notes == Notes(en, json[..i])
    {
      assert json[..i + 1][..i] == json[..i];
      var file := json[i];
      if file.name == "en.json" {
        continue;
      }
      var filled, added := FillMissing(en, file.data);
      if |added| > 0 {
        writes := writes + [LocaleFile(file.name, Obj(filled))];
        notes := notes + [Placeholders(LocaleName(file.name), |added|)];
      } else {
        notes := notes + [NoMissing(LocaleName(file.name))];
      }
    }
    assert json[..|json|] == json;
  }
}
