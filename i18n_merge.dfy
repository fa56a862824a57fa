/**
 * The message loader of the web app: the requested locale's messages are
 * merged over the English ones, English filling in whatever the locale lacks,
 * and the paths English had to fill in are recorded.
 */
module I18nMerge {
  import opened Wrappers
  import opened JsonTree

  // ---------------------------------------------------------------- specification

  /** Both sides hold an object at `k`, so the merge recurses there. */
  predicate Nested(b: map<string, Node>, o: map<string, Node>, k: string) {
    k in o && o[k].Obj? && k in b && b[k].Obj?
  }

  /** What `deepMergeWithFallback(base, override)` returns. */
  function Merged(b: map<string, Node>, o: map<string, Node>): map<string, Node>
    decreases Obj(o), 1
  {
    map k | k in b.Keys + o.Keys :: MergedEntry(b, o, k)
  }

  /**
   * Entry `k` of the merge: two objects are merged, any other override value
   * replaces the base (an override object over a base leaf, a leaf over a base
   * object), and a key the override lacks keeps the base value.
   */
  function MergedEntry(b: map<string, Node>, o: map<string, Node>, k: string): Node
    requires k in b.Keys + o.Keys
    decreases Obj(o), 0
  {
    if Nested(b, o, k) then Obj(Merged(b[k].children, o[k].children))
    else if k in o then o[k]
    else b[k]
  }

  /** The paths pushed onto `missing`: those below the override keys in `done`. */
  function MissingBelow(b: map<string, Node>, o: map<string, Node>, done: set<string>): set<seq<string>>
    requires done <= o.Keys
    decreases Obj(o), 1
  {
    set k, p | k in done && p in NestedMissing(b, o, k) :: [k] + p
  }

  /** The paths missing below override key `k`, relative to it. */
  function NestedMissing(b: map<string, Node>, o: map<string, Node>, k: string): set<seq<string>>
    requires k in o
    decreases Obj(o), 0
  {
    if Nested(b, o, k) then Missing(b[k].children, o[k].children) else {}
  }

  /** The paths pushed onto `missing` at this level: the base keys of `seen` the override lacks. */
  function MissingHere(b: map<string, Node>, o: map<string, Node>, seen: set<string>): set<seq<string>> {
    set k | k in seen && k in b && k !in o :: [k]
  }

  /** Every path pushed onto `missing` by `deepMergeWithFallback(base, override)`. */
  function Missing(b: map<string, Node>, o: map<string, Node>): set<seq<string>>
    decreases Obj(o), 2
  {
    MissingBelow(b, o, o.Keys) + MissingHere(b, o, b.Keys)
  }

  /**
   * The paths the loader, as written, records: its `key in override` also
   * holds for a key the override inherits, so a missing base key named like
   * one is never recorded (its base value is still kept).
   */
  function MissingAsWritten(b: map<string, Node>, o: map<string, Node>): (r: set<seq<string>>)
    ensures forall p :: p in r <==> p in Missing(b, o) && !EndsInPrototypeKey(p)
  {
    set p | p in Missing(b, o) && !EndsInPrototypeKey(p)
  }

  /**
   * An English key "constructor" and an empty override: the model records it
   * as missing, while the loader, as written, records nothing.
   */
  lemma PrototypeKeyNotRecorded()
    ensures var en := map["constructor" := Str("x")];
      Missing(en, map[]) == {["constructor"]} && MissingAsWritten(en, map[]) == {}
  {
    var en := map["constructor" := Str("x")];
    var none: map<string, Node> := map[];
    assert MissingBelow(en, none, {}) == {};
    assert MissingHere(en, none, en.Keys) == {["constructor"]};
    assert EndsInPrototypeKey(["constructor"]);
  }

  // ---------------------------------------------------------------- what the merge keeps

  /**
   * The override wins wherever it has a value, except where both sides have
   * an object: a leaf, or an object over a base non-object, comes through unchanged.
   */
  lemma {:induction false} OverrideWins(b: map<string, Node>, o: map<string, Node>, p: seq<string>)
    requires Lookup(Obj(o), p).Some?
    requires !(IsObjAt(Obj(o), p) && IsObjAt(Obj(b), p))
    ensures Lookup(Obj(Merged(b, o)), p) == Lookup(Obj(o), p)
    decreases Obj(o)
  {
    var k, rest := p[0], p[1..];
    assert p == [k] + rest;
    LookupCons(o, k, rest);
    LookupCons(b, k, rest);
    LookupCons(Merged(b, o), k, rest);
    if Nested(b, o, k) {
      assert Lookup(Obj(o), p) == Lookup(Obj(o[k].children), rest);
      OverrideWins(b[k].children, o[k].children, rest);
    }
  }

  /** A recorded path is one the override lacks, and the merge holds the whole base subtree there. */
  lemma {:induction false} MissingFallsBack(b: map<string, Node>, o: map<string, Node>, p: seq<string>)
    requires p in Missing(b, o)
    ensures Lookup(Obj(o), p).None? && Lookup(Obj(b), p).Some?
    ensures Lookup(Obj(Merged(b, o)), p) == Lookup(Obj(b), p)
    decreases Obj(o)
  {
    if p in MissingBelow(b, o, o.Keys) {
      var k, rest :| k in o && rest in NestedMissing(b, o, k) && p == [k] + rest;
      LookupCons(o, k, rest);
      LookupCons(b, k, rest);
      LookupCons(Merged(b, o), k, rest);
      MissingFallsBack(b[k].children, o[k].children, rest);
    } else {
      var k :| k in b && k !in o && p == [k];
      LookupCons(o, k, []);
      LookupCons(b, k, []);
      LookupCons(Merged(b, o), k, []);
    }
  }

  // ---------------------------------------------------------------- which paths are recorded

  /** A recorded path ends in a base key the override lacks, below objects both sides have. */
  lemma {:induction false} MissingSound(b: map<string, Node>, o: map<string, Node>, q: seq<string>, k: string)
    requires q + [k] in Missing(b, o)
    ensures IsObjAt(Obj(b), q) && IsObjAt(Obj(o), q)
    ensures k in Lookup(Obj(b), q).value.children && k !in Lookup(Obj(o), q).value.children
    decreases Obj(o)
  {
    var p := q + [k];
    if p in MissingBelow(b, o, o.Keys) {
      var j, rest :| j in o && rest in NestedMissing(b, o, j) && p == [j] + rest;
      assert rest != [] by {
        MissingFallsBack(b[j].children, o[j].children, rest);
      }
      assert p[..|p| - 1] == q && p[|p| - 1] == k;
      assert q == [j] + rest[..|rest| - 1] by {
        assert p[..|p| - 1] == ([j] + rest)[..|p| - 1] == [j] + rest[..|rest| - 1];
      }
      assert rest == rest[..|rest| - 1] + [k] by {
        assert rest[|rest| - 1] == p[|p| - 1];
      }
      MissingSound(b[j].children, o[j].children, rest[..|rest| - 1], k);
      LookupCons(o, j, rest[..|rest| - 1]);
      LookupCons(b, j, rest[..|rest| - 1]);
    } else {
      var j :| j in b && j !in o && p == [j];
      assert |q| == 0 && p[|q|] == k;
    }
  }

  /** Every base key the override lacks, below objects both sides have, is recorded. */
  lemma {:induction false} MissingComplete(b: map<string, Node>, o: map<string, Node>, q: seq<string>, k: string)
    requires IsObjAt(Obj(b), q) && IsObjAt(Obj(o), q)
    requires k in Lookup(Obj(b), q).value.children && k !in Lookup(Obj(o), q).value.children
    ensures q + [k] in Missing(b, o)
    decreases Obj(o)
  {
    if q == [] {
      assert [k] in MissingHere(b, o, b.Keys);
      assert q + [k] == [k];
    } else {
      var j, rest := q[0], q[1..];
      assert q == [j] + rest;
      LookupCons(o, j, rest);
      LookupCons(b, j, rest);
      assert Nested(b, o, j);
      MissingComplete(b[j].children, o[j].children, rest, k);
      assert q + [k] == [j] + (rest + [k]);
      assert rest + [k] in NestedMissing(b, o, j);
    }
  }

  /** `missing` is exactly the base keys the override lacks below objects both have: both directions. */
  lemma MissingExact(b: map<string, Node>, o: map<string, Node>, q: seq<string>, k: string)
    ensures q + [k] in Missing(b, o) <==>
      IsObjAt(Obj(b), q) && IsObjAt(Obj(o), q) &&
      k in Lookup(Obj(b), q).value.children && k !in Lookup(Obj(o), q).value.children
  {
    if q + [k] in Missing(b, o) {
      MissingSound(b, o, q, k);
    } else if IsObjAt(Obj(b), q) && IsObjAt(Obj(o), q) &&
      k in Lookup(Obj(b), q).value.children && k !in Lookup(Obj(o), q).value.children {
      MissingComplete(b, o, q, k);
    }
  }

  /** When a whole subtree is absent from the override only its root is recorded, none of its descendants. */
  lemma {:induction false} OnlySubtreeRoot(b: map<string, Node>, o: map<string, Node>, p: seq<string>, r: seq<string>)
    requires p in Missing(b, o) && r != []
    ensures p + r !in Missing(b, o)
    decreases Obj(o)
  {
    if p + r in Missing(b, o) {
      MissingFallsBack(b, o, p);
      var q, k := (p + r)[..|p + r| - 1], (p + r)[|p + r| - 1];
      assert q + [k] == p + r;
      MissingSound(b, o, q, k);
      assert q == p + r[..|r| - 1];
      LookupAppend(Obj(o), p, r[..|r| - 1]);
      assert false;
    }
  }

  /** Following `p + s` is following `p`, then `s`. */
  lemma {:induction false} LookupAppend(n: Node, p: seq<string>, s: seq<string>)
    ensures Lookup(n, p + s) == if Lookup(n, p).Some? then Lookup(Lookup(n, p).value, s) else None
  {
    if p != [] {
      assert (p + s)[0] == p[0] && (p + s)[1..] == p[1..] + s;
      if n.Obj? && p[0] in n.children {
        LookupAppend(n.children[p[0]], p[1..], s);
      }
    } else {
      assert p + s == s;
    }
  }

  // ---------------------------------------------------------------- English over English

  /** Merging a dictionary with itself gives it back and records nothing: the `en` locale never warns. */
  lemma {:induction false} MergeSelf(m: map<string, Node>)
    ensures Merged(m, m) == m
    ensures Missing(m, m) == {}
    decreases Obj(m)
  {
    forall k | k in m
      ensures MergedEntry(m, m, k) == m[k] && NestedMissing(m, m, k) == {}
    {
      if m[k].Obj? {
        MergeSelf(m[k].children);
      }
    }
    assert MissingBelow(m, m, m.Keys) == {};
    assert MissingHere(m, m, m.Keys) == {};
  }

  // ---------------------------------------------------------------- the merge

  /** The first loop's state once the override keys `done` are merged into the copy of the base. */
  predicate Overridden(b: map<string, Node>, o: map<string, Node>, path: seq<string>, done: set<string>,
                       out: map<string, Node>, missing: seq<seq<string>>)
  {
    && done <= o.Keys
    && out == MergeSome(b, o, done)
    && Elems(missing) == Under(path, MissingBelow(b, o, done))
    && NoDup(missing)
  }

  /** The copy of the base with the override keys `done` merged in. */
  function MergeSome(b: map<string, Node>, o: map<string, Node>, done: set<string>): map<string, Node>
    requires done <= o.Keys
  {
    map k | k in b.Keys + done :: if k in done then MergedEntry(b, o, k) else b[k]
  }

  /** The second loop's state once the base keys `seen` are checked against the override. */
  predicate FellBack(b: map<string, Node>, o: map<string, Node>, path: seq<string>, seen: set<string>,
                     missing: seq<seq<string>>)
  {
    && seen <= b.Keys
    && Elems(missing) == Under(path, MissingBelow(b, o, o.Keys) + MissingHere(b, o, seen))
    && NoDup(missing)
  }

  /** `{ ...base }` with nothing merged in and nothing recorded. */
  lemma OverrideStart(b: map<string, Node>, o: map<string, Node>, path: seq<string>)
    ensures Overridden(b, o, path, {}, b, [])
  {
    assert MergeSome(b, o, {}) == b;
  }

  /** After the first loop the copy is the merge, and the second loop starts from there. */
  lemma OverrideDone(b: map<string, Node>, o: map<string, Node>, path: seq<string>, out: map<string, Node>, missing: seq<seq<string>>)
    requires Overridden(b, o, path, o.Keys, out, missing)
    ensures out == Merged(b, o)
    ensures FellBack(b, o, path, {}, missing)
  {
    assert MergeSome(b, o, o.Keys) == Merged(b, o);
    assert MissingHere(b, o, {}) == {};
    assert MissingBelow(b, o, o.Keys) + {} == MissingBelow(b, o, o.Keys);
  }

  /** After the second loop every recorded path is there, each once. */
  lemma FellBackDone(b: map<string, Node>, o: map<string, Node>, path: seq<string>, missing: seq<seq<string>>)
    requires FellBack(b, o, path, b.Keys, missing)
    ensures Elems(missing) == Under(path, Missing(b, o)) && NoDup(missing)
  {
  }

  /** Merging one more override key changes that key only, and records the paths below it. */
  lemma OverrideStep(b: map<string, Node>, o: map<string, Node>, path: seq<string>, done: set<string>, key: string,
                     out: map<string, Node>, missing: seq<seq<string>>, more: seq<seq<string>>)
    requires key in o && key !in done
    requires Overridden(b, o, path, done, out, missing)
    requires Elems(more) == Under(path + [key], NestedMissing(b, o, key)) && NoDup(more)
    ensures Overridden(b, o, path, done + {key}, out[key := MergedEntry(b, o, key)], missing + more)
  {
    assert MergeSome(b, o, done + {key}) == MergeSome(b, o, done)[key := MergedEntry(b, o, key)];
    MissingBelowStep(b, o, path, done, key);
    var s := MissingBelow(b, o, done);
    forall y | y in more
      ensures |y| > |path| && y[|path|] == key
    {
      assert y in Elems(more);
      var p' :| p' in NestedMissing(b, o, key) && y == (path + [key]) + p';
    }
    forall x | x in missing
      ensures x !in more
    {
      assert x in Elems(missing);
      var r :| r in s && x == path + r;
      var k, p :| k in done && p in NestedMissing(b, o, k) && r == [k] + p;
      assert x[|path|] == k;
    }
    NoDupAppend(missing, more);
    assert Elems(missing + more) == Elems(missing) + Elems(more);
  }

  /** The paths below one more override key are those below it, each under that key. */
  lemma MissingBelowStep(b: map<string, Node>, o: map<string, Node>, path: seq<string>, done: set<string>, key: string)
    requires done <= o.Keys && key in o && key !in done
    ensures Under(path, MissingBelow(b, o, done + {key})) == Under(path, MissingBelow(b, o, done)) + Under(path + [key], NestedMissing(b, o, key))
  {
    var s := MissingBelow(b, o, done);
    var s' := MissingBelow(b, o, done + {key});
    forall q | q in Under(path, s')
      ensures q in Under(path, s) + Under(path + [key], NestedMissing(b, o, key))
    {
      var r :| r in s' && q == path + r;
      var k, p :| k in done + {key} && p in NestedMissing(b, o, k) && r == [k] + p;
      if k == key {
        assert q == (path + [key]) + p;
      } else {
        assert r in s;
      }
    }
    forall q | q in Under(path, s) + Under(path + [key], NestedMissing(b, o, key))
      ensures q in Under(path, s')
    {
      if q in Under(path, s) {
        var r :| r in s && q == path + r;
        var k, p :| k in done && p in NestedMissing(b, o, k) && r == [k] + p;
        assert r in s';
      } else {
        var p :| p in NestedMissing(b, o, key) && q == (path + [key]) + p;
        assert [key] + p in s';
        assert q == path + ([key] + p);
      }
    }
  }

  /** Checking one more base key records it when the override lacks it. */
  lemma FallBackStep(b: map<string, Node>, o: map<string, Node>, path: seq<string>, seen: set<string>, key: string,
                     missing: seq<seq<string>>)
    requires key in b && key !in seen
    requires FellBack(b, o, path, seen, missing)
    ensures key !in o ==> FellBack(b, o, path, seen + {key}, missing + [path + [key]])
    ensures key in o ==> FellBack(b, o, path, seen + {key}, missing)
  {
    var below := MissingBelow(b, o, o.Keys);
    if key !in o {
      assert MissingHere(b, o, seen + {key}) == MissingHere(b, o, seen) + {[key]};
      assert Under(path, below + MissingHere(b, o, seen + {key})) == Under(path, below + MissingHere(b, o, seen)) + {path + [key]};
      forall x | x in missing
        ensures x != path + [key]
      {
        assert x in Elems(missing);
        var r :| r in below + MissingHere(b, o, seen) && x == path + r;
        assert (path + [key])[|path|] == key;
        if r in below {
          var k, p :| k in o && p in NestedMissing(b, o, k) && r == [k] + p;
          assert x[|path|] == k;
        } else {
          var k :| k in seen && k in b && k !in o && r == [k];
          assert x[|path|] == k;
        }
      }
      NoDupAppend(missing, [path + [key]]);
      assert Elems(missing + [path + [key]]) == Elems(missing) + {path + [key]};
    } else {
      assert MissingHere(b, o, seen + {key}) == MissingHere(b, o, seen);
    }
  }

  /**
   * `deepMergeWithFallback(base, override, missing, path)`: a copy of the base
   * gets every override key (merged where both sides hold objects), then every
   * base key the override lacks is copied and its path recorded. The result
   * is the specification's merge, and the recorded paths are exactly the
   * missing ones, each once, below `path`.
   */
  method DeepMergeWithFallback(base: map<string, Node>, override: map<string, Node>, path: seq<string>)
    returns (out: map<string, Node>, missing: seq<seq<string>>)
    ensures out == Merged(base, override)
    ensures Elems(missing) == Under(path, Missing(base, override)) && NoDup(missing)
    decreases Obj(override)
  {
    out := base;
    missing := [];
    var done: set<string> := {};
    OverrideStart(base, override, path);
    while done != override.Keys
      invariant Overridden(base, override, path, done, out, missing)
      decreases override.Keys - done
    {
      assert exists k :: k in override.Keys && k !in done;
      var key :| key in override.Keys && key !in done;
      var more: seq<seq<string>> := [];
      if override[key].Obj? && key in base && base[key].Obj? {
        var sub;
        sub, more := DeepMergeWithFallback(base[key].children, override[key].children, path + [key]);
        OverrideStep(base, override, path, done, key, out, missing, more);
        out := out[key := Obj(sub)];
      } else {
        assert NestedMissing(base, override, key) == {};
        assert Elems(more) == {};
        OverrideStep(base, override, path, done, key, out, missing, more);
        out := out[key := override[key]];
      }
      missing := missing + more;
      done := done + {key};
    }
    OverrideDone(base, override, path, out, missing);
    var seen: set<string> := {};
    while seen != base.Keys
      invariant out == Merged(base, override)
      invariant FellBack(base, override, path, seen, missing)
      decreases base.Keys - seen
    {
      assert exists k :: k in base.Keys && k !in seen;
      var key :| key in base.Keys && key !in seen;
      FallBackStep(base, override, path, seen, key, missing);
      if key !in override {
        out := out[key := base[key]];
        missing := missing + [path + [key]];
      }
      seen := seen + {key};
    }
    FellBackDone(base, override, path, missing);
  }

  // ---------------------------------------------------------------- the request config

  /** `!locale || !routing.locales.includes(locale)`: an absent, empty or unsupported locale gives way to the default. */
  function ResolveLocale(requested: Option<string>, locales: seq<string>, defaultLocale: string): (locale: string)
    ensures defaultLocale in locales ==> locale in locales
    ensures locale == defaultLocale || (requested == Some(locale) && locale != "" && locale in locales)
  {
    if requested.None? || requested.value == "" || requested.value !in locales then defaultLocale else requested.value
  }

  /** A supported, non-empty request is honoured. */
  lemma SupportedLocaleKept(requested: string, locales: seq<string>, defaultLocale: string)
    requires requested != "" && requested in locales
    ensures ResolveLocale(Some(requested), locales, defaultLocale) == requested
  {
  }

  /** What the loader hands to the framework, and the keys its development warning lists. */
  datatype Config = Config(locale: string, messages: map<string, Node>, warned: bool, warning: seq<string>)

  /** `keys` lists the dotted form of every path of `ps`, one entry per path. */
  predicate Lists(keys: seq<string>, ps: set<seq<string>>) {
    && |keys| == |ps|
    && (forall p :: p in ps ==> Dotted(p) in keys)
    && (forall i :: 0 <= i < |keys| ==> exists p :: p in ps && keys[i] == Dotted(p))
  }

  /** `deepMergeWithFallback(enMessages, requestedMessages, missingKeys)` at the top level, with the recorded paths joined. */
  method MergeMessages(en: map<string, Node>, over: map<string, Node>) returns (merged: map<string, Node>, missingKeys: seq<string>)
    ensures merged == Merged(en, over)
    ensures Lists(missingKeys, Missing(en, over))
  {
    var paths;
    merged, paths := DeepMergeWithFallback(en, over, []);
    assert Under([], Missing(en, over)) == Missing(en, over) by {
      forall p: seq<string> ensures [] + p == p {}
    }
    missingKeys := seq(|paths|, i requires 0 <= i < |paths| => Dotted(paths[i]));
    DottedList(paths, Missing(en, over), missingKeys);
  }

  /**
   * The request config: the locale is resolved; English is loaded as the
   * base and, unless the locale is `en` itself, the locale's file as the
   * override (a locale without a file makes the dynamic import fail); the two
   * are merged, and outside production the missing keys are listed when there
   * are any.
   */
  method RequestConfig(requested: Option<string>, locales: seq<string>, defaultLocale: string,
                       en: map<string, Node>, catalog: map<string, Node>, nodeEnv: string)
    returns (r: Result<Config, string>)
    ensures var locale := ResolveLocale(requested, locales, defaultLocale);
      && (r.Err? <==> locale != "en" && locale !in catalog)
      && (r.Ok? ==>
            var over := if locale == "en" then en else TopObject(catalog[locale]);
            && r.value.locale == locale
            && r.value.messages == Merged(en, over)
            && (r.value.warned <==> nodeEnv != "production" && Missing(en, over) != {})
            && (r.value.warned ==> Lists(r.value.warning, Missing(en, over)))
            && (!r.value.warned ==> r.value.warning == []))
      && (r.Ok? && locale == "en" ==> r.value.messages == en && !r.value.warned)
  {
    var locale := ResolveLocale(requested, locales, defaultLocale);
    var over: map<string, Node>;
    if locale == "en" {
      over := en;
      MergeSelf(en);
    } else if locale in catalog {
      over := TopObject(catalog[locale]);
    } else {
      return Err("cannot load the messages of " + locale);
    }
    var merged, missingKeys := MergeMessages(en, over);
    var warned := nodeEnv != "production" && |missingKeys| > 0;
    r := Ok(Config(locale, merged, warned, if warned then missingKeys else []));
  }
}
