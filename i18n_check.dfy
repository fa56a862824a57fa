/**
 * The translation completeness check: every locale file is flattened to its
 * dotted leaf keys and compared with the English file; the run fails with
 * exit code 2 when some locale lacks an English key.
 */
module I18nCheck {
  import opened JsonTree

  /** The keys of `flatten(obj, prefix)`: one per leaf, objects recursed into. */
  function FlatKeys(m: map<string, Node>, prefix: string): set<string>
    decreases Obj(m), 1
  {
    set k, key | k in m && key in EntryKeys(m, prefix, k) :: key
  }

  /** The keys entry `k` of `m` contributes: its own when it is a leaf, its subtree's when it is an object. */
  function EntryKeys(m: map<string, Node>, prefix: string, k: string): set<string>
    requires k in m
    decreases Obj(m), 0
  {
    if m[k].Obj? then FlatKeys(m[k].children, JoinKey(prefix, k)) else {JoinKey(prefix, k)}
  }

  /** Every flattened key is the key of some leaf path. */
  lemma {:induction false} FlatKeysSound(m: map<string, Node>, prefix: string, key: string)
    requires key in FlatKeys(m, prefix)
    ensures exists path :: IsLeafAt(Obj(m), path) && FlatKeyFrom(prefix, path) == key
    decreases Obj(m)
  {
    var k :| k in m && key in EntryKeys(m, prefix, k);
    LookupCons(m, k, []);
    assert [k] + [] == [k];
    if m[k].Obj? {
      FlatKeysSound(m[k].children, JoinKey(prefix, k), key);
      var rest :| IsLeafAt(Obj(m[k].children), rest) && FlatKeyFrom(JoinKey(prefix, k), rest) == key;
      LookupCons(m, k, rest);
      assert ([k] + rest)[1..] == rest;
      assert IsLeafAt(Obj(m), [k] + rest);
    } else {
      assert IsLeafAt(Obj(m), [k]);
      assert FlatKeyFrom(prefix, [k]) == key by {
        assert [k][1..] == [];
      }
    }
  }

  /** Every leaf path gives a flattened key. */
  lemma {:induction false} FlatKeysComplete(m: map<string, Node>, prefix: string, path: seq<string>)
    requires IsLeafAt(Obj(m), path)
    ensures FlatKeyFrom(prefix, path) in FlatKeys(m, prefix)
    decreases Obj(m)
  {
    var k, rest := path[0], path[1..];
    assert path == [k] + rest;
    LookupCons(m, k, rest);
    assert FlatKeyFrom(prefix, path) == FlatKeyFrom(JoinKey(prefix, k), rest);
    if rest == [] {
      assert !m[k].Obj?;
      assert JoinKey(prefix, k) in EntryKeys(m, prefix, k);
    } else {
      FlatKeysComplete(m[k].children, JoinKey(prefix, k), rest);
      assert FlatKeyFrom(prefix, path) in EntryKeys(m, prefix, k);
    }
  }

  /** `flatten` keeps exactly one key per leaf path: both directions. */
  lemma FlatKeysExact(m: map<string, Node>, key: string)
    ensures key in FlatKeys(m, "") <==> exists path :: IsLeafAt(Obj(m), path) && FlatKeyFrom("", path) == key
  {
    if key in FlatKeys(m, "") {
      FlatKeysSound(m, "", key);
    }
    if path :| IsLeafAt(Obj(m), path) && FlatKeyFrom("", path) == key {
      FlatKeysComplete(m, "", path);
    }
  }

  /** What the check prints for one locale. */
  datatype Report = UpToDate(locale: string) | Outdated(locale: string, missing: set<string>, extra: set<string>)

  /** The report on one locale against the English flat keys. */
  function ReportOf(enKeys: set<string>, f: LocaleFile): Report {
    var flat := FlatKeys(TopObject(f.data), "");
    var missing := enKeys - flat;
    var extra := flat - enKeys;
    if missing == {} && extra == {} then UpToDate(LocaleName(f.name)) else Outdated(LocaleName(f.name), missing, extra)
  }

  /** A locale is reported up to date iff it has exactly the English flat keys. */
  lemma UpToDateIffSameKeys(enKeys: set<string>, f: LocaleFile)
    ensures ReportOf(enKeys, f).UpToDate? <==> FlatKeys(TopObject(f.data), "") == enKeys
  {
    var flat := FlatKeys(TopObject(f.data), "");
    if enKeys - flat == {} && flat - enKeys == {} {
      assert forall k :: k in flat <==> k in enKeys;
    }
  }

  /** `missing` lists exactly the English keys the locale lacks, `extra` exactly the locale keys English lacks. */
  lemma OutdatedLists(enKeys: set<string>, f: LocaleFile, key: string)
    requires ReportOf(enKeys, f).Outdated?
    ensures key in ReportOf(enKeys, f).missing <==> key in enKeys && key !in FlatKeys(TopObject(f.data), "")
    ensures key in ReportOf(enKeys, f).extra <==> key in FlatKeys(TopObject(f.data), "") && key !in enKeys
    ensures ReportOf(enKeys, f).missing != {} || ReportOf(enKeys, f).extra != {}
  {
  }

  /**
   * The report as the script computes it: `k in flat` and `k in enFlat` also
   * hold for a key the object inherits, so a flat key named like one is never
   * listed, whichever side lacks it.
   */
  function ReportAsWritten(enKeys: set<string>, f: LocaleFile): (r: Report)
    ensures r.UpToDate? <==> FlatKeys(TopObject(f.data), "") - PrototypeKeys == enKeys - PrototypeKeys
    ensures r.Outdated? ==> r.missing !! PrototypeKeys && r.extra !! PrototypeKeys
  {
    var flat := FlatKeys(TopObject(f.data), "");
    var missing := enKeys - flat - PrototypeKeys;
    var extra := flat - enKeys - PrototypeKeys;
    assert missing == {} && extra == {} <==> flat - PrototypeKeys == enKeys - PrototypeKeys by {
      if missing == {} && extra == {} {
        assert forall k :: k in flat - PrototypeKeys <==> k in enKeys - PrototypeKeys;
      }
      if flat - PrototypeKeys == enKeys - PrototypeKeys {
        forall k ensures k !in missing && k !in extra {
          assert k in flat - PrototypeKeys <==> k in enKeys - PrototypeKeys;
        }
      }
    }
    if missing == {} && extra == {} then UpToDate(LocaleName(f.name)) else Outdated(LocaleName(f.name), missing, extra)
  }

  /**
   * An English leaf named "constructor" that the French file lacks: the
   * model reports it missing, while the script, as written, finds it
   * inherited and calls the locale up to date.
   */
  lemma PrototypeKeyHidden()
    ensures var en := map["constructor" := Str("x")];
      var fr := LocaleFile("fr.json", Obj(map[]));
      && ReportOf(FlatKeys(en, ""), fr) == Outdated("fr", {"constructor"}, {})
      && ReportAsWritten(FlatKeys(en, ""), fr) == UpToDate("fr")
  {
    var en := map["constructor" := Str("x")];
    assert EntryKeys(en, "", "constructor") == {"constructor"};
    assert FlatKeys(en, "") == {"constructor"} by {
      forall key ensures key in FlatKeys(en, "") <==> key == "constructor" {
        if key == "constructor" {
          assert key in EntryKeys(en, "", "constructor");
        }
      }
    }
    var none: map<string, Node> := map[];
    assert FlatKeys(none, "") == {};
    assert "fr.json"[..2] == "fr";
  }

  /** The locale files that are compared: every JSON file but `en.json`. */
  predicate Compared(f: LocaleFile) {
    f.name != "en.json"
  }

  /** A compared locale lacks some English key. */
  predicate LacksKeys(enKeys: set<string>, f: LocaleFile) {
    Compared(f) && enKeys - FlatKeys(TopObject(f.data), "") != {}
  }

  /** The reports on `files`, in order, skipping `en.json`. */
  function Reports(enKeys: set<string>, files: seq<LocaleFile>): seq<Report> {
    if files == [] then []
    else
      var f := files[|files| - 1];
      Reports(enKeys, files[..|files| - 1]) + if Compared(f) then [ReportOf(enKeys, f)] else []
  }

  /**
   * The script's `main` over the directory listing. Without `en.json` it
   * stops with exit code 1; otherwise it reports on every other JSON file and
   * exits with 2 iff one of them lacks an English key (extra keys alone do
   * not fail), and with 0 otherwise.
   */
  method CheckLocales(files: seq<LocaleFile>) returns (exitCode: int, reports: seq<Report>)
    ensures var json := JsonFiles(files);
      && (exitCode == 1 <==> NoEnglish(json))
      && (exitCode == 1 ==> reports == [])
      && (exitCode != 1 ==>
            exists e :: English(json, e) && ChecksAgainst(json, FlatKeys(TopObject(json[e].data), ""), exitCode, reports))
  {
    var json := JsonFiles(files);
    var e := FindEnglish(json);
    if e == |json| {
      return 1, [];
    }
    var enKeys := FlatKeys(TopObject(json[e].data), "");
    var hadMissing;
    reports, hadMissing := ReportAll(enKeys, json);
    exitCode := if hadMissing then 2 else 0;
    EnglishWitness(json, e, exitCode, reports);
  }

  /** The first `en.json` of the listing is the English file the checks ran against. */
  lemma EnglishWitness(json: seq<LocaleFile>, e: int, exitCode: int, reports: seq<Report>)
    requires English(json, e)
    requires ChecksAgainst(json, FlatKeys(TopObject(json[e].data), ""), exitCode, reports)
    ensures exists e :: English(json, e) && ChecksAgainst(json, FlatKeys(TopObject(json[e].data), ""), exitCode, reports)
  {
  }

  /** The reports are those on `json`, and the exit code is 2 when some locale lacks an English key, 0 when none does. */
  predicate ChecksAgainst(json: seq<LocaleFile>, enKeys: set<string>, exitCode: int, reports: seq<Report>) {
    && reports == Reports(enKeys, json)
    && (exitCode == 2 <==> exists i :: 0 <= i < |json| && LacksKeys(enKeys, json[i]))
    && (exitCode == 0 <==> !exists i :: 0 <= i < |json| && LacksKeys(enKeys, json[i]))
  }

  /** The loop over the JSON files: one report per locale but English, and whether any lacked a key. */
  method ReportAll(enKeys: set<string>, json: seq<LocaleFile>) returns (reports: seq<Report>, hadMissing: bool)
    ensures reports == Reports(enKeys, json)
    ensures hadMissing <==> exists i :: 0 <= i < |json| && LacksKeys(enKeys, json[i])
  {
    hadMissing := false;
    reports := [];
    for i := 0 to |json|
      invariant reports == Reports(enKeys, json[..i])
      invariant hadMissing <==> exists j :: 0 <= j < i && LacksKeys(enKeys, json[j])
    {
      assert json[..i + 1][..i] == json[..i];
      var f := json[i];
      if f.name == "en.json" {
        continue;
      }
      var flat := FlatKeys(TopObject(f.data), "");
      var missing := enKeys - flat;
      var extra := flat - enKeys;
      if missing == {} && extra == {} {
        reports := reports + [UpToDate(LocaleName(f.name))];
        continue;
      }
      hadMissing := hadMissing || missing != {};
      reports := reports + [Outdated(LocaleName(f.name), missing, extra)];
    }
    assert json[..|json|] == json;
  }

  /** The example of the translation guide: French lacks `b.c` and has nothing extra. */
  lemma ExampleReport()
    ensures var en := map["a" := Str("1"), "b" := Obj(map["c" := Str("2")])];
      var fr := map["a" := Str("x")];
      ReportOf(FlatKeys(en, ""), LocaleFile("fr.json", Obj(fr))) == Outdated("fr", {"b.c"}, {})
  {
    var b := map["c" := Str("2")];
    var en := map["a" := Str("1"), "b" := Obj(b)];
    var fr := map["a" := Str("x")];
    assert JoinKey("b", "c") == "b.c";
    assert EntryKeys(b, "b", "c") == {"b.c"};
    assert FlatKeys(b, "b") == {"b.c"} by {
      forall key ensures key in FlatKeys(b, "b") <==> key == "b.c" {
        if key == "b.c" {
          assert key in EntryKeys(b, "b", "c");
        }
      }
    }
    assert EntryKeys(en, "", "a") == {"a"};
    assert EntryKeys(en, "", "b") == {"b.c"};
    assert FlatKeys(en, "") == {"a", "b.c"} by {
      forall key ensures key in FlatKeys(en, "") <==> key == "a" || key == "b.c" {
        if key == "a" {
          assert key in EntryKeys(en, "", "a");
        }
        if key == "b.c" {
          assert key in EntryKeys(en, "", "b");
        }
      }
    }
    assert EntryKeys(fr, "", "a") == {"a"};
    assert FlatKeys(fr, "") == {"a"} by {
      forall key ensures key in FlatKeys(fr, "") <==> key == "a" {
        if key == "a" {
          assert key in EntryKeys(fr, "", "a");
        }
      }
    }
    assert {"a", "b.c"} - {"a"} == {"b.c"};
    assert "fr.json"[..2] == "fr";
  }
}
