/** Nested settings read and written along dotted paths (`Config.get` and `Config.set` in
    src/utils/config.py), without the file that `set` saves to. */
module Settings {
  import opened Wrappers
  import opened DottedKeys

  /** A JSON value of the configuration. Tuples, as the font entries are, become `Items`. */
  datatype Value =
    | Dict(entries: map<string, Value>)
    | Text(text: string)
    | Number(number: int)
    | Flag(flag: bool)
    | Items(items: seq<Value>)
    | Null

  type Config = map<string, Value>

  /** The value reached by following `path` from `v`: each step needs a dictionary holding the
      segment. Indexing a missing key raises KeyError and indexing anything else raises TypeError;
      both end in `None`. */
  function Lookup(v: Value, path: seq<string>): (r: Option<Value>)
    ensures |path| == 0 ==> r == Some(v)
    ensures |path| > 0 && (!v.Dict? || path[0] !in v.entries) ==> r == None
    decreases |path|
  {
    if |path| == 0 then Some(v)
    else match v
      case Dict(m) => if path[0] in m then Lookup(m[path[0]], path[1..]) else None
      case _ => None
  }

  /** Following `p + q` is following `p`, then `q` from where `p` ended. */
  lemma {:induction false} LookupAppend(v: Value, p: seq<string>, q: seq<string>)
    ensures Lookup(v, p + q) == match Lookup(v, p) case None => None case Some(w) => Lookup(w, q)
    decreases |p|
  {
    if |p| == 0 {
      assert p + q == q;
    } else {
      assert (p + q)[0] == p[0];
      assert (p + q)[1..] == p[1..] + q;
      if v.Dict? && p[0] in v.entries {
        LookupAppend(v.entries[p[0]], p[1..], q);
      }
    }
  }

  /** `get`: the value at the dotted `key`, or `default` when a segment is missing or an
      intermediate value is not a dictionary. */
  function Get(config: Config, key: string, default: Value := Null): (r: Value)
    ensures Lookup(Dict(config), Split(key)).Some? ==> r == Lookup(Dict(config), Split(key)).value
    ensures Lookup(Dict(config), Split(key)).None? ==> r == default
  {
    Lookup(Dict(config), Split(key)).GetOr(default)
  }

  /** The TypeError `set` raises when the path runs into a value that is not a dictionary. */
  datatype SettingsError = NotADictionary(segment: string)

  /** The nested dictionaries `set` builds below a missing segment: `path` leading to `v`. */
  function Chain(path: seq<string>, v: Value): (r: Value)
    ensures Lookup(r, path) == Some(v)
    decreases |path|
  {
    if |path| == 0 then v else Dict(map[path[0] := Chain(path[1..], v)])
  }

  /** Writes `v` at `path` below the dictionary `m`: a missing intermediate segment gets a new empty
      dictionary, an existing one must be a dictionary (otherwise the assignment raises, before
      anything has been changed), and the last segment is assigned. Only the first segment's entry
      of `m` changes. */
  function SetPath(m: Config, path: seq<string>, v: Value): (r: Result<Config, SettingsError>)
    requires |path| >= 1
    ensures r.Success? ==> r.value.Keys == m.Keys + {path[0]}
    ensures r.Success? ==> forall k :: k in m && k != path[0] ==> r.value[k] == m[k]
    ensures r.Success? ==> Lookup(Dict(r.value), path) == Some(v)
    decreases |path|
  {
    var k := path[0];
    if |path| == 1 then Success(m[k := v])
    else if k !in m then
      match SetPath(map[], path[1..], v)
      case Success(sub) => Success(m[k := Dict(sub)])
      case Failure(e) => Failure(e)
    else match m[k]
      case Dict(inner) =>
        (match SetPath(inner, path[1..], v)
         case Success(sub) => Success(m[k := Dict(sub)])
         case Failure(e) => Failure(e))
      case _ => Failure(NotADictionary(k))
  }

  /** `set`: writes `v` at the dotted `key`. */
  function Set(config: Config, key: string, v: Value): (r: Result<Config, SettingsError>)
    ensures r.Success? ==> Get(r.value, key, Null) == v
    ensures r.Success? ==> forall k :: k in config && k != Split(key)[0] ==> k in r.value && r.value[k] == config[k]
  {
    SetPath(config, Split(key), v)
  }

  /** After a successful `set`, `get` of the same key returns the value written, whatever the default. */
  lemma GetAfterSet(config: Config, key: string, v: Value, default: Value)
    requires Set(config, key, v).Success?
    ensures Get(Set(config, key, v).value, key, default) == v
  {
  }

  /** A key without a dot is written directly into the top-level dictionary. */
  lemma SingleSegmentSet(config: Config, key: string, v: Value)
    requires Dot !in key
    ensures Set(config, key, v) == Success(config[key := v])
  {
    SplitSegment(key);
  }

  /** Writing into an empty dictionary builds the chain of new dictionaries down to the value. */
  lemma {:induction false} SetIntoEmpty(path: seq<string>, v: Value)
    requires |path| >= 1
    ensures SetPath(map[], path, v) == Success(map[path[0] := Chain(path[1..], v)])
    decreases |path|
  {
    if |path| > 1 {
      SetIntoEmpty(path[1..], v);
      assert path[1..][1..] == path[2..];
    }
  }

  /** `p` and `q` part ways: at some position both have a segment and the segments differ. */
  ghost predicate Diverge(p: seq<string>, q: seq<string>)
    decreases |p|
  {
    |p| > 0 && |q| > 0 && (p[0] != q[0] || Diverge(p[1..], q[1..]))
  }

  /** `set` changes nothing off its path: any path that parts ways with it reads the same before and
      after, at every depth (sibling keys included). */
  lemma {:induction false} SetFrame(m: Config, p: seq<string>, v: Value, q: seq<string>)
    requires |p| >= 1
    requires SetPath(m, p, v).Success?
    requires Diverge(p, q)
    ensures Lookup(Dict(SetPath(m, p, v).value), q) == Lookup(Dict(m), q)
    decreases |p|
  {
    var m' := SetPath(m, p, v).value;
    var k := p[0];
    if q[0] != k {
    } else {
      assert |p| > 1;
      if k !in m {
        SetIntoEmpty(p[1..], v);
        ChainDiverge(p[2..], v, q[1..], p[1]);
      } else {
        var inner := m[k].entries;
        SetFrame(inner, p[1..], v, q[1..]);
      }
    }
  }

  /** A freshly built chain holds nothing off its own path. */
  lemma {:induction false} ChainDiverge(path: seq<string>, v: Value, q: seq<string>, head: string)
    requires Diverge([head] + path, q)
    ensures Lookup(Dict(map[head := Chain(path, v)]), q) == None
    decreases |path|
  {
    var p := [head] + path;
    assert p[1..] == path;
    if q[0] == head {
      assert Diverge(path, q[1..]);
      assert [path[0]] + path[1..] == path;
      ChainDiverge(path[1..], v, q[1..], path[0]);
    }
  }

  /** Below the written path, `get` sees the written value. */
  lemma BelowSetPath(m: Config, p: seq<string>, v: Value, q: seq<string>)
    requires |p| >= 1
    requires SetPath(m, p, v).Success?
    ensures Lookup(Dict(SetPath(m, p, v).value), p + q) == Lookup(v, q)
  {
    LookupAppend(Dict(SetPath(m, p, v).value), p, q);
  }

  /** A prefix of the path that was missing before the write now holds the new chain of
      dictionaries leading to the value. */
  lemma {:induction false} SetCreatesMissing(m: Config, p: seq<string>, v: Value, j: nat)
    requires |p| >= 1 && 1 <= j < |p|
    requires SetPath(m, p, v).Success?
    requires Lookup(Dict(m), p[..j]).None?
    ensures Lookup(Dict(SetPath(m, p, v).value), p[..j]) == Some(Chain(p[j..], v))
    decreases |p|
  {
    var k := p[0];
    var m' := SetPath(m, p, v).value;
    assert p[..j][0] == k && p[..j][1..] == p[1..][..j - 1];
    if k !in m {
      SetIntoEmpty(p[1..], v);
      ChainPrefix(p[1..], v, j - 1);
      assert p[1..][j - 1..] == p[j..];
    } else {
      var inner := m[k].entries;
      assert p[..1] == [k];
      assert j > 1;
      SetCreatesMissing(inner, p[1..], v, j - 1);
      assert p[1..][j - 1..] == p[j..];
    }
  }

  /** Following part of a chain's path leads to the rest of the chain. */
  lemma {:induction false} ChainPrefix(path: seq<string>, v: Value, j: nat)
    requires j <= |path|
    ensures Lookup(Chain(path, v), path[..j]) == Some(Chain(path[j..], v))
    decreases j
  {
    if j > 0 {
      ChainPrefix(path[1..], v, j - 1);
      assert path[..j][1..] == path[1..][..j - 1];
      assert path[1..][j - 1..] == path[j..];
    }
  }

  /** The path is blocked at depth `j` when the value found there exists but is not a dictionary. */
  ghost predicate BlockedAt(m: Config, p: seq<string>, j: int)
    requires 0 <= j <= |p|
  {
    var found := Lookup(Dict(m), p[..j]);
    found.Some? && !found.value.Dict?
  }

  /** `set` fails exactly when some existing intermediate value on the path is not a dictionary. */
  lemma {:induction false} SetFailsIffBlocked(m: Config, p: seq<string>, v: Value)
    requires |p| >= 1
    ensures SetPath(m, p, v).Failure? <==> exists j :: 1 <= j < |p| && BlockedAt(m, p, j)
    decreases |p|
  {
    var k := p[0];
    if |p| == 1 {
    } else if k !in m {
      SetIntoEmpty(p[1..], v);
      forall j | 1 <= j < |p| ensures !BlockedAt(m, p, j) {
        assert p[..j][0] == k;
      }
    } else if !m[k].Dict? {
      assert p[..1] == [k];
      assert BlockedAt(m, p, 1);
    } else {
      var inner := m[k].entries;
      SetFailsIffBlocked(inner, p[1..], v);
      forall j | 2 <= j < |p| ensures BlockedAt(m, p, j) <==> BlockedAt(inner, p[1..], j - 1) {
        assert p[..j][0] == k && p[..j][1..] == p[1..][..j - 1];
      }
      assert !BlockedAt(m, p, 1) by {
        assert p[..1] == [k];
      }
      if SetPath(m, p, v).Failure? {
        var i :| 1 <= i < |p[1..]| && BlockedAt(inner, p[1..], i);
        assert BlockedAt(m, p, i + 1);
      }
      if exists j :: 1 <= j < |p| && BlockedAt(m, p, j) {
        var j :| 1 <= j < |p| && BlockedAt(m, p, j);
        assert BlockedAt(inner, p[1..], j - 1);
      }
    }
  }

  /** The walk gets stuck at depth `j`: it reached a value there, but that value is not a dictionary
      holding the next segment. */
  ghost predicate StuckAt(v: Value, p: seq<string>, j: int)
    requires 0 <= j < |p|
  {
    var found := Lookup(v, p[..j]);
    found.Some? && (!found.value.Dict? || p[j] !in found.value.entries)
  }

  /** `get` falls back to the default exactly when the walk gets stuck somewhere along the path. */
  lemma {:induction false} LookupFailsIffStuck(v: Value, p: seq<string>)
    ensures Lookup(v, p).None? <==> exists j :: 0 <= j < |p| && StuckAt(v, p, j)
    decreases |p|
  {
    if |p| > 0 {
      assert p[..0] == [];
      if v.Dict? && p[0] in v.entries {
        var w := v.entries[p[0]];
        LookupFailsIffStuck(w, p[1..]);
        forall j | 1 <= j < |p| ensures StuckAt(v, p, j) <==> StuckAt(w, p[1..], j - 1) {
          assert p[..j][0] == p[0] && p[..j][1..] == p[1..][..j - 1];
        }
        if Lookup(v, p).None? {
          var i :| 0 <= i < |p[1..]| && StuckAt(w, p[1..], i);
          assert StuckAt(v, p, i + 1);
        }
        if exists j :: 0 <= j < |p| && StuckAt(v, p, j) {
          var j :| 0 <= j < |p| && StuckAt(v, p, j);
          assert !StuckAt(v, p, 0);
          assert StuckAt(w, p[1..], j - 1);
        }
      } else {
        assert StuckAt(v, p, 0);
      }
    }
  }

  /** The settings `load_config` falls back to when there is no configuration file. */
  function DefaultConfig(): (c: Config)
    ensures c.Keys == {"theme", "sound_enabled", "voice_enabled", "difficulty", "colors", "fonts",
                       "game_settings", "lessons"}
    ensures c["colors"].Dict? && c["fonts"].Dict? && c["game_settings"].Dict? && c["lessons"].Dict?
    ensures !c["theme"].Dict? && !c["difficulty"].Dict?
  {
    map[
      "theme" := Text("dieren"),
      "sound_enabled" := Flag(true),
      "voice_enabled" := Flag(true),
      "difficulty" := Text("beginner"),
      "colors" := Dict(map[
        "primary" := Text("#4CAF50"), "secondary" := Text("#2196F3"), "accent" := Text("#FF9800"),
        "success" := Text("#4CAF50"), "error" := Text("#F44336"), "warning" := Text("#FF9800"),
        "background" := Text("#F5F5F5"), "text" := Text("#212121")]),
      "fonts" := Dict(map[
        "title" := Items([Text("Comic Sans MS"), Number(24), Text("bold")]),
        "heading" := Items([Text("Comic Sans MS"), Number(18), Text("bold")]),
        "body" := Items([Text("Comic Sans MS"), Number(14)]),
        "button" := Items([Text("Comic Sans MS"), Number(12), Text("bold")])]),
      "game_settings" := Dict(map[
        "typing_speed_target" := Number(30), "accuracy_target" := Number(95),
        "max_errors" := Number(3), "reward_points" := Number(10)]),
      "lessons" := Dict(map[
        "letters_per_lesson" := Number(5), "words_per_lesson" := Number(10),
        "sentences_per_lesson" := Number(3)])
    ]
  }

  /** A two-level key `a.b` reaches the entry `b` of the dictionary stored under `a`. */
  lemma GetTwoLevels(config: Config, a: string, b: string, default: Value)
    requires IsSegment(a) && IsSegment(b)
    requires a in config && config[a].Dict? && b in config[a].entries
    ensures Get(config, a + [Dot] + b, default) == config[a].entries[b]
  {
    var parts := [a, b];
    assert Join(parts) == a + [Dot] + b;
    SplitJoin(parts);
    assert Lookup(Dict(config), parts) == Lookup(config[a], parts[1..]);
  }

  /** On the default settings a two-level key reaches its value. */
  lemma DefaultRewardPoints(default: Value)
    ensures Get(DefaultConfig(), "game_settings.reward_points", default) == Number(10)
  {
    assert "game_settings.reward_points" == "game_settings" + [Dot] + "reward_points";
    GetTwoLevels(DefaultConfig(), "game_settings", "reward_points", default);
  }
}
