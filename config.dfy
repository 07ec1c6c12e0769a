/**
 * The application configuration of `app/core/config.py`: the built-in
 * defaults, the recursive merge of a loaded or submitted mapping with them,
 * and the `AppConfig` object whose `raw` mapping `update_from_dict` replaces.
 */
module Config {

  import opened Common

  /** The mapping a value stands for when merged: its entries if it is a dict, nothing otherwise. */
  function Entries(v: Value): map<string, Value>
  {
    if v.DictValue? then v.entries else map[]
  }

  /** The user value stored under `key`, or `None` when the key is absent. */
  function Lookup(m: map<string, Value>, key: string): Value
  {
    if key in m then m[key] else NullValue
  }

  /**
   * `merge(defaults, updates)`: a copy of `updates` (or `{}` when it is not a
   * dict), where every default key is filled in. A dict default is merged
   * recursively with the user value if that is a dict and with `{}` otherwise;
   * any other default only fills a missing key (`setdefault`).
   */
  function Merge(defaults: map<string, Value>, updates: Value): (r: map<string, Value>)
    ensures r.Keys == defaults.Keys + Entries(updates).Keys
    ensures forall k :: k in Entries(updates) && !(k in defaults && defaults[k].DictValue?) ==>
      r[k] == Entries(updates)[k]
    ensures forall k :: k in defaults && !defaults[k].DictValue? && k !in Entries(updates) ==>
      r[k] == defaults[k]
    ensures forall k :: k in defaults && defaults[k].DictValue? ==>
      r[k] == DictValue(Merge(defaults[k].entries, Lookup(Entries(updates), k)))
    decreases DictValue(defaults)
  {
    var user := Entries(updates);
    map k | k in defaults.Keys + user.Keys ::
      if k in defaults then
        if defaults[k].DictValue? then DictValue(Merge(defaults[k].entries, Lookup(user, k)))
        else if k in user then user[k]
        else defaults[k]
      else user[k]
  }

  /** Every key of `defaults` is in `m`, and under every dict default `m` holds a dict that covers it in turn. */
  predicate Covers(defaults: map<string, Value>, m: map<string, Value>)
    decreases DictValue(defaults)
  {
    forall k :: k in defaults ==>
      k in m && (defaults[k].DictValue? ==> m[k].DictValue? && Covers(defaults[k].entries, m[k].entries))
  }

  /** After merging, every default key is present at every nesting level. */
  lemma {:induction false} MergeCovers(defaults: map<string, Value>, updates: Value)
    ensures Covers(defaults, Merge(defaults, updates))
    decreases DictValue(defaults)
  {
    var r := Merge(defaults, updates);
    forall k | k in defaults && defaults[k].DictValue?
      ensures Covers(defaults[k].entries, r[k].entries)
    {
      MergeCovers(defaults[k].entries, Lookup(Entries(updates), k));
    }
  }

  /** Merging with nothing (or with any value that is not a dict) gives exactly the defaults. */
  lemma {:induction false} MergeNothing(defaults: map<string, Value>, updates: Value)
    requires !updates.DictValue?
    ensures Merge(defaults, updates) == defaults
    decreases DictValue(defaults)
  {
    var r := Merge(defaults, updates);
    forall k | k in defaults
      ensures r[k] == defaults[k]
    {
      if defaults[k].DictValue? {
        MergeNothing(defaults[k].entries, NullValue);
      }
    }
  }

  /** A dict default under which the user stored something else gets the defaults back. */
  lemma MergeReplacesNonDict(defaults: map<string, Value>, updates: Value, k: string)
    requires k in defaults && defaults[k].DictValue?
    requires k in Entries(updates) && !Entries(updates)[k].DictValue?
    ensures Merge(defaults, updates)[k] == defaults[k]
  {
    MergeNothing(defaults[k].entries, Entries(updates)[k]);
  }

  /** Merging an already merged mapping again changes nothing. */
  lemma {:induction false} MergeIdempotent(defaults: map<string, Value>, updates: Value)
    ensures Merge(defaults, DictValue(Merge(defaults, updates))) == Merge(defaults, updates)
    decreases DictValue(defaults)
  {
    var m := Merge(defaults, updates);
    var again := Merge(defaults, DictValue(m));
    forall k | k in defaults && defaults[k].DictValue?
      ensures again[k] == m[k]
    {
      MergeIdempotent(defaults[k].entries, Lookup(Entries(updates), k));
    }
  }

  /**
   * The state of the loop of `merge` with the default keys `todo` still to
   * visit: the visited keys hold their merged entries and every other key the
   * user's entry.
   */
  predicate PartlyMerged(defaults: map<string, Value>, updates: Value, merged: map<string, Value>, todo: set<string>)
  {
    && todo <= defaults.Keys
    && merged.Keys == Entries(updates).Keys + (defaults.Keys - todo)
    && (forall k :: k in merged && k !in defaults - todo ==> merged[k] == Entries(updates)[k])
    && (forall k :: k in defaults - todo ==> merged[k] == Merge(defaults, updates)[k])
  }

  lemma MergedStep(defaults: map<string, Value>, updates: Value, merged: map<string, Value>, todo: set<string>,
                   key: string, entry: Value)
    requires PartlyMerged(defaults, updates, merged, todo) && key in todo
    requires entry == Merge(defaults, updates)[key]
    ensures PartlyMerged(defaults, updates, merged[key := entry], todo - {key})
  {
  }

  lemma MergedDone(defaults: map<string, Value>, updates: Value, merged: map<string, Value>)
    requires PartlyMerged(defaults, updates, merged, {})
    ensures merged == Merge(defaults, updates)
  {
  }

  /**
   * The same merge as the loop of `merge`: start from the user's entries and
   * visit the default keys one at a time (in any order: each visit writes
   * only its own key).
   */
  method MergeInto(defaults: map<string, Value>, updates: Value) returns (merged: map<string, Value>)
    ensures merged == Merge(defaults, updates)
    decreases DictValue(defaults)
  {
    merged := Entries(updates);
    var todo := defaults.Keys;
    while todo != {}
      invariant PartlyMerged(defaults, updates, merged, todo)
      decreases todo
    {
      var key :| key in todo;
      var value := defaults[key];
      var entry;
      if value.DictValue? {
        var existing := Lookup(merged, key);
        var inner := MergeInto(value.entries, if existing.DictValue? then existing else DictValue(map[]));
        entry := DictValue(inner);
      } else {
        // `setdefault`: an entry already there stays as it is
        entry := if key in merged then merged[key] else value;
      }
      MergedEntry(defaults, updates, merged, todo, key, entry);
      MergedStep(defaults, updates, merged, todo, key, entry);
      merged := merged[key := entry];
      todo := todo - {key};
    }
    MergedDone(defaults, updates, merged);
  }

  /** The entry one visit writes is the entry of the merge. */
  lemma MergedEntry(defaults: map<string, Value>, updates: Value, merged: map<string, Value>, todo: set<string>,
                    key: string, entry: Value)
    requires PartlyMerged(defaults, updates, merged, todo) && key in todo
    requires defaults[key].DictValue? ==>
      var existing := Lookup(merged, key);
      entry == DictValue(Merge(defaults[key].entries, if existing.DictValue? then existing else DictValue(map[])))
    requires !defaults[key].DictValue? ==> entry == if key in merged then merged[key] else defaults[key]
    ensures entry == Merge(defaults, updates)[key]
  {
    assert Lookup(merged, key) == Lookup(Entries(updates), key);
    if defaults[key].DictValue? {
      var existing := Lookup(merged, key);
      SameEntries(defaults[key].entries, if existing.DictValue? then existing else DictValue(map[]), existing);
    }
  }

  /** `merge` looks at its second argument only through its entries. */
  lemma SameEntries(defaults: map<string, Value>, a: Value, b: Value)
    requires Entries(a) == Entries(b)
    ensures Merge(defaults, a) == Merge(defaults, b)
  {
  }

  // ----- the defaults and the configuration object ------------------------

  function Str(s: string): Value { StrValue(s) }

  /** `DEFAULT_CONFIG`. */
  const DefaultConfig: map<string, Value> := map[
    "accounts" := DictValue(map[
      "active" := Str("primary"),
      "entries" := DictValue(map[
        "primary" := DictValue(map["name" := Str("Primary account"), "storage" := Str(".")])])]),
    "server" := DictValue(map["host" := Str("0.0.0.0"), "port" := IntValue(8012), "data_folder" := Str("data")]),
    "ui" := DictValue(map[
      "theme" := Str("dark"),
      "show_text" := BoolValue(true),
      "show_market_value" := BoolValue(true),
      "show_trade_count" := BoolValue(false),
      "show_percentages" := BoolValue(true),
      "show_weekends" := BoolValue(false),
      "show_exclude_controls" := BoolValue(true),
      "highlight_weekends" := BoolValue(true),
      "market_value_fill_mode" := Str("average"),
      "auto_dark_mode" := BoolValue(true),
      "opacity_gain" := FloatValue(0.7),
      "opacity_loss" := FloatValue(0.7),
      "grid_transparency" := FloatValue(0.8),
      "icon_color" := Str("#6b7280"),
      "primary_color" := Str("#2563eb"),
      "primary_hover_color" := Str("#1d4ed8"),
      "success_color" := Str("#22c55e"),
      "warning_color" := Str("#f59e0b"),
      "danger_color" := Str("#dc2626"),
      "danger_hover_color" := Str("#b91c1c"),
      "trade_badge_color" := Str("#34d399"),
      "trade_badge_text_color" := Str("#111827")]),
    "notes" := DictValue(map[
      "enabled" := BoolValue(true),
      "icon_opacity" := FloatValue(0.25),
      "icon_hover_opacity" := FloatValue(0.9),
      "icon_has_note_color" := Str("#80cbc4"),
      "autosave" := BoolValue(true),
      "max_length" := IntValue(4000)]),
    "import" := DictValue(map[
      "sources" := ListValue([Str("thinkorswim")]),
      "auto_recalculate" := BoolValue(true),
      "backup_before_import" := BoolValue(true),
      "accepted_formats" := ListValue([Str(".csv")]),
      "max_upload_bytes" := IntValue(25000000)]),
    "view" := DictValue(map["default" := Str("latest"), "remember_last_view" := BoolValue(true), "month_start_day" := Str("monday")]),
    "backup" := DictValue(map["enable_auto_backup" := BoolValue(true), "retention_days" := IntValue(7)]),
    "export" := DictValue(map["fill_empty_with_zero" := BoolValue(true)]),
    "trades" := DictValue(map["pnl_method" := Str("fifo")]),
    "diagnostics" := DictValue(map["debug_logging" := BoolValue(false), "log_max_bytes" := IntValue(1048576), "log_retention" := IntValue(5)])
  ]

  /** `_merge_with_defaults(overrides)`: anything that is not a dict counts as `{}`. */
  function MergeWithDefaults(overrides: Value): (r: map<string, Value>)
    ensures Covers(DefaultConfig, r)
    ensures !overrides.DictValue? ==> r == DefaultConfig
  {
    MergeCovers(DefaultConfig, overrides);
    if overrides.DictValue? then Merge(DefaultConfig, overrides)
    else
      MergeNothing(DefaultConfig, overrides);
      Merge(DefaultConfig, overrides)
  }

  /** What a step of `get` into a value that is not a dict raises (`AttributeError`). */
  datatype GetError = NotADict

  /**
   * `AppConfig.get(*keys, default=...)` on a value: follow the keys through
   * nested dicts. A missing key yields the default, or `{}` when the default
   * is `None`; a step into anything that is not a dict raises.
   */
  function GetPath(d: Value, keys: seq<string>, default: Value): Result<Value, GetError>
    decreases |keys|
  {
    if keys == [] then Ok(d)
    else if !d.DictValue? then Err(NotADict)
    else
      var next := if keys[0] in d.entries then d.entries[keys[0]]
                  else if default == NullValue then DictValue(map[]) else default;
      GetPath(next, keys[1..], default)
  }

  /** Whether `keys` lead through nested dicts of `m` with every key present. */
  predicate HasPath(m: map<string, Value>, keys: seq<string>)
    decreases |keys|
  {
    keys != [] && keys[0] in m && (|keys| == 1 || (m[keys[0]].DictValue? && HasPath(m[keys[0]].entries, keys[1..])))
  }

  /** The value stored at the end of a present path. */
  function ValueAt(m: map<string, Value>, keys: seq<string>): Value
    requires HasPath(m, keys)
    decreases |keys|
  {
    if |keys| == 1 then m[keys[0]] else ValueAt(m[keys[0]].entries, keys[1..])
  }

  /** Along a present path `get` returns the stored value, whatever the default. */
  lemma {:induction false} GetPathFound(m: map<string, Value>, keys: seq<string>, default: Value)
    requires HasPath(m, keys)
    ensures GetPath(DictValue(m), keys, default) == Ok(ValueAt(m, keys))
    decreases |keys|
  {
    if |keys| > 1 {
      GetPathFound(m[keys[0]].entries, keys[1..], default);
    }
  }

  /** A key missing from a dict yields the default, or `{}` for a `None` default. */
  lemma GetPathMissing(m: map<string, Value>, key: string, default: Value)
    requires key !in m
    ensures GetPath(DictValue(m), [key], default) == Ok(if default == NullValue then DictValue(map[]) else default)
  {
  }

  /**
   * A mapping that covers the defaults has every default path, so `get` along
   * a path of default keys never raises and finds a dict wherever the default
   * holds one.
   */
  lemma {:induction false} CoveredPaths(defaults: map<string, Value>, m: map<string, Value>, keys: seq<string>)
    requires Covers(defaults, m) && HasPath(defaults, keys)
    ensures HasPath(m, keys)
    ensures ValueAt(defaults, keys).DictValue? ==> ValueAt(m, keys).DictValue?
    decreases |keys|
  {
    if |keys| > 1 {
      CoveredPaths(defaults[keys[0]].entries, m[keys[0]].entries, keys[1..]);
    }
  }

  /** What `update_from_dict` raises. */
  datatype ConfigError = NotAMapping

  class AppConfig {
    var raw: map<string, Value>

    /** The configuration with nothing loaded: a copy of the defaults. */
    constructor ()
      ensures raw == DefaultConfig
    {
      raw := DefaultConfig;
    }

    /** `load` once the YAML file is read: the loaded document (`or {}`) merged with the defaults. */
    constructor FromLoaded(loaded: Value)
      ensures raw == MergeWithDefaults(loaded)
      ensures Covers(DefaultConfig, raw)
    {
      raw := MergeWithDefaults(loaded);
    }

    /** `get(*keys, default=...)`. */
    function Get(keys: seq<string>, default: Value): Result<Value, GetError>
      reads this
    {
      GetPath(DictValue(raw), keys, default)
    }

    /** `update_from_dict`: a non-mapping is refused and nothing changes; a mapping replaces `raw` by its merge with the defaults. */
    method UpdateFromDict(newConfig: Value) returns (r: Result<(), ConfigError>)
      modifies this
      ensures !newConfig.DictValue? ==> r == Err(NotAMapping) && raw == old(raw)
      ensures newConfig.DictValue? ==> r.Ok? && raw == MergeWithDefaults(newConfig)
      ensures newConfig.DictValue? ==> Covers(DefaultConfig, raw)
    {
      if !newConfig.DictValue? {
        return Err(NotAMapping);
      }
      raw := MergeWithDefaults(newConfig);
      r := Ok(());
    }
  }

  /** On a configuration that covers the defaults, `get` along a path of default keys never raises. */
  lemma GetDefaultsNeverRaise(c: AppConfig, keys: seq<string>, default: Value)
    requires Covers(DefaultConfig, c.raw) && HasPath(DefaultConfig, keys)
    ensures c.Get(keys, default).Ok?
  {
    CoveredPaths(DefaultConfig, c.raw, keys);
    GetPathFound(c.raw, keys, default);
  }
}
