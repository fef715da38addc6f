/**
 * The 3D-zone configuration list (lib/zone3d/config.py).
 *
 * A configuration is a dictionary; it is modelled as a map from key to a
 * small value type. The pickle/base64 layer and the extensible-storage
 * entity are replaced by a `ConfigStore` object that holds the serialised
 * list, or nothing when the document has no usable storage.
 */
module ZoneConfig {
  import opened Common
  import Sorting

  /**
   * An entry of a category list: a BuiltInCategory member (its integer
   * code), a plain integer, or anything else (kept as text).
   */
  datatype CatItem = BuiltIn(code: int) | RawInt(n: int) | RawOther(s: string)

  /** The values a configuration dictionary holds. */
  datatype Value = Text(s: string) | Number(n: int) | Flag(b: bool) | Cats(items: seq<CatItem>) | Texts(texts: seq<string>) | NoneValue

  type Config = map<string, Value>

  const CategoryKeys: set<string> := {"source_categories", "target_filter_categories"}

  /** The seven keys save_configs insists on. */
  const RequiredFields: seq<string> := ["id", "name", "order", "enabled", "source_categories", "source_params", "target_params"]

  /** Python truthiness of a stored value. */
  predicate Truthy(v: Value)
  {
    match v
    case Text(s) => s != ""
    case Number(n) => n != 0
    case Flag(b) => b
    case Cats(items) => items != []
    case Texts(texts) => texts != []
    case NoneValue => false
  }

  // ------------------------------------------------------------ serialise / deserialise

  function SerializeItem(c: CatItem): CatItem
  {
    if c.BuiltIn? then RawInt(c.code) else c
  }

  /**
   * `BuiltInCategory(int(cat))` for an entry that is not already a
   * category: `defined(n)` says whether `n` names a member of the enum.
   * Text is not converted (int() of arbitrary text is not modelled).
   */
  function DeserializeItem(c: CatItem, defined: int -> bool): CatItem
  {
    match c
    case BuiltIn(_) => c
    case RawInt(n) => if defined(n) then BuiltIn(n) else c
    case RawOther(_) => c
  }

  function MapItems(items: seq<CatItem>, f: CatItem -> CatItem): (r: seq<CatItem>)
    ensures |r| == |items|
    ensures forall i :: 0 <= i < |items| ==> r[i] == f(items[i])
  {
    if items == [] then [] else [f(items[0])] + MapItems(items[1..], f)
  }

  /** Rewrite the two category lists of a configuration, when present, and nothing else. */
  function MapCategoryLists(cfg: Config, f: CatItem -> CatItem): (r: Config)
    ensures r.Keys == cfg.Keys
    ensures forall k :: k in cfg && k !in CategoryKeys ==> r[k] == cfg[k]
  {
    map k | k in cfg :: if k in CategoryKeys && cfg[k].Cats? then Cats(MapItems(cfg[k].items, f)) else cfg[k]
  }

  /** serialize_config: categories become their integer codes; the argument is not touched. */
  function SerializeConfig(cfg: Config): (r: Config)
    ensures r.Keys == cfg.Keys
    ensures forall k :: k in cfg && k !in CategoryKeys ==> r[k] == cfg[k]
    ensures forall k :: k in CategoryKeys && k in r && r[k].Cats? ==>
      forall i :: 0 <= i < |r[k].items| ==> !r[k].items[i].BuiltIn?
  {
    MapCategoryLists(cfg, SerializeItem)
  }

  /** The conversion loop of deserialize_config for one list. */
  method DeserializeCats(items: seq<CatItem>, defined: int -> bool) returns (converted: seq<CatItem>)
    ensures converted == MapItems(items, c => DeserializeItem(c, defined))
  {
    converted := [];
    var i := 0;
    while i < |items|
      invariant 0 <= i <= |items|
      invariant converted == MapItems(items[..i], c => DeserializeItem(c, defined))
    {
      MapItemsSnoc(items[..i], items[i], c => DeserializeItem(c, defined));
      assert items[..i + 1] == items[..i] + [items[i]];
      converted := converted + [DeserializeItem(items[i], defined)];
      i := i + 1;
    }
    assert items[..|items|] == items;
  }

  lemma {:induction false} MapItemsSnoc(items: seq<CatItem>, x: CatItem, f: CatItem -> CatItem)
    ensures MapItems(items + [x], f) == MapItems(items, f) + [f(x)]
  {
    if items == [] {
      assert items + [x] == [x];
    } else {
      assert (items + [x])[1..] == items[1..] + [x];
      MapItemsSnoc(items[1..], x, f);
    }
  }

  /** deserialize_config. */
  function DeserializeConfig(cfg: Config, defined: int -> bool): (r: Config)
    ensures r.Keys == cfg.Keys
    ensures forall k :: k in cfg && k !in CategoryKeys ==> r[k] == cfg[k]
  {
    MapCategoryLists(cfg, c => DeserializeItem(c, defined))
  }

  /** Every category entry that is a BuiltInCategory names a member of the enum. */
  predicate CategoriesDefined(cfg: Config, defined: int -> bool)
  {
    forall k :: k in CategoryKeys && k in cfg && cfg[k].Cats? ==>
      forall i :: 0 <= i < |cfg[k].items| ==> (cfg[k].items[i].BuiltIn? ==> defined(cfg[k].items[i].code))
  }

  /** Integer entries that do not name a category stay integers. */
  predicate NoStrayIntegers(cfg: Config, defined: int -> bool)
  {
    forall k :: k in CategoryKeys && k in cfg && cfg[k].Cats? ==>
      forall i :: 0 <= i < |cfg[k].items| ==> (cfg[k].items[i].RawInt? ==> !defined(cfg[k].items[i].n))
  }

  /** Serialising and then deserialising gives back the configuration. */
  lemma SerializeRoundTrip(cfg: Config, defined: int -> bool)
    requires CategoriesDefined(cfg, defined) && NoStrayIntegers(cfg, defined)
    ensures DeserializeConfig(SerializeConfig(cfg), defined) == cfg
  {
    var s := SerializeConfig(cfg);
    var d := DeserializeConfig(s, defined);
    forall k | k in cfg ensures d[k] == cfg[k] {
      if k in CategoryKeys && cfg[k].Cats? {
        var items := cfg[k].items;
        var back := MapItems(MapItems(items, SerializeItem), c => DeserializeItem(c, defined));
        assert |back| == |items|;
        forall i | 0 <= i < |items| ensures back[i] == items[i] {
          assert back[i] == DeserializeItem(SerializeItem(items[i]), defined);
        }
        assert back == items;
      }
    }
    assert d.Keys == cfg.Keys;
  }

  // ------------------------------------------------------------ list queries

  /** `cfg.get("order", default)`; a non-integer order is read as the default. */
  function OrderOf(cfg: Config, default: int): int
  {
    if "order" in cfg && cfg["order"].Number? then cfg["order"].n else default
  }

  predicate HasRequiredFields(cfg: Config)
  {
    forall f :: f in RequiredFields ==> f in cfg
  }

  function MaxOrder(configs: seq<Config>): (m: int)
    requires configs != []
    ensures forall c :: c in configs ==> OrderOf(c, 0) <= m
    ensures exists c :: c in configs && OrderOf(c, 0) == m
  {
    if |configs| == 1 then OrderOf(configs[0], 0)
    else
      var rest := MaxOrder(configs[1..]);
      assert configs == [configs[0]] + configs[1..];
      if OrderOf(configs[0], 0) >= rest then OrderOf(configs[0], 0) else rest
  }

  /** get_next_order: one above the largest order (missing orders count as 0), or 1. */
  function NextOrder(configs: seq<Config>): (r: int)
    ensures configs == [] ==> r == 1
    ensures forall c :: c in configs ==> OrderOf(c, 0) < r
    ensures configs != [] ==> exists c :: c in configs && r == OrderOf(c, 0) + 1
  {
    if configs == [] then 1 else MaxOrder(configs) + 1
  }

  predicate HasId(cfg: Config, id: string)
  {
    "id" in cfg && cfg["id"] == Text(id)
  }

  /** The `for config in configs: if ...: return config` search of get_config_by_id. */
  method FindConfig(configs: seq<Config>, id: string) returns (r: Option<Config>)
    ensures r.None? <==> forall c :: c in configs ==> !HasId(c, id)
    ensures r.Some? ==>
      exists i :: 0 <= i < |configs| && configs[i] == r.value && HasId(r.value, id) && (forall j :: 0 <= j < i ==> !HasId(configs[j], id))
  {
    var i := 0;
    while i < |configs|
      invariant 0 <= i <= |configs|
      invariant forall j :: 0 <= j < i ==> !HasId(configs[j], id)
    {
      if HasId(configs[i], id) {
        return Some(configs[i]);
      }
      i := i + 1;
    }
    return None;
  }

  function WithoutId(configs: seq<Config>, id: string): (r: seq<Config>)
    ensures |r| <= |configs|
    ensures forall c :: c in r <==> c in configs && !HasId(c, id)
  {
    Filter(configs, c => !HasId(c, id))
  }

  /** The removal keeps the other configurations in their order, and drops something iff the id occurs. */
  lemma {:induction false} WithoutIdShrinks(configs: seq<Config>, id: string)
    ensures |WithoutId(configs, id)| == |configs| <==> forall c :: c in configs ==> !HasId(c, id)
  {
    if configs != [] {
      WithoutIdShrinks(configs[1..], id);
      assert configs == [configs[0]] + configs[1..];
      assert WithoutId(configs, id) == (if !HasId(configs[0], id) then [configs[0]] else []) + WithoutId(configs[1..], id);
    }
  }

  predicate Enabled(cfg: Config)
  {
    "enabled" in cfg && Truthy(cfg["enabled"])
  }

  function ByOrder999(a: Config, b: Config): bool
  {
    OrderOf(a, 999) <= OrderOf(b, 999)
  }

  /** get_enabled_configs on a loaded list. */
  function EnabledConfigs(configs: seq<Config>): seq<Config>
  {
    Sorting.Sort(Filter(configs, Enabled), ByOrder999)
  }

  /**
   * The enabled configurations, each once, sorted by order (missing order
   * = 999), and configurations with equal order keep their list order.
   */
  lemma EnabledConfigsSorted(configs: seq<Config>, z: Config)
    ensures forall c :: c in EnabledConfigs(configs) <==> c in configs && Enabled(c)
    ensures multiset(EnabledConfigs(configs)) == multiset(Filter(configs, Enabled))
    ensures Sorting.Sorted(EnabledConfigs(configs), ByOrder999)
    ensures Sorting.Class(EnabledConfigs(configs), z, ByOrder999) == Sorting.Class(Filter(configs, Enabled), z, ByOrder999)
  {
    var f := Filter(configs, Enabled);
    Sorting.SortSorted(f, ByOrder999);
    Sorting.SortStable(f, z, ByOrder999);
    forall c ensures c in EnabledConfigs(configs) <==> c in f {
      assert c in EnabledConfigs(configs) <==> c in multiset(EnabledConfigs(configs));
      assert c in f <==> c in multiset(f);
    }
  }

  // ------------------------------------------------------------ the stored list

  /**
   * The document's configuration storage. `stored` is the serialised list
   * (None: no storage could be found or created); `defined` tells which
   * integers name BuiltInCategory members.
   */
  class ConfigStore {
    var stored: Option<seq<Config>>
    const defined: int -> bool

    constructor (initial: Option<seq<Config>>, defined: int -> bool)
      ensures stored == initial && this.defined == defined
    {
      stored := initial;
      this.defined := defined;
    }

    /** What load_configs returns for the current storage. */
    function Loaded(): seq<Config>
      reads this
    {
      if stored.None? then [] else LoadList(stored.value, defined)
    }

    /** load_configs. */
    method LoadConfigs() returns (configs: seq<Config>)
      ensures configs == Loaded()
    {
      if stored.None? {
        return [];
      }
      configs := LoadList(stored.value, defined);
    }

    /** save_configs: nothing is written unless every configuration has the required fields. */
    method SaveConfigs(configs: seq<Config>) returns (ok: bool)
      modifies this
      ensures ok <==> old(stored).Some? && forall c :: c in configs ==> HasRequiredFields(c)
      ensures ok ==> stored == Some(SerializeAll(configs))
      ensures !ok ==> stored == old(stored)
    {
      if stored.None? {
        return false;
      }
      var i := 0;
      while i < |configs|
        invariant 0 <= i <= |configs|
        invariant forall j :: 0 <= j < i ==> HasRequiredFields(configs[j])
      {
        var k := 0;
        while k < |RequiredFields|
          invariant 0 <= k <= |RequiredFields|
          invariant forall m :: 0 <= m < k ==> RequiredFields[m] in configs[i]
        {
          if RequiredFields[k] !in configs[i] {
            assert !HasRequiredFields(configs[i]) && configs[i] in configs;
            return false;
          }
          k := k + 1;
        }
        i := i + 1;
      }
      stored := Some(SerializeAll(configs));
      return true;
    }

    /** get_next_order. */
    method GetNextOrder() returns (order: int)
      ensures order == NextOrder(Loaded())
    {
      var configs := LoadConfigs();
      order := NextOrder(configs);
    }

    /** get_config_by_id. */
    method GetConfigById(id: string) returns (r: Option<Config>)
      ensures r.None? <==> forall c :: c in Loaded() ==> !HasId(c, id)
      ensures r.Some? ==> r.value in Loaded() && HasId(r.value, id)
    {
      var configs := LoadConfigs();
      r := FindConfig(configs, id);
    }

    /** delete_config: False when the id is absent; otherwise the list without it is saved. */
    method DeleteConfig(id: string) returns (ok: bool)
      modifies this
      ensures (forall c :: c in old(Loaded()) ==> !HasId(c, id)) ==> !ok && stored == old(stored)
      ensures ok ==> stored == Some(SerializeAll(WithoutId(old(Loaded()), id)))
    {
      var configs := LoadConfigs();
      var kept := WithoutId(configs, id);
      WithoutIdShrinks(configs, id);
      if |kept| == |configs| {
        return false;
      }
      ok := SaveConfigs(kept);
    }

    /** get_enabled_configs. */
    method GetEnabledConfigs() returns (configs: seq<Config>)
      ensures configs == EnabledConfigs(Loaded())
    {
      var all := LoadConfigs();
      configs := EnabledConfigs(all);
    }
  }

  function SerializeAll(configs: seq<Config>): (r: seq<Config>)
    ensures |r| == |configs|
    ensures forall i :: 0 <= i < |configs| ==> r[i] == SerializeConfig(configs[i])
  {
    if configs == [] then [] else [SerializeConfig(configs[0])] + SerializeAll(configs[1..])
  }

  function DeserializeAll(configs: seq<Config>, defined: int -> bool): (r: seq<Config>)
    ensures |r| == |configs|
    ensures forall i :: 0 <= i < |configs| ==> r[i] == DeserializeConfig(configs[i], defined)
  {
    if configs == [] then [] else [DeserializeConfig(configs[0], defined)] + DeserializeAll(configs[1..], defined)
  }

  /** Does a stored configuration still hold category objects (the old format)? */
  predicate OldFormat(configs: seq<Config>)
  {
    exists i, k :: 0 <= i < |configs| && k in CategoryKeys && k in configs[i] && configs[i][k].Cats? &&
      exists j :: 0 <= j < |configs[i][k].items| && configs[i][k].items[j].BuiltIn?
  }

  /** The decoding part of load_configs: old-format lists are serialised first. */
  function LoadList(raw: seq<Config>, defined: int -> bool): seq<Config>
  {
    var normal := if OldFormat(raw) then SerializeAll(raw) else raw;
    DeserializeAll(normal, defined)
  }

  /** A saved list loads back unchanged (every category entry being a defined category or a stray value). */
  lemma SaveLoadRoundTrip(configs: seq<Config>, defined: int -> bool)
    requires forall c :: c in configs ==> CategoriesDefined(c, defined) && NoStrayIntegers(c, defined)
    ensures LoadList(SerializeAll(configs), defined) == configs
  {
    var s := SerializeAll(configs);
    assert !OldFormat(s) by {
      forall i, k | 0 <= i < |s| && k in CategoryKeys && k in s[i] && s[i][k].Cats?
        ensures forall j :: 0 <= j < |s[i][k].items| ==> !s[i][k].items[j].BuiltIn?
      {
        assert s[i] == SerializeConfig(configs[i]);
      }
    }
    forall i | 0 <= i < |configs| ensures DeserializeAll(s, defined)[i] == configs[i] {
      SerializeRoundTrip(configs[i], defined);
    }
  }
}
