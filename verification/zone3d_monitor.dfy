/**
 * The move monitor of lib/zone3d/monitor.py: the module's global state
 * (active flag, element location cache, the external event) and the
 * deferred event handler with its queue. Clock readings, representative
 * points and the distance between points are parameters.
 */
module ZoneMonitor {
  import opened Common
  import Containment
  import ZoneCore

  datatype CacheRecord = CacheRecord(location: Containment.Point, timestamp: real)

  type LocationCache = map<int, CacheRecord>

  /** Entries younger than 300 seconds at `now`. */
  function Fresh(cache: LocationCache, now: real): (r: LocationCache)
    ensures forall k :: k in r <==> k in cache && now - cache[k].timestamp < 300.0
    ensures forall k :: k in r ==> r[k] == cache[k]
  {
    map k | k in cache && now - cache[k].timestamp < 300.0 :: cache[k]
  }

  /**
   * The move-detection loop of document_changed_handler over the modified
   * ids, from a cache: `locate` is None for an id that no longer resolves
   * or has no representative point. Returns the moved ids and the cache.
   */
  function Sweep(cache: LocationCache, ids: seq<int>, locate: int -> Option<Containment.Point>,
                 distance: (Containment.Point, Containment.Point) -> real, now: real): (r: (seq<int>, LocationCache))
    ensures forall x :: x in r.0 ==> x in ids
  {
    if ids == [] then ([], cache)
    else
      var prev := Sweep(cache, ids[..|ids| - 1], locate, distance, now);
      var id := ids[|ids| - 1];
      var c := prev.1;
      match locate(id)
      case None => prev
      case Some(p) =>
        var moved := if id in c && distance(p, c[id].location) > 0.1 then prev.0 + [id] else prev.0;
        (moved, c[id := CacheRecord(p, now)])
  }

  /**
   * The cache after the sweep: every located id holds its current point
   * stamped `now`; every other entry is unchanged.
   */
  lemma {:induction false} SweepCache(cache: LocationCache, ids: seq<int>, locate: int -> Option<Containment.Point>,
                                      distance: (Containment.Point, Containment.Point) -> real, now: real)
    ensures var c := Sweep(cache, ids, locate, distance, now).1;
      (forall k :: k in ids && locate(k).Some? ==> k in c && c[k] == CacheRecord(locate(k).value, now)) &&
      (forall k :: k !in ids || locate(k).None? ==> (k in c <==> k in cache) && (k in c ==> c[k] == cache[k]))
  {
    if ids != [] {
      var init := ids[..|ids| - 1];
      SweepCache(cache, init, locate, distance, now);
      assert ids == init + [ids[|ids| - 1]];
      assert forall k :: k in ids <==> k in init || k == ids[|ids| - 1];
    }
  }

  predicate Distinct(ids: seq<int>)
  {
    forall i, j :: 0 <= i < j < |ids| ==> ids[i] != ids[j]
  }

  /**
   * With distinct modified ids (as Revit reports them), an element counts
   * as moved exactly when it has a point, a location was cached before,
   * and it moved more than 0.1 from there.
   */
  lemma {:induction false} SweepMoved(cache: LocationCache, ids: seq<int>, locate: int -> Option<Containment.Point>,
                                      distance: (Containment.Point, Containment.Point) -> real, now: real)
    requires Distinct(ids)
    ensures forall k :: k in Sweep(cache, ids, locate, distance, now).0 <==>
      (k in ids && locate(k).Some? && k in cache && distance(locate(k).value, cache[k].location) > 0.1)
  {
    if ids != [] {
      var init := ids[..|ids| - 1];
      var id := ids[|ids| - 1];
      assert Distinct(init);
      SweepMoved(cache, init, locate, distance, now);
      SweepCache(cache, init, locate, distance, now);
      assert id !in init;
      assert ids == init + [id];
      assert forall k :: k in ids <==> k in init || k == id;
    }
  }

  /** Zone3DEventHandler: the queued element ids and configurations. */
  class Zone3DEventHandler {
    var elementsToUpdate: seq<int>
    var configsToProcess: seq<ZoneCore.Mapping>

    constructor()
      ensures elementsToUpdate == [] && configsToProcess == []
    {
      elementsToUpdate := [];
      configsToProcess := [];
    }

    /** queue_elements_for_update replaces the queue. */
    method QueueElementsForUpdate(ids: seq<int>, configs: seq<ZoneCore.Mapping>)
      modifies this
      ensures elementsToUpdate == ids && configsToProcess == configs
    {
      elementsToUpdate := ids;
      configsToProcess := configs;
    }

    /**
     * Execute: when the monitor is inactive the queue is dropped unwritten;
     * with an empty queue nothing happens; otherwise every configuration
     * in turn is applied to every queued element and the queue is cleared.
     */
    method Execute(active: bool, doc: map<int, ZoneCore.Element>,
                   container: (ZoneCore.Mapping, ZoneCore.Element) -> Option<ZoneCore.Element>)
      returns (newDoc: map<int, ZoneCore.Element>)
      modifies this
      ensures !active ==> newDoc == doc && elementsToUpdate == [] && configsToProcess == []
      ensures active && (old(elementsToUpdate) == [] || old(configsToProcess) == []) ==>
        newDoc == doc && elementsToUpdate == old(elementsToUpdate) && configsToProcess == old(configsToProcess)
      ensures active && old(elementsToUpdate) != [] && old(configsToProcess) != [] ==>
        newDoc == ApplyConfigs(doc, old(elementsToUpdate), old(configsToProcess), container) &&
        elementsToUpdate == [] && configsToProcess == []
    {
      if !active {
        elementsToUpdate := [];
        configsToProcess := [];
        return doc;
      }
      if elementsToUpdate == [] || configsToProcess == [] {
        return doc;
      }
      newDoc := ApplyConfigsOn(doc, elementsToUpdate, configsToProcess, container);
      elementsToUpdate := [];
      configsToProcess := [];
    }
  }

  /** One queued element under one configuration; skipped elements are left as they are. */
  function ApplyOne(doc: map<int, ZoneCore.Element>, id: int, m: ZoneCore.Mapping,
                    container: (ZoneCore.Mapping, ZoneCore.Element) -> Option<ZoneCore.Element>): (r: map<int, ZoneCore.Element>)
    ensures r.Keys == doc.Keys
    ensures forall k :: k in doc && k != id ==> r[k] == doc[k]
    ensures id in doc && Containment.DetectStrategy(ZoneCore.CategoriesOf(m.sourceCats)).None? ==> r == doc
    ensures id in doc && container(m, doc[id]).None? ==> r == doc
    ensures |m.sourceParams| != |m.targetParams| ==> r == doc
  {
    if id !in doc then doc
    else if Containment.DetectStrategy(ZoneCore.CategoriesOf(m.sourceCats)).None? then doc
    else
      match container(m, doc[id])
      case None => doc
      case Some(src) =>
        if |m.sourceParams| != |m.targetParams| then doc
        else doc[id := ZoneCore.CopyAll(src, doc[id], ZoneCore.Zip(m.sourceParams, m.targetParams)).1]
  }

  function ApplyIds(doc: map<int, ZoneCore.Element>, ids: seq<int>, m: ZoneCore.Mapping,
                    container: (ZoneCore.Mapping, ZoneCore.Element) -> Option<ZoneCore.Element>): map<int, ZoneCore.Element>
  {
    if ids == [] then doc else ApplyOne(ApplyIds(doc, ids[..|ids| - 1], m, container), ids[|ids| - 1], m, container)
  }

  function ApplyConfigs(doc: map<int, ZoneCore.Element>, ids: seq<int>, configs: seq<ZoneCore.Mapping>,
                        container: (ZoneCore.Mapping, ZoneCore.Element) -> Option<ZoneCore.Element>): map<int, ZoneCore.Element>
  {
    if configs == [] then doc else ApplyIds(ApplyConfigs(doc, ids, configs[..|configs| - 1], container), ids, configs[|configs| - 1], container)
  }

  /** The `for config ...` loop of Execute. */
  method ApplyConfigsOn(doc: map<int, ZoneCore.Element>, ids: seq<int>, configs: seq<ZoneCore.Mapping>,
                        container: (ZoneCore.Mapping, ZoneCore.Element) -> Option<ZoneCore.Element>)
    returns (newDoc: map<int, ZoneCore.Element>)
    ensures newDoc == ApplyConfigs(doc, ids, configs, container)
  {
    newDoc := doc;
    var i := 0;
    while i < |configs|
      invariant 0 <= i <= |configs|
      invariant newDoc == ApplyConfigs(doc, ids, configs[..i], container)
    {
      assert configs[..i + 1][..i] == configs[..i];
      newDoc := ApplyIdsOn(newDoc, ids, configs[i], container);
      i := i + 1;
    }
    assert configs[..|configs|] == configs;
  }

  /** The `for element_id in element_ids` loop of Execute for one configuration. */
  method ApplyIdsOn(doc: map<int, ZoneCore.Element>, ids: seq<int>, m: ZoneCore.Mapping,
                    container: (ZoneCore.Mapping, ZoneCore.Element) -> Option<ZoneCore.Element>)
    returns (newDoc: map<int, ZoneCore.Element>)
    ensures newDoc == ApplyIds(doc, ids, m, container)
  {
    newDoc := doc;
    var j := 0;
    while j < |ids|
      invariant 0 <= j <= |ids|
      invariant newDoc == ApplyIds(doc, ids[..j], m, container)
    {
      assert ids[..j + 1][..j] == ids[..j];
      var id := ids[j];
      if id in newDoc {
        var strategy := Containment.DetectStrategy(ZoneCore.CategoriesOf(m.sourceCats));
        if strategy.Some? {
          var source := container(m, newDoc[id]);
          if source.Some? && |m.sourceParams| == |m.targetParams| {
            var n, after := ZoneCore.CopyParameters(source.value, newDoc[id], m.sourceParams, m.targetParams);
            newDoc := newDoc[id := after];
          }
        }
      }
      j := j + 1;
    }
    assert ids[..|ids|] == ids;
  }

  /** Only queued elements are written, and no element is added or removed. */
  lemma {:induction false} ApplyIdsFrame(doc: map<int, ZoneCore.Element>, ids: seq<int>, m: ZoneCore.Mapping,
                                         container: (ZoneCore.Mapping, ZoneCore.Element) -> Option<ZoneCore.Element>)
    ensures ApplyIds(doc, ids, m, container).Keys == doc.Keys
    ensures forall k :: k in doc && k !in ids ==> ApplyIds(doc, ids, m, container)[k] == doc[k]
  {
    if ids != [] {
      ApplyIdsFrame(doc, ids[..|ids| - 1], m, container);
      assert forall k :: k in ids[..|ids| - 1] ==> k in ids;
    }
  }

  lemma {:induction false} ApplyConfigsFrame(doc: map<int, ZoneCore.Element>, ids: seq<int>, configs: seq<ZoneCore.Mapping>,
                                             container: (ZoneCore.Mapping, ZoneCore.Element) -> Option<ZoneCore.Element>)
    ensures ApplyConfigs(doc, ids, configs, container).Keys == doc.Keys
    ensures forall k :: k in doc && k !in ids ==> ApplyConfigs(doc, ids, configs, container)[k] == doc[k]
  {
    if configs != [] {
      var prev := ApplyConfigs(doc, ids, configs[..|configs| - 1], container);
      ApplyConfigsFrame(doc, ids, configs[..|configs| - 1], container);
      ApplyIdsFrame(prev, ids, configs[|configs| - 1], container);
    }
  }

  /** The module-level state of monitor.py. */
  class Monitor {
    var active: bool
    var cache: LocationCache
    /** Times the external event was raised. */
    var raised: nat
    const handler: Zone3DEventHandler

    constructor()
      ensures !active && cache == map[] && raised == 0 && fresh(handler)
      ensures handler.elementsToUpdate == [] && handler.configsToProcess == []
    {
      active := false;
      cache := map[];
      raised := 0;
      handler := new Zone3DEventHandler();
    }

    /** set_monitor_active: deactivating clears the location cache. */
    method SetMonitorActive(a: bool)
      modifies this
      ensures active == a && raised == old(raised)
      ensures !a ==> cache == map[]
      ensures a ==> cache == old(cache)
    {
      active := a;
      if !a {
        ClearLocationCache();
      }
    }

    method ClearLocationCache()
      modifies this
      ensures cache == map[] && active == old(active) && raised == old(raised)
    {
      cache := map[];
    }

    /** clean_location_cache: keeps the entries younger than 300 seconds. */
    method CleanLocationCache(now: real)
      modifies this
      ensures cache == Fresh(old(cache), now) && active == old(active) && raised == old(raised)
    {
      cache := map k | k in cache && now - cache[k].timestamp < 300.0 :: cache[k];
    }

    method UpdateElementLocationCache(id: int, p: Containment.Point, now: real)
      modifies this
      ensures cache == old(cache)[id := CacheRecord(p, now)] && active == old(active) && raised == old(raised)
    {
      cache := cache[id := CacheRecord(p, now)];
    }

    /**
     * document_changed_handler: nothing happens when the monitor is
     * inactive, nothing was modified or no configuration is enabled;
     * otherwise stale entries are dropped, every located element's point
     * is cached, and the moved elements, if any, are queued with the
     * enabled configurations and the external event is raised.
     */
    method DocumentChanged(modified: seq<int>, enabled: seq<ZoneCore.Mapping>, now: real,
                           locate: int -> Option<Containment.Point>,
                           distance: (Containment.Point, Containment.Point) -> real)
      modifies this, handler
      ensures active == old(active)
      ensures !active || modified == [] || enabled == [] ==>
        cache == old(cache) && raised == old(raised) &&
        handler.elementsToUpdate == old(handler.elementsToUpdate) && handler.configsToProcess == old(handler.configsToProcess)
      ensures active && modified != [] && enabled != [] ==>
        var sw := Sweep(Fresh(old(cache), now), modified, locate, distance, now);
        cache == sw.1 &&
        (sw.0 == [] ==> (raised == old(raised) &&
          handler.elementsToUpdate == old(handler.elementsToUpdate) && handler.configsToProcess == old(handler.configsToProcess))) &&
        (sw.0 != [] ==> (raised == old(raised) + 1 &&
          handler.elementsToUpdate == sw.0 && handler.configsToProcess == enabled))
    {
      if !active || modified == [] || enabled == [] {
        return;
      }
      CleanLocationCache(now);
      ghost var c0 := cache;
      var moved: seq<int> := [];
      var i := 0;
      while i < |modified|
        invariant 0 <= i <= |modified|
        invariant (moved, cache) == Sweep(c0, modified[..i], locate, distance, now)
        invariant active == old(active) && raised == old(raised)
        invariant handler.elementsToUpdate == old(handler.elementsToUpdate) && handler.configsToProcess == old(handler.configsToProcess)
      {
        assert modified[..i + 1][..i] == modified[..i];
        var id := modified[i];
        var current := locate(id);
        if current.Some? {
          if id in cache && distance(current.value, cache[id].location) > 0.1 {
            moved := moved + [id];
          }
          UpdateElementLocationCache(id, current.value, now);
        }
        i := i + 1;
      }
      assert modified[..|modified|] == modified;
      if moved != [] {
        handler.QueueElementsForUpdate(moved, enabled);
        raised := raised + 1;
      }
    }
  }
}
