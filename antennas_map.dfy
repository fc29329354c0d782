/**
 * The client-side reconciler of the antennas map: every update array that
 * arrives on the `antennasUpdates` subscription is upserted into a table kept
 * across updates, keyed by antenna id, and the whole table is then split into
 * healthy, semi-healthy and unhealthy datasets for the map.
 *
 * `JSON.parse` is a parameter (`parse`), a partial function: `None` stands
 * for the exception it throws on malformed text.
 */
module Reconciler {
  import opened Wrappers
  import opened OrderedMap

  datatype Geometry = Geometry(kind: string, coordinates: (real, real))

  /** A parsed GeoJSON feature; `kind` is its `type` member. */
  datatype GeoJson = GeoJson(kind: string, geometry: Geometry, name: string)

  /**
   * What `JSON.parse` may return: an object (whose `type` can be assigned),
   * or a primitive such as `null`, a number or a string (on which assigning
   * `type` throws a `TypeError` in strict mode).
   */
  datatype Json = JsonObject(feature: GeoJson) | JsonPrimitive

  /** An antenna as it arrives on the subscription, with `geojson` still a string. */
  datatype RawAntenna = RawAntenna(antennaId: string, geojson: string, performance: real)

  /** An antenna as it is kept in the table, with `geojson` parsed. */
  datatype Antenna = Antenna(antennaId: string, geojson: Json, performance: real)

  datatype Health = Healthy | SemiHealthy | Unhealthy

  /** The performance thresholds of the map: above 5 is healthy, below 4.75 unhealthy. */
  function Classify(performance: real): (h: Health)
    ensures h == Healthy <==> performance > 5.0
    ensures h == SemiHealthy <==> 4.75 <= performance <= 5.0
    ensures h == Unhealthy <==> performance < 4.75
  {
    if performance > 5.0 then Healthy
    else if performance < 4.75 then Unhealthy
    else SemiHealthy
  }

  /** Orders the three classes from worst to best. */
  function Rank(h: Health): nat {
    match h
    case Unhealthy => 0
    case SemiHealthy => 1
    case Healthy => 2
  }

  /** A better performance never lands in a worse class. */
  lemma ClassifyMonotone(p: real, q: real)
    requires p <= q
    ensures Rank(Classify(p)) <= Rank(Classify(q))
  {
  }

  /** The class boundaries: 5 itself and 4.75 itself are both semi-healthy. */
  lemma ClassifyExamples()
    ensures Classify(6.0) == Healthy
    ensures Classify(4.0) == Unhealthy
    ensures Classify(4.8) == SemiHealthy
    ensures Classify(5.0) == SemiHealthy && Classify(4.75) == SemiHealthy
  {
  }

  /** `{...antennaUpdate, geojson: JSON.parse(antennaUpdate.geojson)}`, or `None` when parsing throws. */
  function ParseAntenna(raw: RawAntenna, parse: string -> Option<Json>): (a: Option<Antenna>)
    ensures a.Some? <==> parse(raw.geojson).Some?
    ensures a.Some? ==> a.value.antennaId == raw.antennaId && a.value.performance == raw.performance
    ensures a.Some? ==> a.value.geojson == parse(raw.geojson).value
  {
    match parse(raw.geojson)
    case Some(geojson) => Some(Antenna(raw.antennaId, geojson, raw.performance))
    case None => None
  }

  /** The `antennasMap.current.set(antenna_id, antenna)` calls made for an update array, in order. */
  function Upserts(updates: seq<RawAntenna>, parse: string -> Option<Json>): (kvs: seq<(string, Antenna)>)
    decreases |updates|
  {
    if updates == [] then []
    else
      var n := |updates| - 1;
      var earlier := Upserts(updates[..n], parse);
      match ParseAntenna(updates[n], parse)
      case Some(antenna) => earlier + [(updates[n].antennaId, antenna)]
      case None => earlier
  }

  /** Some row for antenna `id` in the update array has a `geojson` that parses. */
  ghost predicate Mentions(updates: seq<RawAntenna>, parse: string -> Option<Json>, id: string) {
    exists i :: 0 <= i < |updates| && updates[i].antennaId == id && parse(updates[i].geojson).Some?
  }

  /** Row `i` is the last row for antenna `id` whose `geojson` parses. */
  ghost predicate LastParsed(updates: seq<RawAntenna>, parse: string -> Option<Json>, id: string, i: int) {
    && 0 <= i < |updates|
    && updates[i].antennaId == id
    && parse(updates[i].geojson).Some?
    && forall i' :: i < i' < |updates| && updates[i'].antennaId == id ==> parse(updates[i'].geojson).None?
  }

  /** One more row adds one `set` exactly when its `geojson` parses. */
  lemma UpsertsStep(rows: seq<RawAntenna>, i: nat, parse: string -> Option<Json>)
    requires i < |rows|
    ensures parse(rows[i].geojson).None? ==> Upserts(rows[..i + 1], parse) == Upserts(rows[..i], parse)
    ensures parse(rows[i].geojson).Some? ==>
      Upserts(rows[..i + 1], parse) ==
      Upserts(rows[..i], parse) + [(rows[i].antennaId, Antenna(rows[i].antennaId, parse(rows[i].geojson).value, rows[i].performance))]
  {
    assert rows[..i + 1][..i] == rows[..i];
  }

  /** The table after one more row of the first loop. */
  lemma UpsertStep(table: OMap<string, Antenna>, rows: seq<RawAntenna>, i: nat, parse: string -> Option<Json>)
    requires table.Valid() && i < |rows|
    ensures parse(rows[i].geojson).None? ==>
      SetAll(table, Upserts(rows[..i + 1], parse)) == SetAll(table, Upserts(rows[..i], parse))
    ensures parse(rows[i].geojson).Some? ==>
      SetAll(table, Upserts(rows[..i + 1], parse)) ==
      SetAll(table, Upserts(rows[..i], parse)).Set(rows[i].antennaId, Antenna(rows[i].antennaId, parse(rows[i].geojson).value, rows[i].performance))
  {
    UpsertsStep(rows, i, parse);
    if parse(rows[i].geojson).Some? {
      SetAllAppend(table, Upserts(rows[..i], parse), rows[i].antennaId, Antenna(rows[i].antennaId, parse(rows[i].geojson).value, rows[i].performance));
    }
  }

  /** Only rows whose `geojson` parses are set, each under its own antenna id. */
  lemma {:induction false} UpsertsKeys(updates: seq<RawAntenna>, parse: string -> Option<Json>, id: string)
    ensures id in KeysOf(Upserts(updates, parse)) <==> Mentions(updates, parse, id)
    decreases |updates|
  {
    if updates != [] {
      var n := |updates| - 1;
      var earlier := Upserts(updates[..n], parse);
      UpsertsKeys(updates[..n], parse, id);
      if parse(updates[n].geojson).Some? {
        assert KeysOf(Upserts(updates, parse)) == KeysOf(earlier) + [updates[n].antennaId];
      }
      if Mentions(updates, parse, id) {
        var i :| 0 <= i < |updates| && updates[i].antennaId == id && parse(updates[i].geojson).Some?;
        if i < n {
          assert updates[..n][i] == updates[i];
        }
      }
      if Mentions(updates[..n], parse, id) {
        var i :| 0 <= i < n && updates[..n][i].antennaId == id && parse(updates[..n][i].geojson).Some?;
        assert updates[i] == updates[..n][i];
      }
    }
  }

  /** The value last set for an antenna comes from the last of its rows that parses. */
  lemma {:induction false} UpsertsLastWins(updates: seq<RawAntenna>, parse: string -> Option<Json>, id: string)
    requires id in KeysOf(Upserts(updates, parse))
    ensures exists i ::
      && LastParsed(updates, parse, id, i)
      && ParseAntenna(updates[i], parse) == Some(Upserts(updates, parse)[LastIndex(Upserts(updates, parse), id)].1)
    decreases |updates|
  {
    var n := |updates| - 1;
    var earlier := Upserts(updates[..n], parse);
    var kvs := Upserts(updates, parse);
    if parse(updates[n].geojson).Some? && updates[n].antennaId == id {
      assert LastParsed(updates, parse, id, n);
    } else {
      if parse(updates[n].geojson).Some? {
        var kv := (updates[n].antennaId, ParseAntenna(updates[n], parse).value);
        assert kvs == earlier + [kv];
        LastIndexSkips(earlier, kv, id);
      }
      UpsertsLastWins(updates[..n], parse, id);
      var i :| LastParsed(updates[..n], parse, id, i)
        && ParseAntenna(updates[..n][i], parse) == Some(earlier[LastIndex(earlier, id)].1);
      LastParsedExtends(updates, parse, id, i);
    }
  }

  /** Appending a pair for another key does not change where a key was last set. */
  lemma LastIndexSkips<V>(kvs: seq<(string, V)>, kv: (string, V), id: string)
    requires id in KeysOf(kvs + [kv]) && kv.0 != id
    ensures id in KeysOf(kvs)
    ensures LastIndex(kvs + [kv], id) == LastIndex(kvs, id)
    ensures (kvs + [kv])[LastIndex(kvs, id)] == kvs[LastIndex(kvs, id)]
  {
    assert KeysOf(kvs + [kv]) == KeysOf(kvs) + [kv.0];
    assert (kvs + [kv])[..|kvs|] == kvs;
  }

  /** A last parsed row of the prefix stays the last one when the final row is not a parsed row for that antenna. */
  lemma LastParsedExtends(updates: seq<RawAntenna>, parse: string -> Option<Json>, id: string, i: int)
    requires |updates| > 0
    requires LastParsed(updates[..|updates| - 1], parse, id, i)
    requires !(parse(updates[|updates| - 1].geojson).Some? && updates[|updates| - 1].antennaId == id)
    ensures LastParsed(updates, parse, id, i)
    ensures updates[..|updates| - 1][i] == updates[i]
  {
  }

  /** The antenna after the effect assigned `geojson.type = "Feature"` (a primitive `geojson` cannot be changed). */
  function AsFeature(a: Antenna): (b: Antenna)
    ensures b.antennaId == a.antennaId && b.performance == a.performance
    ensures b.geojson.JsonObject? <==> a.geojson.JsonObject?
    ensures b.geojson.JsonObject? ==> b.geojson.feature.kind == "Feature"
    ensures b.geojson.JsonObject? ==>
      b.geojson.feature.geometry == a.geojson.feature.geometry && b.geojson.feature.name == a.geojson.feature.name
    ensures a.geojson.JsonPrimitive? ==> b == a
  {
    match a.geojson
    case JsonObject(feature) => a.(geojson := JsonObject(feature.(kind := "Feature")))
    case JsonPrimitive => a
  }

  /** The table after every entry was made a feature: the bucketing loop mutates the objects the table holds. */
  function MarkFeatures(m: OMap<string, Antenna>): (r: OMap<string, Antenna>)
    requires m.Valid()
    ensures r.Valid() && r.keys == m.keys
    ensures forall k :: k in r.vals <==> k in m.vals
    ensures forall k :: k in m.vals ==> r.vals[k] == AsFeature(m.vals[k])
  {
    OMap(m.keys, map k | k in m.vals :: AsFeature(m.vals[k]))
  }

  /** The table after one non-empty update array. */
  function Reconcile(table: OMap<string, Antenna>, updates: seq<RawAntenna>, parse: string -> Option<Json>): OMap<string, Antenna>
    requires table.Valid()
  {
    MarkFeatures(SetAll(table, Upserts(updates, parse)))
  }

  /** No antenna is ever removed and none moves; the antennas added are exactly those with a row that parses. */
  lemma ReconcileKeys(table: OMap<string, Antenna>, updates: seq<RawAntenna>, parse: string -> Option<Json>)
    requires table.Valid()
    ensures Reconcile(table, updates, parse).Valid()
    ensures forall id :: id in Reconcile(table, updates, parse).vals <==> id in table.vals || Mentions(updates, parse, id)
    ensures table.keys <= Reconcile(table, updates, parse).keys
  {
    SetAllKeys(table, Upserts(updates, parse));
    forall id ensures id in KeysOf(Upserts(updates, parse)) <==> Mentions(updates, parse, id) {
      UpsertsKeys(updates, parse, id);
    }
  }

  /** An antenna with no row that parses keeps its entry (up to the `type` assignment). */
  lemma ReconcileKeepsUnmentioned(table: OMap<string, Antenna>, updates: seq<RawAntenna>, parse: string -> Option<Json>, id: string)
    requires table.Valid()
    requires id in table.vals && !Mentions(updates, parse, id)
    ensures id in Reconcile(table, updates, parse).vals
    ensures Reconcile(table, updates, parse).vals[id] == AsFeature(table.vals[id])
  {
    UpsertsKeys(updates, parse, id);
    SetAllKeepsUnmentioned(table, Upserts(updates, parse), id);
  }

  /** An antenna with a row that parses takes the last such row, with the parsed `geojson`. */
  lemma ReconcileLastWins(table: OMap<string, Antenna>, updates: seq<RawAntenna>, parse: string -> Option<Json>, id: string)
    requires table.Valid()
    requires Mentions(updates, parse, id)
    ensures id in Reconcile(table, updates, parse).vals
    ensures exists i ::
      && LastParsed(updates, parse, id, i)
      && Reconcile(table, updates, parse).vals[id] == AsFeature(Antenna(id, parse(updates[i].geojson).value, updates[i].performance))
  {
    var kvs := Upserts(updates, parse);
    UpsertsKeys(updates, parse, id);
    SetAllLastWins(table, kvs, id);
    UpsertsLastWins(updates, parse, id);
  }

  /** Marking before or after the upserts gives the same table. */
  lemma MarkCommutes(m: OMap<string, Antenna>, kvs: seq<(string, Antenna)>)
    requires m.Valid()
    ensures MarkFeatures(SetAll(MarkFeatures(m), kvs)) == MarkFeatures(SetAll(m, kvs))
  {
    var marked := MarkFeatures(m);
    var left := MarkFeatures(SetAll(marked, kvs));
    var right := MarkFeatures(SetAll(m, kvs));
    SetAllKeyOrder(marked, m, kvs);
    forall k | k in right.vals ensures k in left.vals && left.vals[k] == right.vals[k] {
      MarkCommutesAt(m, kvs, k);
    }
    Extensionality(left, right);
  }

  /** `MarkCommutes`, for the entry of one antenna. */
  lemma MarkCommutesAt(m: OMap<string, Antenna>, kvs: seq<(string, Antenna)>, k: string)
    requires m.Valid()
    requires k in SetAll(m, kvs).vals
    ensures k in SetAll(MarkFeatures(m), kvs).vals
    ensures AsFeature(SetAll(MarkFeatures(m), kvs).vals[k]) == AsFeature(SetAll(m, kvs).vals[k])
  {
    var marked := MarkFeatures(m);
    SetAllKeys(m, kvs);
    SetAllKeys(marked, kvs);
    if k in KeysOf(kvs) {
      SetAllLastWins(marked, kvs, k);
      SetAllLastWins(m, kvs, k);
    } else {
      SetAllKeepsUnmentioned(marked, kvs, k);
      SetAllKeepsUnmentioned(m, kvs, k);
    }
  }

  /** Applying the same update array twice gives the same table as applying it once. */
  lemma ReconcileIdempotent(table: OMap<string, Antenna>, updates: seq<RawAntenna>, parse: string -> Option<Json>)
    requires table.Valid()
    ensures Reconcile(Reconcile(table, updates, parse), updates, parse) == Reconcile(table, updates, parse)
  {
    var kvs := Upserts(updates, parse);
    var once := SetAll(table, kvs);
    MarkCommutes(once, kvs);
    SetAllIdempotent(table, kvs);
  }

  /** The datasets the effect builds for one class, in table order. */
  function Bucket(entries: seq<Antenna>, h: Health): seq<GeoJson> {
    if entries == [] then []
    else
      var n := |entries| - 1;
      var earlier := Bucket(entries[..n], h);
      var a := entries[n];
      if a.geojson.JsonObject? && Classify(a.performance) == h then earlier + [a.geojson.feature] else earlier
  }

  /** Extending the walk by one entry extends the dataset of that entry's class only. */
  lemma BucketStep(entries: seq<Antenna>, j: nat, h: Health)
    requires j < |entries|
    ensures Bucket(entries[..j + 1], h) ==
      if entries[j].geojson.JsonObject? && Classify(entries[j].performance) == h
      then Bucket(entries[..j], h) + [entries[j].geojson.feature]
      else Bucket(entries[..j], h)
  {
    assert entries[..j + 1][..j] == entries[..j];
  }

  /** How many entries hold a `geojson` object. */
  function ObjectCount(entries: seq<Antenna>): nat {
    if entries == [] then 0
    else
      var n := |entries| - 1;
      ObjectCount(entries[..n]) + if entries[n].geojson.JsonObject? then 1 else 0
  }

  /**
   * Every entry with a `geojson` object lands in exactly one dataset, so the
   * three sizes add up to the number of such entries; that is the table size
   * exactly when no entry holds a primitive.
   */
  lemma {:induction false} BucketsPartition(entries: seq<Antenna>)
    ensures |Bucket(entries, Healthy)| + |Bucket(entries, SemiHealthy)| + |Bucket(entries, Unhealthy)| == ObjectCount(entries)
    ensures ObjectCount(entries) <= |entries|
    ensures ObjectCount(entries) == |entries| <==> forall a :: a in entries ==> a.geojson.JsonObject?
  {
    ObjectCountAll(entries);
    if entries != [] {
      var n := |entries| - 1;
      BucketsPartition(entries[..n]);
    }
  }

  /** Only entries holding a `geojson` object are counted; all are exactly when none holds a primitive. */
  lemma {:induction false} ObjectCountAll(entries: seq<Antenna>)
    ensures ObjectCount(entries) <= |entries|
    ensures ObjectCount(entries) == |entries| <==> forall a :: a in entries ==> a.geojson.JsonObject?
  {
    if entries != [] {
      var n := |entries| - 1;
      ObjectCountAll(entries[..n]);
      assert entries == entries[..n] + [entries[n]];
    }
  }

  /** Every dataset element is the `geojson` of an entry of that class. */
  lemma {:induction false} BucketSound(entries: seq<Antenna>, h: Health, g: GeoJson)
    requires g in Bucket(entries, h)
    ensures exists a :: a in entries && a.geojson == JsonObject(g) && Classify(a.performance) == h
  {
    var n := |entries| - 1;
    if g in Bucket(entries[..n], h) {
      BucketSound(entries[..n], h, g);
      var a :| a in entries[..n] && a.geojson == JsonObject(g) && Classify(a.performance) == h;
      assert a in entries;
    } else {
      assert entries[n] in entries;
    }
  }

  /** Every entry holding a `geojson` object is in the dataset of its class. */
  lemma {:induction false} BucketComplete(entries: seq<Antenna>, a: Antenna)
    requires a in entries && a.geojson.JsonObject?
    ensures a.geojson.feature in Bucket(entries, Classify(a.performance))
  {
    var n := |entries| - 1;
    if entries[n] != a {
      assert entries == entries[..n] + [entries[n]];
      assert a in entries[..n];
      BucketComplete(entries[..n], a);
    }
  }

  /** Once every entry was made a feature, every dataset element has `type` "Feature". */
  lemma BucketFeatures(entries: seq<Antenna>, h: Health, g: GeoJson)
    requires forall a :: a in entries ==> AsFeature(a) == a
    requires g in Bucket(entries, h)
    ensures g.kind == "Feature"
  {
    BucketSound(entries, h, g);
    var a :| a in entries && a.geojson == JsonObject(g) && Classify(a.performance) == h;
    assert AsFeature(a) == a;
  }

  /** Whether the effect already assigned `type = "Feature"` to every entry of the table. */
  ghost predicate AllFeatures(m: OMap<string, Antenna>) {
    forall k :: k in m.vals ==> AsFeature(m.vals[k]) == m.vals[k]
  }

  /** The table with the first `done` entries (in key order) made features. */
  ghost function PartlyMarked(m: OMap<string, Antenna>, done: nat): (r: OMap<string, Antenna>)
    requires m.Valid() && done <= |m.keys|
    ensures r.Valid()
  {
    OMap(m.keys, map k | k in m.vals :: if k in m.keys[..done] then AsFeature(m.vals[k]) else m.vals[k])
  }

  lemma PartlyMarkedStep(m: OMap<string, Antenna>, done: nat)
    requires m.Valid() && done < |m.keys|
    ensures PartlyMarked(m, done + 1) == PartlyMarked(m, done).Set(m.keys[done], AsFeature(m.vals[m.keys[done]]))
  {
    var k := m.keys[done];
    assert m.keys[..done + 1] == m.keys[..done] + [k];
    assert k !in m.keys[..done];
    var left := PartlyMarked(m, done + 1);
    var right := PartlyMarked(m, done).Set(k, AsFeature(m.vals[k]));
    assert left.vals == right.vals;
  }

  /** Once every entry was visited, the whole table is marked. */
  lemma PartlyMarkedAll(m: OMap<string, Antenna>)
    requires m.Valid()
    ensures PartlyMarked(m, |m.keys|) == MarkFeatures(m)
  {
    assert m.keys[..|m.keys|] == m.keys;
    Extensionality(PartlyMarked(m, |m.keys|), MarkFeatures(m));
  }

  /** The map component's view of the subscription: the persistent table and the three datasets. */
  class AntennasMap {
    /** `antennasMap.current`: the latest antenna per id; never shrinks. */
    var antennasMap: OMap<string, Antenna>
    /** The datasets last given to the `healthy-antennas`, `semihealthy-antennas` and `unhealthy-antennas` sources. */
    var healthy: seq<GeoJson>
    var semiHealthy: seq<GeoJson>
    var unhealthy: seq<GeoJson>

    /** The datasets are always the classification of the current table, whose entries are all features. */
    ghost predicate Valid()
      reads this
    {
      && antennasMap.Valid()
      && AllFeatures(antennasMap)
      && healthy == Bucket(antennasMap.Values(), Healthy)
      && semiHealthy == Bucket(antennasMap.Values(), SemiHealthy)
      && unhealthy == Bucket(antennasMap.Values(), Unhealthy)
    }

    /** On mount the table is empty and so are the datasets. */
    constructor ()
      ensures Valid()
      ensures antennasMap == Empty()
      ensures healthy == [] && semiHealthy == [] && unhealthy == []
    {
      antennasMap := Empty();
      healthy, semiHealthy, unhealthy := [], [], [];
    }

    /**
     * The effect run when new subscription data arrives. A missing or empty
     * update array changes nothing. Otherwise each row whose `geojson` parses
     * is set under its antenna id, and every entry of the table is made a
     * feature and put into the dataset of its class.
     */
    method OnData(updates: Option<seq<RawAntenna>>, parse: string -> Option<Json>)
      requires Valid()
      modifies this
      ensures Valid()
      ensures updates.None? || updates.value == [] ==>
        antennasMap == old(antennasMap) && healthy == old(healthy)
        && semiHealthy == old(semiHealthy) && unhealthy == old(unhealthy)
      ensures updates.Some? && updates.value != [] ==>
        antennasMap == Reconcile(old(antennasMap), updates.value, parse)
    {
      if updates.Some? && |updates.value| > 0 {
        UpsertAll(updates.value, parse);
        ClassifyAll();
        forall k | k in antennasMap.vals ensures AsFeature(antennasMap.vals[k]) == antennasMap.vals[k] { }
      }
    }

    /** The first loop of the effect: sets every row whose `geojson` parses, in order. */
    method UpsertAll(rows: seq<RawAntenna>, parse: string -> Option<Json>)
      requires antennasMap.Valid()
      modifies this`antennasMap
      ensures antennasMap == SetAll(old(antennasMap), Upserts(rows, parse))
    {
      ghost var table := antennasMap;
      var i := 0;
      while i < |rows|
        invariant 0 <= i <= |rows|
        invariant antennasMap == SetAll(table, Upserts(rows[..i], parse))
      {
        var update := rows[i];
        UpsertStep(table, rows, i, parse);
        var parsed := parse(update.geojson);
        // `None`: `JSON.parse` threw, the exception is swallowed and the row skipped.
        if parsed.Some? {
          antennasMap := antennasMap.Set(update.antennaId, Antenna(update.antennaId, parsed.value, update.performance));
        }
        i := i + 1;
      }
      assert rows[..|rows|] == rows;
    }

    /**
     * The second loop of the effect: walks the table's values in key order,
     * makes each a feature and puts it into the dataset of its class.
     */
    method ClassifyAll()
      requires antennasMap.Valid()
      modifies this
      ensures antennasMap == MarkFeatures(old(antennasMap))
      ensures healthy == Bucket(antennasMap.Values(), Healthy)
      ensures semiHealthy == Bucket(antennasMap.Values(), SemiHealthy)
      ensures unhealthy == Bucket(antennasMap.Values(), Unhealthy)
    {
      ghost var upserted := antennasMap;
      ghost var markedEntries := MarkFeatures(upserted).Values();
      var entries := antennasMap.Values();
      var keys := antennasMap.keys;
      var h, s, u := [], [], [];
      var j := 0;
      while j < |entries|
        invariant 0 <= j <= |entries| == |keys| == |markedEntries|
        invariant antennasMap == PartlyMarked(upserted, j)
        invariant h == Bucket(markedEntries[..j], Healthy)
        invariant s == Bucket(markedEntries[..j], SemiHealthy)
        invariant u == Bucket(markedEntries[..j], Unhealthy)
      {
        var antenna := entries[j];
        assert antenna == upserted.vals[upserted.keys[j]];
        assert markedEntries[j] == AsFeature(antenna);
        BucketStep(markedEntries, j, Healthy);
        BucketStep(markedEntries, j, SemiHealthy);
        BucketStep(markedEntries, j, Unhealthy);
        PartlyMarkedStep(upserted, j);
        // `geojson.type = "Feature"` mutates the object the table holds; on a
        // primitive `geojson` the assignment throws, the error is logged and
        // the entry goes into no dataset.
        var entry := AsFeature(antenna);
        antennasMap := antennasMap.Set(keys[j], entry);
        if entry.geojson.JsonObject? {
          match Classify(entry.performance) {
            case Healthy => h := h + [entry.geojson.feature];
            case Unhealthy => u := u + [entry.geojson.feature];
            case SemiHealthy => s := s + [entry.geojson.feature];
          }
        }
        j := j + 1;
      }
      PartlyMarkedAll(upserted);
      assert markedEntries[..j] == markedEntries;
      healthy, semiHealthy, unhealthy := h, s, u;
    }
  }
}
