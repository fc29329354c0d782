# Antennas change-feed pipeline, modelled in Dafny

This project models the sequential core of the antennas-in-Manhattan change feed:

- **Cursor reader** (`CursorReader.TailStream`, `tail_stream.dfy`): the readable stream that pulls rows
  from a `TAIL` cursor with `FETCH n <cursor> WITH (TIMEOUT='1s')`. Its state is `pendingReads` and
  `currentRows`. The answer to a `FETCH` is a parameter of `Read`: some rows, possibly none, or a query
  error that destroys the stream. The model follows the code, not its comments. The `return` inside
  each `forEach` callback leaves only that callback, so every fetched row is pushed whatever `push`
  returns, and `pendingReads` is always 0 when `Read` ends. The object invariant `Valid` says that the
  rows pushed, followed by the undelivered suffix of `currentRows`, are exactly the rows fetched.
  Nothing is lost and nothing is pushed twice.
- **Batch coalescer** (`Coalescer.TransformStream`, `transform_stream.dfy`): the transform stage with
  its `batchMap` from `antenna_id` to the latest row. A row with `mz_progressed` pushes the buffered
  values as one array and clears the buffer. Any other row is upserted. `_flush` pushes the remainder
  only when the buffer is non-empty. The whole-stream behaviour is given by the functions `Pending`
  (the rows since the last progress row), `Batch` and `Emitted`. The class invariant ties `batchMap`
  and the pushed arrays to them.
- **Client reconciler** (`Reconciler.AntennasMap`, `antennas_map.dfy`): the data effect of the map
  component. It upserts each row whose `geojson` parses into the persistent `antennasMap`, never
  deletes, and splits the table into healthy (`> 5`), unhealthy (`< 4.75`) and semi-healthy datasets.
  The bucketing loop assigns `geojson.type = "Feature"` to the very objects held in the table, so the
  model marks the table entries too. A `geojson` that parses to a primitive (`null`, a number, a
  string) makes that assignment throw. The error is caught and logged, and that entry lands in no
  dataset.
- **Ordered map** (`OrderedMap`, `ordered_map.dfy`): a JavaScript `Map` as both components use it.
  `set` keeps an existing key in its position and appends a new key. `values()` enumerates in key
  order. This is why a coalesced batch lists antennas in first-seen order.

`JSON.parse` is a parameter `parse: string -> Option<Json>`; `None` stands for the exception it throws.
The performance is a `real`, and only the two threshold comparisons are modelled.

## Model

| member | source | states |
|---|---|---|
| OrderedMap.OMap.Size | backend/src/MaterializeClient/TransformStream/index.ts:48 | `size` is the number of keys in the map; it is 0 exactly when the map is empty |
| OrderedMap.OMap.Set | backend/src/MaterializeClient/TransformStream/index.ts:42 | `set` stores the value under the key and keeps keys distinct; an existing key keeps its position, a new key goes last |
| OrderedMap.OMap.Values | backend/src/MaterializeClient/TransformStream/index.ts:39 | `Array.from(values())` lists exactly one value per key, in key order |
| OrderedMap.Empty | backend/src/MaterializeClient/TransformStream/index.ts:28-30 | `new Map()` has no keys |
| OrderedMap.SetAll | frontend/src/components/AntennasMap/index.tsx:126-136 | a run of `set` calls keeps the key order repetition-free and in step with the dictionary |
| OrderedMap.SetAllKeys | frontend/src/components/AntennasMap/index.tsx:134 | after a run of `set` calls, the keys are the old keys plus the keys set; no key is removed or moved |
| OrderedMap.SetAllLastWins | backend/src/MaterializeClient/TransformStream/index.ts:42 | the value under a key is the one from the last `set` of that key |
| OrderedMap.SetAllKeepsUnmentioned | frontend/src/components/AntennasMap/index.tsx:134 | a key that is never set keeps its value |
| OrderedMap.SetAllNoNewKeys | frontend/src/components/AntennasMap/index.tsx:134 | setting only keys that already exist leaves the key order unchanged |
| OrderedMap.SetAllKeyOrder | frontend/src/components/AntennasMap/index.tsx:134 | the resulting key order depends only on the starting key order, not on the starting values |
| OrderedMap.SetAllIdempotent | frontend/src/components/AntennasMap/index.tsx:134 | repeating the same run of `set` calls changes nothing |
| OrderedMap.SetAllFirstSeenOrder | backend/src/MaterializeClient/TransformStream/index.ts:39-42 | starting from an empty map, keys are enumerated in the order of their first `set` |
| OrderedMap.Dedup | backend/src/MaterializeClient/TransformStream/index.ts:42 | the key sequence without repetitions keeps exactly the keys that occur |
| OrderedMap.DedupFirstSeenOrder | backend/src/MaterializeClient/TransformStream/index.ts:42 | the deduplicated keys come in the order of their first occurrence |
| OrderedMap.SetAllDedup | backend/src/MaterializeClient/TransformStream/index.ts:42 | starting from an empty map, the key order is the keys set, in order, without repetitions |
| OrderedMap.DistinctCardinality | backend/src/MaterializeClient/TransformStream/index.ts:48 | a repetition-free key order has as many entries as the dictionary has keys |
| Coalescer.Pending | backend/src/MaterializeClient/TransformStream/index.ts:38-43 | the buffered rows since the last progress row never include a progress row |
| Coalescer.PendingIsSuffix | backend/src/MaterializeClient/TransformStream/index.ts:38-43 | the buffered rows are exactly the suffix of the stream after its last progress row |
| Coalescer.Buffer | backend/src/MaterializeClient/TransformStream/index.ts:42 | the buffer built from an interval is a well-formed map |
| Coalescer.BufferStep | backend/src/MaterializeClient/TransformStream/index.ts:42 | storing one more non-progress row is one `set` under its `antenna_id` |
| Coalescer.BufferEmpty | backend/src/MaterializeClient/TransformStream/index.ts:48 | the buffer is empty exactly when no row arrived in the interval |
| Coalescer.BufferHoldsLatest | backend/src/MaterializeClient/TransformStream/index.ts:42 | each buffered row sits under its own `antenna_id` and is the last row of the interval with that id |
| Coalescer.BatchOnePerAntenna | backend/src/MaterializeClient/TransformStream/index.ts:39-42 | an emitted batch holds at most one row per `antenna_id` |
| Coalescer.BatchIsLatest | backend/src/MaterializeClient/TransformStream/index.ts:39-42 | every row of a batch is the last row received for its `antenna_id` in the interval |
| Coalescer.BatchCoversInterval | backend/src/MaterializeClient/TransformStream/index.ts:39-42 | every antenna that sent a row in the interval is in the batch |
| Coalescer.BatchFirstSeenOrder | backend/src/MaterializeClient/TransformStream/index.ts:39-42 | batch rows come in the order in which their antennas first appeared in the interval |
| Coalescer.StreamStep | backend/src/MaterializeClient/TransformStream/index.ts:38-43 | the one-row step rule of `Pending` and `Emitted`: a progress row adds the pending batch and empties the interval; any other row joins the interval and adds nothing |
| Coalescer.BufferAfter | backend/src/MaterializeClient/TransformStream/index.ts:38-43 | after a progress row the buffer is a fresh map; after any other row it is the old buffer with that row set |
| Coalescer.EmittedCount | backend/src/MaterializeClient/TransformStream/index.ts:38-40 | exactly one batch is emitted per progress row, including a progress row on an empty buffer |
| Coalescer.EmittedExcludesProgress | backend/src/MaterializeClient/TransformStream/index.ts:38-40 | no progress row ever appears in an emitted batch |
| Coalescer.NoProgressNoBatch | backend/src/MaterializeClient/TransformStream/index.ts:41-43 | rows without a progress row emit nothing and all stay buffered |
| Coalescer.PendingAfterMarker | backend/src/MaterializeClient/TransformStream/index.ts:38-43 | after a progress row, only the rows that follow it are buffered, and they emit nothing more |
| Coalescer.SingleMarker | backend/src/MaterializeClient/TransformStream/index.ts:38-43 | a stream with exactly one progress row emits exactly one batch: the batch of the rows before it |
| Coalescer.TransformPreserves | backend/src/MaterializeClient/TransformStream/index.ts:38-43 | one `_transform` call keeps buffer and output equal to `Buffer(Pending(input))` and `Emitted(input)` |
| Coalescer.FlushOutput | backend/src/MaterializeClient/TransformStream/index.ts:47-53 | the flushed output adds the pending batch exactly when the buffer is non-empty |
| Coalescer.TransformStream.constructor | backend/src/MaterializeClient/TransformStream/index.ts:19-26 | a new stream has an empty buffer and has pushed nothing |
| Coalescer.TransformStream.CleanBatch | backend/src/MaterializeClient/TransformStream/index.ts:28-30 | the buffer is replaced by an empty map |
| Coalescer.TransformStream.Transform | backend/src/MaterializeClient/TransformStream/index.ts:32-45 | a progress row pushes exactly one array, the buffered values in key order, and empties the buffer; any other row is `set` and nothing is pushed; the callback runs once per row; the invariant ties buffer and output to `Pending` and `Emitted` |
| Coalescer.TransformStream.Flush | backend/src/MaterializeClient/TransformStream/index.ts:47-53 | pushes the remainder only if the buffer is non-empty, then leaves it empty; the output is `Flushed` of the input |
| CursorReader.TailStream.constructor | backend/src/MaterializeClient/TailStream/index.ts:18-26 | a new stream has `pendingReads = 0`, has fetched nothing and has pushed nothing |
| CursorReader.TailStream.Push | backend/src/MaterializeClient/TailStream/index.ts:38 | a pushed row is appended to the output |
| CursorReader.TailStream.Destroy | backend/src/MaterializeClient/TailStream/index.ts:47 | the stream enters the failed state with the query's error |
| CursorReader.TailStream.PushAll | backend/src/MaterializeClient/TailStream/index.ts:36-42 | every row is pushed in order while `pendingReads` counts down to 0; the push result does not stop delivery |
| CursorReader.TailStream.Read | backend/src/MaterializeClient/TailStream/index.ts:28-62 | with `pendingReads = 0` it sends exactly one `FETCH n` with a 1-second timeout and pushes every returned row in order, or on failure destroys the stream without retrying; zero rows push nothing and leave `pendingReads` at 0; with `pendingReads > 0` it sends nothing and pushes exactly the last `pendingReads` rows of `currentRows`; afterwards `pendingReads = 0` and what was pushed equals what was fetched |
| Reconciler.Classify | frontend/src/components/AntennasMap/index.tsx:150-156 | healthy exactly above 5, unhealthy exactly below 4.75, semi-healthy exactly on [4.75, 5] |
| Reconciler.ClassifyMonotone | frontend/src/components/AntennasMap/index.tsx:150-156 | a higher performance never lands in a worse class |
| Reconciler.ClassifyExamples | frontend/src/components/AntennasMap/index.tsx:150-156 | 6.0, 4.0 and 4.8 are healthy, unhealthy and semi-healthy; 5 and 4.75 are semi-healthy |
| Reconciler.ParseAntenna | frontend/src/components/AntennasMap/index.tsx:129-135 | a row yields an antenna exactly when its `geojson` parses; the antenna keeps the id and performance and holds the parsed value as its `geojson` |
| Reconciler.UpsertsKeys | frontend/src/components/AntennasMap/index.tsx:126-135 | an id is set exactly when some row for it has a `geojson` that parses |
| Reconciler.UpsertsLastWins | frontend/src/components/AntennasMap/index.tsx:126-135 | the value last set for an id comes from the last of its rows that parses |
| Reconciler.UpsertStep | frontend/src/components/AntennasMap/index.tsx:126-136 | one more row changes the table by one `set` exactly when its `geojson` parses |
| Reconciler.AsFeature | frontend/src/components/AntennasMap/index.tsx:148 | assigning `type` makes an object `geojson` a `"Feature"` and keeps its geometry, its name, the id and the performance; a primitive `geojson` leaves the antenna unchanged |
| Reconciler.MarkFeatures | frontend/src/components/AntennasMap/index.tsx:145-148 | the table keeps its keys and order; every entry becomes a feature |
| Reconciler.ReconcileKeys | frontend/src/components/AntennasMap/index.tsx:111-136 | no key is removed or moved; the new key set is the old one plus the ids of rows that parse |
| Reconciler.ReconcileKeepsUnmentioned | frontend/src/components/AntennasMap/index.tsx:129-135 | an id with no row that parses keeps its entry, also when its rows failed to parse |
| Reconciler.ReconcileLastWins | frontend/src/components/AntennasMap/index.tsx:126-134 | an id with a row that parses takes the last such row, with the parsed `geojson` |
| Reconciler.MarkCommutes | frontend/src/components/AntennasMap/index.tsx:134-148 | assigning `type` before or after the upserts gives the same table |
| Reconciler.ReconcileIdempotent | frontend/src/components/AntennasMap/index.tsx:126-160 | applying the same update array twice gives the same table as applying it once |
| Reconciler.BucketStep | frontend/src/components/AntennasMap/index.tsx:145-160 | one more entry extends only the dataset of its own class |
| Reconciler.BucketsPartition | frontend/src/components/AntennasMap/index.tsx:145-160 | every entry with an object `geojson` lands in exactly one dataset; the sizes add up to the number of such entries, which is the table size exactly when no `geojson` is a primitive |
| Reconciler.ObjectCountAll | frontend/src/components/AntennasMap/index.tsx:145-160 | at most every entry holds an object, and all do exactly when none holds a primitive |
| Reconciler.BucketSound | frontend/src/components/AntennasMap/index.tsx:150-156 | every dataset element is the `geojson` of an entry of that class |
| Reconciler.BucketComplete | frontend/src/components/AntennasMap/index.tsx:150-156 | every entry with an object `geojson` is in the dataset of its class |
| Reconciler.BucketFeatures | frontend/src/components/AntennasMap/index.tsx:148 | every dataset element has `type` `"Feature"` |
| Reconciler.AntennasMap.constructor | frontend/src/components/AntennasMap/index.tsx:111 | the table starts empty, and so do the datasets |
| Reconciler.AntennasMap.OnData | frontend/src/components/AntennasMap/index.tsx:121-169 | a missing or empty update array changes neither the table nor the datasets; otherwise the table becomes `Reconcile` of the old table; the invariant keeps the datasets equal to the classification of the whole table |
| Reconciler.AntennasMap.UpsertAll | frontend/src/components/AntennasMap/index.tsx:126-136 | the first loop sets every row whose `geojson` parses, in order, and skips the others |
| Reconciler.AntennasMap.ClassifyAll | frontend/src/components/AntennasMap/index.tsx:141-160 | the second loop makes every entry a feature and fills the three datasets, in table order |

## Left out

- The push-to-pull bridge `antennasUpdates` in `backend/src/app.ts`: its behaviour comes from event-emitter callbacks and promise scheduling, which are concurrency, not sequential logic.
- The GraphQL, WebSocket and Express server setup, `getAntennas` and `updateAntennas`: I/O and framework wiring.
- The helper services (`helper/src/app.ts`, `services/helper/src/app.ts`): schema and view setup, database and Kafka clients, and random data generators.
- Removal, diff-sign handling, timestamp tie-breaks and miss-count debouncing: this code has none of them. The coalescer reads only `mz_progressed` and `antenna_id`, and the reconciler never deletes.
- Map rendering: `setSourceData`, `addPulsingDot`, `onLoad`, the list and the access token. The three datasets are the model's output. The `map.current` check around `setSourceData` is not modelled.
- `JSON.parse`: it is an abstract parameter, and no JSON text is modelled.
- Floating point: performance is a `real`. A `NaN` performance and a `null` one (the GraphQL field is a nullable `Float`; `null` compares as 0 and would land in the unhealthy dataset) are not modelled.
- Node stream internals: `highWaterMark`, the value `push` returns, buffering inside the stream and the plumbing of `destroy`. A push appends to the output, and a destroy records the error.
- The asynchrony of `FETCH`: the query's answer is a parameter of `Read` and arrives within the same call. Interleavings with other `_read` calls are not modelled.
- `console.error` logging, the unused `size` field of `TransformStream`, and the `client` of `TailStream`.
- Coalescer.TransformStream.Flush: states the final output and the empty buffer, but not the object invariant afterwards, because the stream ends there and Node calls neither `_transform` nor `_flush` again.
- Reconciler.BucketsPartition: the dataset sizes add up to the table size only when every stored `geojson` parsed to an object. A primitive makes the `type` assignment throw, and that entry goes into no dataset.
