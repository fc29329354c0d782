/**
 * The batch coalescer: a transform stage that turns the per-row output of
 * `TAIL ... WITH (PROGRESS)` into one array per progress interval, keeping
 * only the latest row of each antenna within the interval.
 */
module Coalescer {
  import opened OrderedMap

  /**
   * One row of the tail. Only `mz_progressed` and `antenna_id` are read by
   * the coalescer; the rest of the row travels through untouched. At this
   * stage `geojson` is still the database's JSON value (it is stringified
   * only downstream); the `string` here is a placeholder for that opaque
   * payload, which no member of this module inspects.
   */
  datatype TailRow = TailRow(mzProgressed: bool, antennaId: string, geojson: string, performance: real)

  /** The `batchMap.set(antennaId, row)` calls made for an interval, in order. */
  function Entries(interval: seq<TailRow>): (kvs: seq<(string, TailRow)>)
    ensures |kvs| == |interval|
    ensures forall i :: 0 <= i < |interval| ==> kvs[i] == (interval[i].antennaId, interval[i])
  {
    seq(|interval|, i requires 0 <= i < |interval| => (interval[i].antennaId, interval[i]))
  }

  /** The buffer after the rows of an interval were stored into a fresh map. */
  function Buffer(interval: seq<TailRow>): (m: OMap<string, TailRow>)
    ensures m.Valid()
  {
    SetAll(Empty(), Entries(interval))
  }

  /** The array pushed for an interval: `Array.from(batchMap.values())`. */
  function Batch(interval: seq<TailRow>): seq<TailRow> {
    Buffer(interval).Values()
  }

  /** The rows received since the last progress row (all rows, if there was none). */
  function Pending(rows: seq<TailRow>): (p: seq<TailRow>)
    ensures |p| <= |rows|
    ensures forall r :: r in p ==> !r.mzProgressed
  {
    if rows == [] then []
    else
      var n := |rows| - 1;
      if rows[n].mzProgressed then [] else Pending(rows[..n]) + [rows[n]]
  }

  /** The pending rows are the suffix of the stream after its last progress row. */
  lemma {:induction false} PendingIsSuffix(rows: seq<TailRow>)
    ensures var p := Pending(rows);
      && p == rows[|rows| - |p|..]
      && (|p| < |rows| ==> rows[|rows| - |p| - 1].mzProgressed)
  {
    if rows != [] {
      var n := |rows| - 1;
      PendingIsSuffix(rows[..n]);
      if !rows[n].mzProgressed {
        var p := Pending(rows[..n]);
        assert rows[|rows| - |p| - 1..] == rows[..n][n - |p|..] + [rows[n]];
      }
    }
  }

  /** The batches pushed by `_transform` over a stream of rows. */
  function Emitted(rows: seq<TailRow>): seq<seq<TailRow>> {
    if rows == [] then []
    else
      var n := |rows| - 1;
      if rows[n].mzProgressed then Emitted(rows[..n]) + [Batch(Pending(rows[..n]))]
      else Emitted(rows[..n])
  }

  /** The batches pushed over a whole stream, including the one `_flush` adds at its end. */
  function Flushed(rows: seq<TailRow>): seq<seq<TailRow>> {
    Emitted(rows) + if Pending(rows) == [] then [] else [Batch(Pending(rows))]
  }

  /** The number of progress rows in a stream. */
  function ProgressCount(rows: seq<TailRow>): nat {
    if rows == [] then 0
    else
      var n := |rows| - 1;
      ProgressCount(rows[..n]) + if rows[n].mzProgressed then 1 else 0
  }

  /** The antenna ids of an interval, in arrival order. */
  function Ids(interval: seq<TailRow>): (ids: seq<string>)
    ensures ids == KeysOf(Entries(interval))
  {
    seq(|interval|, i requires 0 <= i < |interval| => interval[i].antennaId)
  }

  /** Storing one more row of the interval is one `set` on the buffer. */
  lemma BufferStep(interval: seq<TailRow>, row: TailRow)
    ensures Buffer(interval + [row]) == Buffer(interval).Set(row.antennaId, row)
  {
    var kvs := Entries(interval + [row]);
    assert kvs[..|interval|] == Entries(interval);
  }

  /** The buffer is empty exactly when no row arrived in the interval. */
  lemma BufferEmpty(interval: seq<TailRow>)
    ensures Buffer(interval).vals == map[] <==> interval == []
  {
    SetAllKeys(Empty(), Entries(interval));
    if interval != [] {
      assert KeysOf(Entries(interval))[0] == interval[0].antennaId;
      assert interval[0].antennaId in Buffer(interval).vals;
    }
  }

  /** Every value in the buffer is stored under its own antenna id and is the last row of the interval with that id. */
  lemma {:induction false} BufferHoldsLatest(interval: seq<TailRow>, id: string)
    requires id in Buffer(interval).vals
    ensures var r := Buffer(interval).vals[id];
      && r.antennaId == id
      && exists j :: 0 <= j < |interval| && interval[j] == r
                     && forall j' :: j < j' < |interval| ==> interval[j'].antennaId != id
  {
    var kvs := Entries(interval);
    SetAllKeys(Empty(), kvs);
    SetAllLastWins(Empty(), kvs, id);
    var j := LastIndex(kvs, id);
    assert interval[j] == Buffer(interval).vals[id];
  }

  /** An emitted batch holds at most one row per antenna id. */
  lemma BatchOnePerAntenna(interval: seq<TailRow>)
    ensures forall i, j :: 0 <= i < j < |Batch(interval)| ==>
      Batch(interval)[i].antennaId != Batch(interval)[j].antennaId
  {
    var m := Buffer(interval);
    forall i | 0 <= i < |m.keys| ensures Batch(interval)[i].antennaId == m.keys[i] {
      BufferHoldsLatest(interval, m.keys[i]);
    }
  }

  /** Every row of an emitted batch is the last row of the interval for its antenna id. */
  lemma BatchIsLatest(interval: seq<TailRow>, i: nat)
    requires i < |Batch(interval)|
    ensures exists j :: 0 <= j < |interval| && interval[j] == Batch(interval)[i]
                        && forall j' :: j < j' < |interval| ==> interval[j'].antennaId != Batch(interval)[i].antennaId
  {
    var m := Buffer(interval);
    BufferHoldsLatest(interval, m.keys[i]);
  }

  /** Every antenna that sent a row in the interval is represented in the batch. */
  lemma BatchCoversInterval(interval: seq<TailRow>, j: nat)
    requires j < |interval|
    ensures exists i :: 0 <= i < |Batch(interval)| && Batch(interval)[i].antennaId == interval[j].antennaId
  {
    var m := Buffer(interval);
    var id := interval[j].antennaId;
    SetAllKeys(Empty(), Entries(interval));
    assert Entries(interval)[j].0 == id;
    assert id in m.vals;
    var i :| 0 <= i < |m.keys| && m.keys[i] == id;
    BufferHoldsLatest(interval, id);
    assert Batch(interval)[i] == m.vals[id];
  }

  /** The rows of a batch come in the order in which their antennas first appeared in the interval. */
  lemma BatchFirstSeenOrder(interval: seq<TailRow>)
    ensures forall r :: r in Batch(interval) ==> r.antennaId in Ids(interval)
    ensures forall i, j :: 0 <= i < j < |Batch(interval)| ==>
      FirstIndex(Ids(interval), Batch(interval)[i].antennaId) < FirstIndex(Ids(interval), Batch(interval)[j].antennaId)
  {
    var m := Buffer(interval);
    SetAllFirstSeenOrder(Entries(interval));
    forall i | 0 <= i < |m.keys| ensures Batch(interval)[i].antennaId == m.keys[i] {
      BufferHoldsLatest(interval, m.keys[i]);
    }
  }

  /** Exactly one batch is emitted per progress row. */
  lemma {:induction false} EmittedCount(rows: seq<TailRow>)
    ensures |Emitted(rows)| == ProgressCount(rows)
  {
    if rows != [] {
      EmittedCount(rows[..|rows| - 1]);
    }
  }

  /** No progress row ever appears in an emitted batch. */
  lemma {:induction false} EmittedExcludesProgress(rows: seq<TailRow>)
    ensures forall b, r :: b in Emitted(rows) && r in b ==> !r.mzProgressed
  {
    if rows != [] {
      var n := |rows| - 1;
      EmittedExcludesProgress(rows[..n]);
      if rows[n].mzProgressed {
        var p := Pending(rows[..n]);
        forall r | r in Batch(p) ensures !r.mzProgressed {
          var i :| 0 <= i < |Batch(p)| && Batch(p)[i] == r;
          BatchIsLatest(p, i);
        }
      }
    }
  }

  /** A stream of non-progress rows emits nothing and leaves all of them pending. */
  lemma {:induction false} NoProgressNoBatch(rows: seq<TailRow>)
    requires forall r :: r in rows ==> !r.mzProgressed
    ensures Emitted(rows) == [] && Pending(rows) == rows
  {
    if rows != [] {
      var n := |rows| - 1;
      assert rows == rows[..n] + [rows[n]];
      NoProgressNoBatch(rows[..n]);
    }
  }

  /** What one more row does to the pending interval and to the emitted batches. */
  lemma StreamStep(rows: seq<TailRow>, row: TailRow)
    ensures row.mzProgressed ==> Pending(rows + [row]) == [] && Emitted(rows + [row]) == Emitted(rows) + [Batch(Pending(rows))]
    ensures !row.mzProgressed ==> Pending(rows + [row]) == Pending(rows) + [row] && Emitted(rows + [row]) == Emitted(rows)
  {
    assert (rows + [row])[..|rows|] == rows;
  }

  /** What one more row does to the buffer. */
  lemma BufferAfter(rows: seq<TailRow>, row: TailRow)
    ensures row.mzProgressed ==> Buffer(Pending(rows + [row])) == Empty()
    ensures !row.mzProgressed ==> Buffer(Pending(rows + [row])) == Buffer(Pending(rows)).Set(row.antennaId, row)
  {
    StreamStep(rows, row);
    if row.mzProgressed {
      assert Entries([]) == [];
    } else {
      BufferStep(Pending(rows), row);
    }
  }

  /** After a progress row, what came before no longer matters to the pending interval. */
  lemma {:induction false} PendingAfterMarker(pre: seq<TailRow>, marker: TailRow, post: seq<TailRow>)
    requires marker.mzProgressed
    requires forall r :: r in post ==> !r.mzProgressed
    ensures Pending(pre + [marker] + post) == post
    ensures Emitted(pre + [marker] + post) == Emitted(pre + [marker])
    decreases |post|
  {
    if post == [] {
      assert pre + [marker] + post == pre + [marker];
      StreamStep(pre, marker);
    } else {
      var n := |post| - 1;
      var front := pre + [marker] + post[..n];
      assert pre + [marker] + post == front + [post[n]];
      assert post[n] in post;
      PendingAfterMarker(pre, marker, post[..n]);
      StreamStep(front, post[n]);
      assert post[..n] + [post[n]] == post;
    }
  }

  /** A stream with exactly one progress row emits exactly one batch: the latest row per antenna seen before it. */
  lemma SingleMarker(pre: seq<TailRow>, marker: TailRow, post: seq<TailRow>)
    requires marker.mzProgressed
    requires forall r :: r in pre ==> !r.mzProgressed
    requires forall r :: r in post ==> !r.mzProgressed
    ensures Emitted(pre + [marker] + post) == [Batch(pre)]
    ensures Pending(pre + [marker] + post) == post
  {
    NoProgressNoBatch(pre);
    PendingAfterMarker(pre, marker, post);
    assert (pre + [marker])[..|pre|] == pre;
  }

  /** The state of the stage after the rows of `input`: its buffer and what it has pushed. */
  ghost predicate Coalesced(input: seq<TailRow>, batchMap: OMap<string, TailRow>, output: seq<seq<TailRow>>) {
    && batchMap == Buffer(Pending(input))
    && output == Emitted(input)
  }

  /** One call of `_transform` keeps the buffer and the output in step with the rows received. */
  lemma TransformPreserves(input: seq<TailRow>, batchMap: OMap<string, TailRow>, output: seq<seq<TailRow>>, row: TailRow)
    requires Coalesced(input, batchMap, output)
    ensures row.mzProgressed ==> Coalesced(input + [row], Empty(), output + [batchMap.Values()])
    ensures !row.mzProgressed ==> Coalesced(input + [row], batchMap.Set(row.antennaId, row), output)
  {
    StreamStep(input, row);
    BufferAfter(input, row);
  }

  /** `_flush` pushes the pending batch exactly when the buffer is non-empty. */
  lemma FlushOutput(input: seq<TailRow>, batchMap: OMap<string, TailRow>, output: seq<seq<TailRow>>)
    requires Coalesced(input, batchMap, output)
    ensures batchMap.Size() > 0 ==> Flushed(input) == output + [batchMap.Values()]
    ensures batchMap.Size() == 0 ==> Flushed(input) == output
  {
    BufferEmpty(Pending(input));
  }

  /** The coalescing transform stage (`TransformStream`). */
  class TransformStream {
    /** `batchMap`: the latest row per antenna id since the last push. */
    var batchMap: OMap<string, TailRow>
    /** The arrays pushed downstream so far. */
    var output: seq<seq<TailRow>>
    /** How many times the stream callback was invoked. */
    var callbacks: nat
    /** Every row given to `_transform` so far. */
    ghost var input: seq<TailRow>

    ghost predicate Valid()
      reads this
    {
      && Coalesced(input, batchMap, output)
      && callbacks == |input|
    }

    /** A new stream has an empty buffer and has pushed nothing. */
    constructor ()
      ensures Valid()
      ensures input == [] && output == [] && callbacks == 0
      ensures batchMap == Empty()
    {
      batchMap := Empty();
      output := [];
      callbacks := 0;
      input := [];
      new;
      CleanBatch();
    }

    /** `cleanBatch`: replaces the buffer by a new, empty map. */
    method CleanBatch()
      modifies this`batchMap
      ensures batchMap == Empty()
    {
      batchMap := Empty();
    }

    /** `_transform`: a progress row pushes the buffer and clears it; any other row is stored under its antenna id. */
    method Transform(row: TailRow)
      requires Valid()
      modifies this
      ensures Valid()
      ensures input == old(input) + [row]
      ensures callbacks == old(callbacks) + 1
      ensures row.mzProgressed ==> output == old(output) + [old(batchMap).Values()]
      ensures row.mzProgressed ==> batchMap == Empty()
      ensures !row.mzProgressed ==> output == old(output)
      ensures !row.mzProgressed ==> batchMap == old(batchMap).Set(row.antennaId, row)
    {
      ghost var input0, batchMap0, output0 := input, batchMap, output;
      if row.mzProgressed {
        output := output + [batchMap.Values()];
        CleanBatch();
      } else {
        batchMap := batchMap.Set(row.antennaId, row);
      }
      input := input + [row];
      callbacks := callbacks + 1;
      TransformPreserves(input0, batchMap0, output0, row);
    }

    /** `_flush`: at the end of the stream, pushes the remainder only if the buffer is non-empty. */
    method Flush()
      requires Valid()
      modifies this
      ensures output == Flushed(input)
      ensures old(batchMap.Size()) == 0 ==> output == old(output)
      ensures old(batchMap.Size()) > 0 ==> output == old(output) + [old(batchMap).Values()]
      ensures batchMap == Empty()
      ensures callbacks == old(callbacks) + 1
      ensures input == old(input)
    {
      FlushOutput(input, batchMap, output);
      ghost var flushed := Flushed(input);
      if batchMap.Size() > 0 {
        output := output + [batchMap.Values()];
        CleanBatch();
      }
      assert output == flushed;
      callbacks := callbacks + 1;
    }
  }
}
