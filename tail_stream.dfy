/**
 * The cursor reader: a readable stream that pulls rows from a server-side
 * `TAIL` cursor with `FETCH n <cursor> WITH (TIMEOUT='1s')` and pushes them
 * downstream one by one.
 *
 * The query is asynchronous in `TailStream._read`; here its answer is a parameter
 * of `Read`, and it is consulted only when `Read` actually issues a query.
 */
module CursorReader {
  import opened Wrappers

  /** The query text `FETCH <count> <cursor> WITH (TIMEOUT='<timeoutSeconds>s')`. */
  datatype FetchQuery = Fetch(count: nat, cursorId: string, timeoutSeconds: nat)

  /** What the database answers to a `FETCH`: some rows (possibly none), or an error. */
  datatype FetchResult<T> = Rows(rows: seq<T>) | QueryError(error: string)

  /** The `TailStream` readable stream. */
  class TailStream<T> {
    const cursorId: string
    /** How many rows of `currentRows` have not been pushed yet. */
    var pendingReads: nat
    /** The rows of the last fetch (or what remains of them). */
    var currentRows: seq<T>
    /** Every row pushed downstream so far, in order. */
    var pushed: seq<T>
    /** Every query sent on the cursor so far, in order. */
    var queries: seq<FetchQuery>
    /** The error the stream was destroyed with, if any. */
    var destroyedWith: Option<string>
    /** Every row the cursor returned so far, in order. */
    ghost var fetched: seq<T>

    /**
     * The undelivered rows are the last `pendingReads` of `currentRows`, and
     * what was pushed followed by them is exactly what was fetched.
     */
    ghost predicate Valid()
      reads this
    {
      && pendingReads <= |currentRows|
      && fetched == pushed + currentRows[|currentRows| - pendingReads..]
    }

    /** A new stream has nothing pending, has fetched nothing and has pushed nothing. */
    constructor (cursorId: string)
      ensures Valid()
      ensures this.cursorId == cursorId
      ensures pendingReads == 0 && currentRows == [] && pushed == [] && fetched == []
      ensures queries == [] && destroyedWith == None
    {
      this.cursorId := cursorId;
      pendingReads := 0;
      currentRows := [];
      pushed := [];
      queries := [];
      destroyedWith := None;
      fetched := [];
    }

    /** `this.push(row)`: appends the row to what was delivered downstream. */
    method Push(row: T)
      modifies this`pushed
      ensures pushed == old(pushed) + [row]
    {
      pushed := pushed + [row];
    }

    /**
     * `this.destroy(err)`: the stream enters its failed state with that error.
     */
    method Destroy(error: string)
      modifies this`destroyedWith
      ensures destroyedWith == Some(error)
    {
      destroyedWith := Some(error);
    }

    /**
     * Pushes every row of `rows` in order, counting `pendingReads` down once per
     * row. The `return` in each `forEach` callback of `TailStream._read` leaves only that
     * callback, so the result of `push` never stops the delivery.
     */
    method PushAll(rows: seq<T>)
      requires pendingReads == |rows|
      modifies this`pendingReads, this`pushed
      ensures pendingReads == 0
      ensures pushed == old(pushed) + rows
    {
      var i := 0;
      while i < |rows|
        invariant 0 <= i <= |rows|
        invariant pendingReads == |rows| - i
        invariant pushed == old(pushed) + rows[..i]
      {
        var row := rows[i];
        pendingReads := pendingReads - 1;
        Push(row);
        i := i + 1;
      }
    }

    /**
     * `_read(n)`: with nothing pending, sends one `FETCH n` with a one-second
     * timeout and pushes every returned row; a failed query destroys the
     * stream. With rows pending, sends nothing and pushes the undelivered
     * suffix of `currentRows`. Either way nothing is left pending.
     */
    method Read(n: nat, answer: FetchResult<T>)
      requires Valid()
      modifies this
      ensures Valid()
      ensures pendingReads == 0 && pushed == fetched
      ensures old(pendingReads) == 0 ==> queries == old(queries) + [Fetch(n, cursorId, 1)]
      ensures old(pendingReads) == 0 && answer.Rows? ==>
        && currentRows == answer.rows
        && fetched == old(fetched) + answer.rows
        && pushed == old(pushed) + answer.rows
        && destroyedWith == old(destroyedWith)
      ensures old(pendingReads) == 0 && answer.QueryError? ==>
        && destroyedWith == Some(answer.error)
        && currentRows == old(currentRows)
        && fetched == old(fetched)
        && pushed == old(pushed)
      ensures old(pendingReads) > 0 ==>
        && queries == old(queries)
        && currentRows == old(currentRows)[|old(currentRows)| - old(pendingReads)..]
        && fetched == old(fetched)
        && pushed == old(pushed) + currentRows
        && destroyedWith == old(destroyedWith)
    {
      if pendingReads == 0 {
        queries := queries + [Fetch(n, cursorId, 1)];
        match answer
        case Rows(rows) =>
          pendingReads := |rows|;
          currentRows := rows;
          fetched := fetched + rows;
          PushAll(rows);
        case QueryError(error) =>
          Destroy(error);
      } else {
        currentRows := currentRows[|currentRows| - pendingReads..|currentRows|];
        PushAll(currentRows);
      }
    }
  }
}
