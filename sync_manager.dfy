/** Copying warehouse tables into the relational database: the count, the
    single or chunked transfer, the index pass, and the loop over a
    dataset's tables. Every request to the outside is one `Call` appended to
    the synchroniser's trace; what the outside answers, and which calls
    raise, is fixed by an `Env`. */
module SyncManager {
  import opened Common
  import opened Text

  /** The table writer's `if_exists`. */
  datatype Mode = Fail | Replace | Append

  /** One request to the warehouse or to the database. */
  datatype Call =
    | CountRows(dataset: string, table: string)                            // SELECT COUNT(*) from the warehouse
    | FetchAll(dataset: string, table: string)                             // SELECT * from the warehouse
    | FetchChunk(dataset: string, table: string, limit: nat, offset: nat)  // SELECT * ... LIMIT ... OFFSET ...
    | Write(dataset: string, table: string, mode: Mode, offset: nat, rows: nat)  // writing the rows fetched at `offset`
    | Inspect(dataset: string, table: string)                              // connecting and reading the column catalog
    | CreateIndex(dataset: string, table: string, name: string, column: string)
    | ListTables(dataset: string)                                          // the dataset's table listing

  /** The outside world: row counts, column names and table listings as
      the services report them, and the error message a call raises, if
      any. */
  datatype Env = Env(
    rowCount: (string, string) -> nat,
    columns: (string, string) -> seq<string>,
    tables: string -> seq<string>,
    fails: Call -> Option<string>)

  datatype Status = Success | Error

  /** The dictionary a table sync returns, without its duration. */
  datatype SyncResult = SyncResult(status: Status, message: string, rowsSynced: Option<nat>)

  /** Calls issued in order, and the error that stopped them, if any. */
  datatype Run = Run(calls: seq<Call>, error: Option<string>)

  datatype TableRun = TableRun(calls: seq<Call>, result: SyncResult)

  const DefaultChunkSize: nat := 10000

  /** What Python reports when the chunked path reaches the index step,
      where the single-shot table variable was never assigned. */
  const UnboundDf := "cannot access local variable 'df' where it is not associated with a value"

  function Failed(message: string): SyncResult
  {
    SyncResult(Error, message, None)
  }

  predicate Unfailing(env: Env, calls: seq<Call>)
  {
    forall k :: 0 <= k < |calls| ==> env.fails(calls[k]).None?
  }

  function Min(a: int, b: int): int
  {
    if a <= b then a else b
  }

  // ---------------------------------------------------------------------
  // The chunk loop
  // ---------------------------------------------------------------------

  /** One pass of the chunk loop: the window's offset, the number of rows
      the window holds, and the mode of its write. */
  datatype Chunk = Chunk(offset: nat, size: nat, mode: Mode)

  /** The windows the loop visits from `offset` on, each `c` rows wide; only
      the window at offset 0 writes with the caller's mode. */
  function Chunks(c: nat, mode: Mode, offset: nat, total: nat): seq<Chunk>
    requires c > 0
    decreases total - offset
  {
    if offset >= total then []
    else [Chunk(offset, Min(c, total - offset), if offset > 0 then Append else mode)] + Chunks(c, mode, offset + c, total)
  }

  /** No window is empty or wider than `c` or starts before `offset`, and
      only a window at offset 0 keeps the caller's mode. */
  lemma {:induction false} ChunksBounded(c: nat, mode: Mode, offset: nat, total: nat)
    requires c > 0
    ensures forall ch :: ch in Chunks(c, mode, offset, total) ==>
              0 < ch.size <= c && ch.offset >= offset && ch.mode == if ch.offset > 0 then Append else mode
    decreases total - offset
  {
    if offset < total {
      ChunksBounded(c, mode, offset + c, total);
    }
  }

  /** The windows tile `[offset, total)`: the first starts at `offset`,
      each later one where the previous one ends, the last ends at `total`. */
  lemma {:induction false} ChunksTile(c: nat, mode: Mode, offset: nat, total: nat)
    requires c > 0 && offset < total
    ensures var r := Chunks(c, mode, offset, total);
            |r| > 0 && r[0].offset == offset &&
            r[|r| - 1].offset + r[|r| - 1].size == total &&
            (forall k :: 0 <= k < |r| - 1 ==> r[k].offset + r[k].size == r[k + 1].offset)
    decreases total - offset
  {
    var r := Chunks(c, mode, offset, total);
    var rest := Chunks(c, mode, offset + c, total);
    if offset + c < total {
      ChunksTile(c, mode, offset + c, total);
      assert r[|r| - 1] == rest[|rest| - 1];
      forall k | 0 <= k < |r| - 1
        ensures r[k].offset + r[k].size == r[k + 1].offset
      {
        assert r[k + 1] == rest[k];
        if k > 0 {
          assert r[k] == rest[k - 1];
        }
      }
    }
  }

  /** Each window ends before any later one starts. */
  predicate InOrder(r: seq<Chunk>)
  {
    forall i, j :: 0 <= i < j < |r| ==> r[i].offset + r[i].size <= r[j].offset
  }

  /** Later windows lie wholly after earlier ones: no row is fetched twice,
      and the writes go in increasing offset order. */
  lemma {:induction false} ChunksOrdered(c: nat, mode: Mode, offset: nat, total: nat)
    requires c > 0
    ensures InOrder(Chunks(c, mode, offset, total))
    decreases total - offset
  {
    var r := Chunks(c, mode, offset, total);
    if offset < total {
      var rest := Chunks(c, mode, offset + c, total);
      assert r == [r[0]] + rest;
      ChunksOrdered(c, mode, offset + c, total);
      ChunksBounded(c, mode, offset + c, total);
      forall i, j | 0 <= i < j < |r|
        ensures r[i].offset + r[i].size <= r[j].offset
      {
        assert r[j] == rest[j - 1] && rest[j - 1] in rest;
        if i > 0 {
          assert r[i] == rest[i - 1];
        } else {
          assert r[0].offset + r[0].size <= offset + c;
        }
      }
    }
  }

  /** The window at position `k` starts at `start + k * c`. */
  predicate StartsEvery(r: seq<Chunk>, start: nat, c: nat)
  {
    forall k :: 0 <= k < |r| ==> r[k].offset == start + k * c
  }

  /** The k-th window starts at `offset + k * c`. */
  lemma {:induction false} ChunkOffsets(c: nat, mode: Mode, offset: nat, total: nat)
    requires c > 0
    ensures StartsEvery(Chunks(c, mode, offset, total), offset, c)
    decreases total - offset
  {
    var r := Chunks(c, mode, offset, total);
    if offset < total {
      var rest := Chunks(c, mode, offset + c, total);
      assert r == [r[0]] + rest && r[0].offset == offset;
      ChunkOffsets(c, mode, offset + c, total);
      forall k | 0 < k < |r|
        ensures r[k].offset == offset + k * c
      {
        var j := k - 1;
        assert r[k] == rest[j];
        assert rest[j].offset == offset + c + j * c;
        assert j * c + c == k * c;
      }
    }
  }

  /** The number of windows is the ceiling of `(total - offset) / c`: the
      last one starts below `total` and one more would start at or past it. */
  lemma {:induction false} ChunkCount(c: nat, mode: Mode, offset: nat, total: nat)
    requires c > 0 && offset < total
    ensures var n := |Chunks(c, mode, offset, total)|;
            n > 0 && (n - 1) * c < total - offset <= n * c
    ensures |Chunks(c, mode, offset, total)| == (total - offset + c - 1) / c
    decreases total - offset
  {
    var n := |Chunks(c, mode, offset, total)|;
    if offset + c < total {
      ChunkCount(c, mode, offset + c, total);
      var m := |Chunks(c, mode, offset + c, total)|;
      assert n == m + 1;
      MulSucc(m, c);
      MulSucc(m - 1, c);
    }
    CeilingUnique(n, total - offset, c);
  }

  lemma {:induction false} MulSucc(m: int, c: int)
    ensures (m + 1) * c == m * c + c
  {
  }

  /** `n` is the ceiling of `t / c` exactly when `(n - 1) * c < t <= n * c`. */
  lemma {:induction false} CeilingUnique(n: nat, t: nat, c: nat)
    requires c > 0 && t > 0 && (n - 1) * c < t <= n * c
    ensures n == (t + c - 1) / c
  {
    var q := (t + c - 1) / c;
    var rem := (t + c - 1) % c;
    assert t + c - 1 == q * c + rem && 0 <= rem < c;
    if n > q {
      MulMonotone(q, n - 1, c);
      assert false;
    } else if n < q {
      MulMonotone(n, q - 1, c);
      assert false;
    }
  }

  lemma {:induction false} MulMonotone(a: int, b: int, c: nat)
    requires a <= b
    ensures a * c <= b * c
  {
    assert b * c - a * c == (b - a) * c;
  }

  function SumSizes(chunks: seq<Chunk>): nat
  {
    if chunks == [] then 0 else chunks[0].size + SumSizes(chunks[1..])
  }

  /** The windows hold `total - offset` rows between them. */
  lemma {:induction false} ChunkSizesSum(c: nat, mode: Mode, offset: nat, total: nat)
    requires c > 0 && offset <= total
    ensures SumSizes(Chunks(c, mode, offset, total)) == total - offset
    decreases total - offset
  {
    var r := Chunks(c, mode, offset, total);
    if offset < total {
      assert r[1..] == Chunks(c, mode, offset + c, total);
      if offset + c <= total {
        ChunkSizesSum(c, mode, offset + c, total);
      } else {
        assert r[1..] == [];
      }
    }
  }

  /** Row `row` lies in window `k` of `r`. */
  predicate InWindow(r: seq<Chunk>, k: int, row: nat)
  {
    0 <= k < |r| && r[k].offset <= row < r[k].offset + r[k].size
  }

  /** Every row below `total` lies in one of the windows. */
  lemma {:induction false} ChunksCover(c: nat, mode: Mode, offset: nat, total: nat, row: nat)
    requires c > 0 && offset <= row < total
    ensures exists k :: InWindow(Chunks(c, mode, offset, total), k, row)
    decreases total - offset
  {
    var r := Chunks(c, mode, offset, total);
    var rest := Chunks(c, mode, offset + c, total);
    assert r == [r[0]] + rest;
    if row >= offset + c {
      ChunksCover(c, mode, offset + c, total, row);
      var k :| InWindow(rest, k, row);
      assert r[k + 1] == rest[k];
      assert InWindow(r, k + 1, row);
    } else {
      assert InWindow(r, 0, row);
    }
  }

  /** The calls of the chunk loop when nothing fails: for each window a fetch
      of `c` rows at its offset, then a write of its rows with its mode. */
  function ChunkCalls(ds: string, t: string, c: nat, chunks: seq<Chunk>): (r: seq<Call>)
    ensures |r| == 2 * |chunks|
  {
    if chunks == [] then []
    else [FetchChunk(ds, t, c, chunks[0].offset), Write(ds, t, chunks[0].mode, chunks[0].offset, chunks[0].size)] +
         ChunkCalls(ds, t, c, chunks[1..])
  }

  /** One pass of the chunk loop at `offset`: fetch the window, then write
      it, stopping at whichever raises. */
  function Pass(env: Env, ds: string, t: string, c: nat, mode: Mode, offset: nat, total: nat): Run
    requires offset < total
  {
    var fetch := FetchChunk(ds, t, c, offset);
    var write := Write(ds, t, if offset > 0 then Append else mode, offset, Min(c, total - offset));
    if env.fails(fetch).Some? then Run([fetch], env.fails(fetch))
    else if env.fails(write).Some? then Run([fetch, write], env.fails(write))
    else Run([fetch, write], None)
  }

  /** The chunk loop in `env` from `offset` on: the calls it issues,
      stopping at the first one that raises. */
  function ChunkLoop(env: Env, ds: string, t: string, c: nat, mode: Mode, offset: nat, total: nat): Run
    requires c > 0
    decreases total - offset
  {
    if offset >= total then Run([], None)
    else
      var pass := Pass(env, ds, t, c, mode, offset, total);
      if pass.error.Some? then pass
      else
        var rest := ChunkLoop(env, ds, t, c, mode, offset + c, total);
        Run(pass.calls + rest.calls, rest.error)
  }

  /** The loop issues a prefix of the calls of its windows, in order;
      without an error it has issued them all. */
  lemma {:induction false} ChunkLoopFollowsPlan(env: Env, ds: string, t: string, c: nat, mode: Mode,
                                                offset: nat, total: nat)
    requires c > 0
    ensures ChunkLoop(env, ds, t, c, mode, offset, total).calls <= ChunkCalls(ds, t, c, Chunks(c, mode, offset, total))
    ensures ChunkLoop(env, ds, t, c, mode, offset, total).error.None? ==>
              ChunkLoop(env, ds, t, c, mode, offset, total).calls == ChunkCalls(ds, t, c, Chunks(c, mode, offset, total))
    decreases total - offset
  {
    if offset < total {
      var chunks := Chunks(c, mode, offset, total);
      assert chunks[1..] == Chunks(c, mode, offset + c, total);
      var pass := Pass(env, ds, t, c, mode, offset, total);
      if pass.error.None? {
        ChunkLoopFollowsPlan(env, ds, t, c, mode, offset + c, total);
        var rest := ChunkLoop(env, ds, t, c, mode, offset + c, total);
        var plan := ChunkCalls(ds, t, c, Chunks(c, mode, offset + c, total));
        assert (pass.calls + plan)[..|pass.calls + rest.calls|] == pass.calls + rest.calls;
      }
    }
  }

  /** Every call but the last one succeeded. */
  predicate SucceedsBeforeLast(env: Env, calls: seq<Call>)
  {
    forall k :: 0 <= k < |calls| - 1 ==> env.fails(calls[k]).None?
  }

  /** The loop stops right after the first call that raises, with that
      call's error. */
  lemma {:induction false} ChunkLoopStops(env: Env, ds: string, t: string, c: nat, mode: Mode, offset: nat, total: nat)
    requires c > 0
    ensures ChunkLoop(env, ds, t, c, mode, offset, total).error.Some? ==>
              var calls := ChunkLoop(env, ds, t, c, mode, offset, total).calls;
              calls != [] && env.fails(calls[|calls| - 1]) == ChunkLoop(env, ds, t, c, mode, offset, total).error
    ensures SucceedsBeforeLast(env, ChunkLoop(env, ds, t, c, mode, offset, total).calls)
    decreases total - offset
  {
    if offset < total {
      var pass := Pass(env, ds, t, c, mode, offset, total);
      if pass.error.None? {
        ChunkLoopStops(env, ds, t, c, mode, offset + c, total);
        var rest := ChunkLoop(env, ds, t, c, mode, offset + c, total);
        var calls := pass.calls + rest.calls;
        assert |pass.calls| == 2;
        forall k | 0 <= k < |calls| - 1
          ensures env.fails(calls[k]).None?
        {
          if k >= 2 {
            assert calls[k] == rest.calls[k - 2];
          }
        }
        if rest.error.Some? {
          assert calls[|calls| - 1] == rest.calls[|rest.calls| - 1];
        }
      }
    }
  }

  /** The chunk loop's invariant: `base` followed by the loop's whole run
      is what `issued` followed by the run from `offset` on will be. */
  predicate LoopInvariant(env: Env, ds: string, t: string, c: nat, mode: Mode, total: nat,
                          offset: nat, base: seq<Call>, issued: seq<Call>)
    requires c > 0
  {
    var whole := ChunkLoop(env, ds, t, c, mode, 0, total);
    var rest := ChunkLoop(env, ds, t, c, mode, offset, total);
    base + whole.calls == issued + rest.calls && whole.error == rest.error
  }

  /** One pass keeps the invariant, or ends the whole run with its error. */
  lemma {:induction false} LoopStep(env: Env, ds: string, t: string, c: nat, mode: Mode, total: nat,
                 offset: nat, base: seq<Call>, issued: seq<Call>)
    requires c > 0 && offset < total
    requires LoopInvariant(env, ds, t, c, mode, total, offset, base, issued)
    ensures var pass := Pass(env, ds, t, c, mode, offset, total);
            var whole := ChunkLoop(env, ds, t, c, mode, 0, total);
            pass.error.Some? ==> base + whole.calls == issued + pass.calls && whole.error == pass.error
    ensures var pass := Pass(env, ds, t, c, mode, offset, total);
            pass.error.None? ==> LoopInvariant(env, ds, t, c, mode, total, offset + c, base, issued + pass.calls)
  {
    var pass := Pass(env, ds, t, c, mode, offset, total);
    var rest := ChunkLoop(env, ds, t, c, mode, offset + c, total);
    assert issued + (pass.calls + rest.calls) == (issued + pass.calls) + rest.calls;
    if pass.error.Some? {
      assert issued + (pass.calls + []) == issued + pass.calls;
    }
  }

  /** Once the offset reaches the total, the calls issued are the whole run. */
  lemma {:induction false} LoopEnd(env: Env, ds: string, t: string, c: nat, mode: Mode, total: nat,
                offset: nat, base: seq<Call>, issued: seq<Call>)
    requires c > 0 && offset >= total
    requires LoopInvariant(env, ds, t, c, mode, total, offset, base, issued)
    ensures var whole := ChunkLoop(env, ds, t, c, mode, 0, total);
            base + whole.calls == issued && whole.error.None?
  {
    assert issued + [] == issued;
  }

  /** When none of the windows' calls raises, the loop issues all of them. */
  lemma {:induction false} UnfailingChunksComplete(env: Env, ds: string, t: string, c: nat, mode: Mode, offset: nat, total: nat)
    requires c > 0
    requires Unfailing(env, ChunkCalls(ds, t, c, Chunks(c, mode, offset, total)))
    ensures ChunkLoop(env, ds, t, c, mode, offset, total) == Run(ChunkCalls(ds, t, c, Chunks(c, mode, offset, total)), None)
  {
    ChunkLoopFollowsPlan(env, ds, t, c, mode, offset, total);
    ChunkLoopStops(env, ds, t, c, mode, offset, total);
  }

  // ---------------------------------------------------------------------
  // The index pass
  // ---------------------------------------------------------------------

  /** A name suggesting an identifier or a key. */
  predicate IdLike(col: string)
  {
    var l := ToLower(col);
    Contains(l, "id") || Contains(l, "key") || Contains(l, "code")
  }

  /** A name suggesting a date or a time. */
  predicate TimeLike(col: string)
  {
    var l := ToLower(col);
    Contains(l, "date") || Contains(l, "time")
  }

  predicate IsIndexHint(col: string)
  {
    IdLike(col) || TimeLike(col)
  }

  function IndexName(ds: string, t: string, col: string): string
  {
    "idx_" + ds + "_" + t + "_" + col
  }

  function IndexStatement(ds: string, t: string, col: string): Call
  {
    CreateIndex(ds, t, IndexName(ds, t, col), col)
  }

  /** The index statements for the given columns, in column order. */
  function IndexStatements(ds: string, t: string, cols: seq<string>): (r: seq<Call>)
    ensures |r| <= |cols|
  {
    if cols == [] then []
    else
      var last := cols[|cols| - 1];
      IndexStatements(ds, t, cols[..|cols| - 1]) + (if IsIndexHint(last) then [IndexStatement(ds, t, last)] else [])
  }

  /** A column gets an index statement exactly when its name is a hint,
      once per occurrence, and every statement is the one for its column. */
  lemma {:induction false} IndexStatementsExact(ds: string, t: string, cols: seq<string>)
    ensures forall col :: multiset(IndexStatements(ds, t, cols))[IndexStatement(ds, t, col)] ==
                          if IsIndexHint(col) then multiset(cols)[col] else 0
    ensures forall s :: s in IndexStatements(ds, t, cols) ==>
                          s.CreateIndex? && s == IndexStatement(ds, t, s.column) && s.column in cols && IsIndexHint(s.column)
  {
    if cols != [] {
      var init := cols[..|cols| - 1];
      var last := cols[|cols| - 1];
      IndexStatementsExact(ds, t, init);
      assert cols == init + [last];
      forall col
        ensures multiset(IndexStatements(ds, t, cols))[IndexStatement(ds, t, col)] ==
                if IsIndexHint(col) then multiset(cols)[col] else 0
      {
        assert multiset(cols)[col] == multiset(init)[col] + multiset([last])[col];
      }
    }
  }

  /** The index pass: connect and read the catalog (an error here ends the
      pass and the sync), then one statement per hinted column; a statement
      that raises is reported and the loop goes on. */
  function IndexRun(env: Env, ds: string, t: string, cols: seq<string>): (r: Run)
  {
    var inspect := Inspect(ds, t);
    if env.fails(inspect).Some? then Run([inspect], env.fails(inspect))
    else Run([inspect] + IndexStatements(ds, t, cols), None)
  }

  /** Failing index statements change nothing: two environments that agree
      on the catalog read give the same index pass. */
  lemma {:induction false} IndexFaultsIgnored(env: Env, env': Env, ds: string, t: string, cols: seq<string>)
    requires env.fails(Inspect(ds, t)) == env'.fails(Inspect(ds, t))
    ensures IndexRun(env, ds, t, cols) == IndexRun(env', ds, t, cols)
  {
  }

  /** A column named like an identifier is indexed. */
  lemma {:induction false} UserIdIsHint()
    ensures IsIndexHint("user_id")
  {
    assert ToLower("user_id") == "user_id";
    ContainsAt("user_id", "id", 5);
  }

  /** The name test ignores letter case. */
  lemma {:induction false} CreatedDateIsHint()
    ensures IsIndexHint("Created_Date")
  {
    assert ToLower("Created_Date") == "created_date";
    ContainsAt("created_date", "date", 8);
  }

  /** A name whose lower-cased form has none of the letters `i`, `k`, `c`
      and `d` contains none of the hint words. */
  lemma {:induction false} NotHintWithoutLetters(col: string)
    requires var l := ToLower(col); 'i' !in l && 'k' !in l && 'c' !in l && 'd' !in l
    ensures !IsIndexHint(col)
  {
    var l := ToLower(col);
    MissingCharNotContained(l, "id", 'i');
    MissingCharNotContained(l, "key", 'k');
    MissingCharNotContained(l, "code", 'c');
    MissingCharNotContained(l, "date", 'd');
    MissingCharNotContained(l, "time", 'i');
  }

  /** A column named like a measure is not indexed. */
  lemma {:induction false} AmountIsNotHint()
    ensures !IsIndexHint("amount")
  {
    assert ToLower("amount") == "amount";
    NotHintWithoutLetters("amount");
  }

  // ---------------------------------------------------------------------
  // One table
  // ---------------------------------------------------------------------

  /** The single-shot branch of `sync_table` for a table of `total` rows:
      fetch all, write all, then the index pass. */
  function SingleShotRun(env: Env, ds: string, t: string, mode: Mode, total: nat): TableRun
  {
    var fetch := FetchAll(ds, t);
    var write := Write(ds, t, mode, 0, total);
    if env.fails(fetch).Some? then TableRun([fetch], Failed(env.fails(fetch).value))
    else if env.fails(write).Some? then TableRun([fetch, write], Failed(env.fails(write).value))
    else
      var index := IndexRun(env, ds, t, env.columns(ds, t));
      TableRun([fetch, write] + index.calls,
               if index.error.Some? then Failed(index.error.value)
               else SyncResult(Success, "Synced " + NatToString(total) + " rows", Some(total)))
  }

  /** `sync_table` in `env`: the calls it issues and the result it returns.
      Every error is caught and becomes an error result. */
  function SyncTableRun(env: Env, ds: string, t: string, c: nat, mode: Mode): TableRun
    requires c > 0
  {
    var count := CountRows(ds, t);
    if env.fails(count).Some? then TableRun([count], Failed(env.fails(count).value))
    else
      var total := env.rowCount(ds, t);
      if total == 0 then TableRun([count], SyncResult(Success, "Table is empty", Some(0)))
      else if total > c then
        var run := ChunkLoop(env, ds, t, c, mode, 0, total);
        TableRun([count] + run.calls, Failed(if run.error.Some? then run.error.value else UnboundDf))
      else
        var single := SingleShotRun(env, ds, t, mode, total);
        TableRun([count] + single.calls, single.result)
  }

  /** An empty table is reported synced with no rows, and nothing is
      fetched or written. */
  lemma {:induction false} EmptyTableSkipsTransfer(env: Env, ds: string, t: string, c: nat, mode: Mode)
    requires c > 0 && env.fails(CountRows(ds, t)).None? && env.rowCount(ds, t) == 0
    ensures SyncTableRun(env, ds, t, c, mode) ==
            TableRun([CountRows(ds, t)], SyncResult(Success, "Table is empty", Some(0)))
  {
  }

  /** A table no larger than the chunk size is fetched once and written
      once with the caller's mode, then indexed; the result reports the
      counted rows. */
  lemma {:induction false} SmallTableSingleShot(env: Env, ds: string, t: string, c: nat, mode: Mode)
    requires c > 0 && 0 < env.rowCount(ds, t) <= c
    requires Unfailing(env, [CountRows(ds, t), FetchAll(ds, t), Write(ds, t, mode, 0, env.rowCount(ds, t)), Inspect(ds, t)])
    ensures var run := SyncTableRun(env, ds, t, c, mode);
            var total := env.rowCount(ds, t);
            run.calls == [CountRows(ds, t), FetchAll(ds, t), Write(ds, t, mode, 0, total), Inspect(ds, t)] +
                         IndexStatements(ds, t, env.columns(ds, t)) &&
            run.result == SyncResult(Success, "Synced " + NatToString(total) + " rows", Some(total))
  {
    var calls := [CountRows(ds, t), FetchAll(ds, t), Write(ds, t, mode, 0, env.rowCount(ds, t)), Inspect(ds, t)];
    assert env.fails(calls[0]).None? && env.fails(calls[1]).None?;
    assert env.fails(calls[2]).None? && env.fails(calls[3]).None?;
  }

  /** A table larger than the chunk size is fetched and written window by
      window, and the sync then always ends in an error: the index step
      reads a table variable only the single-shot path assigns. With no
      failing call the error is that one, and every window was transferred. */
  lemma {:induction false} LargeTableChunked(env: Env, ds: string, t: string, c: nat, mode: Mode)
    requires c > 0 && env.fails(CountRows(ds, t)).None? && env.rowCount(ds, t) > c
    ensures var run := SyncTableRun(env, ds, t, c, mode);
            var plan := ChunkCalls(ds, t, c, Chunks(c, mode, 0, env.rowCount(ds, t)));
            run.result.status == Error && run.calls <= [CountRows(ds, t)] + plan &&
            (Unfailing(env, plan) ==> run.calls == [CountRows(ds, t)] + plan && run.result == Failed(UnboundDf))
  {
    var chunks := Chunks(c, mode, 0, env.rowCount(ds, t));
    var plan := ChunkCalls(ds, t, c, chunks);
    var run := ChunkLoop(env, ds, t, c, mode, 0, env.rowCount(ds, t));
    ChunkLoopFollowsPlan(env, ds, t, c, mode, 0, env.rowCount(ds, t));
    assert ([CountRows(ds, t)] + plan)[..1 + |run.calls|] == [CountRows(ds, t)] + plan[..|run.calls|];
    if Unfailing(env, plan) {
      UnfailingChunksComplete(env, ds, t, c, mode, 0, env.rowCount(ds, t));
    }
  }

  /** A sync succeeds exactly when the count works and the table is empty,
      or it fits in one chunk and its fetch, write and catalog read work;
      a success reports the counted rows. */
  lemma {:induction false} SyncSucceedsExactly(env: Env, ds: string, t: string, c: nat, mode: Mode)
    requires c > 0
    ensures var run := SyncTableRun(env, ds, t, c, mode);
            var total := env.rowCount(ds, t);
            (run.result.status == Success <==>
              env.fails(CountRows(ds, t)).None? &&
              (total == 0 || (total <= c && Unfailing(env, [FetchAll(ds, t), Write(ds, t, mode, 0, total), Inspect(ds, t)])))) &&
            (run.result.status == Success ==> run.result.rowsSynced == Some(total))
  {
    var total := env.rowCount(ds, t);
    var tail := [FetchAll(ds, t), Write(ds, t, mode, 0, total), Inspect(ds, t)];
    if Unfailing(env, tail) {
      assert env.fails(tail[0]).None? && env.fails(tail[1]).None? && env.fails(tail[2]).None?;
    }
  }

  // ---------------------------------------------------------------------
  // A dataset
  // ---------------------------------------------------------------------

  datatype TableOutcome = TableOutcome(tableId: string, result: SyncResult)

  datatype DatasetResult =
    | DatasetSynced(tablesSynced: nat, results: seq<TableOutcome>)
    | DatasetFailed(message: string)

  datatype DatasetSteps = DatasetSteps(calls: seq<Call>, outcomes: seq<TableOutcome>)

  datatype DatasetRun = DatasetRun(calls: seq<Call>, result: DatasetResult)

  /** `exclude_tables or []`. */
  function Excluded(excludeTables: Option<seq<string>>): seq<string>
  {
    if excludeTables.Some? then excludeTables.value else []
  }

  /** The tables not excluded, in listing order. */
  function Included(tables: seq<string>, excluded: seq<string>): (r: seq<string>)
    ensures forall x :: x in r <==> x in tables && x !in excluded
  {
    if tables == [] then []
    else
      var last := tables[|tables| - 1];
      Included(tables[..|tables| - 1], excluded) + (if last in excluded then [] else [last])
  }

  /** The loop over the listed tables: each included table is synced with
      the default chunk size and mode, one after the other. */
  function TablesRun(env: Env, ds: string, tables: seq<string>, excluded: seq<string>): DatasetSteps
  {
    if tables == [] then DatasetSteps([], [])
    else
      var prev := TablesRun(env, ds, tables[..|tables| - 1], excluded);
      var t := tables[|tables| - 1];
      if t in excluded then prev
      else
        var run := SyncTableRun(env, ds, t, DefaultChunkSize, Replace);
        DatasetSteps(prev.calls + run.calls, prev.outcomes + [TableOutcome(t, run.result)])
  }

  /** `sync_dataset` in `env`. */
  function SyncDatasetRun(env: Env, ds: string, excludeTables: Option<seq<string>>): DatasetRun
  {
    var list := ListTables(ds);
    if env.fails(list).Some? then DatasetRun([list], DatasetFailed(env.fails(list).value))
    else
      var steps := TablesRun(env, ds, env.tables(ds), Excluded(excludeTables));
      DatasetRun([list] + steps.calls, DatasetSynced(|steps.outcomes|, steps.outcomes))
  }

  /** There is one outcome per included table, in listing order, each the
      result of syncing that table. */
  lemma {:induction false} OutcomesFollowTables(env: Env, ds: string, tables: seq<string>, excluded: seq<string>)
    ensures var steps := TablesRun(env, ds, tables, excluded);
            var inc := Included(tables, excluded);
            |steps.outcomes| == |inc| &&
            forall k :: 0 <= k < |inc| ==>
              steps.outcomes[k] == TableOutcome(inc[k], SyncTableRun(env, ds, inc[k], DefaultChunkSize, Replace).result)
  {
    if tables != [] {
      OutcomesFollowTables(env, ds, tables[..|tables| - 1], excluded);
    }
  }

  /** The table loop's invariant: after the listing request, which follows
      `base`, the requests and outcomes of the first `i` tables. */
  predicate TablesInvariant(env: Env, ds: string, tables: seq<string>, excluded: seq<string>,
                            i: nat, base: seq<Call>, issued: seq<Call>, outcomes: seq<TableOutcome>)
    requires i <= |tables|
  {
    var steps := TablesRun(env, ds, tables[..i], excluded);
    issued == base + ([ListTables(ds)] + steps.calls) && outcomes == steps.outcomes
  }

  /** One more table keeps the invariant: an excluded one adds nothing, an
      included one adds its requests and its outcome. */
  lemma {:induction false} TablesStep(env: Env, ds: string, tables: seq<string>, excluded: seq<string>,
                   i: nat, base: seq<Call>, issued: seq<Call>, outcomes: seq<TableOutcome>)
    requires i < |tables|
    requires TablesInvariant(env, ds, tables, excluded, i, base, issued, outcomes)
    ensures tables[i] in excluded ==>
              TablesInvariant(env, ds, tables, excluded, i + 1, base, issued, outcomes)
    ensures var run := SyncTableRun(env, ds, tables[i], DefaultChunkSize, Replace);
            tables[i] !in excluded ==>
              TablesInvariant(env, ds, tables, excluded, i + 1, base, issued + run.calls,
                              outcomes + [TableOutcome(tables[i], run.result)])
  {
    assert tables[..i + 1][..i] == tables[..i];
    var steps := TablesRun(env, ds, tables[..i], excluded);
    var run := SyncTableRun(env, ds, tables[i], DefaultChunkSize, Replace);
    AppendAfterListing(base, ListTables(ds), steps.calls, run.calls);
  }

  lemma {:induction false} AppendAfterListing(base: seq<Call>, list: Call, done: seq<Call>, more: seq<Call>)
    ensures base + ([list] + (done + more)) == base + ([list] + done) + more
  {
  }

  /** After the last table, the requests and outcomes are those of the
      whole dataset sync. */
  lemma {:induction false} TablesEnd(env: Env, ds: string, excludeTables: Option<seq<string>>,
                  base: seq<Call>, issued: seq<Call>, outcomes: seq<TableOutcome>)
    requires env.fails(ListTables(ds)).None?
    requires TablesInvariant(env, ds, env.tables(ds), Excluded(excludeTables), |env.tables(ds)|, base, issued, outcomes)
    ensures var run := SyncDatasetRun(env, ds, excludeTables);
            issued == base + run.calls && run.result == DatasetSynced(|outcomes|, outcomes)
  {
    assert env.tables(ds)[..|env.tables(ds)|] == env.tables(ds);
  }

  /** A dataset sync fails only when the table listing fails; otherwise it
      succeeds whatever the single tables' results, counts its outcomes,
      and has one for every listed table not excluded. */
  lemma {:induction false} DatasetStatus(env: Env, ds: string, excludeTables: Option<seq<string>>)
    ensures var result := SyncDatasetRun(env, ds, excludeTables).result;
            (result.DatasetSynced? <==> env.fails(ListTables(ds)).None?) &&
            (result.DatasetSynced? ==>
              result.tablesSynced == |result.results| &&
              |result.results| == |Included(env.tables(ds), Excluded(excludeTables))| &&
              forall k :: 0 <= k < |result.results| ==>
                result.results[k].tableId == Included(env.tables(ds), Excluded(excludeTables))[k])
  {
    OutcomesFollowTables(env, ds, env.tables(ds), Excluded(excludeTables));
  }

  /** No exclusion list and an empty one behave alike. */
  lemma {:induction false} MissingExclusionsAreEmpty(env: Env, ds: string)
    ensures SyncDatasetRun(env, ds, None) == SyncDatasetRun(env, ds, Some([]))
  {
  }

  // ---------------------------------------------------------------------
  // The synchroniser
  // ---------------------------------------------------------------------

  /** The synchroniser: `trace` records every request it has made. */
  class PandasGbqSync {
    const env: Env
    var trace: seq<Call>

    constructor (env: Env)
      ensures this.env == env && trace == []
    {
      this.env := env;
      trace := [];
    }

    /** One request; it returns the error it raised, if any. */
    method Issue(c: Call) returns (err: Option<string>)
      modifies this
      ensures trace == old(trace) + [c] && err == env.fails(c)
    {
      trace := trace + [c];
      err := env.fails(c);
    }

    /** `_create_indices`. */
    method CreateIndices(ds: string, t: string, columns: seq<string>) returns (err: Option<string>)
      modifies this
      ensures var run := IndexRun(env, ds, t, columns);
              trace == old(trace) + run.calls && err == run.error
    {
      err := Issue(Inspect(ds, t));
      if err.Some? {
        return;
      }
      var i := 0;
      while i < |columns|
        invariant 0 <= i <= |columns|
        invariant trace == old(trace) + [Inspect(ds, t)] + IndexStatements(ds, t, columns[..i])
      {
        var col := columns[i];
        assert columns[..i + 1][..i] == columns[..i];
        if IdLike(col) {
          var ignored := Issue(IndexStatement(ds, t, col));
        } else if TimeLike(col) {
          var ignored := Issue(IndexStatement(ds, t, col));
        }
        i := i + 1;
      }
      assert columns[..|columns|] == columns;
    }

    /** One pass of the chunk loop: fetch the window at `offset`, write
        it; it returns the error that stopped the pass, if any. */
    method TransferWindow(ds: string, t: string, chunksize: nat, ifExists: Mode, offset: nat, total: nat)
      returns (err: Option<string>)
      requires offset < total
      modifies this
      ensures var pass := Pass(env, ds, t, chunksize, ifExists, offset, total);
              trace == old(trace) + pass.calls && err == pass.error
    {
      err := Issue(FetchChunk(ds, t, chunksize, offset));
      if err.Some? {
        return;
      }
      err := Issue(Write(ds, t, if offset > 0 then Append else ifExists, offset, Min(chunksize, total - offset)));
    }

    /** The chunk loop of `sync_table`: it returns the error that ended it,
        if any. */
    method TransferChunks(ds: string, t: string, chunksize: nat, ifExists: Mode, total: nat)
      returns (err: Option<string>)
      requires chunksize > 0
      modifies this
      ensures var run := ChunkLoop(env, ds, t, chunksize, ifExists, 0, total);
              trace == old(trace) + run.calls && err == run.error
    {
      var offset := 0;
      while offset < total
        invariant LoopInvariant(env, ds, t, chunksize, ifExists, total, offset, old(trace), trace)
        decreases total - offset
      {
        LoopStep(env, ds, t, chunksize, ifExists, total, offset, old(trace), trace);
        err := TransferWindow(ds, t, chunksize, ifExists, offset, total);
        if err.Some? {
          return;
        }
        offset := offset + chunksize;
      }
      LoopEnd(env, ds, t, chunksize, ifExists, total, offset, old(trace), trace);
      err := None;
    }

    /** The single-shot branch of `sync_table`. */
    method TransferAll(ds: string, t: string, ifExists: Mode, total: nat) returns (result: SyncResult)
      modifies this
      ensures var run := SingleShotRun(env, ds, t, ifExists, total);
              trace == old(trace) + run.calls && result == run.result
    {
      var err := Issue(FetchAll(ds, t));
      if err.Some? {
        return Failed(err.value);
      }
      err := Issue(Write(ds, t, ifExists, 0, total));
      if err.Some? {
        return Failed(err.value);
      }
      err := CreateIndices(ds, t, env.columns(ds, t));
      if err.Some? {
        return Failed(err.value);
      }
      return SyncResult(Success, "Synced " + NatToString(total) + " rows", Some(total));
    }

    /** `sync_table`. */
    method SyncTable(ds: string, t: string, chunksize: nat := DefaultChunkSize, ifExists: Mode := Replace)
      returns (result: SyncResult)
      requires chunksize > 0
      modifies this
      ensures var run := SyncTableRun(env, ds, t, chunksize, ifExists);
              trace == old(trace) + run.calls && result == run.result
    {
      var err := Issue(CountRows(ds, t));
      if err.Some? {
        return Failed(err.value);
      }
      var total := env.rowCount(ds, t);
      if total == 0 {
        return SyncResult(Success, "Table is empty", Some(0));
      }
      if total > chunksize {
        err := TransferChunks(ds, t, chunksize, ifExists, total);
        return Failed(if err.Some? then err.value else UnboundDf);
      }
      result := TransferAll(ds, t, ifExists, total);
    }

    /** `sync_dataset`. */
    method SyncDataset(ds: string, excludeTables: Option<seq<string>>) returns (result: DatasetResult)
      modifies this
      ensures var run := SyncDatasetRun(env, ds, excludeTables);
              trace == old(trace) + run.calls && result == run.result
    {
      var excluded := Excluded(excludeTables);
      var err := Issue(ListTables(ds));
      if err.Some? {
        return DatasetFailed(err.value);
      }
      var tables := env.tables(ds);
      var results: seq<TableOutcome> := [];
      var i := 0;
      while i < |tables|
        invariant i <= |tables|
        invariant TablesInvariant(env, ds, tables, excluded, i, old(trace), trace, results)
      {
        var table := tables[i];
        TablesStep(env, ds, tables, excluded, i, old(trace), trace, results);
        if table !in excluded {
          var r := SyncTable(ds, table);
          results := results + [TableOutcome(table, r)];
        }
        i := i + 1;
      }
      TablesEnd(env, ds, excludeTables, old(trace), trace, results);
      return DatasetSynced(|results|, results);
    }
  }

  // ---------------------------------------------------------------------
  // Table analysis
  // ---------------------------------------------------------------------

  datatype Analysis<S, C> = Analysis(stats: S, columns: seq<C>) | AnalysisFailed(message: string)

  /** What indexing the first statistics row of an empty result raises. */
  const EmptyStatsMessage := "list index out of range"

  /** The error mapping of `analyze_table`: the catalog reads come in as
      results; an error in either, or no statistics row, gives an error. */
  function AnalyzeTable<S, C>(stats: Result<seq<S>>, columns: Result<seq<C>>): (r: Analysis<S, C>)
    ensures r.Analysis? <==> stats.Ok? && stats.value != [] && columns.Ok?
    ensures r.Analysis? ==> r.stats == stats.value[0] && r.columns == columns.value
    ensures stats.Ok? && stats.value == [] ==> r == AnalysisFailed(EmptyStatsMessage)
    ensures stats.Err? ==> r == AnalysisFailed(stats.message)
  {
    if stats.Err? then AnalysisFailed(stats.message)
    else if stats.value == [] then AnalysisFailed(EmptyStatsMessage)
    else if columns.Err? then AnalysisFailed(columns.message)
    else Analysis(stats.value[0], columns.value)
  }
}
