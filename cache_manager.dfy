/** The response cache: the key built from an operation's name and arguments,
    the tagged encoding that lets a table survive the store, and the wrapper
    that consults the store before running the operation. */
module CacheManager {
  import opened Common
  import opened Text
  import opened Sorting
  import opened Json

  // ---------------------------------------------------------------------
  // Values an operation can return
  // ---------------------------------------------------------------------

  /** A scalar: one cell of a table, an index label, or a plain result. */
  datatype Cell = Null | NaN | IntCell(i: int) | StrCell(s: string) | BoolCell(b: bool)

  /** A table: column names, one index label per row, and the rows. */
  datatype Frame = Frame(columns: seq<string>, index: seq<Cell>, rows: seq<seq<Cell>>)

  predicate Rectangular(f: Frame)
  {
    |f.rows| == |f.index| && forall i :: 0 <= i < |f.rows| ==> |f.rows[i]| == |f.columns|
  }

  type Table = f: Frame | Rectangular(f) witness Frame([], [], [])

  predicate DistinctColumns(f: Frame)
  {
    forall i, j :: 0 <= i < j < |f.columns| ==> f.columns[i] != f.columns[j]
  }

  datatype Value =
    | Atom(cell: Cell)
    | TableValue(table: Table)
    | ListValue(items: seq<Value>)
    | DictValue(entries: map<string, Value>)

  /** The marker the encoding puts under `"_type"`. */
  const TypeTag: Value := Atom(StrCell("dataframe"))

  /** A dictionary carrying the table marker. */
  predicate Tagged(v: Value)
  {
    v.DictValue? && "_type" in v.entries && v.entries["_type"] == TypeTag
  }

  // ---------------------------------------------------------------------
  // Encoding and decoding of tables
  // ---------------------------------------------------------------------

  /** Missing cells are written as nulls. */
  function CleanCell(c: Cell): (r: Cell)
    ensures r != NaN
  {
    if c == NaN then Null else c
  }

  function CleanRow(row: seq<Cell>): (r: seq<Cell>)
    ensures |r| == |row|
  {
    seq(|row|, j requires 0 <= j < |row| => CleanCell(row[j]))
  }

  /** The table a decode of the encoding gives back: the same columns and
      index, every missing cell replaced by a null. */
  function Cleaned(f: Table): (r: Table)
    ensures r.columns == f.columns && r.index == f.index && |r.rows| == |f.rows|
  {
    Frame(f.columns, f.index, seq(|f.rows|, i requires 0 <= i < |f.rows| => CleanRow(f.rows[i])))
  }

  /** The position of the last column with name `x`: a record keeps the
      value of the last of several equally named columns. */
  function LastIndex(s: seq<string>, x: string): (i: nat)
    requires x in s
    ensures i < |s| && s[i] == x
    ensures forall k :: i < k < |s| ==> s[k] != x
  {
    if s[|s| - 1] == x then |s| - 1
    else
      assert s == s[..|s| - 1] + [s[|s| - 1]];
      LastIndex(s[..|s| - 1], x)
  }

  /** One row as a record from column name to cell. */
  function Record(columns: seq<string>, row: seq<Cell>): (r: map<string, Value>)
    requires |row| == |columns|
    ensures forall c :: c in r <==> c in columns
  {
    map c | c in columns :: Atom(CleanCell(row[LastIndex(columns, c)]))
  }

  function Records(f: Table): (r: seq<Value>)
    ensures |r| == |f.rows|
  {
    seq(|f.rows|, i requires 0 <= i < |f.rows| => DictValue(Record(f.columns, f.rows[i])))
  }

  /** `_serialize_dataframe`: a table becomes a dictionary of its records,
      the marker, its column names and its index; any other value is
      returned as it is. */
  function Serialize(v: Value): (r: Value)
    ensures v.TableValue? ==> Tagged(r)
    ensures !v.TableValue? ==> r == v
  {
    match v
    case TableValue(f) =>
      DictValue(map[
        "data" := ListValue(Records(f)),
        "_type" := TypeTag,
        "columns" := ListValue(seq(|f.columns|, j requires 0 <= j < |f.columns| => Atom(StrCell(f.columns[j])))),
        "index" := ListValue(seq(|f.index|, i requires 0 <= i < |f.index| => Atom(f.index[i])))])
    case _ => v
  }

  /** The column names of a decoded table: a list of strings. */
  function ColumnNames(v: Value): (r: Option<seq<string>>)
    ensures r.Some? ==> v.ListValue? && |r.value| == |v.items|
  {
    if v.ListValue? && forall k :: 0 <= k < |v.items| ==> v.items[k].Atom? && v.items[k].cell.StrCell? then
      Some(seq(|v.items|, k requires 0 <= k < |v.items| => v.items[k].cell.s))
    else None
  }

  /** The index of a decoded table: a list of scalars. */
  function Labels(v: Value): (r: Option<seq<Cell>>)
    ensures r.Some? ==> v.ListValue? && |r.value| == |v.items|
  {
    if v.ListValue? && forall k :: 0 <= k < |v.items| ==> v.items[k].Atom? then
      Some(seq(|v.items|, k requires 0 <= k < |v.items| => v.items[k].cell))
    else None
  }

  /** The records of a decoded table: a list of dictionaries. */
  function RecordList(v: Value): (r: Option<seq<map<string, Value>>>)
    ensures r.Some? ==> v.ListValue? && |r.value| == |v.items|
  {
    if v.ListValue? && forall k :: 0 <= k < |v.items| ==> v.items[k].DictValue? then
      Some(seq(|v.items|, k requires 0 <= k < |v.items| => v.items[k].entries))
    else None
  }

  /** A record read back under the given columns: a name the record lacks
      gives a missing cell; keys outside the columns are ignored. */
  function RowOf(names: seq<string>, record: map<string, Value>): (r: Option<seq<Cell>>)
    ensures r.Some? ==> |r.value| == |names|
  {
    if forall k :: 0 <= k < |names| && names[k] in record ==> record[names[k]].Atom? then
      Some(seq(|names|, k requires 0 <= k < |names| => if names[k] in record then record[names[k]].cell else NaN))
    else None
  }

  function Rows(names: seq<string>, records: seq<map<string, Value>>): (r: Option<seq<seq<Cell>>>)
    ensures r.Some? ==> |r.value| == |records|
    ensures r.Some? ==> forall i :: 0 <= i < |records| ==> |r.value[i]| == |names|
  {
    if forall i :: 0 <= i < |records| ==> RowOf(names, records[i]).Some? then
      Some(seq(|records|, i requires 0 <= i < |records| => RowOf(names, records[i]).value))
    else None
  }

  /** Building a table from decoded parts. Only the records form of the
      data is read: a list of dictionaries, one per index label, under a list
      of column names and a list of scalar labels. Every other shape gives
      `None` (the constructor raises on some of them, such as a record count
      different from a non-empty index; others it would accept, such as a
      list of rows or a dictionary of columns, are not read here). */
  function Build(data: Value, columns: Value, index: Value): (r: Option<Value>)
    ensures r.Some? ==> r.value.TableValue?
  {
    var names := ColumnNames(columns);
    var labels := Labels(index);
    var records := RecordList(data);
    if names.None? || labels.None? || records.None? || |records.value| != |labels.value| then None
    else
      var rows := Rows(names.value, records.value);
      if rows.None? then None
      else Some(TableValue(Frame(names.value, labels.value, rows.value)))
  }

  /** `_deserialize_dataframe`: a dictionary carrying the marker is rebuilt
      into a table from the records form its encoder writes (`None` for a
      missing `"data"`, `"columns"` or `"index"`, and for any shape `Build`
      does not read); any other value is returned as it is. */
  function Deserialize(v: Value): (r: Option<Value>)
    ensures !Tagged(v) ==> r == Some(v)
    ensures Tagged(v) && r.Some? ==> r.value.TableValue?
  {
    if !Tagged(v) then Some(v)
    else if "data" !in v.entries || "columns" !in v.entries || "index" !in v.entries then None
    else Build(v.entries["data"], v.entries["columns"], v.entries["index"])
  }

  lemma {:induction false} RowRoundTrip(columns: seq<string>, row: seq<Cell>)
    requires |row| == |columns|
    requires forall i, j :: 0 <= i < j < |columns| ==> columns[i] != columns[j]
    ensures RowOf(columns, Record(columns, row)) == Some(CleanRow(row))
  {
    var rec := Record(columns, row);
    forall k | 0 <= k < |columns|
      ensures columns[k] in rec && rec[columns[k]] == Atom(CleanCell(row[k]))
    {
      var l := LastIndex(columns, columns[k]);
      assert l == k;
    }
    var cells := seq(|columns|, k requires 0 <= k < |columns| =>
      if columns[k] in rec then rec[columns[k]].cell else NaN);
    assert cells == CleanRow(row);
  }

  /** Decoding the encoding of a table with distinct column names gives the
      table back with the same columns, index and rows, missing cells
      turned into nulls. */
  lemma {:induction false} TableRoundTrip(f: Table)
    requires DistinctColumns(f)
    ensures Deserialize(Serialize(TableValue(f))) == Some(TableValue(Cleaned(f)))
  {
    var e := Serialize(TableValue(f)).entries;
    var columns := seq(|f.columns|, j requires 0 <= j < |f.columns| => Atom(StrCell(f.columns[j])));
    var index := seq(|f.index|, i requires 0 <= i < |f.index| => Atom(f.index[i]));
    assert e["columns"] == ListValue(columns) && e["index"] == ListValue(index);
    assert e["data"] == ListValue(Records(f));
    assert ColumnNames(ListValue(columns)).value == f.columns;
    assert Labels(ListValue(index)).value == f.index;
    var records := seq(|f.rows|, i requires 0 <= i < |f.rows| => Record(f.columns, f.rows[i]));
    assert RecordList(ListValue(Records(f))).value == records;
    forall i | 0 <= i < |f.rows|
      ensures RowOf(f.columns, records[i]) == Some(Cleaned(f).rows[i])
    {
      RowRoundTrip(f.columns, f.rows[i]);
    }
    assert forall i :: 0 <= i < |records| ==> RowOf(f.columns, records[i]).Some?;
    var rows := seq(|records|, i requires 0 <= i < |records| => RowOf(f.columns, records[i]).value);
    assert rows == Cleaned(f).rows;
    assert Rows(f.columns, records) == Some(rows);
  }

  /** A value that is neither a table nor a marked dictionary passes both
      directions unchanged. */
  lemma {:induction false} PlainValueRoundTrip(v: Value)
    requires !v.TableValue? && !Tagged(v)
    ensures Deserialize(Serialize(v)) == Some(v)
  {
  }

  /** A dictionary result that happens to carry the marker is taken for an
      encoded table: it never comes back as itself. */
  lemma {:induction false} TaggedDictionaryNotRestored(v: Value)
    requires Tagged(v)
    ensures Deserialize(Serialize(v)) != Some(v)
  {
  }

  // ---------------------------------------------------------------------
  // Cache keys
  // ---------------------------------------------------------------------

  /** An argument of a cached operation, as the key builder tells them apart. */
  datatype Arg =
    | ModelArg(dump: seq<(string, Json)>)   // a validated model, by its field dump
    | FrameArg(frame: Table)                // a table
    | ContainerArg(repr: string)            // a dict, list or set, by its `str()`
    | PlainArg(repr: string)                // anything else, by its `str()`

  /** `str(df.shape)`: the number of rows and of columns. */
  function ShapeText(f: Table): string
  {
    "(" + IntToString(|f.rows|) + ", " + IntToString(|f.columns|) + ")"
  }

  /** `str(list(df.columns))`, each name between single quotes. */
  function ColumnListText(f: Table): string
  {
    "[" + Join(seq(|f.columns|, j requires 0 <= j < |f.columns| => "'" + f.columns[j] + "'"), ", ") + "]"
  }

  /** The text an argument contributes to the key; `hash` is the process's
      string hash. */
  function Sanitize(hash: string -> int, a: Arg): (r: string)
  {
    match a
    case ModelArg(dump) => Dumps(JObj(dump))
    case FrameArg(f) => IntToString(hash(ShapeText(f) + ColumnListText(f)))
    case ContainerArg(repr) => Quote(repr)
    case PlainArg(repr) => repr
  }

  function ArgTexts(hash: string -> int, args: seq<Arg>): (r: seq<string>)
  {
    seq(|args|, k requires 0 <= k < |args| => Sanitize(hash, args[k]))
  }

  function PositionalText(hash: string -> int, args: seq<Arg>): string
  {
    Join(ArgTexts(hash, args), ",")
  }

  function KeywordText(hash: string -> int, kwargs: seq<(string, Arg)>): string
  {
    var sorted := SortByName(kwargs);
    Join(seq(|sorted|, k requires 0 <= k < |sorted| => sorted[k].0 + "=" + Sanitize(hash, sorted[k].1)), ",")
  }

  /** `create_cache_key`: the operation name, the positional texts and the
      `name=value` texts of the keyword arguments in name order, joined by
      ':'. */
  function CreateCacheKey(hash: string -> int, name: string, args: seq<Arg>, kwargs: seq<(string, Arg)>): (key: string)
    ensures |key| > |name| && key[..|name|] == name && key[|name|] == ':'
  {
    name + ":" + PositionalText(hash, args) + ":" + KeywordText(hash, kwargs)
  }

  /** Passing the same keyword arguments in another order gives the same key. */
  lemma {:induction false} KeyForgetsKeywordOrder(hash: string -> int, name: string, args: seq<Arg>,
                               a: seq<(string, Arg)>, b: seq<(string, Arg)>)
    requires DistinctNames(a) && DistinctNames(b)
    requires multiset(a) == multiset(b)
    ensures CreateCacheKey(hash, name, args, a) == CreateCacheKey(hash, name, args, b)
  {
    SortForgetsOrder(a, b);
  }

  /** Two operations whose names differ and hold no ':' never share a key. */
  lemma {:induction false} DistinctOperationsDistinctKeys(hash: string -> int, n1: string, n2: string,
                                       args1: seq<Arg>, args2: seq<Arg>,
                                       kw1: seq<(string, Arg)>, kw2: seq<(string, Arg)>)
    requires n1 != n2 && ':' !in n1 && ':' !in n2
    ensures CreateCacheKey(hash, n1, args1, kw1) != CreateCacheKey(hash, n2, args2, kw2)
  {
  }

  /** When no part holds ':', the key splits back into the operation name,
      the positional text and the keyword text. */
  lemma {:induction false} KeyFields(hash: string -> int, name: string, args: seq<Arg>, kwargs: seq<(string, Arg)>)
    requires ':' !in name
    requires ':' !in PositionalText(hash, args) && ':' !in KeywordText(hash, kwargs)
    ensures Split(CreateCacheKey(hash, name, args, kwargs), ':') ==
            [name, PositionalText(hash, args), KeywordText(hash, kwargs)]
  {
    var parts := [name, PositionalText(hash, args), KeywordText(hash, kwargs)];
    assert Join(parts[2..], ":") == parts[2];
    assert Join(parts[1..], ":") == parts[1] + ":" + parts[2];
    assert Join(parts, ":") == CreateCacheKey(hash, name, args, kwargs);
    SplitJoin(parts, ':');
  }

  /** Two positional texts joined by ','. */
  lemma {:induction false} PositionalPair(hash: string -> int, a: Arg, b: Arg)
    ensures PositionalText(hash, [a, b]) == Sanitize(hash, a) + "," + Sanitize(hash, b)
  {
    var t := ArgTexts(hash, [a, b]);
    assert t == [Sanitize(hash, a), Sanitize(hash, b)];
    assert t[1..] == [Sanitize(hash, b)];
    assert Join(t[1..], ",") == Sanitize(hash, b);
  }

  /** Positional arguments are not reordered: swapping two arguments whose
      texts differ and hold no ',' gives another key. */
  lemma {:induction false} PositionalOrderMatters(hash: string -> int, name: string, a: Arg, b: Arg,
                                                  kwargs: seq<(string, Arg)>)
    requires ',' !in Sanitize(hash, a) && ',' !in Sanitize(hash, b)
    requires Sanitize(hash, a) != Sanitize(hash, b)
    ensures CreateCacheKey(hash, name, [a, b], kwargs) != CreateCacheKey(hash, name, [b, a], kwargs)
  {
    PositionalPair(hash, a, b);
    PositionalPair(hash, b, a);
    SwappedPairDiffers(name, Sanitize(hash, a), Sanitize(hash, b), KeywordText(hash, kwargs));
  }

  /** The key text of two swapped comma-free texts that differ. */
  lemma {:induction false} SwappedPairDiffers(name: string, sa: string, sb: string, kw: string)
    requires ',' !in sa && ',' !in sb && sa != sb
    ensures name + ":" + (sa + "," + sb) + ":" + kw != name + ":" + (sb + "," + sa) + ":" + kw
  {
    var x, y := sa + "," + sb, sb + "," + sa;
    if |sa| < |sb| {
      assert x[|sa|] == ',' && y[|sa|] == sb[|sa|];
      KeysDifferAt(name, x, y, kw, |sa|);
    } else if |sb| < |sa| {
      assert y[|sb|] == ',' && x[|sb|] == sa[|sb|];
      KeysDifferAt(name, x, y, kw, |sb|);
    } else {
      assert exists i :: 0 <= i < |sa| && sa[i] != sb[i];
      var i :| 0 <= i < |sa| && sa[i] != sb[i];
      assert x[i] == sa[i] && y[i] == sb[i];
      KeysDifferAt(name, x, y, kw, i);
    }
  }

  /** Texts of one length that differ at `i` give different keys. */
  lemma {:induction false} KeysDifferAt(name: string, u: string, v: string, kw: string, i: nat)
    requires |u| == |v| && i < |u| && u[i] != v[i]
    ensures name + ":" + u + ":" + kw != name + ":" + v + ":" + kw
  {
    assert (name + ":" + u + ":" + kw)[|name| + 1 + i] == u[i];
    assert (name + ":" + v + ":" + kw)[|name| + 1 + i] == v[i];
  }

  /** A model argument's field order does not show in the key. */
  lemma {:induction false} ModelFieldOrderIgnored(hash: string -> int, a: seq<(string, Json)>, b: seq<(string, Json)>)
    requires DistinctNames(a) && DistinctNames(b)
    requires multiset(a) == multiset(b)
    ensures Sanitize(hash, ModelArg(a)) == Sanitize(hash, ModelArg(b))
  {
    DumpsForgetsMemberOrder(a, b);
  }

  /** Two tables with the same number of rows and the same column names give
      the same key text, whatever their cells and index. */
  lemma {:induction false} FrameContentIgnored(hash: string -> int, f: Table, g: Table)
    requires |f.rows| == |g.rows| && f.columns == g.columns
    ensures Sanitize(hash, FrameArg(f)) == Sanitize(hash, FrameArg(g))
  {
  }

  /** A container argument enters the key as the JSON string of its text:
      quoted and pure ASCII. */
  lemma {:induction false} ContainerQuoted(hash: string -> int, repr: string)
    ensures var t := Sanitize(hash, ContainerArg(repr));
            |t| >= 2 && t[0] == '"' && t[|t| - 1] == '"' && AllPrintable(t)
  {
    QuoteIsAscii(repr);
  }

  // ---------------------------------------------------------------------
  // The store and the wrapper
  // ---------------------------------------------------------------------

  /** What the store holds under a key: the bytes pickling a value produced,
      or bytes that do not unpickle. */
  datatype Blob = Pickled(payload: Value) | Unreadable(bytes: seq<bv8>)

  /** Pickled bytes are never empty; other bytes are truthy when non-empty. */
  predicate Truthy(b: Blob)
  {
    b.Pickled? || |b.bytes| > 0
  }

  /** Unpickling, then decoding a marked table; `None` where either raises. */
  function Decode(b: Blob): (r: Option<Value>)
    ensures b.Unreadable? ==> r.None?
  {
    match b
    case Pickled(v) => Deserialize(v)
    case Unreadable(_) => None
  }

  datatype Entry = Entry(blob: Blob, ttl: int)

  /** How one store call or step goes: it succeeds, it raises before taking
      effect, or it takes effect and then raises (the synchronous client's
      result being awaited). */
  datatype Fault = Succeeds | Fails | FailsAfterEffect

  datatype Faults = Faults(keyFails: bool, get: Fault, delete: Fault, encodeFails: bool, setex: Fault)

  /** How one invocation of the wrapped operation ends. */
  datatype Outcome = Returns(value: Value) | Raises(error: string)

  datatype Call = Call(name: string, args: seq<Arg>, kwargs: seq<(string, Arg)>)

  /** The store afterwards, the number of invocations of the operation, and
      what the caller gets. */
  datatype Effect = Effect(store: map<string, Entry>, invocations: nat, outcome: Outcome)

  const DefaultExpireTime := 300

  /** The outer handler: the operation is invoked once more and its outcome,
      value or error, goes to the caller. */
  function Fallback(store: map<string, Entry>, first: Outcome): Effect
  {
    Effect(store, 1, first)
  }

  /** Running the operation after a miss. A value is stored under the key
      unless encoding fails, the store call raises before taking effect, or
      the store refuses a non-positive lifetime; each of those is swallowed. */
  function Compute(store: map<string, Entry>, key: string, ttl: int, f: Faults,
                   first: Outcome, second: Outcome): Effect
  {
    match first
    case Raises(_) => Effect(store, 2, second)
    case Returns(v) =>
      if f.encodeFails || f.setex == Fails || ttl <= 0 then Effect(store, 1, first)
      else Effect(store[key := Entry(Pickled(Serialize(v)), ttl)], 1, first)
  }

  /** The wrapper once the key is built: read, decode or drop, compute. */
  function Respond(store: map<string, Entry>, key: string, ttl: int, f: Faults,
                   first: Outcome, second: Outcome): Effect
  {
    if f.get != Succeeds then Fallback(store, first)
    else if key in store && Truthy(store[key].blob) then
      match Decode(store[key].blob)
      case Some(v) => Effect(store, 0, Returns(v))
      case None =>
        if f.delete == Succeeds then Compute(store - {key}, key, ttl, f, first, second)
        else if f.delete == Fails then Fallback(store, first)
        else Fallback(store - {key}, first)
    else Compute(store, key, ttl, f, first, second)
  }

  /** One call of a cached operation: `first` and `second` are the outcomes
      of its first and second invocation. */
  function Wrapper(hash: string -> int, store: map<string, Entry>, ttl: int, call: Call, f: Faults,
                   first: Outcome, second: Outcome): Effect
  {
    if f.keyFails then Fallback(store, first)
    else Respond(store, CreateCacheKey(hash, call.name, call.args, call.kwargs), ttl, f, first, second)
  }

  function KeyOf(hash: string -> int, call: Call): string
  {
    CreateCacheKey(hash, call.name, call.args, call.kwargs)
  }

  /** What a later read of a stored value gives back. */
  function Restored(v: Value): Value
  {
    match v
    case TableValue(t) => TableValue(Cleaned(t))
    case _ => v
  }

  /** A readable stored entry is returned decoded, and the operation does
      not run. */
  lemma {:induction false} HitSkipsOperation(hash: string -> int, store: map<string, Entry>, ttl: int, call: Call, f: Faults,
                          first: Outcome, second: Outcome, v: Value)
    requires !f.keyFails && f.get == Succeeds
    requires KeyOf(hash, call) in store && Truthy(store[KeyOf(hash, call)].blob)
    requires Decode(store[KeyOf(hash, call)].blob) == Some(v)
    ensures Wrapper(hash, store, ttl, call, f, first, second) == Effect(store, 0, Returns(v))
  {
  }

  /** A stored entry that does not decode is deleted and the call goes on
      exactly as a miss on the store without it. */
  lemma {:induction false} CorruptEntryActsAsMiss(hash: string -> int, store: map<string, Entry>, ttl: int, call: Call, f: Faults,
                               first: Outcome, second: Outcome)
    requires !f.keyFails && f.get == Succeeds && f.delete == Succeeds
    requires KeyOf(hash, call) in store && Truthy(store[KeyOf(hash, call)].blob)
    requires Decode(store[KeyOf(hash, call)].blob).None?
    ensures var key := KeyOf(hash, call);
            Wrapper(hash, store, ttl, call, f, first, second) == Wrapper(hash, store - {key}, ttl, call, f, first, second)
  {
  }

  /** On a miss the operation runs once; its value is returned, and stored
      under the key with the requested lifetime unless storing fails. */
  lemma {:induction false} MissRunsOnce(hash: string -> int, store: map<string, Entry>, ttl: int, call: Call, f: Faults,
                     v: Value, second: Outcome)
    requires !f.keyFails && f.get == Succeeds
    requires KeyOf(hash, call) !in store || !Truthy(store[KeyOf(hash, call)].blob)
    ensures var e := Wrapper(hash, store, ttl, call, f, Returns(v), second);
            e.invocations == 1 && e.outcome == Returns(v) &&
            e.store == (if f.encodeFails || f.setex == Fails || ttl <= 0 then store
                        else store[KeyOf(hash, call) := Entry(Pickled(Serialize(v)), ttl)])
  {
  }

  /** When the operation itself raises, the outer handler runs it a second
      time and the second outcome, value or error, goes to the caller. */
  lemma {:induction false} FailingOperationRunsTwice(hash: string -> int, store: map<string, Entry>, ttl: int, call: Call, f: Faults,
                                  error: string, second: Outcome)
    requires !f.keyFails && f.get == Succeeds
    requires KeyOf(hash, call) !in store || !Truthy(store[KeyOf(hash, call)].blob)
    ensures Wrapper(hash, store, ttl, call, f, Raises(error), second) == Effect(store, 2, second)
  {
  }

  /** A fault while building the key or reading the store sends the call to
      the outer handler: the operation runs once and nothing is stored. With
      the synchronous client every read raises after it is made, so the
      cache is never used. */
  lemma {:induction false} ReadFaultBypassesCache(hash: string -> int, store: map<string, Entry>, ttl: int, call: Call, f: Faults,
                               first: Outcome, second: Outcome)
    requires f.keyFails || f.get != Succeeds
    ensures Wrapper(hash, store, ttl, call, f, first, second) == Effect(store, 1, first)
  {
  }

  /** The operation runs at most twice, and only a decoded hit leaves it
      unrun. */
  lemma {:induction false} InvocationsBounded(hash: string -> int, store: map<string, Entry>, ttl: int, call: Call, f: Faults,
                           first: Outcome, second: Outcome)
    ensures var e := Wrapper(hash, store, ttl, call, f, first, second);
            e.invocations <= 2 &&
            (e.invocations == 0 <==>
              !f.keyFails && f.get == Succeeds && KeyOf(hash, call) in store &&
              Truthy(store[KeyOf(hash, call)].blob) && Decode(store[KeyOf(hash, call)].blob).Some?)
  {
    if !f.keyFails {
      RespondInvocations(store, KeyOf(hash, call), ttl, f, first, second);
    }
  }

  /** The wrapper past the key runs the operation at most twice, and not at
      all exactly on a readable hit. */
  lemma {:induction false} RespondInvocations(store: map<string, Entry>, key: string, ttl: int, f: Faults,
                                              first: Outcome, second: Outcome)
    ensures var e := Respond(store, key, ttl, f, first, second);
            e.invocations <= 2 &&
            (e.invocations == 0 <==>
              f.get == Succeeds && key in store && Truthy(store[key].blob) && Decode(store[key].blob).Some?)
  {
  }

  /** The wrapper past the key writes or drops only the entry under its key. */
  lemma {:induction false} RespondTouchesOnlyKey(store: map<string, Entry>, key: string, ttl: int, f: Faults,
                              first: Outcome, second: Outcome, k: string)
    requires k != key
    ensures var e := Respond(store, key, ttl, f, first, second);
            (k in e.store <==> k in store) && (k in store ==> e.store[k] == store[k])
  {
    if f.get == Succeeds && key in store && Truthy(store[key].blob) && Decode(store[key].blob).None? {
      assert k in store - {key} <==> k in store;
    }
  }

  /** Entries under other keys are left exactly as they were. */
  lemma {:induction false} OtherKeysUntouched(hash: string -> int, store: map<string, Entry>, ttl: int, call: Call, f: Faults,
                           first: Outcome, second: Outcome, k: string)
    requires k != KeyOf(hash, call)
    ensures var e := Wrapper(hash, store, ttl, call, f, first, second);
            (k in e.store <==> k in store) && (k in store ==> e.store[k] == store[k])
  {
    if !f.keyFails {
      RespondTouchesOnlyKey(store, KeyOf(hash, call), ttl, f, first, second, k);
    }
  }

  /** After a miss has stored a value, the same call is answered from the
      store without running the operation, with the value as a decode gives
      it back (a table with its missing cells as nulls). */
  lemma {:induction false} RepeatedCallServedFromStore(hash: string -> int, store: map<string, Entry>, ttl: int, call: Call,
                                    f: Faults, v: Value, second: Outcome,
                                    ttl2: int, g: Faults, first2: Outcome, second2: Outcome)
    requires !f.keyFails && f.get == Succeeds && !f.encodeFails && f.setex != Fails && ttl > 0
    requires KeyOf(hash, call) !in store || !Truthy(store[KeyOf(hash, call)].blob)
    requires !g.keyFails && g.get == Succeeds
    requires !Tagged(v) && (v.TableValue? ==> DistinctColumns(v.table))
    ensures var e1 := Wrapper(hash, store, ttl, call, f, Returns(v), second);
            var e2 := Wrapper(hash, e1.store, ttl2, call, g, first2, second2);
            e2 == Effect(e1.store, 0, Returns(Restored(v)))
  {
    if v.TableValue? {
      TableRoundTrip(v.table);
    }
  }

  /** The cache in front of the store. `store` stands for the Redis keyspace
      this cache reads and writes, and `invocations` counts the runs of
      wrapped operations. */
  class Cache {
    const expireTime: int
    const hash: string -> int
    var store: map<string, Entry>
    var invocations: nat

    /** A cache attached to a keyspace that already holds `keyspace`. */
    constructor (hash: string -> int, keyspace: map<string, Entry>, expireTime: int := DefaultExpireTime)
      ensures this.expireTime == expireTime && this.hash == hash
      ensures store == keyspace && invocations == 0
    {
      this.expireTime := expireTime;
      this.hash := hash;
      store := keyspace;
      invocations := 0;
    }

    /** The lifetime a wrapper uses: the one requested for it, else the
        cache's own. */
    function TtlFor(requested: Option<int>): (ttl: int)
    {
      if requested.Some? then requested.value else expireTime
    }

    /** A miss that stores its value stores it with the lifetime the
        decorator was given, or else with the cache's own lifetime. */
    lemma {:induction false} StoredLifetime(requested: Option<int>, store0: map<string, Entry>, call: Call, f: Faults,
                                            v: Value, second: Outcome)
      requires !f.keyFails && f.get == Succeeds && !f.encodeFails && f.setex != Fails && TtlFor(requested) > 0
      requires KeyOf(hash, call) !in store0 || !Truthy(store0[KeyOf(hash, call)].blob)
      ensures var e := Wrapper(hash, store0, TtlFor(requested), call, f, Returns(v), second);
              KeyOf(hash, call) in e.store &&
              e.store[KeyOf(hash, call)].ttl == (if requested.Some? then requested.value else expireTime)
    {
      MissRunsOnce(hash, store0, TtlFor(requested), call, f, v, second);
    }

    /** One run of the wrapped operation, whose outcome is `o`. */
    method Invoke(o: Outcome) returns (r: Outcome)
      modifies this
      ensures r == o
      ensures store == old(store) && invocations == old(invocations) + 1
    {
      invocations := invocations + 1;
      r := o;
    }

    /** The miss path of the wrapper: run the operation, store its value. */
    method RunAndStore(key: string, ttl: int, f: Faults, first: Outcome, second: Outcome)
      returns (outcome: Outcome)
      modifies this
      ensures var e := Compute(old(store), key, ttl, f, first, second);
              store == e.store && invocations == old(invocations) + e.invocations && outcome == e.outcome
    {
      var result := Invoke(first);
      if result.Raises? {
        outcome := Invoke(second);
        return;
      }
      if !f.encodeFails && f.setex != Fails && ttl > 0 {
        store := store[key := Entry(Pickled(Serialize(result.value)), ttl)];
      }
      outcome := result;
    }

    /** The wrapper once the key is built: read, decode or drop, compute. */
    method Lookup(key: string, ttl: int, f: Faults, first: Outcome, second: Outcome)
      returns (outcome: Outcome)
      modifies this
      ensures var e := Respond(old(store), key, ttl, f, first, second);
              store == e.store && invocations == old(invocations) + e.invocations && outcome == e.outcome
    {
      if f.get != Succeeds {
        outcome := Invoke(first);
        return;
      }
      if key in store && Truthy(store[key].blob) {
        var decoded := Decode(store[key].blob);
        if decoded.Some? {
          outcome := Returns(decoded.value);
          return;
        }
        if f.delete != Succeeds {
          if f.delete == FailsAfterEffect {
            store := store - {key};
          }
          outcome := Invoke(first);
          return;
        }
        store := store - {key};
      }
      outcome := RunAndStore(key, ttl, f, first, second);
    }

    /** A call of an operation wrapped by `cache_response(requested)`. */
    method CacheResponse(requested: Option<int>, call: Call, f: Faults, first: Outcome, second: Outcome)
      returns (outcome: Outcome)
      modifies this
      ensures var e := Wrapper(hash, old(store), TtlFor(requested), call, f, first, second);
              store == e.store && invocations == old(invocations) + e.invocations && outcome == e.outcome
    {
      var ttl := TtlFor(requested);
      if f.keyFails {
        outcome := Invoke(first);
        return;
      }
      var key := KeyOf(hash, call);
      outcome := Lookup(key, ttl, f, first, second);
    }
  }
}
