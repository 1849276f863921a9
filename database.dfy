/**
 * `CustomDatabase`, the SQLite gateway: placeholder expansion for tagged
 * `sql` templates, a statement cache keyed by query text that forgets a
 * query when it fails, a begin/commit/rollback transaction wrapper, and
 * `close` / dispose. The SQLite engine itself is represented by the
 * `tables` it holds and by oracle parameters saying whether a statement
 * compiles or fails.
 */
module Database {
  import opened Wrappers
  import opened Strings
  import opened Json
  import opened Rows

  // ---------------------------------------------------------------------
  // placeholder expansion

  datatype SqlValue = SqlNull | SqlInt(i: int) | SqlText(t: string)

  /** A template parameter: one value, or an array of values. */
  datatype Param = Scalar(v: SqlValue) | List(vs: seq<SqlValue>)

  /** `Array.from({ length: k }, () => "?").join(",")`. */
  function Marks(k: nat): string
  {
    Join(seq(k, _ => "?"), ',')
  }

  /** What the template puts after a string segment for one parameter. */
  function Placeholder(p: Param): string
  {
    match p
    case Scalar(_) => "?"
    case List(vs) => if |vs| <= 0 then "" else Marks(|vs|)
  }

  /**
   * The `strings.reduce(...)`: each segment, followed by the placeholder
   * of the parameter with the same index when there is one.
   */
  function Expand(strings: seq<string>, params: seq<Param>): string
  {
    if |strings| == 0 then ""
    else
      var i := |strings| - 1;
      Expand(strings[..i], params) + strings[i] + (if i < |params| then Placeholder(params[i]) else "")
  }

  /** The query text `sql` prepares: the expansion, trimmed. */
  function QueryText(strings: seq<string>, params: seq<Param>): string
  {
    Trim(Expand(strings, params))
  }

  /** The values one parameter contributes to the binding. */
  function Values(p: Param): seq<SqlValue>
  {
    match p
    case Scalar(v) => [v]
    case List(vs) => vs
  }

  /** `parameters.flat()`: scalars as themselves, arrays spliced in order. */
  function Bound(params: seq<Param>): seq<SqlValue>
  {
    if |params| == 0 then [] else Bound(params[..|params| - 1]) + Values(params[|params| - 1])
  }

  /** Number of `?` characters in a text. */
  function CountMarks(s: string): nat
  {
    if |s| == 0 then 0 else CountMarks(s[..|s| - 1]) + (if s[|s| - 1] == '?' then 1 else 0)
  }

  /** Number of `?` characters the template's own segments contain. */
  function SegmentMarks(strings: seq<string>): nat
  {
    if |strings| == 0 then 0 else SegmentMarks(strings[..|strings| - 1]) + CountMarks(strings[|strings| - 1])
  }

  lemma {:induction false} CountMarksAppend(a: string, b: string)
    ensures CountMarks(a + b) == CountMarks(a) + CountMarks(b)
  {
    if |b| > 0 {
      CountMarksAppend(a, b[..|b| - 1]);
      assert (a + b)[..|a + b| - 1] == a + b[..|b| - 1];
    } else {
      assert a + b == a;
    }
  }

  lemma {:induction false} CountMarksBlank(s: string)
    requires forall k :: 0 <= k < |s| ==> IsWhitespace(s[k])
    ensures CountMarks(s) == 0
  {
    if |s| > 0 {
      CountMarksBlank(s[..|s| - 1]);
    }
  }

  lemma TrimStartKeepsMarks(s: string)
    ensures CountMarks(TrimStart(s)) == CountMarks(s)
  {
    var a := TrimStart(s);
    var d := |s| - |a|;
    assert s == s[..d] + a;
    CountMarksBlank(s[..d]);
    CountMarksAppend(s[..d], a);
  }

  lemma TrimEndKeepsMarks(s: string)
    ensures CountMarks(TrimEnd(s)) == CountMarks(s)
  {
    var b := TrimEnd(s);
    assert s == b + s[|b|..];
    CountMarksBlank(s[|b|..]);
    CountMarksAppend(b, s[|b|..]);
  }

  /** Trimming never removes a placeholder. */
  lemma TrimKeepsMarks(s: string)
    ensures CountMarks(Trim(s)) == CountMarks(s)
  {
    TrimStartKeepsMarks(s);
    TrimEndKeepsMarks(TrimStart(s));
  }

  lemma {:induction false} MarksCount(k: nat)
    ensures CountMarks(Marks(k)) == k
  {
    if k == 1 {
      assert seq(1, _ => "?") == ["?"];
    } else if k > 1 {
      var ps := seq(k, _ => "?");
      assert ps[..k - 1] == seq(k - 1, _ => "?");
      MarksCount(k - 1);
      CountMarksAppend(Marks(k - 1) + [','], "?");
      CountMarksAppend(Marks(k - 1), [',']);
    }
  }

  /** Each placeholder has as many `?` as the parameter binds values. */
  lemma PlaceholderMarks(p: Param)
    ensures CountMarks(Placeholder(p)) == |Values(p)|
  {
    if p.List? && |p.vs| > 0 {
      MarksCount(|p.vs|);
    }
  }

  /**
   * A template with one more segment than parameters (every tagged
   * template) prepares a text whose placeholders, beyond the `?` its own
   * segments contain, match the bound values one for one.
   */
  lemma PlaceholdersMatchBound(strings: seq<string>, params: seq<Param>)
    requires |strings| == |params| + 1
    ensures CountMarks(QueryText(strings, params)) == SegmentMarks(strings) + |Bound(params)|
  {
    TrimKeepsMarks(Expand(strings, params));
    ExpandMarks(strings, params);
    assert params[..|params|] == params;
  }

  function Min(a: nat, b: nat): nat { if a < b then a else b }

  lemma {:induction false} ExpandMarks(strings: seq<string>, params: seq<Param>)
    ensures CountMarks(Expand(strings, params))
      == SegmentMarks(strings) + |Bound(params[..Min(|strings|, |params|)])|
  {
    if |strings| > 0 {
      var i := |strings| - 1;
      var init := Expand(strings[..i], params);
      var tail := if i < |params| then Placeholder(params[i]) else "";
      ExpandMarks(strings[..i], params);
      CountMarksAppend(init, strings[i]);
      CountMarksAppend(init + strings[i], tail);
      if i < |params| {
        PlaceholderMarks(params[i]);
        assert params[..i + 1][..i] == params[..i];
      }
    }
  }

  // ---------------------------------------------------------------------
  // the gateway object

  /** A prepared statement: which compilation produced it, and for which text. */
  datatype Statement = Statement(serial: nat, text: string)

  /** The statements the constructor runs with `exec`, in order. */
  const Pragmas: seq<string> := [
    "pragma journal_mode = WAL",
    "pragma busy_timeout = 5000",
    "pragma foreign_keys = ON",
    "pragma synchronous = NORMAL",
    "pragma temp_store = MEMORY",
    "pragma optimize = 0x10002"
  ]

  const CheckpointStatement := "PRAGMA wal_checkpoint(TRUNCATE)"

  /** A batch of writes fails when its statement number `failAt` exists. */
  predicate BatchFails(ws: seq<Write>, failAt: Option<nat>)
  {
    failAt.Some? && failAt.value < |ws|
  }

  class CustomDatabase {
    /** `#cache`: query text to prepared statement. */
    var cache: map<string, Statement>
    /** How many statements the engine has compiled; the next one gets this serial. */
    var compiled: nat
    /** The content of the database file. */
    var tables: Tables
    /** The control statements run so far (pragmas, transaction steps, checkpoints). */
    var executed: seq<string>
    var isOpen: bool

    /** Every cached statement was compiled for the text it is cached under. */
    ghost predicate Valid()
      reads this
    {
      forall q :: q in cache ==> cache[q].text == q && cache[q].serial < compiled
    }

    constructor (initial: Tables)
      ensures Valid() && isOpen && cache == map[] && tables == initial
      ensures executed == Pragmas
    {
      cache := map[];
      compiled := 0;
      tables := initial;
      isOpen := true;
      executed := Pragmas;
    }

    /** `super.prepare(sql)`: compiles a new statement, or throws. */
    method Compile(sql: string, compiles: bool) returns (r: Result<Statement>)
      requires Valid()
      modifies this`compiled
      ensures Valid()
      ensures r.Ok? <==> isOpen && compiles
      ensures r.Ok? ==> r.value == Statement(old(compiled), sql) && compiled == old(compiled) + 1
      ensures r.Err? ==> compiled == old(compiled)
    {
      if isOpen && compiles {
        r := Ok(Statement(compiled, sql));
        compiled := compiled + 1;
      } else {
        r := Err(StorageFailure);
      }
    }

    /**
     * `prepare(sql, cache)`: without the cache, a fresh statement and the
     * cache untouched; with it, the cached statement for that text, or a
     * new one that is cached first (`#ensureInCache`).
     */
    method Prepare(sql: string, useCache: bool, compiles: bool) returns (r: Result<Statement>)
      requires Valid()
      modifies this`cache, this`compiled
      ensures Valid()
      ensures !useCache ==> cache == old(cache) && (r.Ok? <==> isOpen && compiles)
      ensures !useCache && r.Ok? ==> r.value.serial == old(compiled)
      ensures useCache && sql in old(cache) ==> r == Ok(old(cache)[sql]) && cache == old(cache)
      ensures useCache && sql !in old(cache) ==>
        if isOpen && compiles
        then r == Ok(Statement(old(compiled), sql)) && cache == old(cache)[sql := r.value]
        else r.Err? && cache == old(cache)
      ensures r.Ok? ==> r.value.text == sql
    {
      if !useCache {
        r := Compile(sql, compiles);
        return;
      }
      if sql !in cache {
        var s := Compile(sql, compiles);
        if s.Err? {
          return s;
        }
        cache := cache[sql := s.value];
      }
      r := Ok(cache[sql]);
    }

    /**
     * The tagged template `sql`: expands and trims the text, prepares it
     * through the cache and runs it with the flattened parameters. The
     * engine's answer to running it is `outcome`. When preparing or
     * running throws, the text is evicted and the error is passed on.
     */
    method Sql(strings: seq<string>, params: seq<Param>, compiles: bool, outcome: Result<seq<Json>>)
      returns (r: Result<seq<Json>>, bound: seq<SqlValue>)
      requires Valid()
      modifies this`cache, this`compiled
      ensures Valid()
      ensures bound == Bound(params)
      ensures var text := QueryText(strings, params);
        && (r.Err? ==> cache == old(cache) - {text})
        && (r.Ok? ==> r == outcome && text in cache && cache == old(cache)[text := cache[text]])
        && (r.Ok? <==> (text in old(cache) || (isOpen && compiles)) && outcome.Ok?)
        && (r.Ok? && text in old(cache) ==> cache == old(cache))
    {
      var text := QueryText(strings, params);
      bound := Bound(params);
      r := RunCached(text, compiles, outcome);
    }

    /**
     * The `try`/`catch` of `sql` on the expanded text: prepare through the
     * cache and run; on a throw, evict the text and pass the error on.
     */
    method RunCached(text: string, compiles: bool, outcome: Result<seq<Json>>) returns (r: Result<seq<Json>>)
      requires Valid()
      modifies this`cache, this`compiled
      ensures Valid()
      ensures r.Err? ==> cache == old(cache) - {text}
      ensures r.Ok? ==> r == outcome && text in cache && cache == old(cache)[text := cache[text]]
      ensures r.Ok? <==> (text in old(cache) || (isOpen && compiles)) && outcome.Ok?
      ensures r.Ok? && text in old(cache) ==> cache == old(cache)
    {
      var stmt := Prepare(text, true, compiles);
      if stmt.Err? {
        cache := cache - {text};
        return Err(stmt.error);
      }
      if outcome.Err? {
        cache := cache - {text};
        return Err(outcome.error);
      }
      r := outcome;
    }

    /**
     * `transaction(fn)` where `fn` runs the statements `ws` in order and
     * statement number `failAt` (if any) throws: `begin immediate`, the
     * statements, then `commit`; on a throw, `rollback` restores the state
     * at `begin` and the error is passed on. A closed database throws
     * before anything happens.
     */
    method Transaction(ws: seq<Write>, failAt: Option<nat>) returns (r: Result<()>)
      modifies this`tables, this`executed
      ensures !old(isOpen) ==> r.Err? && tables == old(tables) && executed == old(executed)
      ensures old(isOpen) ==> (r.Ok? <==> !BatchFails(ws, failAt))
      ensures r.Ok? ==> tables == ApplyAll(old(tables), ws)
      ensures r.Err? ==> tables == old(tables) && r.error == StorageFailure
      ensures old(isOpen) ==>
        executed == old(executed) + ["begin immediate", if r.Ok? then "commit" else "rollback"]
    {
      if !isOpen {
        return Err(StorageFailure);
      }
      executed := executed + ["begin immediate"];
      var snapshot := tables;
      var i := 0;
      while i < |ws| && failAt != Some(i)
        invariant 0 <= i <= |ws|
        invariant tables == ApplyAll(snapshot, ws[..i])
        invariant failAt.Some? ==> i <= failAt.value
        invariant executed == old(executed) + ["begin immediate"]
      {
        assert ws[..i + 1][..i] == ws[..i];
        tables := ApplyWrite(tables, ws[i]);
        i := i + 1;
      }
      if i < |ws| {
        tables := snapshot;
        executed := executed + ["rollback"];
        r := Err(StorageFailure);
      } else {
        assert ws[..i] == ws;
        executed := executed + ["commit"];
        r := Ok(());
      }
    }

    /** `update inputs set raw = ... where id = ...`, or a storage error. */
    method UpdateInputRaw(id: string, raw: Json, fails: bool) returns (r: Result<()>)
      modifies this`tables
      ensures r.Ok? <==> isOpen && !fails
      ensures r.Ok? ==> tables == old(tables).(inputs := Rows.UpdateInputRaw(old(tables).inputs, id, raw))
      ensures r.Err? ==> tables == old(tables) && r.error == StorageFailure
    {
      if !isOpen || fails {
        return Err(StorageFailure);
      }
      tables := tables.(inputs := Rows.UpdateInputRaw(tables.inputs, id, raw));
      r := Ok(());
    }

    /** `update release_sources set raw = ... where id = ...`, or a storage error. */
    method UpdateSourceRaw(id: string, raw: Json, fails: bool) returns (r: Result<()>)
      modifies this`tables
      ensures r.Ok? <==> isOpen && !fails
      ensures r.Ok? ==> tables == old(tables).(sources := Rows.UpdateSourceRaw(old(tables).sources, id, raw))
      ensures r.Err? ==> tables == old(tables) && r.error == StorageFailure
    {
      if !isOpen || fails {
        return Err(StorageFailure);
      }
      tables := tables.(sources := Rows.UpdateSourceRaw(tables.sources, id, raw));
      r := Ok(());
    }

    /** `PRAGMA wal_checkpoint(TRUNCATE)`: recorded; the tables are unchanged. */
    method Checkpoint()
      modifies this`executed
      ensures executed == old(executed) + [CheckpointStatement]
    {
      executed := executed + [CheckpointStatement];
    }

    /** `close()`: closes the engine, then empties the cache; a closed database throws. */
    method Close() returns (r: Result<()>)
      modifies this`isOpen, this`cache
      ensures r.Ok? <==> old(isOpen)
      ensures r.Ok? ==> !isOpen && cache == map[]
      ensures r.Err? ==> isOpen == old(isOpen) && cache == old(cache)
    {
      if !isOpen {
        return Err(StorageFailure);
      }
      isOpen := false;
      cache := map[];
      r := Ok(());
    }

    /** `[Symbol.dispose]()`: `pragma optimize`, then `close()`. */
    method Dispose() returns (r: Result<()>)
      modifies this`isOpen, this`cache, this`executed
      ensures r.Ok? <==> old(isOpen)
      ensures r.Ok? ==> !isOpen && cache == map[] && executed == old(executed) + ["pragma optimize"]
      ensures r.Err? ==> isOpen == old(isOpen) && cache == old(cache) && executed == old(executed)
    {
      if !isOpen {
        return Err(StorageFailure);
      }
      executed := executed + ["pragma optimize"];
      r := Close();
    }
  }
}
