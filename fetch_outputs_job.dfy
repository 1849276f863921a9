/**
 * The `fetch-outputs` job: for every input of one provider, fetch its
 * outputs and upsert them in one transaction, inserting new keys and
 * merge-patching existing ones; log failures and move on; pause between
 * inputs; checkpoint at the end.
 */
module FetchOutputsJob {
  import opened Wrappers
  import opened Json
  import opened Rows
  import opened Interfaces
  import opened Database
  import opened JobSupport
  import BlurayProvider
  import Schema

  /** The `IProvider` the job is given: its mappers, and `fetchOutputs` with the remote answer for each input. */
  datatype Provider = Provider(caps: Capabilities, fetchOutputs: Json -> Result<seq<Json>>)

  /**
   * `releases.map(item => ({ toDb, toJsonPatchDb }))`: a full row and a
   * patch row per item. Without a patch mapper the first item throws.
   */
  function Upserts(caps: Capabilities, row: InputRow, items: seq<Json>): (r: Result<seq<Write>>)
    ensures r.Err? <==> |items| > 0 && caps.fromOutputToJsonPatchPersistance.None?
    ensures r.Err? ==> r.error.MissingCapability?
    ensures r.Ok? ==> |r.value| == |items|
    ensures forall i :: 0 <= i < |items| && r.Ok? && caps.fromOutputToJsonPatchPersistance.Some? ==>
      r.value[i] == OutputUpsert(caps.fromOutputToPersistence(row, items[i]), caps.fromOutputToJsonPatchPersistance.value(row, items[i]))
  {
    if |items| == 0 then Ok([])
    else if caps.fromOutputToJsonPatchPersistance.None? then Err(MissingCapability("fromOutputToJsonPatchPersistance"))
    else
      var patch := caps.fromOutputToJsonPatchPersistance.value;
      Ok(seq(|items|, i requires 0 <= i < |items| => OutputUpsert(caps.fromOutputToPersistence(row, items[i]), patch(row, items[i]))))
  }

  /** What processing one input comes to before its transaction. */
  datatype Attempt = Empty | Batch(writes: seq<Write>) | Thrown(error: Error)

  /**
   * `fromPersistenceToInput`, `fetchOutputs`, the empty-result test and
   * the mapping: the batch to commit, nothing to do, or the error thrown.
   */
  function AttemptInput(provider: Provider, row: InputRow): (a: Attempt)
    ensures a.Batch? <==>
      && provider.caps.fromPersistenceToInput(row).Ok?
      && provider.fetchOutputs(provider.caps.fromPersistenceToInput(row).value).Ok?
      && |provider.fetchOutputs(provider.caps.fromPersistenceToInput(row).value).value| > 0
      && provider.caps.fromOutputToJsonPatchPersistance.Some?
    ensures a.Empty? <==>
      && provider.caps.fromPersistenceToInput(row).Ok?
      && provider.fetchOutputs(provider.caps.fromPersistenceToInput(row).value) == Ok([])
    ensures a.Batch? ==> |a.writes| > 0 && forall i :: 0 <= i < |a.writes| ==> a.writes[i].OutputUpsert?
  {
    var input := provider.caps.fromPersistenceToInput(row);
    if input.Err? then Thrown(input.error)
    else
      var items := provider.fetchOutputs(input.value);
      if items.Err? then Thrown(items.error)
      else if |items.value| <= 0 then Empty
      else
        var ws := Upserts(provider.caps, row, items.value);
        if ws.Err? then Thrown(ws.error) else Batch(ws.value)
  }

  /** The `try` body for one input: map, fetch, and commit the batch; a throw is logged with the row. */
  function Process(s: Run<InputRow>, provider: Provider, failAt: Option<nat>, row: InputRow): (r: Run<InputRow>)
    ensures r.delays == s.delays
  {
    match AttemptInput(provider, row)
    case Empty => s
    case Thrown(e) => s.(failures := s.failures + [Failure(row, e)])
    case Batch(ws) =>
      if BatchFails(ws, failAt) then
        s.(executed := s.executed + ["begin immediate", "rollback"], failures := s.failures + [Failure(row, StorageFailure)])
      else
        s.(tables := ApplyAll(s.tables, ws), executed := s.executed + ["begin immediate", "commit"])
  }

  /** Processing input number `index` of `n`, then its pause. */
  function Step(s: Run<InputRow>, provider: Provider, failAt: Option<nat>, row: InputRow, index: nat, n: nat): Run<InputRow>
  {
    Process(s, provider, failAt, row).(delays := s.delays + if DelayAfter(index, n) then 1 else 0)
  }

  /** The step of input number `i` of the `n` selected, whose statement `failAt(i)` (if any) throws. */
  function StepOf(provider: Provider, failAt: nat -> Option<nat>, n: nat): (Run<InputRow>, InputRow, nat) -> Run<InputRow>
  {
    (s: Run<InputRow>, row: InputRow, i: nat) => Step(s, provider, failAt(i), row, i, n)
  }

  /** The job object: `AppProps` are the gateway, the provider and the signal. */
  class App {
    const database: CustomDatabase
    const provider: Provider
    const signal: Signal

    constructor (database: CustomDatabase, provider: Provider, signal: Signal)
      ensures this.database == database && this.provider == provider && this.signal == signal
    {
      this.database := database;
      this.provider := provider;
      this.signal := signal;
    }

    /**
     * `execute()`. Statement number `failAt(i)` of input `i`'s
     * transaction throws, if there is one. Returns the error log and the
     * number of pauses; `Err` when the initial select throws.
     */
    method Execute(failAt: nat -> Option<nat>) returns (r: Result<()>, failures: seq<Failure<InputRow>>, delays: nat)
      modifies database`tables, database`executed
      ensures signal.abortedAtStart ==>
        && r.Ok? && failures == [] && delays == 0
        && database.tables == old(database.tables) && database.executed == old(database.executed)
      ensures !signal.abortedAtStart && !database.isOpen ==>
        && r.Err? && failures == [] && delays == 0
        && database.tables == old(database.tables) && database.executed == old(database.executed)
      ensures !signal.abortedAtStart && database.isOpen ==>
        var rows := InputsOf(old(database.tables).inputs, provider.caps.provider);
        var s := Steps(Run(old(database.tables), old(database.executed), [], 0), StepOf(provider, failAt, |rows|), rows[..Started(|rows|, signal)]);
        && r.Ok?
        && database.tables == s.tables
        && database.executed == s.executed + [CheckpointStatement]
        && failures == s.failures && delays == s.delays
    {
      if signal.abortedAtStart {
        return Ok(()), [], 0;
      }
      if !database.isOpen {
        return Err(StorageFailure), [], 0;
      }
      var rows := InputsOf(database.tables.inputs, provider.caps.provider);
      ghost var start := Run(database.tables, database.executed, [], 0);
      ghost var step := StepOf(provider, failAt, |rows|);
      failures, delays := [], 0;
      var index := 0;
      while index < |rows|
        invariant index <= Started(|rows|, signal)
        invariant database.isOpen
        invariant Steps(start, step, rows[..index]) == Run(database.tables, database.executed, failures, delays)
      {
        if signal.AbortedAt(index) {
          break;
        }
        ghost var before: Run<InputRow> := Run(database.tables, database.executed, failures, delays);
        assert rows[..index + 1][..index] == rows[..index];
        failures := ProcessInput(rows[index], failAt(index), failures, delays);
        if DelayAfter(index, |rows|) {
          delays := delays + 1;
        }
        assert Run(database.tables, database.executed, failures, delays) == step(before, rows[index], index);
        index := index + 1;
      }
      assert index == Started(|rows|, signal);
      database.Checkpoint();
      r := Ok(());
    }

    /**
     * The body of the `try` for one input, up to its pause: map the row
     * back to an input, fetch, and commit the batch; a throw at any point
     * is logged with the row.
     */
    method ProcessInput(row: InputRow, failAt: Option<nat>, failures: seq<Failure<InputRow>>, ghost delays: nat)
      returns (logged: seq<Failure<InputRow>>)
      requires database.isOpen
      modifies database`tables, database`executed
      ensures Run(database.tables, database.executed, logged, delays)
        == Process(Run(old(database.tables), old(database.executed), failures, delays), provider, failAt, row)
    {
      logged := failures;
      var input := provider.caps.fromPersistenceToInput(row);
      if input.Err? {
        logged := logged + [Failure(row, input.error)];
        return;
      }
      var releases := provider.fetchOutputs(input.value);
      if releases.Err? {
        logged := logged + [Failure(row, releases.error)];
        return;
      }
      if |releases.value| <= 0 {
        return;
      }
      var toDb := Upserts(provider.caps, row, releases.value);
      if toDb.Err? {
        logged := logged + [Failure(row, toDb.error)];
        return;
      }
      var committed := database.Transaction(toDb.value, failAt);
      if committed.Err? {
        logged := logged + [Failure(row, committed.error)];
      }
    }
  }

  // -----------------------------------------------------------------------
  // what a run does

  /** The job writes only the outputs table: inputs, sources and releases are as they were. */
  lemma {:induction false} StepsOutputsOnly(s: Run<InputRow>, provider: Provider, failAt: nat -> Option<nat>, rows: seq<InputRow>, n: nat)
    ensures var t := Steps(s, StepOf(provider, failAt, n), rows).tables;
      t.inputs == s.tables.inputs && t.sources == s.tables.sources && t.releases == s.tables.releases
  {
    if |rows| > 0 {
      var i := |rows| - 1;
      var before := Steps(s, StepOf(provider, failAt, n), rows[..i]);
      StepsOutputsOnly(s, provider, failAt, rows[..i], n);
      assert Steps(s, StepOf(provider, failAt, n), rows) == Step(before, provider, failAt(i), rows[i], i, n);
      var a := AttemptInput(provider, rows[i]);
      if a.Batch? {
        ApplyAllOutputsOnly(before.tables, a.writes);
      }
    }
  }

  /** An output key the job's mappers make for `row` from some fetched item. */
  ghost predicate KeyFrom(provider: Provider, rows: seq<InputRow>, k: OutputKey)
  {
    exists j, item :: 0 <= j < |rows| && k == KeyOf(provider.caps.fromOutputToPersistence(rows[j], item))
  }

  /**
   * No stored output is ever removed, and every output key the run adds
   * was made by the mapper from a processed input: inputs after the one
   * where the loop stopped leave no trace.
   */
  lemma {:induction false} StepsKeys(s: Run<InputRow>, provider: Provider, failAt: nat -> Option<nat>, rows: seq<InputRow>, n: nat)
    ensures var t := Steps(s, StepOf(provider, failAt, n), rows).tables.outputs;
      && s.tables.outputs.Keys <= t.Keys
      && forall k :: k in t && k !in s.tables.outputs ==> KeyFrom(provider, rows, k)
  {
    if |rows| > 0 {
      var i := |rows| - 1;
      var before := Steps(s, StepOf(provider, failAt, n), rows[..i]);
      StepsKeys(s, provider, failAt, rows[..i], n);
      assert Steps(s, StepOf(provider, failAt, n), rows) == Step(before, provider, failAt(i), rows[i], i, n);
      var t := Steps(s, StepOf(provider, failAt, n), rows).tables.outputs;
      StepKeys(before, provider, failAt(i), rows[i], i, n);
      forall k | k in t && k !in s.tables.outputs ensures KeyFrom(provider, rows, k) {
        if k in before.tables.outputs {
          var j, item :| 0 <= j < i && k == KeyOf(provider.caps.fromOutputToPersistence(rows[..i][j], item));
          assert rows[..i][j] == rows[j];
        } else {
          var item :| k == KeyOf(provider.caps.fromOutputToPersistence(rows[i], item));
        }
      }
    }
  }

  /** One input's step keeps every stored key and adds only keys the mapper made from that input. */
  lemma StepKeys(s: Run<InputRow>, provider: Provider, failAt: Option<nat>, row: InputRow, index: nat, n: nat)
    ensures var t := Step(s, provider, failAt, row, index, n).tables.outputs;
      && s.tables.outputs.Keys <= t.Keys
      && forall k :: k in t && k !in s.tables.outputs ==>
           exists item :: k == KeyOf(provider.caps.fromOutputToPersistence(row, item))
  {
    var a := AttemptInput(provider, row);
    if a.Batch? && !BatchFails(a.writes, failAt) {
      ApplyAllKeys(s.tables, a.writes);
      var items := provider.fetchOutputs(provider.caps.fromPersistenceToInput(row).value).value;
      forall k | k in ApplyAll(s.tables, a.writes).outputs && k !in s.tables.outputs
        ensures exists item :: k == KeyOf(provider.caps.fromOutputToPersistence(row, item))
      {
        var m :| 0 <= m < |a.writes| && k == KeyOf(a.writes[m].full);
        assert a.writes[m].full == provider.caps.fromOutputToPersistence(row, items[m]);
      }
    }
  }

  /**
   * The job's step pauses after every input but the last, logs at most
   * one failure naming its input, and issues at most one transaction.
   */
  lemma StepOfShape(provider: Provider, failAt: nat -> Option<nat>, n: nat)
    ensures Paced(StepOf(provider, failAt, n), n)
    ensures LogsItself(StepOf(provider, failAt, n))
    ensures Transactional(StepOf(provider, failAt, n))
  {
    var step := StepOf(provider, failAt, n);
    forall s: Run<InputRow>, x: InputRow, i: nat
      ensures step(s, x, i) == Step(s, provider, failAt(i), x, i, n)
    {
    }
  }

  /**
   * One input's upserts are applied all or none: after a step the tables
   * are as before, or the whole batch has been applied.
   */
  lemma StepAllOrNone(s: Run<InputRow>, provider: Provider, failAt: Option<nat>, row: InputRow, index: nat, n: nat)
    ensures var t := Step(s, provider, failAt, row, index, n).tables;
      || t == s.tables
      || (AttemptInput(provider, row).Batch? && t == ApplyAll(s.tables, AttemptInput(provider, row).writes))
    ensures AttemptInput(provider, row).Empty? ==> Step(s, provider, failAt, row, index, n).tables == s.tables
  {
  }

  /**
   * A provider without a patch mapper never gets an output stored: every
   * input whose fetch returns items fails when its items are mapped, and
   * the tables stay as they were.
   */
  lemma {:induction false} NoPatchMapperStoresNothing(s: Run<InputRow>, provider: Provider, failAt: nat -> Option<nat>, rows: seq<InputRow>, n: nat)
    requires provider.caps.fromOutputToJsonPatchPersistance.None?
    ensures Steps(s, StepOf(provider, failAt, n), rows).tables == s.tables
    ensures Steps(s, StepOf(provider, failAt, n), rows).executed == s.executed
  {
    if |rows| > 0 {
      var i := |rows| - 1;
      NoPatchMapperStoresNothing(s, provider, failAt, rows[..i], n);
      var before := Steps(s, StepOf(provider, failAt, n), rows[..i]);
      assert Steps(s, StepOf(provider, failAt, n), rows) == Step(before, provider, failAt(i), rows[i], i, n);
    }
  }

  /**
   * The Blu-ray provider as written: whatever its inputs fetch, the job
   * stores none of it.
   */
  lemma BlurayOutputsNeverStored(s: Run<InputRow>, fetch: Json -> Result<seq<Json>>, val: Schema.Validators,
                                 failAt: nat -> Option<nat>, rows: seq<InputRow>, n: nat)
    ensures Steps(s, StepOf(Provider(BlurayProvider.Mapper(val), fetch), failAt, n), rows).tables == s.tables
  {
    NoPatchMapperStoresNothing(s, Provider(BlurayProvider.Mapper(val), fetch), failAt, rows, n);
  }

  /**
   * With the patch mapper the Blu-ray provider lacks (the full row, as
   * for Steam), an input whose fetch returns items and whose transaction
   * commits has one upsert per item stored.
   */
  lemma BlurayFixedStores(s: Run<InputRow>, fetch: Json -> Result<seq<Json>>, val: Schema.Validators,
                          failAt: Option<nat>, row: InputRow, index: nat, n: nat)
    requires BlurayProvider.FromPersistenceToInput(row, val).Ok?
    requires fetch(BlurayProvider.FromPersistenceToInput(row, val).value).Ok?
    requires |fetch(BlurayProvider.FromPersistenceToInput(row, val).value).value| > 0
    ensures var p := Provider(BlurayProvider.MapperFixed(val), fetch);
      var items := fetch(BlurayProvider.FromPersistenceToInput(row, val).value).value;
      && AttemptInput(p, row).Batch?
      && AttemptInput(p, row).writes
         == seq(|items|, i requires 0 <= i < |items| =>
              OutputUpsert(BlurayProvider.FromOutputToPersistence(row, items[i]), BlurayProvider.FromOutputToPersistence(row, items[i])))
      && (!BatchFails(AttemptInput(p, row).writes, failAt) ==>
            Step(s, p, failAt, row, index, n).tables == ApplyAll(s.tables, AttemptInput(p, row).writes))
  {
    var p := Provider(BlurayProvider.MapperFixed(val), fetch);
    var items := fetch(BlurayProvider.FromPersistenceToInput(row, val).value).value;
    assert p.caps.fromPersistenceToInput(row) == BlurayProvider.FromPersistenceToInput(row, val);
    var ws := Upserts(p.caps, row, items);
    assert ws.Ok?;
  }
}
