/**
 * The `sync-inputs` job: for every input of one provider, fetch it again
 * and overwrite the stored `raw` of the rows with its id; log failures
 * and move on; pause between inputs; checkpoint at the end.
 */
module SyncInputsJob {
  import opened Wrappers
  import opened Json
  import opened Rows
  import opened Interfaces
  import opened Database
  import opened JobSupport

  /** The `IProvider` the job is given: its mappers, and `fetchInput` with the remote answer for each stored input. */
  datatype Provider = Provider(caps: Capabilities, fetchInput: InputRow -> Result<Option<Json>>)

  /** The `try` body for one input: re-fetch, then overwrite `raw` by id; a throw is logged with the row. */
  function Process(s: Run<InputRow>, provider: Provider, fails: bool, row: InputRow): (r: Run<InputRow>)
    ensures r.delays == s.delays
  {
    var fetched := provider.fetchInput(row);
    if fetched.Err? then s.(failures := s.failures + [Failure(row, fetched.error)])
    else if fetched.value.None? then s
    else if fails then s.(failures := s.failures + [Failure(row, StorageFailure)])
    else
      var raw := provider.caps.fromInputToPersistence(fetched.value.value).raw;
      s.(tables := s.tables.(inputs := UpdateInputRaw(s.tables.inputs, row.id, raw)))
  }

  /** Processing input number `index` of `n`, then its pause. */
  function Step(s: Run<InputRow>, provider: Provider, fails: bool, row: InputRow, index: nat, n: nat): Run<InputRow>
  {
    Process(s, provider, fails, row).(delays := s.delays + if DelayAfter(index, n) then 1 else 0)
  }

  /** The step of input number `i` of the `n` selected, whose update throws when `fails(i)`. */
  function StepOf(provider: Provider, fails: nat -> bool, n: nat): (Run<InputRow>, InputRow, nat) -> Run<InputRow>
  {
    (s: Run<InputRow>, row: InputRow, i: nat) => Step(s, provider, fails(i), row, i, n)
  }

  /** The job object: `AppProps` are the gateway, the provider and the signal. */
  class App {
    const database: CustomDatabase
    const provider: Provider
    const signal: Signal

    constructor (database: CustomDatabase, provider: Provider, signal: Signal)
      ensures this.database == database && this.provider == provider && this.signal == signal
    {
      this.database := database;
      this.provider := provider;
      this.signal := signal;
    }

    /**
     * `execute()`. The update of input `i` throws when `fails(i)`.
     * Returns the error log and the number of pauses; `Err` when the
     * initial select throws.
     */
    method Execute(fails: nat -> bool) returns (r: Result<()>, failures: seq<Failure<InputRow>>, delays: nat)
      modifies database`tables, database`executed
      ensures signal.abortedAtStart ==>
        && r.Ok? && failures == [] && delays == 0
        && database.tables == old(database.tables) && database.executed == old(database.executed)
      ensures !signal.abortedAtStart && !database.isOpen ==>
        && r.Err? && failures == [] && delays == 0
        && database.tables == old(database.tables) && database.executed == old(database.executed)
      ensures !signal.abortedAtStart && database.isOpen ==>
        var rows := InputsOf(old(database.tables).inputs, provider.caps.provider);
        var s := Steps(Run(old(database.tables), old(database.executed), [], 0), StepOf(provider, fails, |rows|), rows[..Started(|rows|, signal)]);
        && r.Ok?
        && database.tables == s.tables
        && database.executed == s.executed + [CheckpointStatement]
        && failures == s.failures && delays == s.delays
    {
      if signal.abortedAtStart {
        return Ok(()), [], 0;
      }
      if !database.isOpen {
        return Err(StorageFailure), [], 0;
      }
      var rows := InputsOf(database.tables.inputs, provider.caps.provider);
      ghost var start := Run(database.tables, database.executed, [], 0);
      ghost var step := StepOf(provider, fails, |rows|);
      failures, delays := [], 0;
      var index := 0;
      while index < |rows|
        invariant index <= Started(|rows|, signal)
        invariant database.isOpen
        invariant Steps(start, step, rows[..index]) == Run(database.tables, database.executed, failures, delays)
      {
        if signal.AbortedAt(index) {
          break;
        }
        ghost var before: Run<InputRow> := Run(database.tables, database.executed, failures, delays);
        assert rows[..index + 1][..index] == rows[..index];
        var row := rows[index];
        failures := ProcessInput(row, fails(index), failures, delays);
        if DelayAfter(index, |rows|) {
          delays := delays + 1;
        }
        assert Run(database.tables, database.executed, failures, delays) == step(before, row, index);
        index := index + 1;
      }
      assert index == Started(|rows|, signal);
      database.Checkpoint();
      r := Ok(());
    }

    /**
     * The body of the `try` for one input, up to its pause: re-fetch it
     * and, when something came back, overwrite `raw` by id; a throw is
     * logged with the row.
     */
    method ProcessInput(row: InputRow, fails: bool, failures: seq<Failure<InputRow>>, ghost delays: nat)
      returns (logged: seq<Failure<InputRow>>)
      requires database.isOpen
      modifies database`tables
      ensures Run(database.tables, database.executed, logged, delays)
        == Process(Run(old(database.tables), database.executed, failures, delays), provider, fails, row)
    {
      logged := failures;
      var fetched := provider.fetchInput(row);
      if fetched.Err? {
        logged := logged + [Failure(row, fetched.error)];
        return;
      }
      if fetched.value.None? {
        return;
      }
      var db := provider.caps.fromInputToPersistence(fetched.value.value);
      var updated := database.UpdateInputRaw(row.id, db.raw, fails);
      if updated.Err? {
        logged := logged + [Failure(row, updated.error)];
      }
    }
  }

  // -----------------------------------------------------------------------
  // what a run does

  /** The job's step pauses after every input but the last, logs at most one failure naming its input, and runs no transaction. */
  lemma StepOfShape(provider: Provider, fails: nat -> bool, n: nat)
    ensures Paced(StepOf(provider, fails, n), n)
    ensures LogsItself(StepOf(provider, fails, n))
    ensures Transactional(StepOf(provider, fails, n))
  {
    var step := StepOf(provider, fails, n);
    forall s: Run<InputRow>, x: InputRow, i: nat
      ensures step(s, x, i) == Step(s, provider, fails(i), x, i, n)
    {
    }
  }

  /** The loop issues no control statement: the checkpoint after it is the only one the job runs. */
  lemma {:induction false} StepsNoStatements(s: Run<InputRow>, provider: Provider, fails: nat -> bool, rows: seq<InputRow>, n: nat)
    ensures Steps(s, StepOf(provider, fails, n), rows).executed == s.executed
  {
    if |rows| > 0 {
      var i := |rows| - 1;
      var before := Steps(s, StepOf(provider, fails, n), rows[..i]);
      StepsNoStatements(s, provider, fails, rows[..i], n);
      assert Steps(s, StepOf(provider, fails, n), rows) == Step(before, provider, fails(i), rows[i], i, n);
    }
  }

  /**
   * The job rewrites only `raw` of the inputs table: the same rows in the
   * same order with the same ids and providers; outputs, sources and
   * releases are as they were.
   */
  lemma {:induction false} StepsKeepsRows(s: Run<InputRow>, provider: Provider, fails: nat -> bool, rows: seq<InputRow>, n: nat)
    ensures var t := Steps(s, StepOf(provider, fails, n), rows).tables;
      && t.outputs == s.tables.outputs && t.sources == s.tables.sources && t.releases == s.tables.releases
      && |t.inputs| == |s.tables.inputs|
      && forall j :: 0 <= j < |t.inputs| ==> t.inputs[j].id == s.tables.inputs[j].id && t.inputs[j].provider == s.tables.inputs[j].provider
  {
    if |rows| > 0 {
      var i := |rows| - 1;
      var before := Steps(s, StepOf(provider, fails, n), rows[..i]);
      StepsKeepsRows(s, provider, fails, rows[..i], n);
      assert Steps(s, StepOf(provider, fails, n), rows) == Step(before, provider, fails(i), rows[i], i, n);
    }
  }

  /**
   * A stored input whose id is not the id of any processed input keeps
   * its `raw`: inputs after the one where the loop stopped are untouched.
   */
  lemma {:induction false} StepsUntouched(s: Run<InputRow>, provider: Provider, fails: nat -> bool, rows: seq<InputRow>, n: nat, j: nat)
    requires j < |s.tables.inputs|
    requires forall r :: r in rows ==> r.id != s.tables.inputs[j].id
    ensures j < |Steps(s, StepOf(provider, fails, n), rows).tables.inputs|
    ensures Steps(s, StepOf(provider, fails, n), rows).tables.inputs[j] == s.tables.inputs[j]
  {
    if |rows| > 0 {
      var i := |rows| - 1;
      var before := Steps(s, StepOf(provider, fails, n), rows[..i]);
      StepsUntouched(s, provider, fails, rows[..i], n, j);
      assert rows[i] in rows;
      assert Steps(s, StepOf(provider, fails, n), rows) == Step(before, provider, fails(i), rows[i], i, n);
    }
  }

  /**
   * A successful re-fetch replaces `raw` wholesale, no merge, in every
   * row with the input's id, whatever that row's provider; a skipped or
   * failed one changes no table.
   */
  lemma StepOverwrites(s: Run<InputRow>, provider: Provider, fails: bool, row: InputRow, index: nat, n: nat)
    ensures var t := Step(s, provider, fails, row, index, n).tables;
      var fetched := provider.fetchInput(row);
      && (fetched.Ok? && fetched.value.Some? && !fails ==>
            forall j :: 0 <= j < |t.inputs| && s.tables.inputs[j].id == row.id ==>
              t.inputs[j].raw == provider.caps.fromInputToPersistence(fetched.value.value).raw)
      && (fetched.Err? || fetched.value.None? || fails ==> t == s.tables)
  {
  }
}
