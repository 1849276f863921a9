/**
 * The legacy `sync-release-sources` job: for every release source of one
 * provider, fetch it again and overwrite the stored `raw` of the sources
 * with its id; log failures and move on; pause between sources;
 * checkpoint at the end.
 */
module SyncReleaseSourcesJob {
  import opened Wrappers
  import opened Rows
  import opened Database
  import opened JobSupport

  /** The `service` prop: `fetchReleaseSource` with the remote answer (a row, or nothing) for each stored source. */
  datatype Service = Service(fetchReleaseSource: SourceRow -> Result<Option<SourceRow>>)

  /** The `try` body for one source: re-fetch, then overwrite `raw` by id; a throw is logged with the source. */
  function Process(s: Run<SourceRow>, service: Service, fails: bool, source: SourceRow): (r: Run<SourceRow>)
    ensures r.delays == s.delays
  {
    var fetched := service.fetchReleaseSource(source);
    if fetched.Err? then s.(failures := s.failures + [Failure(source, fetched.error)])
    else if fetched.value.None? then s
    else if fails then s.(failures := s.failures + [Failure(source, StorageFailure)])
    else s.(tables := s.tables.(sources := UpdateSourceRaw(s.tables.sources, source.id, fetched.value.value.raw)))
  }

  /** Processing source number `index` of `n`, then its pause. */
  function Step(s: Run<SourceRow>, service: Service, fails: bool, source: SourceRow, index: nat, n: nat): Run<SourceRow>
  {
    Process(s, service, fails, source).(delays := s.delays + if DelayAfter(index, n) then 1 else 0)
  }

  /** The step of source number `i` of the `n` selected, whose update throws when `fails(i)`. */
  function StepOf(service: Service, fails: nat -> bool, n: nat): (Run<SourceRow>, SourceRow, nat) -> Run<SourceRow>
  {
    (s: Run<SourceRow>, source: SourceRow, i: nat) => Step(s, service, fails(i), source, i, n)
  }

  /**
   * The job object: `AppProps` are the gateway, the `ReleaseSourceProvider`
   * value whose sources it walks, the service and the signal. A failure is
   * recorded with the whole failing source row and the error; the job's
   * log line names only the row's id.
   */
  class App {
    const database: CustomDatabase
    const provider: string
    const service: Service
    const signal: Signal

    constructor (database: CustomDatabase, provider: string, service: Service, signal: Signal)
      ensures this.database == database && this.provider == provider && this.service == service && this.signal == signal
    {
      this.database := database;
      this.provider := provider;
      this.service := service;
      this.signal := signal;
    }

    /**
     * `execute()`. The update of source `i` throws when `fails(i)`.
     * Returns the error log and the number of pauses; `Err` when the
     * initial select throws.
     */
    method Execute(fails: nat -> bool) returns (r: Result<()>, failures: seq<Failure<SourceRow>>, delays: nat)
      modifies database`tables, database`executed
      ensures signal.abortedAtStart ==>
        && r.Ok? && failures == [] && delays == 0
        && database.tables == old(database.tables) && database.executed == old(database.executed)
      ensures !signal.abortedAtStart && !database.isOpen ==>
        && r.Err? && failures == [] && delays == 0
        && database.tables == old(database.tables) && database.executed == old(database.executed)
      ensures !signal.abortedAtStart && database.isOpen ==>
        var sources := SourcesOf(old(database.tables).sources, provider);
        var s := Steps(Run(old(database.tables), old(database.executed), [], 0), StepOf(service, fails, |sources|), sources[..Started(|sources|, signal)]);
        && r.Ok?
        && database.tables == s.tables
        && database.executed == s.executed + [CheckpointStatement]
        && failures == s.failures && delays == s.delays
    {
      if signal.abortedAtStart {
        return Ok(()), [], 0;
      }
      if !database.isOpen {
        return Err(StorageFailure), [], 0;
      }
      var sources := SourcesOf(database.tables.sources, provider);
      ghost var start := Run(database.tables, database.executed, [], 0);
      ghost var step := StepOf(service, fails, |sources|);
      failures, delays := [], 0;
      var index := 0;
      while index < |sources|
        invariant index <= Started(|sources|, signal)
        invariant database.isOpen
        invariant Steps(start, step, sources[..index]) == Run(database.tables, database.executed, failures, delays)
      {
        if signal.AbortedAt(index) {
          break;
        }
        ghost var before: Run<SourceRow> := Run(database.tables, database.executed, failures, delays);
        assert sources[..index + 1][..index] == sources[..index];
        var source := sources[index];
        failures := ProcessSource(source, fails(index), failures, delays);
        if DelayAfter(index, |sources|) {
          delays := delays + 1;
        }
        assert Run(database.tables, database.executed, failures, delays) == step(before, source, index);
        index := index + 1;
      }
      assert index == Started(|sources|, signal);
      database.Checkpoint();
      r := Ok(());
    }

    /**
     * The body of the `try` for one source, up to its pause: re-fetch it
     * and, when something came back, overwrite `raw` by id; a throw is
     * logged with the source.
     */
    method ProcessSource(source: SourceRow, fails: bool, failures: seq<Failure<SourceRow>>, ghost delays: nat)
      returns (logged: seq<Failure<SourceRow>>)
      requires database.isOpen
      modifies database`tables
      ensures Run(database.tables, database.executed, logged, delays)
        == Process(Run(old(database.tables), database.executed, failures, delays), service, fails, source)
    {
      logged := failures;
      var fetched := service.fetchReleaseSource(source);
      if fetched.Err? {
        logged := logged + [Failure(source, fetched.error)];
        return;
      }
      if fetched.value.None? {
        return;
      }
      var updated := database.UpdateSourceRaw(source.id, fetched.value.value.raw, fails);
      if updated.Err? {
        logged := logged + [Failure(source, updated.error)];
      }
    }
  }

  // -----------------------------------------------------------------------
  // what a run does

  /** The job's step pauses after every source but the last, logs at most one failure naming its source, and runs no transaction. */
  lemma StepOfShape(service: Service, fails: nat -> bool, n: nat)
    ensures Paced(StepOf(service, fails, n), n)
    ensures LogsItself(StepOf(service, fails, n))
    ensures Transactional(StepOf(service, fails, n))
  {
    var step := StepOf(service, fails, n);
    forall s: Run<SourceRow>, x: SourceRow, i: nat
      ensures step(s, x, i) == Step(s, service, fails(i), x, i, n)
    {
    }
  }

  /** The loop issues no control statement: the checkpoint after it is the only one the job runs. */
  lemma {:induction false} StepsNoStatements(s: Run<SourceRow>, service: Service, fails: nat -> bool, sources: seq<SourceRow>, n: nat)
    ensures Steps(s, StepOf(service, fails, n), sources).executed == s.executed
  {
    if |sources| > 0 {
      var i := |sources| - 1;
      var before := Steps(s, StepOf(service, fails, n), sources[..i]);
      StepsNoStatements(s, service, fails, sources[..i], n);
      assert Steps(s, StepOf(service, fails, n), sources) == Step(before, service, fails(i), sources[i], i, n);
    }
  }

  /**
   * The job rewrites only `raw` of the release sources table: the same
   * rows in the same order with the same ids and providers; inputs,
   * outputs and releases are as they were.
   */
  lemma {:induction false} StepsKeepsRows(s: Run<SourceRow>, service: Service, fails: nat -> bool, sources: seq<SourceRow>, n: nat)
    ensures var t := Steps(s, StepOf(service, fails, n), sources).tables;
      && t.inputs == s.tables.inputs && t.outputs == s.tables.outputs && t.releases == s.tables.releases
      && |t.sources| == |s.tables.sources|
      && forall j :: 0 <= j < |t.sources| ==> t.sources[j].id == s.tables.sources[j].id && t.sources[j].provider == s.tables.sources[j].provider
  {
    if |sources| > 0 {
      var i := |sources| - 1;
      var before := Steps(s, StepOf(service, fails, n), sources[..i]);
      StepsKeepsRows(s, service, fails, sources[..i], n);
      assert Steps(s, StepOf(service, fails, n), sources) == Step(before, service, fails(i), sources[i], i, n);
    }
  }

  /**
   * A stored source whose id is not the id of any processed source keeps
   * its `raw`: sources after the one where the loop stopped are untouched.
   */
  lemma {:induction false} StepsUntouched(s: Run<SourceRow>, service: Service, fails: nat -> bool, sources: seq<SourceRow>, n: nat, j: nat)
    requires j < |s.tables.sources|
    requires forall r :: r in sources ==> r.id != s.tables.sources[j].id
    ensures j < |Steps(s, StepOf(service, fails, n), sources).tables.sources|
    ensures Steps(s, StepOf(service, fails, n), sources).tables.sources[j] == s.tables.sources[j]
  {
    if |sources| > 0 {
      var i := |sources| - 1;
      var before := Steps(s, StepOf(service, fails, n), sources[..i]);
      StepsUntouched(s, service, fails, sources[..i], n, j);
      assert sources[i] in sources;
      assert Steps(s, StepOf(service, fails, n), sources) == Step(before, service, fails(i), sources[i], i, n);
    }
  }

  /**
   * A fetched row replaces `raw` wholesale in every stored source with the
   * id of the source it was fetched for, keeping id and provider; nothing
   * fetched, a throw or a failed update changes no table.
   */
  lemma StepOverwrites(s: Run<SourceRow>, service: Service, fails: bool, source: SourceRow, index: nat, n: nat)
    ensures var t := Step(s, service, fails, source, index, n).tables;
      var fetched := service.fetchReleaseSource(source);
      && (fetched.Ok? && fetched.value.Some? && !fails ==>
            forall j :: 0 <= j < |t.sources| && s.tables.sources[j].id == source.id ==>
              t.sources[j] == SourceRow(source.id, s.tables.sources[j].provider, fetched.value.value.raw))
      && (fetched.Err? || fetched.value.None? || fails ==> t == s.tables)
  {
  }
}
