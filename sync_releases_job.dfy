/**
 * The legacy `sync-releases` job: for every release source of one
 * provider, fetch its releases and insert them in one transaction,
 * replacing `raw` of releases already stored under the same
 * `(id, provider, type)`; log failures and move on; pause between
 * sources; checkpoint at the end.
 */
module SyncReleasesJob {
  import opened Wrappers
  import opened Rows
  import opened Database
  import opened JobSupport

  /** The `service` prop: `fetchReleasesFromSource` with the remote answer for each source. */
  datatype Service = Service(fetchReleasesFromSource: SourceRow -> Result<seq<ReleaseRow>>)

  /** The `insert into releases ... on conflict ... set raw` statements, one per release, in order. */
  function Inserts(releases: seq<ReleaseRow>): (ws: seq<Write>)
    ensures |ws| == |releases|
    ensures forall i :: 0 <= i < |ws| ==> ws[i].ReleaseUpsert? && ws[i].row == releases[i]
  {
    seq(|releases|, i requires 0 <= i < |releases| => ReleaseUpsert(releases[i]))
  }

  /** The `try` body for one source: fetch, then one transaction of inserts; a throw is logged with the source. */
  function Process(s: Run<SourceRow>, service: Service, failAt: Option<nat>, source: SourceRow): (r: Run<SourceRow>)
    ensures r.delays == s.delays
  {
    var releases := service.fetchReleasesFromSource(source);
    if releases.Err? then s.(failures := s.failures + [Failure(source, releases.error)])
    else if |releases.value| <= 0 then s
    else if BatchFails(Inserts(releases.value), failAt) then
      s.(executed := s.executed + ["begin immediate", "rollback"], failures := s.failures + [Failure(source, StorageFailure)])
    else
      s.(tables := ApplyAll(s.tables, Inserts(releases.value)), executed := s.executed + ["begin immediate", "commit"])
  }

  /** Processing source number `index` of `n`, then its pause. */
  function Step(s: Run<SourceRow>, service: Service, failAt: Option<nat>, source: SourceRow, index: nat, n: nat): Run<SourceRow>
  {
    Process(s, service, failAt, source).(delays := s.delays + if DelayAfter(index, n) then 1 else 0)
  }

  /** The step of source number `i` of the `n` selected, whose statement `failAt(i)` (if any) throws. */
  function StepOf(service: Service, failAt: nat -> Option<nat>, n: nat): (Run<SourceRow>, SourceRow, nat) -> Run<SourceRow>
  {
    (s: Run<SourceRow>, source: SourceRow, i: nat) => Step(s, service, failAt(i), source, i, n)
  }

  /**
   * The job object: `AppProps` are the gateway, the `ReleaseSourceProvider`
   * value whose sources it walks, the service and the signal. A failure is
   * recorded with the whole failing source row and the error; the job's
   * log line names only the row's id.
   */
  class App {
    const database: CustomDatabase
    const provider: string
    const service: Service
    const signal: Signal

    constructor (database: CustomDatabase, provider: string, service: Service, signal: Signal)
      ensures this.database == database && this.provider == provider && this.service == service && this.signal == signal
    {
      this.database := database;
      this.provider := provider;
      this.service := service;
      this.signal := signal;
    }

    /**
     * `execute()`. Statement number `failAt(i)` of source `i`'s
     * transaction throws, if there is one. Returns the error log and the
     * number of pauses; `Err` when the initial select throws.
     */
    method Execute(failAt: nat -> Option<nat>) returns (r: Result<()>, failures: seq<Failure<SourceRow>>, delays: nat)
      modifies database`tables, database`executed
      ensures signal.abortedAtStart ==>
        && r.Ok? && failures == [] && delays == 0
        && database.tables == old(database.tables) && database.executed == old(database.executed)
      ensures !signal.abortedAtStart && !database.isOpen ==>
        && r.Err? && failures == [] && delays == 0
        && database.tables == old(database.tables) && database.executed == old(database.executed)
      ensures !signal.abortedAtStart && database.isOpen ==>
        var sources := SourcesOf(old(database.tables).sources, provider);
        var s := Steps(Run(old(database.tables), old(database.executed), [], 0), StepOf(service, failAt, |sources|), sources[..Started(|sources|, signal)]);
        && r.Ok?
        && database.tables == s.tables
        && database.executed == s.executed + [CheckpointStatement]
        && failures == s.failures && delays == s.delays
    {
      if signal.abortedAtStart {
        return Ok(()), [], 0;
      }
      if !database.isOpen {
        return Err(StorageFailure), [], 0;
      }
      var sources := SourcesOf(database.tables.sources, provider);
      ghost var start := Run(database.tables, database.executed, [], 0);
      ghost var step := StepOf(service, failAt, |sources|);
      failures, delays := [], 0;
      var index := 0;
      while index < |sources|
        invariant index <= Started(|sources|, signal)
        invariant database.isOpen
        invariant Steps(start, step, sources[..index]) == Run(database.tables, database.executed, failures, delays)
      {
        if signal.AbortedAt(index) {
          break;
        }
        ghost var before: Run<SourceRow> := Run(database.tables, database.executed, failures, delays);
        assert sources[..index + 1][..index] == sources[..index];
        var source := sources[index];
        failures := ProcessSource(source, failAt(index), failures, delays);
        if DelayAfter(index, |sources|) {
          delays := delays + 1;
        }
        assert Run(database.tables, database.executed, failures, delays) == step(before, source, index);
        index := index + 1;
      }
      assert index == Started(|sources|, signal);
      database.Checkpoint();
      r := Ok(());
    }

    /**
     * The body of the `try` for one source, up to its pause: fetch its
     * releases and insert them in one transaction; a throw is logged with
     * the source.
     */
    method ProcessSource(source: SourceRow, failAt: Option<nat>, failures: seq<Failure<SourceRow>>, ghost delays: nat)
      returns (logged: seq<Failure<SourceRow>>)
      requires database.isOpen
      modifies database`tables, database`executed
      ensures Run(database.tables, database.executed, logged, delays)
        == Process(Run(old(database.tables), old(database.executed), failures, delays), service, failAt, source)
    {
      logged := failures;
      var releases := service.fetchReleasesFromSource(source);
      if releases.Err? {
        logged := logged + [Failure(source, releases.error)];
        return;
      }
      if |releases.value| <= 0 {
        return;
      }
      var committed := database.Transaction(Inserts(releases.value), failAt);
      if committed.Err? {
        logged := logged + [Failure(source, committed.error)];
      }
    }
  }

  // -----------------------------------------------------------------------
  // what a run does

  /** The job's step pauses after every source but the last, logs at most one failure naming its source, and issues at most one transaction. */
  lemma StepOfShape(service: Service, failAt: nat -> Option<nat>, n: nat)
    ensures Paced(StepOf(service, failAt, n), n)
    ensures LogsItself(StepOf(service, failAt, n))
    ensures Transactional(StepOf(service, failAt, n))
  {
    var step := StepOf(service, failAt, n);
    forall s: Run<SourceRow>, x: SourceRow, i: nat
      ensures step(s, x, i) == Step(s, service, failAt(i), x, i, n)
    {
    }
  }

  /** The job writes only the releases table. */
  lemma {:induction false} StepsReleasesOnly(s: Run<SourceRow>, service: Service, failAt: nat -> Option<nat>, sources: seq<SourceRow>, n: nat)
    ensures var t := Steps(s, StepOf(service, failAt, n), sources).tables;
      t.inputs == s.tables.inputs && t.outputs == s.tables.outputs && t.sources == s.tables.sources
  {
    if |sources| > 0 {
      var i := |sources| - 1;
      var before := Steps(s, StepOf(service, failAt, n), sources[..i]);
      StepsReleasesOnly(s, service, failAt, sources[..i], n);
      assert Steps(s, StepOf(service, failAt, n), sources) == Step(before, service, failAt(i), sources[i], i, n);
      var releases := service.fetchReleasesFromSource(sources[i]);
      if releases.Ok? {
        ApplyAllReleasesOnly(before.tables, Inserts(releases.value));
      }
    }
  }

  /**
   * One source whose fetch returns releases and whose transaction commits:
   * a fetched release is stored with its own raw, unless a later release
   * of the batch has the same key (the last one fetched wins).
   */
  lemma SourceStored(s: Run<SourceRow>, service: Service, failAt: Option<nat>, source: SourceRow, index: nat, n: nat, i: nat)
    requires service.fetchReleasesFromSource(source).Ok?
    requires var rs := service.fetchReleasesFromSource(source).value;
      && i < |rs| && !BatchFails(Inserts(rs), failAt)
      && forall j :: i < j < |rs| ==> ReleaseKeyOf(rs[j]) != ReleaseKeyOf(rs[i])
    ensures var rs := service.fetchReleasesFromSource(source).value;
      var t := Step(s, service, failAt, source, index, n).tables.releases;
      ReleaseKeyOf(rs[i]) in t && t[ReleaseKeyOf(rs[i])].raw == rs[i].raw
  {
    var rs := service.fetchReleasesFromSource(source).value;
    var ws := Inserts(rs);
    assert Step(s, service, failAt, source, index, n).tables == ApplyAll(s.tables, ws);
    assert forall j :: i < j < |ws| ==> ws[j].row == rs[j];
    ApplyReleasesLastWins(s.tables, ws, i);
  }

  /** The same source's commit leaves every release it did not fetch exactly as it was, or absent. */
  lemma SourceFrame(s: Run<SourceRow>, service: Service, failAt: Option<nat>, source: SourceRow, index: nat, n: nat, k: ReleaseKey)
    requires service.fetchReleasesFromSource(source).Ok?
    requires var rs := service.fetchReleasesFromSource(source).value;
      forall j :: 0 <= j < |rs| ==> ReleaseKeyOf(rs[j]) != k
    ensures var t := Step(s, service, failAt, source, index, n).tables.releases;
      && (k in t <==> k in s.tables.releases)
      && (k in t ==> t[k] == s.tables.releases[k])
  {
    var rs := service.fetchReleasesFromSource(source).value;
    var ws := Inserts(rs);
    ApplyReleasesFrame(s.tables, ws, k);
  }

  /** A source whose fetch throws or returns nothing changes no table; a throw is logged once, with that source. */
  lemma SourceSkipped(s: Run<SourceRow>, service: Service, failAt: Option<nat>, source: SourceRow, index: nat, n: nat)
    requires service.fetchReleasesFromSource(source).Err? || service.fetchReleasesFromSource(source) == Ok([])
    ensures Step(s, service, failAt, source, index, n).tables == s.tables
    ensures Step(s, service, failAt, source, index, n).executed == s.executed
    ensures Step(s, service, failAt, source, index, n).failures
      == s.failures + if service.fetchReleasesFromSource(source).Err?
                      then [Failure(source, service.fetchReleasesFromSource(source).error)] else []
  {
  }
}
