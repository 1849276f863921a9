/**
 * The rows of the SQLite tables the ingestion jobs read and write, and
 * the effect each job statement has on them. `raw` columns hold the
 * structured JSON value (`jsonb(...)` of the serialised item).
 */
module Rows {
  import opened Json

  /** `EInputProvider`: the provider tag stored with every input and output. */
  datatype InputProvider = BluRayComPhysicalRelease | ItunesMusicRelease | SteamGamesFreePromos

  /** `DbInputsTable`. */
  datatype InputRow = InputRow(id: string, provider: InputProvider, raw: Json)

  /** `DbOutputsTable`. */
  datatype OutputRow = OutputRow(id: string, inputId: string, provider: InputProvider, raw: Json)

  /** The conflict target `(id, input_id, provider)` of the outputs table. */
  datatype OutputKey = OutputKey(id: string, inputId: string, provider: InputProvider)

  function KeyOf(row: OutputRow): OutputKey
  {
    OutputKey(row.id, row.inputId, row.provider)
  }

  /**
   * The wire values of the legacy `ReleaseType` and `ReleaseSourceProvider`
   * enums, whose declarations are not part of this model.
   */
  datatype Vocabulary = Vocabulary(album: string, song: string, bluray: string, dvd: string, itunes: string, blurayCom: string)

  /** Legacy `release_sources` row; `provider` holds a `ReleaseSourceProvider` value. */
  datatype SourceRow = SourceRow(id: string, provider: string, raw: Json)

  /** Legacy `releases` row; `releaseType` holds a `ReleaseType` value. */
  datatype ReleaseRow = ReleaseRow(id: string, releaseType: string, provider: string, releasedAt: string, raw: Json)

  /** The conflict target `(id, provider, type)` of the releases table. */
  datatype ReleaseKey = ReleaseKey(id: string, provider: string, releaseType: string)

  /** The non-key columns of a stored release. */
  datatype StoredRelease = StoredRelease(releasedAt: string, raw: Json)

  function ReleaseKeyOf(row: ReleaseRow): ReleaseKey
  {
    ReleaseKey(row.id, row.provider, row.releaseType)
  }

  /** The tables, in the order `select * ... where provider = ?` returns their rows. */
  datatype Tables = Tables(
    inputs: seq<InputRow>,
    outputs: map<OutputKey, Json>,
    sources: seq<SourceRow>,
    releases: map<ReleaseKey, StoredRelease>)

  /** `select * from inputs where provider = p`: the rows of that provider, in table order. */
  function InputsOf(rows: seq<InputRow>, p: InputProvider): seq<InputRow>
  {
    if |rows| == 0 then []
    else
      var init := InputsOf(rows[..|rows| - 1], p);
      if rows[|rows| - 1].provider == p then init + [rows[|rows| - 1]] else init
  }

  /** The select returns exactly the rows of the provider, each as often as stored, and no other. */
  lemma {:induction false} InputsOfSelects(rows: seq<InputRow>, p: InputProvider)
    ensures forall i :: 0 <= i < |InputsOf(rows, p)| ==> InputsOf(rows, p)[i].provider == p
    ensures forall x :: x in rows && x.provider == p <==> x in InputsOf(rows, p)
    ensures |InputsOf(rows, p)| <= |rows|
  {
    if |rows| > 0 {
      InputsOfSelects(rows[..|rows| - 1], p);
      assert rows == rows[..|rows| - 1] + [rows[|rows| - 1]];
    }
  }

  /** `select * from release_sources where provider = p`. */
  function SourcesOf(rows: seq<SourceRow>, p: string): seq<SourceRow>
  {
    if |rows| == 0 then []
    else
      var init := SourcesOf(rows[..|rows| - 1], p);
      if rows[|rows| - 1].provider == p then init + [rows[|rows| - 1]] else init
  }

  /** The select returns exactly the sources of the provider, and no other. */
  lemma {:induction false} SourcesOfSelects(rows: seq<SourceRow>, p: string)
    ensures forall i :: 0 <= i < |SourcesOf(rows, p)| ==> SourcesOf(rows, p)[i].provider == p
    ensures forall x :: x in rows && x.provider == p <==> x in SourcesOf(rows, p)
    ensures |SourcesOf(rows, p)| <= |rows|
  {
    if |rows| > 0 {
      SourcesOfSelects(rows[..|rows| - 1], p);
      assert rows == rows[..|rows| - 1] + [rows[|rows| - 1]];
    }
  }

  /**
   * `insert into outputs ... values (full) on conflict (id, input_id,
   * provider) do update set raw = jsonb_patch(raw, jsonb(patch.raw))`.
   */
  function UpsertOutput(outputs: map<OutputKey, Json>, full: OutputRow, patch: OutputRow): (r: map<OutputKey, Json>)
    ensures r.Keys == outputs.Keys + {KeyOf(full)}
    ensures forall k :: k in outputs && k != KeyOf(full) ==> r[k] == outputs[k]
    ensures KeyOf(full) !in outputs ==> r[KeyOf(full)] == full.raw
    ensures KeyOf(full) in outputs ==> r[KeyOf(full)] == MergePatch(outputs[KeyOf(full)], patch.raw)
  {
    var k := KeyOf(full);
    if k in outputs then outputs[k := MergePatch(outputs[k], patch.raw)] else outputs[k := full.raw]
  }

  /**
   * Upserting the same item twice is upserting it once, provided the patch
   * has unique keys and the full row already agrees with the patch.
   */
  lemma UpsertOutputTwice(outputs: map<OutputKey, Json>, full: OutputRow, patch: OutputRow)
    requires WellFormed(patch.raw)
    requires MergePatch(full.raw, patch.raw) == full.raw
    ensures UpsertOutput(UpsertOutput(outputs, full, patch), full, patch) == UpsertOutput(outputs, full, patch)
  {
    var k := KeyOf(full);
    if k in outputs {
      MergePatchIdempotent(outputs[k], patch.raw);
    }
  }

  /** `update inputs set raw = jsonb(raw) where id = id`: every row with that id, whatever its provider. */
  function UpdateInputRaw(rows: seq<InputRow>, id: string, raw: Json): (r: seq<InputRow>)
    ensures |r| == |rows|
    ensures forall i :: 0 <= i < |rows| ==>
      r[i].id == rows[i].id && r[i].provider == rows[i].provider
      && r[i].raw == (if rows[i].id == id then raw else rows[i].raw)
  {
    seq(|rows|, i requires 0 <= i < |rows| => if rows[i].id == id then rows[i].(raw := raw) else rows[i])
  }

  /** `update release_sources set raw = jsonb(raw) where id = id`. */
  function UpdateSourceRaw(rows: seq<SourceRow>, id: string, raw: Json): (r: seq<SourceRow>)
    ensures |r| == |rows|
    ensures forall i :: 0 <= i < |rows| ==>
      r[i].id == rows[i].id && r[i].provider == rows[i].provider
      && r[i].raw == (if rows[i].id == id then raw else rows[i].raw)
  {
    seq(|rows|, i requires 0 <= i < |rows| => if rows[i].id == id then rows[i].(raw := raw) else rows[i])
  }

  /**
   * `insert into releases ... on conflict (id, provider, type) do update
   * set raw = excluded.raw`: `releasedAt` of an existing release is kept.
   */
  function UpsertRelease(releases: map<ReleaseKey, StoredRelease>, row: ReleaseRow): (r: map<ReleaseKey, StoredRelease>)
    ensures r.Keys == releases.Keys + {ReleaseKeyOf(row)}
    ensures forall k :: k in releases && k != ReleaseKeyOf(row) ==> r[k] == releases[k]
    ensures r[ReleaseKeyOf(row)].raw == row.raw
    ensures r[ReleaseKeyOf(row)].releasedAt
      == if ReleaseKeyOf(row) in releases then releases[ReleaseKeyOf(row)].releasedAt else row.releasedAt
  {
    var k := ReleaseKeyOf(row);
    if k in releases then releases[k := StoredRelease(releases[k].releasedAt, row.raw)]
    else releases[k := StoredRelease(row.releasedAt, row.raw)]
  }

  /** One statement a job issues inside a transaction. */
  datatype Write =
    | OutputUpsert(full: OutputRow, patch: OutputRow)
    | ReleaseUpsert(row: ReleaseRow)

  function ApplyWrite(t: Tables, w: Write): Tables
  {
    match w
    case OutputUpsert(full, patch) => t.(outputs := UpsertOutput(t.outputs, full, patch))
    case ReleaseUpsert(row) => t.(releases := UpsertRelease(t.releases, row))
  }

  /** The statements of a batch run one after the other. */
  function ApplyAll(t: Tables, ws: seq<Write>): Tables
  {
    if |ws| == 0 then t else ApplyWrite(ApplyAll(t, ws[..|ws| - 1]), ws[|ws| - 1])
  }

  /** Output upserts touch only the outputs table. */
  lemma {:induction false} ApplyAllOutputsOnly(t: Tables, ws: seq<Write>)
    requires forall i :: 0 <= i < |ws| ==> ws[i].OutputUpsert?
    ensures ApplyAll(t, ws).inputs == t.inputs && ApplyAll(t, ws).sources == t.sources
    ensures ApplyAll(t, ws).releases == t.releases
  {
    if |ws| > 0 {
      ApplyAllOutputsOnly(t, ws[..|ws| - 1]);
    }
  }

  /** Release upserts touch only the releases table. */
  lemma {:induction false} ApplyAllReleasesOnly(t: Tables, ws: seq<Write>)
    requires forall i :: 0 <= i < |ws| ==> ws[i].ReleaseUpsert?
    ensures ApplyAll(t, ws).inputs == t.inputs && ApplyAll(t, ws).sources == t.sources
    ensures ApplyAll(t, ws).outputs == t.outputs
  {
    if |ws| > 0 {
      ApplyAllReleasesOnly(t, ws[..|ws| - 1]);
    }
  }

  /** A batch never drops a row, and it adds exactly the keys it writes. */
  lemma {:induction false} ApplyAllKeys(t: Tables, ws: seq<Write>)
    requires forall i :: 0 <= i < |ws| ==> ws[i].OutputUpsert?
    ensures ApplyAll(t, ws).outputs.Keys == t.outputs.Keys + set i | 0 <= i < |ws| :: KeyOf(ws[i].full)
  {
    if |ws| > 0 {
      var init := ws[..|ws| - 1];
      ApplyAllKeys(t, init);
      assert ws == init + [ws[|ws| - 1]];
      WrittenKeysSnoc(init, ws[|ws| - 1]);
    }
  }

  /** The keys of a batch are the keys of all but its last write, and the last one's. */
  lemma WrittenKeysSnoc(init: seq<Write>, last: Write)
    requires forall i :: 0 <= i < |init| ==> init[i].OutputUpsert?
    requires last.OutputUpsert?
    ensures (set i | 0 <= i < |init + [last]| && (init + [last])[i].OutputUpsert? :: KeyOf((init + [last])[i].full))
      == (set i | 0 <= i < |init| :: KeyOf(init[i].full)) + {KeyOf(last.full)}
  {
    var ws := init + [last];
    var l := set i | 0 <= i < |ws| && ws[i].OutputUpsert? :: KeyOf(ws[i].full);
    var r := set i | 0 <= i < |init| :: KeyOf(init[i].full);
    forall key | key in l ensures key in r + {KeyOf(last.full)} {
      var i :| 0 <= i < |ws| && ws[i].OutputUpsert? && KeyOf(ws[i].full) == key;
      if i < |init| {
        assert ws[i] == init[i];
      }
    }
    forall key | key in r ensures key in l {
      var i :| 0 <= i < |init| && KeyOf(init[i].full) == key;
      assert ws[i] == init[i];
    }
    assert ws[|init|] == last;
  }

  /** Keys the batch does not write keep their stored value. */
  lemma {:induction false} ApplyAllFrame(t: Tables, ws: seq<Write>, k: OutputKey)
    requires forall i :: 0 <= i < |ws| ==> ws[i].OutputUpsert? && KeyOf(ws[i].full) != k
    ensures k in t.outputs ==> k in ApplyAll(t, ws).outputs && ApplyAll(t, ws).outputs[k] == t.outputs[k]
    ensures k !in t.outputs ==> k !in ApplyAll(t, ws).outputs
  {
    if |ws| > 0 {
      ApplyAllFrame(t, ws[..|ws| - 1], k);
    }
  }

  /** Releases the batch does not write keep their stored columns, or stay absent. */
  lemma {:induction false} ApplyReleasesFrame(t: Tables, ws: seq<Write>, k: ReleaseKey)
    requires forall i :: 0 <= i < |ws| ==> ws[i].ReleaseUpsert? && ReleaseKeyOf(ws[i].row) != k
    ensures k in t.releases <==> k in ApplyAll(t, ws).releases
    ensures k in t.releases ==> ApplyAll(t, ws).releases[k] == t.releases[k]
  {
    if |ws| > 0 {
      ApplyReleasesFrame(t, ws[..|ws| - 1], k);
    }
  }

  /** A release the batch writes is stored, with the raw of the last write of its key. */
  lemma {:induction false} ApplyReleasesLastWins(t: Tables, ws: seq<Write>, i: nat)
    requires forall j :: 0 <= j < |ws| ==> ws[j].ReleaseUpsert?
    requires i < |ws|
    requires forall j :: i < j < |ws| ==> ReleaseKeyOf(ws[j].row) != ReleaseKeyOf(ws[i].row)
    ensures ReleaseKeyOf(ws[i].row) in ApplyAll(t, ws).releases
    ensures ApplyAll(t, ws).releases[ReleaseKeyOf(ws[i].row)].raw == ws[i].row.raw
  {
    var last := |ws| - 1;
    if i < last {
      ApplyReleasesLastWins(t, ws[..last], i);
    }
  }
}
