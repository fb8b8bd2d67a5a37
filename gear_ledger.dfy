/**
 * Gear mileage of one import batch. The remote reports only each gear's
 * lifetime distance as of now; the import walks the batch in list order and
 * reports for every activity that total minus the distance of the earlier
 * activities of the same gear in the batch (column `gear_km_after_run`). It
 * is a back-computed approximation, not a historical odometer reading.
 * Distances are exact reals here.
 */
module GearLedger {
  import opened Wrappers

  /** The part of a remote activity the ledger reads: `gear_id` ("" when absent) and `distance || 0`. */
  datatype ActivityGear = ActivityGear(gearId: string, distanceMeters: real)

  /** The parsed gear payload: `name` ("" when absent) and `distance || 0`, in metres. */
  datatype RemoteGear = RemoteGear(name: string, distanceMeters: real)

  /** A `distanceKm` value or the blank `''` a failed lookup leaves. */
  datatype KmCell = NoKm | Km(km: real)

  /** One entry of `gearInfo`. */
  datatype GearEntry = GearEntry(name: string, distanceKm: KmCell)

  /** The gear columns of one output row: `gear_name` and `gear_km_after_run`. */
  datatype GearColumns = GearColumns(gearName: string, gearKm: KmCell)

  function DistanceKm(a: ActivityGear): real {
    a.distanceMeters / 1000.0
  }

  /** `Array.from(new Set(xs))`: distinct values in order of first occurrence. */
  function Distinct(xs: seq<string>): (r: seq<string>)
    ensures forall x :: x in r <==> x in xs
    ensures forall i, j :: 0 <= i < j < |r| ==> r[i] != r[j]
  {
    if xs == [] then []
    else
      var d := Distinct(xs[..|xs| - 1]);
      var x := xs[|xs| - 1];
      assert forall y :: y in xs <==> y in xs[..|xs| - 1] || y == x;
      if x in d then d else d + [x]
  }

  function FirstIndex(xs: seq<string>, x: string): (i: nat)
    requires x in xs
    ensures i < |xs| && xs[i] == x && x !in xs[..i]
  {
    if xs[0] == x then 0 else 1 + FirstIndex(xs[1..], x)
  }

  lemma FirstIndexPrefix(xs: seq<string>, x: string, n: nat)
    requires n <= |xs| && x in xs[..n]
    ensures FirstIndex(xs, x) == FirstIndex(xs[..n], x)
  {
    var i := FirstIndex(xs, x);
    var k := FirstIndex(xs[..n], x);
    assert xs[..n][..k] == xs[..k];
    assert forall m :: 0 <= m < k ==> xs[..k][m] == xs[m];
    assert forall m :: 0 <= m < i ==> xs[..i][m] == xs[m];
  }

  /** `Distinct` keeps the order in which values first appear. */
  lemma {:induction false} DistinctKeepsFirstOccurrenceOrder(xs: seq<string>)
    ensures forall i, j :: 0 <= i < j < |Distinct(xs)| ==>
      FirstIndex(xs, Distinct(xs)[i]) < FirstIndex(xs, Distinct(xs)[j])
  {
    if xs != [] {
      var init := xs[..|xs| - 1];
      var x := xs[|xs| - 1];
      var d := Distinct(init);
      DistinctKeepsFirstOccurrenceOrder(init);
      forall y | y in d
        ensures FirstIndex(xs, y) == FirstIndex(init, y)
      {
        FirstIndexPrefix(xs, y, |xs| - 1);
      }
      if x !in d {
        assert FirstIndex(xs, x) == |xs| - 1 by {
          assert x !in init;
          assert forall m :: 0 <= m < |init| ==> init[m] == xs[m];
        }
        var r := d + [x];
        assert r == Distinct(xs);
        forall i, j | 0 <= i < j < |r|
          ensures FirstIndex(xs, r[i]) < FirstIndex(xs, r[j])
        {
          if j == |d| {
            assert r[i] == d[i];
            assert r[i] in init;
          } else {
            assert r[i] == d[i] && r[j] == d[j];
          }
        }
      }
    }
  }

  /** Some activity of the batch has gear `id`. */
  predicate UsesGear(acts: seq<ActivityGear>, id: string) {
    exists k :: 0 <= k < |acts| && acts[k].gearId == id
  }

  /** The index of the first activity of the batch with gear `id`. */
  function FirstUse(acts: seq<ActivityGear>, id: string): (i: nat)
    requires UsesGear(acts, id)
    ensures i < |acts| && acts[i].gearId == id
    ensures forall k :: 0 <= k < i ==> acts[k].gearId != id
  {
    if acts[0].gearId == id then 0
    else
      var k :| 0 <= k < |acts| && acts[k].gearId == id;
      assert acts[1..][k - 1] == acts[k];
      1 + FirstUse(acts[1..], id)
  }

  /** The truthy `gear_id`s of the batch. */
  function GearIdsOf(acts: seq<ActivityGear>): (ids: seq<string>)
    ensures forall id :: id in ids <==> id != "" && UsesGear(acts, id)
    ensures |ids| <= |acts|
  {
    if acts == [] then []
    else
      var rest := GearIdsOf(acts[1..]);
      assert forall k :: 1 <= k < |acts| ==> acts[k] == acts[1..][k - 1];
      (if acts[0].gearId != "" then [acts[0].gearId] else []) + rest
  }

  /** `map(a => a.gear_id).filter(Boolean)` keeps list order: it commutes with concatenation. */
  lemma {:induction false} GearIdsOfConcat(a: seq<ActivityGear>, b: seq<ActivityGear>)
    ensures GearIdsOf(a + b) == GearIdsOf(a) + GearIdsOf(b)
  {
    if a != [] {
      assert (a + b)[0] == a[0];
      assert (a + b)[1..] == a[1..] + b;
      GearIdsOfConcat(a[1..], b);
    } else {
      assert a + b == b;
    }
  }

  /** Ids come first in the filtered list exactly when their gear is used first in the batch. */
  lemma {:induction false} GearIdsFirstUseOrder(acts: seq<ActivityGear>, x: string, y: string)
    requires x in GearIdsOf(acts) && y in GearIdsOf(acts)
    ensures FirstIndex(GearIdsOf(acts), x) < FirstIndex(GearIdsOf(acts), y) <==> FirstUse(acts, x) < FirstUse(acts, y)
  {
    var g := GearIdsOf(acts);
    var rest := GearIdsOf(acts[1..]);
    var a0 := acts[0].gearId;
    if x == y {
    } else if a0 == x {
      assert g[0] == x;
      assert FirstIndex(g, x) == 0 && FirstUse(acts, x) == 0;
      assert FirstIndex(g, y) != 0 && FirstUse(acts, y) != 0;
    } else if a0 == y {
      assert g[0] == y;
      assert FirstIndex(g, y) == 0 && FirstUse(acts, y) == 0;
      assert FirstIndex(g, x) != 0 && FirstUse(acts, x) != 0;
    } else {
      assert FirstUse(acts, x) == 1 + FirstUse(acts[1..], x);
      assert FirstUse(acts, y) == 1 + FirstUse(acts[1..], y);
      if a0 != "" {
        assert g == [a0] + rest;
        assert g[1..] == rest;
        assert FirstIndex(g, x) == 1 + FirstIndex(rest, x);
        assert FirstIndex(g, y) == 1 + FirstIndex(rest, y);
      } else {
        assert g == rest;
      }
      GearIdsFirstUseOrder(acts[1..], x, y);
    }
  }

  /** `Array.from(new Set(activities.map(a => a.gear_id).filter(Boolean)))`. */
  function DistinctGearIds(acts: seq<ActivityGear>): (ids: seq<string>)
    ensures forall id :: id in ids <==> id != "" && UsesGear(acts, id)
    ensures forall i, j :: 0 <= i < j < |ids| ==> ids[i] != ids[j]
  {
    Distinct(GearIdsOf(acts))
  }

  /** The distinct gear ids are listed in the order in which the batch first uses each gear. */
  lemma DistinctGearIdsInFirstUseOrder(acts: seq<ActivityGear>)
    ensures var ids := DistinctGearIds(acts);
      forall i, j :: 0 <= i < j < |ids| ==> FirstUse(acts, ids[i]) < FirstUse(acts, ids[j])
  {
    var g := GearIdsOf(acts);
    var ids := DistinctGearIds(acts);
    DistinctKeepsFirstOccurrenceOrder(g);
    forall i, j | 0 <= i < j < |ids|
      ensures FirstUse(acts, ids[i]) < FirstUse(acts, ids[j])
    {
      assert ids[i] in g && ids[j] in g;
      GearIdsFirstUseOrder(acts, ids[i], ids[j]);
    }
  }

  /** The fallback mapping of `getGearInfo_`: a failed lookup is named by its id and has a blank distance. */
  function EntryFor(id: string, lookup: Option<RemoteGear>): (e: GearEntry)
    ensures lookup.None? ==> e == GearEntry(id, NoKm)
    ensures lookup.Some? ==> e.distanceKm == Km(lookup.value.distanceMeters / 1000.0)
    ensures lookup.Some? && lookup.value.name != "" ==> e.name == lookup.value.name
    ensures lookup.Some? && lookup.value.name == "" ==> e.name == id
    ensures e.name != "" || id == ""
  {
    match lookup
    case None => GearEntry(id, NoKm)
    case Some(g) => GearEntry(if g.name != "" then g.name else id, Km(g.distanceMeters / 1000.0))
  }

  /** `gearInfo[id].distanceKm || 0`: the blank of a failed lookup counts as zero. */
  function TotalKmNow(e: GearEntry): real {
    match e.distanceKm
    case NoKm => 0.0
    case Km(km) => km
  }

  /** `getGearInfo_`: one lookup per id, each stored under its id. */
  method GetGearInfo(ids: seq<string>, fetch: string -> Option<RemoteGear>)
    returns (info: map<string, GearEntry>)
    ensures info.Keys == set id | id in ids
    ensures forall id :: id in info ==> info[id] == EntryFor(id, fetch(id))
  {
    info := map[];
    var i := 0;
    while i < |ids|
      invariant 0 <= i <= |ids|
      invariant info.Keys == set id | id in ids[..i]
      invariant forall id :: id in info ==> info[id] == EntryFor(id, fetch(id))
    {
      var id := ids[i];
      info := info[id := EntryFor(id, fetch(id))];
      assert ids[..i + 1] == ids[..i] + [id];
      i := i + 1;
    }
    assert ids[..i] == ids;
  }

  /** Kilometres of the activities before position `k` that use gear `id`. */
  function ConsumedBefore(acts: seq<ActivityGear>, k: nat, id: string): real
    requires k <= |acts|
  {
    if k == 0 then 0.0
    else ConsumedBefore(acts, k - 1, id) + (if acts[k - 1].gearId == id then DistanceKm(acts[k - 1]) else 0.0)
  }

  /** The gear columns the import writes for activity `k`. */
  function ExpectedColumns(acts: seq<ActivityGear>, info: map<string, GearEntry>, k: nat): GearColumns
    requires k < |acts|
  {
    var id := acts[k].gearId;
    if id != "" && id in info then
      GearColumns(if info[id].name != "" then info[id].name else id,
                  Km(TotalKmNow(info[id]) - ConsumedBefore(acts, k, id)))
    else GearColumns("", NoKm)
  }

  /**
   * The gear block of the import loop: the per-batch `gearConsumedKm`
   * dictionary, updated in list order, only for activities whose gear has an
   * entry.
   */
  method AttributeGear(acts: seq<ActivityGear>, info: map<string, GearEntry>)
    returns (columns: seq<GearColumns>)
    ensures |columns| == |acts|
    ensures forall k :: 0 <= k < |acts| ==> columns[k] == ExpectedColumns(acts, info, k)
  {
    var consumed: map<string, real> := map[];
    columns := [];
    var i := 0;
    while i < |acts|
      invariant 0 <= i <= |acts| && |columns| == i
      invariant forall k :: 0 <= k < i ==> columns[k] == ExpectedColumns(acts, info, k)
      invariant forall id :: id in info && id != "" ==>
        (if id in consumed then consumed[id] else 0.0) == ConsumedBefore(acts, i, id)
    {
      var a := acts[i];
      var gearId := a.gearId;
      var column := GearColumns("", NoKm);
      if gearId != "" && gearId in info {
        var entry := info[gearId];
        var total := TotalKmNow(entry);
        var soFar := if gearId in consumed then consumed[gearId] else 0.0;
        column := GearColumns(if entry.name != "" then entry.name else gearId, Km(total - soFar));
        consumed := consumed[gearId := soFar + DistanceKm(a)];
      }
      columns := columns + [column];
      i := i + 1;
    }
  }

  /**
   * The gear columns of activity `k` in terms of the lookups alone: blank
   * without a gear id, otherwise the looked-up name and the current total
   * minus what the earlier activities of that gear consumed.
   */
  function BatchColumns(acts: seq<ActivityGear>, fetch: string -> Option<RemoteGear>, k: nat): GearColumns
    requires k < |acts|
  {
    var id := acts[k].gearId;
    if id == "" then GearColumns("", NoKm)
    else
      var entry := EntryFor(id, fetch(id));
      GearColumns(entry.name, Km(TotalKmNow(entry) - ConsumedBefore(acts, k, id)))
  }

  /** The gear part of `importStravaActivities`: ids, lookups, then the ledger walk. */
  method GearColumnsOfBatch(acts: seq<ActivityGear>, fetch: string -> Option<RemoteGear>)
    returns (columns: seq<GearColumns>)
    ensures |columns| == |acts|
    ensures forall k :: 0 <= k < |acts| ==> columns[k] == BatchColumns(acts, fetch, k)
  {
    var ids := DistinctGearIds(acts);
    var info := GetGearInfo(ids, fetch);
    columns := AttributeGear(acts, info);
    forall k | 0 <= k < |acts|
      ensures columns[k] == BatchColumns(acts, fetch, k)
    {
      if acts[k].gearId != "" {
        assert UsesGear(acts, acts[k].gearId);
        assert acts[k].gearId in info;
      }
    }
  }

  /** The first activity of a gear in the batch reports the gear's full current total. */
  lemma {:induction false} FirstUseReportsTotal(acts: seq<ActivityGear>, k: nat, id: string)
    requires k <= |acts|
    requires forall j :: 0 <= j < k ==> acts[j].gearId != id
    ensures ConsumedBefore(acts, k, id) == 0.0
  {
    if k > 0 {
      FirstUseReportsTotal(acts, k - 1, id);
    }
  }

  /** Later activities of one gear see at least the earlier activity's distance consumed. */
  lemma {:induction false} ConsumedGrows(acts: seq<ActivityGear>, j: nat, k: nat, id: string)
    requires j < k <= |acts| && acts[j].gearId == id
    requires forall i :: 0 <= i < |acts| ==> acts[i].distanceMeters >= 0.0
    ensures ConsumedBefore(acts, k, id) >= ConsumedBefore(acts, j, id) + DistanceKm(acts[j])
  {
    if k > j + 1 {
      ConsumedGrows(acts, j, k - 1, id);
    }
  }

  /**
   * Monotonicity of the reported mileage: for two activities of one gear, the
   * later one reports at most the earlier report minus the earlier distance.
   */
  lemma ReportedMileageDecreases(acts: seq<ActivityGear>, info: map<string, GearEntry>, j: nat, k: nat)
    requires j < k < |acts| && acts[j].gearId == acts[k].gearId && acts[j].gearId != "" && acts[j].gearId in info
    requires forall i :: 0 <= i < |acts| ==> acts[i].distanceMeters >= 0.0
    ensures ExpectedColumns(acts, info, k).gearKm.km <= ExpectedColumns(acts, info, j).gearKm.km - DistanceKm(acts[j])
  {
    ConsumedGrows(acts, j, k, acts[j].gearId);
  }

  /** Only the activity's own gear advances, and by exactly its distance. */
  lemma ConsumedStep(acts: seq<ActivityGear>, k: nat, id: string)
    requires k < |acts|
    ensures acts[k].gearId == id ==> ConsumedBefore(acts, k + 1, id) == ConsumedBefore(acts, k, id) + DistanceKm(acts[k])
    ensures acts[k].gearId != id ==> ConsumedBefore(acts, k + 1, id) == ConsumedBefore(acts, k, id)
  {
  }
}
