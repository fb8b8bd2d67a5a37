/**
 * Time in heart-rate zones (`computeTimeInZones_`). Each sample of the
 * heart-rate series is charged the interval since the previous sample (one
 * second for the first) and the interval goes to the highest zone whose lower
 * bound the ratio `hr / maxHR` reaches. Ratios are compared without division:
 * `hr / maxHR >= p / 100` is `hr * 100 >= p * maxHR`. A sample beyond the end
 * of the time series has no interval (JavaScript NaN); `None` carries that NaN
 * through the sums as JavaScript does.
 */
module HeartRateZones {
  import opened Wrappers

  /** Lower bounds of Z1..Z5, in percent of the maximum heart rate. */
  const ZoneMinPercent: seq<int> := [50, 60, 70, 80, 90]
  const ZoneCount := 5

  /** One stream of the streams payload; `data` may be missing. */
  datatype Series = Series(data: Option<seq<int>>)
  datatype Streams = Streams(heartrate: Option<Series>, time: Option<Series>)

  /** One `Zk_min` output: blank (no data), tenths of a minute, or NaN. */
  datatype ZoneCell = Blank | Tenths(tenths: int) | NotANumber

  /** `hr / maxHR >= ZoneMinPercent[z] / 100`. */
  predicate ReachesZone(hr: int, maxHR: int, z: nat)
    requires z < ZoneCount
  {
    hr * 100 >= ZoneMinPercent[z] * maxHR
  }

  /** The zone a sample is charged to: Z5 is tried first, falling through to Z1. */
  function Classify(hr: int, maxHR: int): (r: Option<nat>)
    requires maxHR > 0
    ensures r.None? <==> hr <= 0 || !ReachesZone(hr, maxHR, 0)
    ensures r.Some? ==> r.value < ZoneCount && ReachesZone(hr, maxHR, r.value)
    ensures r.Some? ==> forall z :: r.value < z < ZoneCount ==> !ReachesZone(hr, maxHR, z)
  {
    if hr <= 0 then None
    else if ReachesZone(hr, maxHR, 4) then Some(4)
    else if ReachesZone(hr, maxHR, 3) then Some(3)
    else if ReachesZone(hr, maxHR, 2) then Some(2)
    else if ReachesZone(hr, maxHR, 1) then Some(1)
    else if ReachesZone(hr, maxHR, 0) then Some(0)
    else None
  }

  /** Reaching a zone means reaching every lower one, since the bounds ascend. */
  lemma ReachesLowerZones(hr: int, maxHR: int, z: nat, y: nat)
    requires maxHR > 0 && y <= z < ZoneCount && ReachesZone(hr, maxHR, z)
    ensures ReachesZone(hr, maxHR, y)
  {
    assert ZoneMinPercent[y] <= ZoneMinPercent[z];
    assert ZoneMinPercent[y] * maxHR <= ZoneMinPercent[z] * maxHR;
  }

  /** Bounds are inclusive: a ratio exactly at a zone's lower bound belongs to that zone. */
  lemma BoundaryBelongsToZone(hr: int, maxHR: int, z: nat)
    requires maxHR > 0 && z < ZoneCount && hr * 100 == ZoneMinPercent[z] * maxHR
    ensures Classify(hr, maxHR) == Some(z)
  {
    assert hr > 0 by {
      assert ZoneMinPercent[z] * maxHR > 0;
    }
    forall y | z < y < ZoneCount
      ensures !ReachesZone(hr, maxHR, y)
    {
      assert ZoneMinPercent[z] < ZoneMinPercent[y];
      assert ZoneMinPercent[z] * maxHR < ZoneMinPercent[y] * maxHR;
    }
  }

  /** The seconds charged to sample `i`; `None` when the time series has no such entry. */
  function Interval(time: seq<int>, i: nat): Option<int> {
    if i == 0 then Some(1)
    else if i < |time| then Some(time[i] - time[i - 1])
    else None
  }

  /** JavaScript addition where NaN absorbs. */
  function Add(a: Option<int>, b: Option<int>): Option<int> {
    if a.Some? && b.Some? then Some(a.value + b.value) else None
  }

  /** Seconds charged to zone `z` by the first `n` samples. */
  function ZoneSeconds(hr: seq<int>, time: seq<int>, maxHR: int, z: nat, n: nat): Option<int>
    requires maxHR > 0 && z < ZoneCount && n <= |hr|
  {
    if n == 0 then Some(0)
    else
      var before := ZoneSeconds(hr, time, maxHR, z, n - 1);
      if Classify(hr[n - 1], maxHR) == Some(z) then Add(before, Interval(time, n - 1)) else before
  }

  /** Seconds of the first `n` samples that fall in some zone: the reference for the zone sums. */
  function ClassifiedSeconds(hr: seq<int>, time: seq<int>, maxHR: int, n: nat): Option<int>
    requires maxHR > 0 && n <= |hr|
  {
    if n == 0 then Some(0)
    else
      var before := ClassifiedSeconds(hr, time, maxHR, n - 1);
      if Classify(hr[n - 1], maxHR).Some? then Add(before, Interval(time, n - 1)) else before
  }

  function SumZones(hr: seq<int>, time: seq<int>, maxHR: int, n: nat): Option<int>
    requires maxHR > 0 && n <= |hr|
  {
    Add(Add(Add(Add(ZoneSeconds(hr, time, maxHR, 0, n), ZoneSeconds(hr, time, maxHR, 1, n)),
                ZoneSeconds(hr, time, maxHR, 2, n)), ZoneSeconds(hr, time, maxHR, 3, n)),
        ZoneSeconds(hr, time, maxHR, 4, n))
  }

  /**
   * Every sample goes to at most one zone: with the time series as long as
   * the heart-rate one, the five zone sums add up to the seconds of the
   * classified samples.
   */
  lemma {:induction false} ZonesPartitionClassified(hr: seq<int>, time: seq<int>, maxHR: int, n: nat)
    requires maxHR > 0 && n <= |hr| && n <= |time|
    ensures ClassifiedSeconds(hr, time, maxHR, n).Some?
    ensures SumZones(hr, time, maxHR, n) == ClassifiedSeconds(hr, time, maxHR, n)
  {
    if n > 0 {
      ZonesPartitionClassified(hr, time, maxHR, n - 1);
      var c := Classify(hr[n - 1], maxHR);
      assert Interval(time, n - 1).Some?;
      if c.Some? {
        assert c.value < ZoneCount;
      }
    }
  }

  /** When every sample is classified, the zones cover the whole recording: `1 + last - first` seconds. */
  lemma {:induction false} AllClassifiedCoversRecording(hr: seq<int>, time: seq<int>, maxHR: int, n: nat)
    requires maxHR > 0 && 0 < n <= |hr| && n <= |time|
    requires forall i :: 0 <= i < n ==> Classify(hr[i], maxHR).Some?
    ensures ClassifiedSeconds(hr, time, maxHR, n) == Some(1 + time[n - 1] - time[0])
  {
    if n > 1 {
      AllClassifiedCoversRecording(hr, time, maxHR, n - 1);
    }
  }

  /** With a non-decreasing time series, the zones never hold more than `1 + last - first` seconds. */
  lemma {:induction false} ClassifiedWithinRecording(hr: seq<int>, time: seq<int>, maxHR: int, n: nat)
    requires maxHR > 0 && 0 < n <= |hr| && n <= |time|
    requires forall i :: 0 < i < n ==> time[i - 1] <= time[i]
    ensures ClassifiedSeconds(hr, time, maxHR, n).Some?
    ensures ClassifiedSeconds(hr, time, maxHR, n).value <= 1 + time[n - 1] - time[0]
  {
    if n > 1 {
      ClassifiedWithinRecording(hr, time, maxHR, n - 1);
    }
  }

  /** `Math.round((s / 60) * 10)` on integers: `s / 6` rounded half up, as tenths of a minute. */
  function RoundTenths(seconds: int): (t: int)
    ensures seconds - 3 < 6 * t <= seconds + 3
  {
    (seconds + 3) / 6
  }

  function ToCell(seconds: Option<int>): ZoneCell {
    match seconds
    case Some(s) => Tenths(RoundTenths(s))
    case None => NotANumber
  }

  /** The stream payload holds a non-empty heart-rate series and a time series. */
  predicate HasSamples(streams: Option<Streams>) {
    && streams.Some?
    && streams.value.heartrate.Some? && streams.value.time.Some?
    && streams.value.heartrate.value.data.Some? && streams.value.time.value.data.Some?
    && |streams.value.heartrate.value.data.value| > 0
  }

  /**
   * `computeTimeInZones_`: five blanks without usable data (not zeros), and
   * otherwise each zone's seconds, rounded to tenths of a minute.
   */
  method ComputeTimeInZones(streams: Option<Streams>, maxHR: int) returns (zones: seq<ZoneCell>)
    requires maxHR > 0
    ensures |zones| == ZoneCount
    ensures !HasSamples(streams) ==> forall z :: 0 <= z < ZoneCount ==> zones[z] == Blank
    ensures HasSamples(streams) ==>
      var hr := streams.value.heartrate.value.data.value;
      var time := streams.value.time.value.data.value;
      forall z :: 0 <= z < ZoneCount ==> zones[z] == ToCell(ZoneSeconds(hr, time, maxHR, z, |hr|))
  {
    if !HasSamples(streams) {
      return [Blank, Blank, Blank, Blank, Blank];
    }
    var hr := streams.value.heartrate.value.data.value;
    var time := streams.value.time.value.data.value;
    var zoneTimes: seq<Option<int>> := [Some(0), Some(0), Some(0), Some(0), Some(0)];
    var i := 0;
    while i < |hr|
      invariant 0 <= i <= |hr| && |zoneTimes| == ZoneCount
      invariant forall z :: 0 <= z < ZoneCount ==> zoneTimes[z] == ZoneSeconds(hr, time, maxHR, z, i)
    {
      var zone := Classify(hr[i], maxHR);
      if zone.Some? {
        var interval := Interval(time, i);
        zoneTimes := zoneTimes[zone.value := Add(zoneTimes[zone.value], interval)];
      }
      i := i + 1;
    }
    zones := [ToCell(zoneTimes[0]), ToCell(zoneTimes[1]), ToCell(zoneTimes[2]),
              ToCell(zoneTimes[3]), ToCell(zoneTimes[4])];
  }

  /** The worked boundary case: with a maximum of 190, a heart rate of 152 (exactly 80 %) is Z4. */
  lemma EightyPercentIsZ4()
    ensures Classify(152, 190) == Some(3)
  {
    BoundaryBelongsToZone(152, 190, 3);
  }
}
