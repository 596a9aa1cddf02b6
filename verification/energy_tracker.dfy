/** The pure parts of `EnergyTracker` in `services/enhancedFeatures.js`: the
    history kept by `track`, the average of `getAverage` and the trend of
    `getTrend`. Reading and writing the stored history is left out; each
    operation takes the history it would have read. */
module EnergyTracker {
  import opened Basics
  import opened Store

  /** One recorded energy reading and when it was taken. */
  datatype EnergyEntry = EnergyEntry(energy: int, date: Timestamp)

  /** At most this many readings are kept. */
  const HistoryLimit: nat := 30

  /** `track(contactId, energy)`: the reading is appended and only the last
      30 readings are kept (`history.slice(-30)`). */
  function Track(history: seq<EnergyEntry>, energy: int, now: Timestamp): (r: seq<EnergyEntry>)
    ensures |r| == Min(|history| + 1, HistoryLimit)
    ensures r[|r| - 1] == EnergyEntry(energy, now)
    ensures r == (history + [EnergyEntry(energy, now)])[|history| + 1 - |r|..]
  {
    var h := history + [EnergyEntry(energy, now)];
    Slice(h, -(HistoryLimit as int), |h|)
  }

  /** A short history only grows; a full one drops its oldest reading. */
  lemma TrackKeepsOrDropsOldest(history: seq<EnergyEntry>, energy: int, now: Timestamp)
    ensures |history| < HistoryLimit ==> Track(history, energy, now) == history + [EnergyEntry(energy, now)]
    ensures |history| == HistoryLimit ==> Track(history, energy, now) == history[1..] + [EnergyEntry(energy, now)]
  {
    var e := EnergyEntry(energy, now);
    var r := Track(history, energy, now);
    if |history| == HistoryLimit {
      assert (history + [e])[1..] == history[1..] + [e];
    } else if |history| < HistoryLimit {
      assert (history + [e])[0..] == history + [e];
    }
  }

  /** A derived property, not an operation of the application: any number of
      successive `trackEnergy` calls for one contact, from any history, never
      keep more than 30 readings and end on the last reading tracked. */
  function TrackAll(history: seq<EnergyEntry>, readings: seq<int>, now: Timestamp): (r: seq<EnergyEntry>)
    ensures |r| <= Max(|history|, HistoryLimit)
    ensures |readings| > 0 ==> 0 < |r| <= HistoryLimit && r[|r| - 1] == EnergyEntry(readings[|readings| - 1], now)
    decreases |readings|
  {
    if |readings| == 0 then history
    else TrackAll(Track(history, readings[0], now), readings[1..], now)
  }

  function Energies(history: seq<EnergyEntry>): (r: seq<int>)
    ensures |r| == |history|
    ensures forall i :: 0 <= i < |r| ==> r[i] == history[i].energy
  {
    seq(|history|, i requires 0 <= i < |history| => history[i].energy)
  }

  /** `getAverage(contactId)`: 0 for an empty history, otherwise the mean
      reading, in exact arithmetic. */
  function Average(history: seq<EnergyEntry>): (a: real)
    ensures |history| == 0 ==> a == 0.0
    ensures |history| > 0 ==> a * |history| as real == Sum(Energies(history)) as real
  {
    if |history| == 0 then 0.0 else Mean(Energies(history))
  }

  /** The average of readings that all lie in `[lo, hi]` lies there too. */
  lemma AverageBounds(history: seq<EnergyEntry>, lo: int, hi: int)
    requires |history| > 0
    requires forall i :: 0 <= i < |history| ==> lo <= history[i].energy <= hi
    ensures lo as real <= Average(history) <= hi as real
  {
    MeanBounds(Energies(history), lo, hi);
  }

  /** `getTrend(contactId)`: the mean of the last five readings against the
      mean of the five before them, with a margin of 0.3 either way. */
  function GetTrend(history: seq<EnergyEntry>): (t: Trend)
    ensures |history| < 7 ==> t == Stable
    ensures |history| >= 7 ==>
              var n := |history|;
              var recent := Mean(Energies(history[n - 5..]));
              var older := Mean(Energies(history[Max(0, n - 10)..n - 5]));
              (t == Improving <==> recent > older + 0.3) &&
              (t == Declining <==> recent < older - 0.3)
  {
    if |history| < 3 then Stable
    else
      var recent := Slice(history, -5, |history|);
      var older := Slice(history, -10, -5);
      assert |history| >= 7 ==> recent == history[|history| - 5..];
      assert |history| >= 7 ==> older == history[Max(0, |history| - 10)..|history| - 5];
      if |recent| < 2 || |older| < 2 then Stable
      else
        var recentAvg := Mean(Energies(recent));
        var olderAvg := Mean(Energies(older));
        if recentAvg > olderAvg + 0.3 then Improving
        else if recentAvg < olderAvg - 0.3 then Declining
        else Stable
  }

  /** Readings that never change give a stable trend. */
  lemma ConstantHistoryIsStable(history: seq<EnergyEntry>, v: int)
    requires forall i :: 0 <= i < |history| ==> history[i].energy == v
    ensures GetTrend(history) == Stable
  {
    var n := |history|;
    if n >= 7 {
      var recent := history[n - 5..];
      var older := history[Max(0, n - 10)..n - 5];
      AverageBounds(recent, v, v);
      AverageBounds(older, v, v);
    }
  }
}
