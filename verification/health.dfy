/** Relationship health of `stores/orbitStore.js`: `calculateHealthScore`, a
    0-100 blend of recency, frequency and energy, and `getNeedingAttention`,
    the contacts scoring below 70, weakest first. */
module Health {
  import opened Basics
  import opened Store
  import Sorting

  /** Whole days from `past` to `now`: `Math.floor((now - past) / MS_PER_DAY)`.
      Dafny's division by a positive divisor rounds down, as `Math.floor` does. */
  function DaysBetween(now: Timestamp, past: Timestamp): (d: int)
    ensures d * MsPerDay <= now - past < (d + 1) * MsPerDay
  {
    (now - past) / MsPerDay
  }

  /** `ENERGY_LEVELS[key]?.value || 0`. */
  function EnergyValueOf(key: string): (v: int)
    ensures -2 <= v <= 2
    ensures EnergyOf(key).None? ==> v == 0
    ensures EnergyOf(key).Some? ==> v == EnergyValue(EnergyOf(key).value)
  {
    match EnergyOf(key)
    case Some(e) => EnergyValue(e)
    case None => 0
  }

  /** Days since the last interaction, 365 when there has been none. */
  function DaysSinceLast(c: Contact, now: Timestamp): int {
    match c.lastInteraction
    case Some(t) => DaysBetween(now, t)
    case None => 365
  }

  function RecencyScore(days: int): int { Max(0, 100 - days * 2) }

  function FrequencyScore(count: nat): int { Min(100, count * 10) }

  /** `Math.round(x)`: the nearest integer, halves rounded up. */
  ghost function RoundHalfUp(x: real): int { (x + 0.5).Floor }

  /** The weighted blend as the source writes it, in exact real arithmetic:
      `Math.round(0.3 * recency + 0.3 * frequency + 0.4 * ((v + 2) / 4) * 100)`. */
  ghost function Blend(recency: int, frequency: int, energyValue: int): int {
    RoundHalfUp(0.3 * recency as real + 0.3 * frequency as real
                + 0.4 * (((energyValue + 2) as real / 4.0) * 100.0))
  }

  /** The blend in integers: `(3 r + 3 f + 4 e + 5) / 10` with `e = 25 (v + 2)`. */
  function BlendInt(recency: int, frequency: int, energyValue: int): (r: int)
    ensures r == Blend(recency, frequency, energyValue)
  {
    var n := 3 * recency + 3 * frequency + 4 * (25 * (energyValue + 2)) + 5;
    FloorTenth(n);
    assert 0.3 * recency as real + 0.3 * frequency as real
           + 0.4 * (((energyValue + 2) as real / 4.0) * 100.0) + 0.5 == n as real / 10.0;
    n / 10
  }

  lemma FloorTenth(n: int)
    ensures (n as real / 10.0).Floor == n / 10
  {
    var q := n / 10;
    assert n == 10 * q + n % 10;
    assert n as real / 10.0 == q as real + (n % 10) as real / 10.0;
  }

  /** `calculateHealthScore(id)` at time `now`: 0 for an unknown id, 100 for a
      contact without interactions, and otherwise the rounded blend of the
      recency score, the frequency score over at most the 10 newest
      interactions, and the energy score. */
  function HealthScore(s: State, id: Id, now: Timestamp): (r: int)
    ensures FindContact(s.contacts, id).None? ==> r == 0
    ensures FindContact(s.contacts, id).Some? && |InteractionsOf(s.interactions, id)| == 0 ==> r == 100
    ensures var c := FindContact(s.contacts, id);
            var n := |InteractionsOf(s.interactions, id)|;
            c.Some? && n > 0 ==>
              r == Blend(Max(0, 100 - 2 * DaysSinceLast(c.value, now)),
                         10 * Min(n, 10),
                         EnergyValueOf(c.value.energy))
  {
    match FindContact(s.contacts, id)
    case None => 0
    case Some(c) =>
      var recent := Slice(InteractionsOf(s.interactions, id), 0, 10);
      SliceTake(InteractionsOf(s.interactions, id), 10);
      if |recent| == 0 then 100
      else
        BlendInt(RecencyScore(DaysSinceLast(c, now)), FrequencyScore(|recent|), EnergyValueOf(c.energy))
  }

  /** The last interaction is not later than `now` (always so when it was
      stamped by `addInteraction` with a clock that does not go back). */
  predicate NotAhead(c: Contact, now: Timestamp) {
    c.lastInteraction.None? || c.lastInteraction.value <= now
  }

  /** With at least one interaction and no future timestamp, the score lies
      in [3, 100]: recency and energy can reach 0 but frequency is at least 10. */
  lemma HealthScoreRange(s: State, id: Id, now: Timestamp)
    requires FindContact(s.contacts, id).Some?
    requires NotAhead(FindContact(s.contacts, id).value, now)
    ensures 0 <= HealthScore(s, id, now) <= 100
    ensures |InteractionsOf(s.interactions, id)| > 0 ==> 3 <= HealthScore(s, id, now)
  {
    var c := FindContact(s.contacts, id).value;
    var n := |InteractionsOf(s.interactions, id)|;
    if n > 0 {
      var d := DaysSinceLast(c, now);
      assert d >= 0;
      var rec := RecencyScore(d);
      var v := EnergyValueOf(c.energy);
      assert 0 <= rec <= 100;
      assert 10 <= FrequencyScore(Min(n, 10)) <= 100;
      assert BlendInt(rec, FrequencyScore(Min(n, 10)), v) == HealthScore(s, id, now);
    }
  }

  /** A last-interaction stamp 100 days in the future drives the score past 100:
      nothing in the source clamps the recency term. */
  lemma FutureStampExceeds100(now: Timestamp)
    ensures var c := Contact("a", "Ann", "friend", "", [], "neutral", 100, now, Some(now + 100 * MsPerDay));
            var i := Interaction("x", "a", "", "hi", [], "neutral", now);
            HealthScore(State([c], [i]), "a", now) == 113
  {
    var c := Contact("a", "Ann", "friend", "", [], "neutral", 100, now, Some(now + 100 * MsPerDay));
    var i := Interaction("x", "a", "", "hi", [], "neutral", now);
    var s := State([c], [i]);
    assert FindContact(s.contacts, "a") == Some(c);
    assert InteractionsOf(s.interactions, "a") == [i];
    assert DaysBetween(now, now + 100 * MsPerDay) == -100;
  }

  /** Each contact with `healthScore` replaced by its computed score. */
  function Scored(s: State, now: Timestamp): (r: seq<Contact>)
    ensures |r| == |s.contacts|
    ensures forall i :: 0 <= i < |r| ==>
              r[i] == s.contacts[i].(healthScore := HealthScore(s, s.contacts[i].id, now))
  {
    seq(|s.contacts|, i requires 0 <= i < |s.contacts| =>
          s.contacts[i].(healthScore := HealthScore(s, s.contacts[i].id, now)))
  }

  function ScoreKey(c: Contact): int { c.healthScore }

  function Weak(cs: seq<Contact>): seq<Contact> {
    Filter(cs, (c: Contact) => c.healthScore < 70)
  }

  /** `getNeedingAttention()`: the scored contacts below 70, sorted ascending
      by score; for each score below 70 the contacts with that score appear in
      store order, and no other contact appears. */
  function NeedingAttention(s: State, now: Timestamp): (r: seq<Contact>)
    ensures forall i :: 0 <= i < |r| ==> r[i].healthScore < 70
    ensures Sorting.SortedBy(r, ScoreKey)
    ensures forall k :: k < 70 ==> Sorting.WithKey(r, ScoreKey, k) == Sorting.WithKey(Scored(s, now), ScoreKey, k)
  {
    var scored := Scored(s, now);
    var weak := Weak(scored);
    var r := Sorting.SortBy(weak, ScoreKey);
    forall k | k < 70 ensures Sorting.WithKey(weak, ScoreKey, k) == Sorting.WithKey(scored, ScoreKey, k) {
      WithKeyOfWeak(scored, k);
    }
    PermutationKeepsBound(r, weak);
    r
  }

  lemma PermutationKeepsBound(r: seq<Contact>, weak: seq<Contact>)
    requires multiset(r) == multiset(weak)
    requires forall i :: 0 <= i < |weak| ==> weak[i].healthScore < 70
    ensures forall i :: 0 <= i < |r| ==> r[i].healthScore < 70
  {
    forall i | 0 <= i < |r| ensures r[i].healthScore < 70 {
      assert r[i] in multiset(weak);
      var j :| 0 <= j < |weak| && weak[j] == r[i];
    }
  }

  lemma {:induction false} WithKeyOfWeak(cs: seq<Contact>, k: int)
    requires k < 70
    ensures Sorting.WithKey(Weak(cs), ScoreKey, k) == Sorting.WithKey(cs, ScoreKey, k)
    decreases |cs|
  {
    if |cs| > 0 {
      WithKeyOfWeak(cs[1..], k);
      if cs[0].healthScore < 70 {
        assert Weak(cs) == [cs[0]] + Weak(cs[1..]);
        assert ([cs[0]] + Weak(cs[1..]))[1..] == Weak(cs[1..]);
      }
    }
  }
}
