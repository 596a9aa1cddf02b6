/** `GroupAnalysis` of `services/enhancedFeatures.js`: counts of contacts by
    type, by energy level and by health band, and up to three insights drawn
    from them. The health band of each contact comes from a draw the source
    takes from `Math.random()`; here the draws are a parameter. */
module GroupAnalysis {
  import opened Basics
  import opened Store
  import Tally

  /** `byEnergy`: one counter per energy level, in the declared key order. */
  datatype EnergyCounts = EnergyCounts(draining: nat, low: nat, neutral: nat, good: nat, nourishing: nat)

  function Count(e: EnergyCounts, level: EnergyLevel): nat {
    match level
    case Draining => e.draining
    case Low => e.low
    case Neutral => e.neutral
    case Good => e.good
    case Nourishing => e.nourishing
  }

  /** `Object.values(byEnergy).reduce((a, b) => a + b, 0)`. */
  function EnergyTotal(e: EnergyCounts): nat {
    e.draining + e.low + e.neutral + e.good + e.nourishing
  }

  /** One more contact at `level`. */
  function BumpEnergy(e: EnergyCounts, level: EnergyLevel): (r: EnergyCounts)
    ensures Count(r, level) == Count(e, level) + 1
    ensures forall other :: other != level ==> Count(r, other) == Count(e, other)
  {
    match level
    case Draining => e.(draining := e.draining + 1)
    case Low => e.(low := e.low + 1)
    case Neutral => e.(neutral := e.neutral + 1)
    case Good => e.(good := e.good + 1)
    case Nourishing => e.(nourishing := e.nourishing + 1)
  }

  /** The number of contacts whose `energy` is the key of `level`. */
  function AtLevel(cs: seq<Contact>, level: EnergyLevel): nat
    decreases |cs|
  {
    if |cs| == 0 then 0 else (if cs[0].energy == EnergyKey(level) then 1 else 0) + AtLevel(cs[1..], level)
  }

  /** The number of contacts whose `energy` is none of the five keys. */
  function Unrated(cs: seq<Contact>): nat
    decreases |cs|
  {
    if |cs| == 0 then 0 else (if EnergyOf(cs[0].energy).None? then 1 else 0) + Unrated(cs[1..])
  }

  /** The energy loop: a contact with a known level bumps that level's
      counter and any other contact is skipped, so the counters add up to
      the number of contacts with a known level. */
  function CountEnergies(cs: seq<Contact>): (r: EnergyCounts)
    ensures forall level :: Count(r, level) == AtLevel(cs, level)
    ensures EnergyTotal(r) + Unrated(cs) == |cs|
    decreases |cs|
  {
    if |cs| == 0 then EnergyCounts(0, 0, 0, 0, 0)
    else
      var rest := CountEnergies(cs[1..]);
      match EnergyOf(cs[0].energy)
      case Some(level) =>
        forall other ensures (cs[0].energy == EnergyKey(other)) == (other == level) {
          EnergyKeyRoundTrip(other);
        }
        BumpEnergy(rest, level)
      case None =>
        forall other ensures cs[0].energy != EnergyKey(other) {
          EnergyKeyRoundTrip(other);
        }
        rest
  }

  /** `health`: contacts by band of their score. */
  datatype HealthCounts = HealthCounts(healthy: nat, moderate: nat, needsAttention: nat)

  /** The band of each score: healthy from 70, moderate from 40, otherwise
      needing attention. */
  function CountHealth(scores: seq<real>): (r: HealthCounts)
    ensures r.healthy + r.moderate + r.needsAttention == |scores|
    ensures r.healthy == CountIf(scores, Healthy)
    ensures r.needsAttention == CountIf(scores, Neglected)
    decreases |scores|
  {
    if |scores| == 0 then HealthCounts(0, 0, 0)
    else
      var rest := CountHealth(scores[1..]);
      if scores[0] >= 70.0 then rest.(healthy := rest.healthy + 1)
      else if scores[0] >= 40.0 then rest.(moderate := rest.moderate + 1)
      else rest.(needsAttention := rest.needsAttention + 1)
  }

  predicate Healthy(score: real) { score >= 70.0 }

  predicate Neglected(score: real) { score < 40.0 }

  /** The insights, in the order they are pushed; the texts are left out. */
  datatype Insight = MostlyType(kind: string) | ManyDraining | NeedAttention

  function Rank(i: Insight): nat {
    match i
    case MostlyType(_) => 0
    case ManyDraining => 1
    case NeedAttention => 2
  }

  /** `(draining + low) / totalEnergy > 0.3`, in exact arithmetic. With no
      counted energy the quotient is `NaN` and the comparison is false. */
  predicate MostlyDraining(e: EnergyCounts) {
    EnergyTotal(e) > 0 && 10 * (e.draining + e.low) > 3 * EnergyTotal(e)
  }

  /** `generateInsights(byType, byEnergy, health)`: a type insight naming a
      type with the largest count (the last such key on ties) when any type
      was counted, then the draining warning, then the attention warning. */
  function GenerateInsights(byType: Tally.Counts, byEnergy: EnergyCounts, health: HealthCounts): (r: seq<Insight>)
    ensures forall i, j :: 0 <= i < j < |r| ==> Rank(r[i]) < Rank(r[j])
    ensures |r| <= 3
    ensures (|r| > 0 && r[0].MostlyType?) <==> |byType| > 0
    ensures |r| > 0 && r[0].MostlyType? ==>
              exists k :: 0 <= k < |byType| && byType[k].0 == r[0].kind &&
                (forall j :: 0 <= j < |byType| ==> byType[j].1 <= byType[k].1) &&
                (forall j :: k < j < |byType| ==> byType[j].1 < byType[k].1)
    ensures ManyDraining in r <==> MostlyDraining(byEnergy)
    ensures NeedAttention in r <==> health.needsAttention > health.healthy
  {
    var typeInsight := if |byType| > 0 then [MostlyType(byType[Tally.DominantIndex(byType)].0)] else [];
    var energyInsight := if MostlyDraining(byEnergy) then [ManyDraining] else [];
    var healthInsight := if health.needsAttention > health.healthy then [NeedAttention] else [];
    typeInsight + energyInsight + healthInsight
  }

  /** The result of `analyze(contacts)`. */
  datatype Analysis = Analysis(byType: Tally.Counts, byEnergy: EnergyCounts, health: HealthCounts,
                               total: nat, insights: seq<Insight>)

  /** `analyze(contacts)` with `draws[i]` the score drawn for `contacts[i]`:
      the type counts add up to the number of contacts, with the types in the
      order they are first met, the energy counts to the number with a known
      level, the health bands to all of them. */
  function Analyze(cs: seq<Contact>, draws: seq<real>): (r: Analysis)
    requires |draws| == |cs|
    ensures r.total == |cs|
    ensures Tally.WellFormed(r.byType) && Tally.Total(r.byType) == |cs|
    ensures forall k :: Tally.Lookup(r.byType, k) == |OfType(cs, k)|
    ensures forall i {:trigger Tally.FirstIndex(cs, KindOf, r.byType[i].0)} :: 0 <= i < |r.byType| ==>
              Tally.FirstIndex(cs, KindOf, r.byType[i].0) < |cs|
    ensures forall i, j {:trigger Tally.FirstIndex(cs, KindOf, r.byType[i].0), Tally.FirstIndex(cs, KindOf, r.byType[j].0)} ::
              0 <= i < j < |r.byType| ==>
              Tally.FirstIndex(cs, KindOf, r.byType[i].0) < Tally.FirstIndex(cs, KindOf, r.byType[j].0)
    ensures EnergyTotal(r.byEnergy) <= |cs|
    ensures forall level :: Count(r.byEnergy, level) == AtLevel(cs, level)
    ensures r.health.healthy + r.health.moderate + r.health.needsAttention == |cs|
    ensures r.insights == GenerateInsights(r.byType, r.byEnergy, r.health)
  {
    var byType := Tally.CountBy(cs, KindOf);
    forall k ensures Tally.Lookup(byType, k) == |OfType(cs, k)| {
      OccurrencesOfType(cs, k);
    }
    var byEnergy := CountEnergies(cs);
    var health := CountHealth(draws);
    Analysis(byType, byEnergy, health, |cs|, GenerateInsights(byType, byEnergy, health))
  }

  /** Two types counted once each tie, and the `reduce` keeps the later key:
      the type insight names the type seen second. */
  lemma TieNamesLaterType(c1: Contact, c2: Contact, draws: seq<real>)
    requires c1.kind == "friend" && c2.kind == "family" && |draws| == 2
    ensures Analyze([c1, c2], draws).insights[0] == MostlyType("family")
  {
    var a := Analyze([c1, c2], draws);
    TieCounts(c1, c2);
    TieInsight(a.byEnergy, a.health);
  }

  /** Counting a friend and then a family member keeps that key order. */
  lemma TieCounts(c1: Contact, c2: Contact)
    requires c1.kind == "friend" && c2.kind == "family"
    ensures Tally.CountBy([c1, c2], KindOf) == [("friend", 1), ("family", 1)]
  {
    assert [c1, c2][..1] == [c1];
    assert Tally.CountBy([c1], KindOf) == [("friend", 1)];
  }

  /** On a tie the type insight names the later key. */
  lemma TieInsight(e: EnergyCounts, h: HealthCounts)
    ensures GenerateInsights([("friend", 1), ("family", 1)], e, h)[0] == MostlyType("family")
  {
    var t := [("friend", 1), ("family", 1)];
    assert t[..1] == [("friend", 1)];
    assert Tally.DominantIndex(t) == 1;
  }

  /** With nothing counted there is nothing to say: in particular the
      draining warning is not raised on an empty energy count. */
  lemma NothingCountedNoInsights()
    ensures GenerateInsights([], EnergyCounts(0, 0, 0, 0, 0), HealthCounts(0, 0, 0)) == []
  {
  }

  /** A group whose every contact is draining gets the draining warning. */
  lemma AllDrainingWarns(cs: seq<Contact>, draws: seq<real>)
    requires |draws| == |cs| && |cs| > 0
    requires forall i :: 0 <= i < |cs| ==> cs[i].energy == "draining"
    ensures ManyDraining in Analyze(cs, draws).insights
  {
    var a := Analyze(cs, draws);
    AllDrainingCounted(cs, a.byEnergy);
  }

  lemma AllDrainingCounted(cs: seq<Contact>, e: EnergyCounts)
    requires |cs| > 0
    requires forall i :: 0 <= i < |cs| ==> cs[i].energy == "draining"
    requires EnergyTotal(e) <= |cs|
    requires forall level :: Count(e, level) == AtLevel(cs, level)
    ensures MostlyDraining(e)
  {
    AllAtLevel(cs, Draining);
    assert Count(e, Draining) == |cs|;
  }

  lemma {:induction false} AllAtLevel(cs: seq<Contact>, level: EnergyLevel)
    requires forall i :: 0 <= i < |cs| ==> cs[i].energy == EnergyKey(level)
    ensures AtLevel(cs, level) == |cs|
    decreases |cs|
  {
    if |cs| > 0 {
      AllAtLevel(cs[1..], level);
    }
  }
}
