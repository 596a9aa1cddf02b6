/** The logic of `screens/ContactsListScreen.js`: the name search, the type
    shown for a contact, the score shown and its colour band. */
module ContactsList {
  import opened Basics
  import opened Text
  import opened Store

  /** `c.name.toLowerCase().includes(search.toLowerCase())`. */
  predicate Matches(c: Contact, search: string) {
    Includes(Lower(c.name), Lower(search))
  }

  /** The listed contacts: exactly those whose name contains the search text
      regardless of case, in store order. */
  function Search(cs: seq<Contact>, search: string): (r: seq<Contact>)
    ensures forall i :: 0 <= i < |r| ==> Matches(r[i], search) && r[i] in cs
    ensures forall i :: 0 <= i < |cs| && Matches(cs[i], search) ==> cs[i] in r
    ensures IsSubsequence(r, cs)
    ensures |r| == CountIf(cs, (c: Contact) => Matches(c, search))
  {
    Filter(cs, (c: Contact) => Matches(c, search))
  }

  /** An empty search lists every contact. */
  lemma EmptySearchListsAll(cs: seq<Contact>)
    ensures Search(cs, "") == cs
  {
    forall c: Contact ensures Matches(c, "") {
      IncludesEmpty(Lower(c.name));
    }
    FilterAll(cs, (c: Contact) => Matches(c, ""));
  }

  /** Typing more never lists a contact that was not listed before. */
  lemma LongerSearchNarrows(cs: seq<Contact>, search: string, more: string)
    ensures forall i :: 0 <= i < |Search(cs, search + more)| ==> Search(cs, search + more)[i] in Search(cs, search)
  {
    var r := Search(cs, search + more);
    forall i | 0 <= i < |r| ensures r[i] in Search(cs, search) {
      var name := Lower(r[i].name);
      assert Lower(search + more) == Lower(search) + Lower(more);
      IncludesPrefix(name, Lower(search), Lower(more));
      var j :| 0 <= j < |cs| && cs[j] == r[i];
    }
  }

  lemma IncludesPrefix(s: string, a: string, b: string)
    requires Includes(s, a + b)
    ensures Includes(s, a)
  {
    IncludesIff(s, a + b);
    var i: nat :| OccursAt(s, a + b, i);
    assert s[i..i + |a|] == (a + b)[..|a|] == a;
    assert OccursAt(s, a, i);
    IncludesIff(s, a);
  }

  /** `RELATIONSHIP_TYPES[item.type] || RELATIONSHIP_TYPES.acquaintance`: the
      type whose label and colour are shown. */
  function ShownType(kind: string): (t: RelationshipType)
    ensures TypeOf(kind).Some? ==> t == TypeOf(kind).value
    ensures TypeOf(kind).None? ==> t == Acquaintance
  {
    TypeOf(kind).GetOr(Acquaintance)
  }

  /** A known type is shown as itself. */
  lemma ShownTypeOfKey(t: RelationshipType)
    ensures ShownType(TypeKey(t)) == t
  {
    TypeKeyRoundTrip(t);
  }

  /** `healthScores?.[id] || 100`, where `scores` is absent when the screen
      received no scores: a missing entry and a score of 0 both show as 100. */
  function ShownScore(scores: Option<map<Id, int>>, id: Id): (r: int)
    ensures r != 0
    ensures scores.Some? && id in scores.value && scores.value[id] != 0 ==> r == scores.value[id]
    ensures scores.None? || id !in scores.value || scores.value[id] == 0 ==> r == 100
  {
    if scores.Some? && id in scores.value && scores.value[id] != 0 then scores.value[id] else 100
  }

  /** The five colours of `getHealthColor`, strongest first. */
  datatype HealthBand = Strong | Fine | Fair | Weak | Critical

  /** Band position: 0 for the strongest. */
  function Rank(b: HealthBand): nat {
    match b
    case Strong => 0
    case Fine => 1
    case Fair => 2
    case Weak => 3
    case Critical => 4
  }

  function BandColor(b: HealthBand): string {
    match b
    case Strong => "#38A169"
    case Fine => "#68D391"
    case Fair => "#ECC94B"
    case Weak => "#ED8936"
    case Critical => "#E53E3E"
  }

  /** `getHealthColor(score)`: bands from 80, 60, 40 and 20, the last below 20. */
  function HealthBandOf(score: int): (b: HealthBand)
    ensures score >= 80 ==> b == Strong
    ensures score < 20 ==> b == Critical
    ensures 20 <= score < 80 ==> 20 * (4 - Rank(b)) <= score < 20 * (5 - Rank(b))
  {
    if score >= 80 then Strong
    else if score >= 60 then Fine
    else if score >= 40 then Fair
    else if score >= 20 then Weak
    else Critical
  }

  /** A higher score never gets a weaker band. */
  lemma HealthBandMonotone(a: int, b: int)
    requires a <= b
    ensures Rank(HealthBandOf(b)) <= Rank(HealthBandOf(a))
  {
  }

  /** The band of a shown score: without scores every contact shows the strongest colour. */
  lemma NoScoresShowStrong(id: Id)
    ensures HealthBandOf(ShownScore(None, id)) == Strong
  {
  }
}
