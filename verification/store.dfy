/** The relationship store of `stores/orbitStore.js`: two collections, contacts
    and interactions, newest first, with the mutations and queries the screens
    call. Every mutation is a function from the old state to the new one; the
    clock (`Date.now()`) and the generated id (`Date.now().toString()`) are
    parameters. */
module Store {
  import opened Basics
  import Tally

  type Id = string

  /** Milliseconds since the epoch; the application stores ISO-8601 strings. */
  type Timestamp = int

  /** `1000 * 60 * 60 * 24`. */
  const MsPerDay: int := 86400000

  // ------------------------------------------------------ static tables

  /** The keys of `RELATIONSHIP_TYPES`. */
  datatype RelationshipType = Family | Friend | Professional | Romantic | Acquaintance

  function TypeKey(t: RelationshipType): string {
    match t
    case Family => "family"
    case Friend => "friend"
    case Professional => "professional"
    case Romantic => "romantic"
    case Acquaintance => "acquaintance"
  }

  /** `RELATIONSHIP_TYPES[key]`, absent for any other key. */
  function TypeOf(key: string): (r: Option<RelationshipType>)
    ensures r.Some? ==> TypeKey(r.value) == key
  {
    if key == "family" then Some(Family)
    else if key == "friend" then Some(Friend)
    else if key == "professional" then Some(Professional)
    else if key == "romantic" then Some(Romantic)
    else if key == "acquaintance" then Some(Acquaintance)
    else None
  }

  /** Each relationship type is found again under its own key. */
  lemma TypeKeyRoundTrip(t: RelationshipType)
    ensures TypeOf(TypeKey(t)) == Some(t)
  {
  }

  function TypeLabel(t: RelationshipType): string {
    match t
    case Family => "Family"
    case Friend => "Friend"
    case Professional => "Professional"
    case Romantic => "Romantic"
    case Acquaintance => "Acquaintance"
  }

  function TypeColor(t: RelationshipType): string {
    match t
    case Family => "#E53E3E"
    case Friend => "#3182CE"
    case Professional => "#D69E2E"
    case Romantic => "#D53F8C"
    case Acquaintance => "#718096"
  }

  /** The keys of `ENERGY_LEVELS`. */
  datatype EnergyLevel = Draining | Low | Neutral | Good | Nourishing

  function EnergyKey(e: EnergyLevel): string {
    match e
    case Draining => "draining"
    case Low => "low"
    case Neutral => "neutral"
    case Good => "good"
    case Nourishing => "nourishing"
  }

  /** `ENERGY_LEVELS[key]`, absent for any other key. */
  function EnergyOf(key: string): (r: Option<EnergyLevel>)
    ensures r.Some? ==> EnergyKey(r.value) == key
  {
    if key == "draining" then Some(Draining)
    else if key == "low" then Some(Low)
    else if key == "neutral" then Some(Neutral)
    else if key == "good" then Some(Good)
    else if key == "nourishing" then Some(Nourishing)
    else None
  }

  lemma EnergyKeyRoundTrip(e: EnergyLevel)
    ensures EnergyOf(EnergyKey(e)) == Some(e)
  {
  }

  /** `ENERGY_LEVELS[e].value`: the ordinal from -2 (draining) to 2 (nourishing). */
  function EnergyValue(e: EnergyLevel): int {
    match e
    case Draining => -2
    case Low => -1
    case Neutral => 0
    case Good => 1
    case Nourishing => 2
  }

  // ------------------------------------------------------------ entities

  /** A tracked person. `kind` is the source's `type` field and `energy` a
      key of `ENERGY_LEVELS`; both are free strings because `updateContact`
      stores whatever it is given. */
  datatype Contact = Contact(
    id: Id,
    name: string,
    kind: string,
    notes: string,
    tags: seq<string>,
    energy: string,
    healthScore: int,
    createdAt: Timestamp,
    lastInteraction: Option<Timestamp>)

  /** A logged exchange with a contact. `kind` is the composed type label and
      `mood` one of "negative", "neutral", "positive" when logged from the form. */
  datatype Interaction = Interaction(
    id: Id,
    contactId: Id,
    kind: string,
    summary: string,
    topics: seq<string>,
    mood: string,
    createdAt: Timestamp)

  /** Both collections, newest first. */
  datatype State = State(contacts: seq<Contact>, interactions: seq<Interaction>)

  const Initial: State := State([], [])

  // ---------------------------------------------------------- mutations

  /** The object passed to `addContact`: the fields the form always supplies,
      plus fields a caller may include and the store overrides. */
  datatype NewContact = NewContact(
    id: Option<Id>,
    name: string,
    kind: string,
    notes: string,
    tags: seq<string>,
    energy: Option<string>,
    healthScore: Option<int>,
    createdAt: Option<Timestamp>,
    lastInteraction: Option<Option<Timestamp>>)

  /** `addContact`: builds `{ id: fresh, ...input, energy: 'neutral',
      healthScore: 100, createdAt: now, lastInteraction: null }` and puts it
      in front of the contacts. An `id` in the input wins over the fresh one;
      the four trailing fields win over the input. */
  function AddContact(s: State, input: NewContact, freshId: Id, now: Timestamp): (r: (State, Contact))
    ensures r.0.contacts == [r.1] + s.contacts
    ensures r.0.interactions == s.interactions
    ensures r.1.energy == "neutral" && r.1.healthScore == 100
    ensures r.1.lastInteraction == None && r.1.createdAt == now
    ensures r.1.id == (if input.id.Some? then input.id.value else freshId)
    ensures r.1.name == input.name && r.1.kind == input.kind
    ensures r.1.notes == input.notes && r.1.tags == input.tags
  {
    var c := Contact(input.id.GetOr(freshId), input.name, input.kind, input.notes, input.tags,
                     "neutral", 100, now, None);
    (State([c] + s.contacts, s.interactions), c)
  }

  /** The object passed to `updateContact`: any subset of a contact's fields,
      `id` and `createdAt` included. */
  datatype ContactPatch = ContactPatch(
    id: Option<Id>,
    name: Option<string>,
    kind: Option<string>,
    notes: Option<string>,
    tags: Option<seq<string>>,
    energy: Option<string>,
    healthScore: Option<int>,
    createdAt: Option<Timestamp>,
    lastInteraction: Option<Option<Timestamp>>)

  const NoChange: ContactPatch := ContactPatch(None, None, None, None, None, None, None, None, None)

  /** `{ ...c, ...patch }`: every field present in the patch replaces the
      contact's, every other field is kept. */
  function Merge(c: Contact, p: ContactPatch): Contact {
    Contact(p.id.GetOr(c.id), p.name.GetOr(c.name), p.kind.GetOr(c.kind), p.notes.GetOr(c.notes),
            p.tags.GetOr(c.tags), p.energy.GetOr(c.energy), p.healthScore.GetOr(c.healthScore),
            p.createdAt.GetOr(c.createdAt), p.lastInteraction.GetOr(c.lastInteraction))
  }

  /** Merging the same patch twice is merging it once. */
  lemma MergeIdempotent(c: Contact, p: ContactPatch)
    ensures Merge(Merge(c, p), p) == Merge(c, p)
  {
  }

  /** `updateContact(id, patch)`: merges the patch into every contact whose id
      is `id` and leaves all else alone. */
  function UpdateContact(s: State, id: Id, patch: ContactPatch): (r: State)
    ensures |r.contacts| == |s.contacts|
    ensures forall i :: 0 <= i < |s.contacts| && s.contacts[i].id == id ==>
              r.contacts[i] == Merge(s.contacts[i], patch)
    ensures forall i :: 0 <= i < |s.contacts| && s.contacts[i].id != id ==>
              r.contacts[i] == s.contacts[i]
    ensures r.interactions == s.interactions
  {
    var cs := s.contacts;
    State(seq(|cs|, i requires 0 <= i < |cs| => if cs[i].id == id then Merge(cs[i], patch) else cs[i]),
          s.interactions)
  }

  /** Updating an id no contact has changes nothing. */
  lemma UpdateUnknownIsNoOp(s: State, id: Id, patch: ContactPatch)
    requires forall i :: 0 <= i < |s.contacts| ==> s.contacts[i].id != id
    ensures UpdateContact(s, id, patch) == s
  {
    assert UpdateContact(s, id, patch).contacts == s.contacts;
  }

  /** Applying the same update twice is applying it once, even when the patch
      rewrites the id. */
  lemma UpdateIdempotent(s: State, id: Id, patch: ContactPatch)
    ensures UpdateContact(UpdateContact(s, id, patch), id, patch) == UpdateContact(s, id, patch)
  {
    var once := UpdateContact(s, id, patch);
    var twice := UpdateContact(once, id, patch);
    forall i | 0 <= i < |s.contacts| ensures twice.contacts[i] == once.contacts[i] {
      if s.contacts[i].id == id {
        MergeIdempotent(s.contacts[i], patch);
      }
    }
    assert twice.contacts == once.contacts;
  }

  /** An update may rewrite a contact's id: nothing in `updateContact` keeps
      ids immutable. */
  lemma UpdateCanRewriteId(c: Contact, newId: Id)
    requires c.id != newId
    ensures UpdateContact(State([c], []), c.id, NoChange.(id := Some(newId))).contacts[0].id == newId
  {
  }

  /** `deleteContact(id)`: removes every contact with that id and, in the
      same step, every interaction that refers to it. */
  function DeleteContact(s: State, id: Id): (r: State)
    ensures forall i :: 0 <= i < |r.contacts| ==> r.contacts[i].id != id
    ensures forall i :: 0 <= i < |r.interactions| ==> r.interactions[i].contactId != id
    ensures forall i :: 0 <= i < |s.contacts| && s.contacts[i].id != id ==> s.contacts[i] in r.contacts
    ensures forall i :: 0 <= i < |s.interactions| && s.interactions[i].contactId != id ==>
              s.interactions[i] in r.interactions
    ensures IsSubsequence(r.contacts, s.contacts)
    ensures IsSubsequence(r.interactions, s.interactions)
    ensures |r.contacts| == CountIf(s.contacts, (c: Contact) => c.id != id)
    ensures |r.interactions| == CountIf(s.interactions, (i: Interaction) => i.contactId != id)
  {
    State(Filter(s.contacts, (c: Contact) => c.id != id),
          Filter(s.interactions, (i: Interaction) => i.contactId != id))
  }

  /** Deleting an id no contact and no interaction carries changes nothing. */
  lemma DeleteUnknownIsNoOp(s: State, id: Id)
    requires forall i :: 0 <= i < |s.contacts| ==> s.contacts[i].id != id
    requires forall i :: 0 <= i < |s.interactions| ==> s.interactions[i].contactId != id
    ensures DeleteContact(s, id) == s
  {
    FilterAll(s.contacts, (c: Contact) => c.id != id);
    FilterAll(s.interactions, (i: Interaction) => i.contactId != id);
  }

  /** The object passed to `addInteraction`. */
  datatype NewInteraction = NewInteraction(
    id: Option<Id>,
    contactId: Id,
    kind: string,
    summary: string,
    topics: seq<string>,
    mood: string,
    createdAt: Option<Timestamp>)

  /** `addInteraction`: builds `{ id: fresh, ...input, createdAt: now }`, puts it
      in front of the interactions and stamps `lastInteraction := now` on every
      contact whose id is the input's `contactId`. No check that such a contact
      exists: the interaction is added regardless. */
  function AddInteraction(s: State, input: NewInteraction, freshId: Id, now: Timestamp): (r: (State, Interaction))
    ensures r.0.interactions == [r.1] + s.interactions
    ensures r.1.id == (if input.id.Some? then input.id.value else freshId)
    ensures r.1.contactId == input.contactId && r.1.createdAt == now
    ensures r.1.summary == input.summary && r.1.topics == input.topics && r.1.mood == input.mood
    ensures r.1.kind == input.kind
    ensures |r.0.contacts| == |s.contacts|
    ensures forall i :: 0 <= i < |s.contacts| && s.contacts[i].id == input.contactId ==>
              r.0.contacts[i] == s.contacts[i].(lastInteraction := Some(now))
    ensures forall i :: 0 <= i < |s.contacts| && s.contacts[i].id != input.contactId ==>
              r.0.contacts[i] == s.contacts[i]
  {
    var it := Interaction(input.id.GetOr(freshId), input.contactId, input.kind, input.summary,
                          input.topics, input.mood, now);
    var cs := s.contacts;
    var updated := seq(|cs|, i requires 0 <= i < |cs| =>
                         if cs[i].id == input.contactId then cs[i].(lastInteraction := Some(now)) else cs[i]);
    (State(updated, [it] + s.interactions), it)
  }

  // ------------------------------------------------------------ queries

  /** `contacts.find(c => c.id === id)`: the first contact with that id. */
  function FindContact(cs: seq<Contact>, id: Id): (r: Option<Contact>)
    ensures r.None? <==> forall i :: 0 <= i < |cs| ==> cs[i].id != id
    ensures r.Some? ==> exists i :: 0 <= i < |cs| && cs[i] == r.value && r.value.id == id &&
                          forall j :: 0 <= j < i ==> cs[j].id != id
    decreases |cs|
  {
    if |cs| == 0 then None
    else if cs[0].id == id then Some(cs[0])
    else
      var r := FindContact(cs[1..], id);
      if r.Some? then
        var i :| 0 <= i < |cs[1..]| && cs[1..][i] == r.value && r.value.id == id &&
                  forall j :: 0 <= j < i ==> cs[1..][j].id != id;
        assert cs[i + 1] == r.value;
        assert forall j :: 0 <= j < i + 1 ==> cs[j].id != id by {
          forall j | 0 <= j < i + 1 ensures cs[j].id != id {
            if j > 0 {
              assert cs[j] == cs[1..][j - 1];
            }
          }
        }
        r
      else r
  }

  predicate HasContact(cs: seq<Contact>, id: Id) {
    exists i :: 0 <= i < |cs| && cs[i].id == id
  }

  /** `interactions.filter(i => i.contactId === id)`. */
  function InteractionsOf(xs: seq<Interaction>, id: Id): seq<Interaction> {
    Filter(xs, (i: Interaction) => i.contactId == id)
  }

  datatype ContactView = ContactView(contact: Option<Contact>, interactions: seq<Interaction>)

  /** `getContactWithInteractions(id)`: the first contact with the id (if any)
      and exactly that contact's interactions, newest first. */
  function GetContactWithInteractions(s: State, id: Id): (r: ContactView)
    ensures r.contact.None? <==> !HasContact(s.contacts, id)
    ensures r.contact.Some? ==> r.contact.value.id == id && r.contact.value in s.contacts
    ensures r.contact.Some? ==> exists i :: 0 <= i < |s.contacts| && s.contacts[i] == r.contact.value &&
                                  forall j :: 0 <= j < i ==> s.contacts[j].id != id
    ensures forall i :: 0 <= i < |r.interactions| ==> r.interactions[i].contactId == id
    ensures forall i :: 0 <= i < |s.interactions| && s.interactions[i].contactId == id ==>
              s.interactions[i] in r.interactions
    ensures IsSubsequence(r.interactions, s.interactions)
    ensures |r.interactions| == CountIf(s.interactions, (i: Interaction) => i.contactId == id)
  {
    ContactView(FindContact(s.contacts, id), InteractionsOf(s.interactions, id))
  }

  /** When two contacts share an id, `contacts.find` yields the earlier one. */
  lemma DuplicateIdShowsFirst(s: State, a: Contact, b: Contact)
    requires s.contacts == [a, b] && a.id == b.id
    ensures GetContactWithInteractions(s, a.id).contact == Some(a)
  {
  }

  /** `contacts.filter(c => c.type === type)`. */
  function OfType(cs: seq<Contact>, kind: string): seq<Contact> {
    Filter(cs, (c: Contact) => c.kind == kind)
  }

  /** `getByType(type)`: exactly the contacts of that type, in store order. */
  function GetByType(s: State, kind: string): (r: seq<Contact>)
    ensures forall i :: 0 <= i < |r| ==> r[i].kind == kind
    ensures forall i :: 0 <= i < |s.contacts| && s.contacts[i].kind == kind ==> s.contacts[i] in r
    ensures IsSubsequence(r, s.contacts)
    ensures |r| == CountIf(s.contacts, (c: Contact) => c.kind == kind)
  {
    OfType(s.contacts, kind)
  }

  function KindOf(c: Contact): string { c.kind }

  datatype Stats = Stats(totalContacts: nat, totalInteractions: nat, byType: Tally.Counts)

  /** `getStats()`: the two collection sizes and a count per type, keys in
      order of first appearance; each count is the size of `getByType` for
      that key, so the counts add up to the number of contacts. */
  function GetStats(s: State): (r: Stats)
    ensures r.totalContacts == |s.contacts| && r.totalInteractions == |s.interactions|
    ensures Tally.WellFormed(r.byType)
    ensures Tally.Total(r.byType) == r.totalContacts
    ensures forall k :: Tally.Lookup(r.byType, k) == |GetByType(s, k)|
    ensures forall i {:trigger Tally.FirstIndex(s.contacts, KindOf, r.byType[i].0)} :: 0 <= i < |r.byType| ==>
              Tally.FirstIndex(s.contacts, KindOf, r.byType[i].0) < |s.contacts|
    ensures forall i, j {:trigger Tally.FirstIndex(s.contacts, KindOf, r.byType[i].0), Tally.FirstIndex(s.contacts, KindOf, r.byType[j].0)} ::
              0 <= i < j < |r.byType| ==>
              Tally.FirstIndex(s.contacts, KindOf, r.byType[i].0) < Tally.FirstIndex(s.contacts, KindOf, r.byType[j].0)
  {
    var t := Tally.CountBy(s.contacts, KindOf);
    forall k ensures Tally.Lookup(t, k) == |GetByType(s, k)| {
      OccurrencesOfType(s.contacts, k);
    }
    Stats(|s.contacts|, |s.interactions|, t)
  }

  lemma {:induction false} OccurrencesOfType(cs: seq<Contact>, k: string)
    ensures Tally.Occurrences(cs, KindOf, k) == |OfType(cs, k)|
    decreases |cs|
  {
    if |cs| > 0 {
      OccurrencesOfType(cs[1..], k);
    }
  }

  // --------------------------------------------------- referential rule

  /** Every interaction refers to a contact that is in the store. */
  ghost predicate Referential(s: State) {
    forall i :: 0 <= i < |s.interactions| ==> HasContact(s.contacts, s.interactions[i].contactId)
  }

  lemma AddContactKeepsReferential(s: State, input: NewContact, freshId: Id, now: Timestamp)
    requires Referential(s)
    ensures Referential(AddContact(s, input, freshId, now).0)
  {
    var r := AddContact(s, input, freshId, now).0;
    forall i | 0 <= i < |r.interactions| ensures HasContact(r.contacts, r.interactions[i].contactId) {
      var j :| 0 <= j < |s.contacts| && s.contacts[j].id == s.interactions[i].contactId;
      assert r.contacts[j + 1] == s.contacts[j];
    }
  }

  /** The cascade keeps the rule: no interaction is left pointing at the
      deleted contact, and every other target survives. */
  lemma DeleteKeepsReferential(s: State, id: Id)
    requires Referential(s)
    ensures Referential(DeleteContact(s, id))
  {
    var r := DeleteContact(s, id);
    forall i | 0 <= i < |r.interactions| ensures HasContact(r.contacts, r.interactions[i].contactId) {
      var it := r.interactions[i];
      assert it in Filter(s.interactions, (x: Interaction) => x.contactId != id);
      var k :| 0 <= k < |s.interactions| && s.interactions[k] == it;
      var j :| 0 <= j < |s.contacts| && s.contacts[j].id == it.contactId;
      assert s.contacts[j] in r.contacts;
      var m :| 0 <= m < |r.contacts| && r.contacts[m] == s.contacts[j];
    }
  }

  /** An update that leaves ids alone keeps the rule. */
  lemma UpdateKeepsReferential(s: State, id: Id, patch: ContactPatch)
    requires Referential(s) && patch.id.None?
    ensures Referential(UpdateContact(s, id, patch))
  {
    var r := UpdateContact(s, id, patch);
    forall i | 0 <= i < |r.interactions| ensures HasContact(r.contacts, r.interactions[i].contactId) {
      var j :| 0 <= j < |s.contacts| && s.contacts[j].id == s.interactions[i].contactId;
      assert r.contacts[j].id == s.contacts[j].id;
    }
  }

  /** Recording an interaction for a contact that exists keeps the rule. */
  lemma AddKnownInteractionKeepsReferential(s: State, input: NewInteraction, freshId: Id, now: Timestamp)
    requires HasContact(s.contacts, input.contactId)
    ensures Referential(s) ==> Referential(AddInteraction(s, input, freshId, now).0)
  {
    var r := AddInteraction(s, input, freshId, now).0;
    if Referential(s) {
      forall i | 0 <= i < |r.interactions| ensures HasContact(r.contacts, r.interactions[i].contactId) {
        var target := r.interactions[i].contactId;
        if i > 0 {
          assert r.interactions[i] == s.interactions[i - 1];
        }
        var j :| 0 <= j < |s.contacts| && s.contacts[j].id == target;
        assert r.contacts[j].id == s.contacts[j].id;
      }
    }
  }

  /** `addInteraction` keeps the rule exactly when the contact it names exists;
      since it does not check, it can break the rule. */
  lemma AddInteractionReferentialIff(s: State, input: NewInteraction, freshId: Id, now: Timestamp)
    requires Referential(s)
    ensures Referential(AddInteraction(s, input, freshId, now).0) <==> HasContact(s.contacts, input.contactId)
  {
    var r := AddInteraction(s, input, freshId, now).0;
    assert r.interactions[0].contactId == input.contactId;
    if HasContact(s.contacts, input.contactId) {
      AddKnownInteractionKeepsReferential(s, input, freshId, now);
    } else {
      assert forall j :: 0 <= j < |r.contacts| ==> r.contacts[j].id == s.contacts[j].id;
    }
  }

  datatype StoreError = ReferentialError

  /** `addInteraction` behind the existence check the store itself omits:
      an unknown contact is refused and the state is not touched. */
  function AddInteractionChecked(s: State, input: NewInteraction, freshId: Id, now: Timestamp)
    : (r: Result<(State, Interaction), StoreError>)
    ensures r.Failure? <==> !HasContact(s.contacts, input.contactId)
    ensures r.Success? ==> r.value == AddInteraction(s, input, freshId, now)
    ensures r.Success? && Referential(s) ==> Referential(r.value.0)
  {
    if HasContact(s.contacts, input.contactId) then
      AddKnownInteractionKeepsReferential(s, input, freshId, now);
      Success(AddInteraction(s, input, freshId, now))
    else Failure(ReferentialError)
  }
}
