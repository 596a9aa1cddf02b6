/** `ReminderSystem` of `services/enhancedFeatures.js`: follow-up suggestions
    for contacts not seen for longer than their type's threshold, and the
    status update of `markComplete`. Storage is left out; `markComplete`'s
    map works on the list it would have read. */
module Reminders {
  import opened Basics
  import opened Store
  import Health
  import Sorting

  /** Days after which a contact of the given type is overdue:
      `thresholds[type] || 30`. */
  function Threshold(kind: string): (t: nat)
    ensures TypeOf(kind).None? ==> t == 30
    ensures 7 <= t <= 60
  {
    match TypeOf(kind)
    case Some(Romantic) => 7
    case Some(Family) => 14
    case Some(Friend) => 21
    case Some(Professional) => 30
    case Some(Acquaintance) => 60
    case None => 30
  }

  /** Closer relationships are followed up sooner. */
  lemma ThresholdOrder()
    ensures Threshold("romantic") < Threshold("family") < Threshold("friend")
            < Threshold("professional") < Threshold("acquaintance")
    ensures Threshold("professional") == Threshold("coworker")
  {
  }

  /** Whole days since the last interaction, or since the contact was created
      when there has been none. */
  function DaysSince(c: Contact, now: Timestamp): int {
    Health.DaysBetween(now, c.lastInteraction.GetOr(c.createdAt))
  }

  predicate IsOverdue(c: Contact, now: Timestamp) {
    DaysSince(c, now) > Threshold(c.kind)
  }

  datatype Priority = High | Medium

  /** A follow-up suggestion; the message text is left out. */
  datatype Suggestion = Suggestion(contact: Contact, daysSince: int, priority: Priority)

  function Suggest(c: Contact, now: Timestamp): (r: Suggestion)
    ensures r.contact == c && r.daysSince == DaysSince(c, now)
    ensures r.priority == High <==> r.daysSince > 2 * Threshold(c.kind)
  {
    var d := DaysSince(c, now);
    Suggestion(c, d, if d > Threshold(c.kind) * 2 then High else Medium)
  }

  function Overdue(cs: seq<Contact>, now: Timestamp): seq<Contact> {
    Filter(cs, (c: Contact) => IsOverdue(c, now))
  }

  /** The suggestions in contact order, before sorting. */
  function Candidates(cs: seq<Contact>, now: Timestamp): (r: seq<Suggestion>)
    ensures |r| == |Overdue(cs, now)|
    ensures forall i :: 0 <= i < |r| ==> r[i] == Suggest(Overdue(cs, now)[i], now)
  {
    var o := Overdue(cs, now);
    seq(|o|, i requires 0 <= i < |o| => Suggest(o[i], now))
  }

  /** The sort key of `(a, b) => b.daysSince - a.daysSince`. */
  function MostDaysFirst(s: Suggestion): int { -s.daysSince }

  /** `getSuggestions(contacts)` at time `now`: one suggestion per overdue
      contact and none for any other, longest absence first, contacts with
      equal absences in contact order. */
  function GetSuggestions(cs: seq<Contact>, now: Timestamp): (r: seq<Suggestion>)
    ensures |r| == |Overdue(cs, now)| <= |cs|
    ensures forall i :: 0 <= i < |r| ==>
              r[i] == Suggest(r[i].contact, now) && IsOverdue(r[i].contact, now) && r[i].contact in cs
    ensures forall i :: 0 <= i < |cs| && IsOverdue(cs[i], now) ==>
              exists j :: 0 <= j < |r| && r[j].contact == cs[i]
    ensures forall i, j :: 0 <= i < j < |r| ==> r[i].daysSince >= r[j].daysSince
    ensures forall d :: Sorting.WithKey(r, MostDaysFirst, d) == Sorting.WithKey(Candidates(cs, now), MostDaysFirst, d)
  {
    var r := Sorting.SortBy(Candidates(cs, now), MostDaysFirst);
    PermutedSuggestions(cs, now, r);
    r
  }

  /** Any reordering of the candidates has one suggestion per overdue contact. */
  lemma PermutedSuggestions(cs: seq<Contact>, now: Timestamp, r: seq<Suggestion>)
    requires multiset(r) == multiset(Candidates(cs, now))
    ensures forall i :: 0 <= i < |r| ==>
              r[i] == Suggest(r[i].contact, now) && IsOverdue(r[i].contact, now) && r[i].contact in cs
    ensures forall i :: 0 <= i < |cs| && IsOverdue(cs[i], now) ==>
              exists j :: 0 <= j < |r| && r[j].contact == cs[i]
  {
    var cands := Candidates(cs, now);
    var o := Overdue(cs, now);
    forall i | 0 <= i < |r|
      ensures r[i] == Suggest(r[i].contact, now) && IsOverdue(r[i].contact, now) && r[i].contact in cs
    {
      assert r[i] in multiset(cands);
      var j :| 0 <= j < |cands| && cands[j] == r[i];
      assert o[j] in o;
    }
    forall i | 0 <= i < |cs| && IsOverdue(cs[i], now)
      ensures exists j :: 0 <= j < |r| && r[j].contact == cs[i]
    {
      var k :| 0 <= k < |o| && o[k] == cs[i];
      assert cands[k] in multiset(r);
      var j :| 0 <= j < |r| && r[j] == cands[k];
    }
  }

  /** A contact not overdue is never suggested, and an overdue one always is. */
  lemma SuggestedIff(cs: seq<Contact>, c: Contact, now: Timestamp)
    requires c in cs
    ensures (exists j :: 0 <= j < |GetSuggestions(cs, now)| && GetSuggestions(cs, now)[j].contact == c)
            <==> IsOverdue(c, now)
  {
    var r := GetSuggestions(cs, now);
    var i :| 0 <= i < |cs| && cs[i] == c;
    if exists j :: 0 <= j < |r| && r[j].contact == c {
      var j :| 0 <= j < |r| && r[j].contact == c;
      assert IsOverdue(r[j].contact, now);
    }
  }

  /** A contact created and contacted within the last week is never suggested. */
  lemma RecentContactNotSuggested(c: Contact, now: Timestamp)
    requires c.lastInteraction.Some? && now - 7 * MsPerDay < c.lastInteraction.value <= now
    ensures GetSuggestions([c], now) == []
  {
    assert !IsOverdue(c, now);
    assert Overdue([c], now) == [];
  }

  // ------------------------------------------------------------ reminders

  datatype ReminderStatus = Pending | Completed

  /** A stored reminder; `scheduledFor` is a timestamp instead of an ISO string. */
  datatype Reminder = Reminder(id: Id, contactId: Id, contactName: string,
                               scheduledFor: Timestamp, status: ReminderStatus)

  /** The map inside `markComplete(reminderId)`: the reminders with that id
      are completed, every other reminder is kept as it was. */
  function MarkComplete(rs: seq<Reminder>, id: Id): (r: seq<Reminder>)
    ensures |r| == |rs|
    ensures forall i :: 0 <= i < |r| && rs[i].id == id ==> r[i] == rs[i].(status := Completed)
    ensures forall i :: 0 <= i < |r| && rs[i].id != id ==> r[i] == rs[i]
  {
    seq(|rs|, i requires 0 <= i < |rs| => if rs[i].id == id then rs[i].(status := Completed) else rs[i])
  }

  /** Completing twice is completing once. */
  lemma MarkCompleteIdempotent(rs: seq<Reminder>, id: Id)
    ensures MarkComplete(MarkComplete(rs, id), id) == MarkComplete(rs, id)
  {
  }

  /** Completing two reminders does not depend on the order. */
  lemma MarkCompleteCommutes(rs: seq<Reminder>, a: Id, b: Id)
    ensures MarkComplete(MarkComplete(rs, a), b) == MarkComplete(MarkComplete(rs, b), a)
  {
  }

  /** An id no reminder has leaves the list as it was. */
  lemma MarkCompleteUnknownIsNoOp(rs: seq<Reminder>, id: Id)
    requires forall i :: 0 <= i < |rs| ==> rs[i].id != id
    ensures MarkComplete(rs, id) == rs
  {
  }
}
