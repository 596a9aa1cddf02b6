/** `QuickActions.getForContact` of `services/enhancedFeatures.js`: the
    actions offered on a contact's page. Labels and icons are left out. */
module QuickActions {
  import opened Basics
  import opened Store

  datatype Action = LogInteraction | SendMessage | ScheduleCall | AddReminder | UpdateNotes

  /** Every action, in the order they are offered. */
  const AllActions: seq<Action> := [LogInteraction, SendMessage, ScheduleCall, AddReminder, UpdateNotes]

  /** The actions kept for professional contacts. */
  predicate ForWork(a: Action) {
    a == LogInteraction || a == AddReminder
  }

  /** `getForContact(contact)`: only logging and reminders for a professional
      contact, every action for anyone else, always in the declared order. */
  function GetForContact(c: Contact): (r: seq<Action>)
    ensures c.kind == "professional" ==> r == [LogInteraction, AddReminder]
    ensures c.kind != "professional" ==> r == AllActions
    ensures IsSubsequence(r, AllActions)
    ensures |r| > 0 && r[0] == LogInteraction
  {
    var r := if c.kind == "professional" then Filter(AllActions, ForWork) else AllActions;
    assert c.kind == "professional" ==> r == [LogInteraction, AddReminder] by {
      if c.kind == "professional" {
        FilterWork();
      }
    }
    assert IsSubsequence(AllActions, AllActions) by {
      SubsequenceRefl(AllActions);
    }
    r
  }

  lemma FilterWork()
    ensures Filter(AllActions, ForWork) == [LogInteraction, AddReminder]
  {
    var xs := AllActions;
    assert xs[1..] == [SendMessage, ScheduleCall, AddReminder, UpdateNotes];
    assert xs[1..][1..] == [ScheduleCall, AddReminder, UpdateNotes];
    assert xs[1..][1..][1..] == [AddReminder, UpdateNotes];
    assert xs[1..][1..][1..][1..] == [UpdateNotes];
    assert xs[1..][1..][1..][1..][1..] == [];
  }

  lemma {:induction false} SubsequenceRefl<T>(xs: seq<T>)
    ensures IsSubsequence(xs, xs)
    decreases |xs|
  {
    if |xs| > 0 {
      SubsequenceRefl(xs[1..]);
    }
  }

  /** Every action offered to a professional contact is offered to anyone else. */
  lemma ProfessionalSeesFewer(work: Contact, other: Contact)
    requires work.kind == "professional" && other.kind != "professional"
    ensures forall i :: 0 <= i < |GetForContact(work)| ==> GetForContact(work)[i] in GetForContact(other)
  {
  }
}
