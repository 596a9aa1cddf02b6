/** `handleSubmit` of `screens/AddContactScreen.js`: the name guard and the
    object handed to the store's `addContact`. */
module ContactForm {
  import opened Basics
  import opened Text
  import opened Store

  /** The screen's state. `tags` is not part of it: its setter is never
      called, so the tags submitted are always the initial `[]`. */
  datatype Form = Form(name: string, kind: string, notes: string)

  /** The initial state: an empty name, type `'friend'`, empty notes. */
  const Blank: Form := Form("", "friend", "")

  /** `handleSubmit()`: nothing when the name is blank after trimming;
      otherwise the trimmed name with the type and the untrimmed notes, no
      tags, and none of the fields the store sets itself. */
  function Submit(f: Form): (r: Option<NewContact>)
    ensures r.None? <==> forall i :: 0 <= i < |f.name| ==> IsSpace(f.name[i])
    ensures r.Some? ==> |r.value.name| > 0 && !IsSpace(r.value.name[0]) && !IsSpace(r.value.name[|r.value.name| - 1])
    ensures r.Some? ==> exists i :: TrimmedAt(f.name, r.value.name, i)
    ensures r.Some? ==> r.value.kind == f.kind && r.value.notes == f.notes && r.value.tags == []
    ensures r.Some? ==> r.value.id.None? && r.value.energy.None? && r.value.healthScore.None? &&
                        r.value.createdAt.None? && r.value.lastInteraction.None?
  {
    TrimEmptyIff(f.name);
    var name := Trim(f.name);
    if name == "" then None
    else Some(NewContact(None, name, f.kind, f.notes, [], None, None, None, None))
  }

  /** The screen's effect on the store: unchanged for a blank name, otherwise
      one new contact in front with the trimmed name and the given type. */
  function SubmitToStore(s: State, f: Form, freshId: Id, now: Timestamp): (r: State)
    ensures Submit(f).None? ==> r == s
    ensures Submit(f).Some? ==>
              |r.contacts| == |s.contacts| + 1 && r.contacts[1..] == s.contacts && r.interactions == s.interactions &&
              r.contacts[0].id == freshId && r.contacts[0].name == Trim(f.name) && r.contacts[0].kind == f.kind &&
              r.contacts[0].tags == [] && r.contacts[0].healthScore == 100
  {
    match Submit(f)
    case None => s
    case Some(input) => AddContact(s, input, freshId, now).0
  }

  /** Submitting the blank form does nothing. */
  lemma BlankIsRejected(s: State, freshId: Id, now: Timestamp)
    ensures SubmitToStore(s, Blank, freshId, now) == s
  {
  }

  /** A name that was submitted once is submitted unchanged again. */
  lemma SubmittedNameIsStable(f: Form)
    requires Submit(f).Some?
    ensures Submit(f.(name := Submit(f).value.name)) == Submit(f)
  {
    TrimIdempotent(f.name);
  }
}
