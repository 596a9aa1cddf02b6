/** `handleSubmit` of `screens/AddInteractionScreen.js`: the summary guard,
    the topic parsing and the object handed to the store's `addInteraction`. */
module InteractionForm {
  import opened Basics
  import opened Text
  import Store

  /** `INTERACTION_TYPES`, by `id`. */
  datatype InteractionType = Call | Chat | InPerson | Email | Video | Other

  function TypeId(t: InteractionType): string {
    match t
    case Call => "call"
    case Chat => "text"
    case InPerson => "in_person"
    case Email => "email"
    case Video => "video"
    case Other => "other"
  }

  function Emoji(t: InteractionType): char {
    match t
    case Call => '\U{1F4DE}'
    case Chat => '\U{1F4AC}'
    case InPerson => '\U{1F91D}'
    case Email => '\U{1F4E7}'
    case Video => '\U{1F4F9}'
    case Other => '\U{1F4DD}'
  }

  function Label(t: InteractionType): string {
    match t
    case Call => "Phone Call"
    case Chat => "Text/Chat"
    case InPerson => "In Person"
    case Email => "Email"
    case Video => "Video Call"
    case Other => "Other"
  }

  /** The stored `type` of an interaction: the emoji, a space and the label. */
  function TypeText(t: InteractionType): (r: string)
    ensures |r| == |Label(t)| + 2 && r[0] == Emoji(t) && r[1] == ' ' && r[2..] == Label(t)
  {
    [Emoji(t)] + " " + Label(t)
  }

  /** Reads the interaction type back from a stored `type` text. */
  function TypeOfText(text: string): Option<InteractionType> {
    if |text| == 0 then None
    else if text == TypeText(Call) then Some(Call)
    else if text == TypeText(Chat) then Some(Chat)
    else if text == TypeText(InPerson) then Some(InPerson)
    else if text == TypeText(Email) then Some(Email)
    else if text == TypeText(Video) then Some(Video)
    else if text == TypeText(Other) then Some(Other)
    else None
  }

  /** Distinct types are stored as distinct texts, so the type can be read back. */
  lemma TypeTextRoundTrip(t: InteractionType)
    ensures TypeOfText(TypeText(t)) == Some(t)
  {
    forall u: InteractionType | u != t ensures TypeText(u) != TypeText(t) {
      assert TypeText(u)[0] != TypeText(t)[0];
    }
  }

  /** The three moods the form offers. */
  datatype Mood = Unhappy | Indifferent | Pleased

  function MoodKey(m: Mood): string {
    match m
    case Unhappy => "negative"
    case Indifferent => "neutral"
    case Pleased => "positive"
  }

  /** The screen's state: the selected type and mood and the two text fields. */
  datatype Form = Form(kind: InteractionType, summary: string, topics: string, mood: Mood)

  /** The initial state: in person, empty texts, neutral mood. */
  const Blank: Form := Form(InPerson, "", "", Indifferent)

  function TrimAll(xs: seq<string>): (r: seq<string>)
    ensures |r| == |xs|
    ensures forall i :: 0 <= i < |r| ==> r[i] == Trim(xs[i])
  {
    seq(|xs|, i requires 0 <= i < |xs| => Trim(xs[i]))
  }

  predicate NonEmpty(s: string) { s != "" }

  /** A topic as parsing leaves it: not empty, no surrounding whitespace, no comma. */
  predicate Clean(t: string) {
    |t| > 0 && !IsSpace(t[0]) && !IsSpace(t[|t| - 1]) && ',' !in t
  }

  /** `topics.split(',').map(t => t.trim()).filter(Boolean)`: the trimmed
      comma-separated pieces that are not blank, in order, duplicates kept. */
  function ParseTopics(raw: string): (r: seq<string>)
    ensures forall i :: 0 <= i < |r| ==> Clean(r[i])
    ensures |r| <= CountChar(raw, ',') + 1
    ensures IsSubsequence(r, TrimAll(Split(raw, ',')))
    ensures |r| == CountIf(TrimAll(Split(raw, ',')), NonEmpty)
  {
    var pieces := Split(raw, ',');
    var trimmed := TrimAll(pieces);
    TrimmedPiecesClean(pieces);
    var r := Filter(trimmed, NonEmpty);
    FilterKeepsClean(r, trimmed);
    r
  }

  lemma TrimmedPiecesClean(pieces: seq<string>)
    requires forall i :: 0 <= i < |pieces| ==> ',' !in pieces[i]
    ensures forall i :: 0 <= i < |pieces| && NonEmpty(TrimAll(pieces)[i]) ==> Clean(TrimAll(pieces)[i])
  {
    forall i | 0 <= i < |pieces| && NonEmpty(TrimAll(pieces)[i]) ensures Clean(TrimAll(pieces)[i]) {
      if ',' in Trim(pieces[i]) {
        TrimKeepsCharacters(pieces[i], ',');
      }
    }
  }

  lemma FilterKeepsClean(r: seq<string>, trimmed: seq<string>)
    requires forall i :: 0 <= i < |r| ==> NonEmpty(r[i]) && r[i] in trimmed
    requires forall j :: 0 <= j < |trimmed| && NonEmpty(trimmed[j]) ==> Clean(trimmed[j])
    ensures forall i :: 0 <= i < |r| ==> Clean(r[i])
  {
    forall i | 0 <= i < |r| ensures Clean(r[i]) {
      var j :| 0 <= j < |trimmed| && trimmed[j] == r[i];
    }
  }

  /** An empty topics field gives no topics. */
  lemma NoTopics()
    ensures ParseTopics("") == []
  {
    assert Split("", ',') == [""];
    assert TrimAll([""]) == [""];
  }

  /** The text of parsed topics, glued back with commas. */
  function JoinTopics(topics: seq<string>): string {
    if |topics| == 0 then "" else Join(topics, ',')
  }

  /** Parsing is a normalisation: parsing the parsed topics joined with
      commas gives the same topics. */
  lemma {:induction false} ParseTopicsIdempotent(raw: string)
    ensures ParseTopics(JoinTopics(ParseTopics(raw))) == ParseTopics(raw)
  {
    var r := ParseTopics(raw);
    if |r| == 0 {
      NoTopics();
    } else {
      SplitJoin(r, ',');
      forall i | 0 <= i < |r| ensures TrimAll(r)[i] == r[i] {
        TrimOfTrimmed(r[i]);
      }
      assert TrimAll(r) == r;
      FilterAll(r, NonEmpty);
    }
  }

  /** `handleSubmit()` for the contact `contactId`: nothing when the summary is
      blank after trimming; otherwise the composed type text, the trimmed
      summary, the parsed topics and the mood, and none of the fields the
      store sets itself. */
  function Submit(contactId: Store.Id, f: Form): (r: Option<Store.NewInteraction>)
    ensures r.None? <==> forall i :: 0 <= i < |f.summary| ==> IsSpace(f.summary[i])
    ensures r.Some? ==> |r.value.summary| > 0 && exists i :: TrimmedAt(f.summary, r.value.summary, i)
    ensures r.Some? ==> !IsSpace(r.value.summary[0]) && !IsSpace(r.value.summary[|r.value.summary| - 1])
    ensures r.Some? ==> TypeOfText(r.value.kind) == Some(f.kind)
    ensures r.Some? ==> r.value.contactId == contactId && r.value.topics == ParseTopics(f.topics)
    ensures r.Some? ==> r.value.mood in {"negative", "neutral", "positive"} && r.value.mood == MoodKey(f.mood)
    ensures r.Some? ==> r.value.id.None? && r.value.createdAt.None?
  {
    SummaryFacts(f.summary);
    TypeTextRoundTrip(f.kind);
    var summary := Trim(f.summary);
    if summary == "" then None
    else Some(Store.NewInteraction(None, contactId, TypeText(f.kind), summary, ParseTopics(f.topics), MoodKey(f.mood), None))
  }

  /** What `summary.trim()` gives the guard and the stored summary. */
  lemma SummaryFacts(s: string)
    ensures Trim(s) == "" <==> forall i :: 0 <= i < |s| ==> IsSpace(s[i])
    ensures Trim(s) != "" ==> exists i :: TrimmedAt(s, Trim(s), i)
    ensures Trim(s) != "" ==> !IsSpace(Trim(s)[0]) && !IsSpace(Trim(s)[|Trim(s)| - 1])
  {
    TrimEmptyIff(s);
  }

  /** The screen's effect on the store: unchanged for a blank summary,
      otherwise one new interaction in front, logged against `contactId`. */
  function SubmitToStore(s: Store.State, contactId: Store.Id, f: Form, freshId: Store.Id, now: Store.Timestamp): (r: Store.State)
    ensures Submit(contactId, f).None? ==> r == s
    ensures Submit(contactId, f).Some? ==>
              |r.interactions| == |s.interactions| + 1 && r.interactions[1..] == s.interactions &&
              r.interactions[0].contactId == contactId && r.interactions[0].summary == Trim(f.summary) &&
              r.interactions[0].createdAt == now && |r.contacts| == |s.contacts|
  {
    match Submit(contactId, f)
    case None => s
    case Some(input) => Store.AddInteraction(s, input, freshId, now).0
  }

  /** Submitting the blank form does nothing. */
  lemma BlankIsRejected(s: Store.State, contactId: Store.Id, freshId: Store.Id, now: Store.Timestamp)
    ensures SubmitToStore(s, contactId, Blank, freshId, now) == s
  {
  }
}
