/** Journey staging of `screens/JourneyMapping.js`: a contact's stage follows
    from how many interactions it has, and `getStageStats` buckets the
    contacts by stage. Rendering is left out. */
module Journey {
  import opened Basics
  import opened Store
  import Sorting

  /** `STAGES`, identified by their `id`; names, emoji, colours and
      descriptions are presentation. */
  datatype Stage = Awareness | Interest | Consideration | Intent | Conversion | Retention | Advocacy

  const Stages: seq<Stage> := [Awareness, Interest, Consideration, Intent, Conversion, Retention, Advocacy]

  function StageId(st: Stage): string {
    match st
    case Awareness => "awareness"
    case Interest => "interest"
    case Consideration => "consideration"
    case Intent => "intent"
    case Conversion => "conversion"
    case Retention => "retention"
    case Advocacy => "advocacy"
  }

  /** The index of a stage in `STAGES`. */
  function Position(st: Stage): (p: nat)
    ensures p < |Stages| && Stages[p] == st
  {
    match st
    case Awareness => 0
    case Interest => 1
    case Consideration => 2
    case Intent => 3
    case Conversion => 4
    case Retention => 5
    case Advocacy => 6
  }

  /** `STAGES` lists each stage once, under distinct ids. */
  lemma StagesDistinct()
    ensures forall k :: 0 <= k < |Stages| ==> Position(Stages[k]) == k
    ensures forall a: Stage, b: Stage :: StageId(a) == StageId(b) ==> a == b
  {
  }

  /** `STAGE_ACTIONS[id]`, absent for any key that is not a stage id. */
  function StageActions(id: string): Option<seq<string>> {
    if id == "awareness" then Some(["Followed on social", "Attended event", "Visited website", "Referred by friend"])
    else if id == "interest" then Some(["Replied to message", "Asked questions", "Downloaded content", "Attended webinar"])
    else if id == "consideration" then Some(["Had meeting", "Requested demo", "Shared with team", "Compared options"])
    else if id == "intent" then Some(["Committed to connect", "Scheduled follow-up", "Expressed interest"])
    else if id == "conversion" then Some(["First interaction logged", "Added to contacts", "Started relationship"])
    else if id == "retention" then Some(["Regular contact", "Met in person", "Collaborated on project"])
    else if id == "advocacy" then Some(["Gave referral", "Wrote review", "Recommended to others"])
    else None
  }

  /** The suggested actions of a stage: every stage id has a non-empty list,
      so `STAGE_ACTIONS[id] || []` never falls back to the empty list. */
  function ActionsOf(st: Stage): (r: seq<string>)
    ensures StageActions(StageId(st)) == Some(r)
    ensures |r| >= 3
  {
    StageActions(StageId(st)).value
  }

  /** `Math.min(Math.floor(n / 2), STAGES.length - 1)`: one stage per two
      interactions, capped at the last stage. */
  function StageIndex(n: nat): (i: nat)
    ensures i < |Stages|
    ensures 2 * i <= n
    ensures i < |Stages| - 1 ==> n < 2 * i + 2
  {
    Min(n / 2, |Stages| - 1)
  }

  /** More interactions never move a contact back. */
  lemma StageIndexMonotone(n: nat, m: nat)
    requires n <= m
    ensures StageIndex(n) <= StageIndex(m)
  {
  }

  /** Twelve interactions reach the last stage, and fewer do not. */
  lemma AdvocacyIff(n: nat)
    ensures Stages[StageIndex(n)] == Advocacy <==> n >= 12
  {
  }

  /** The current stage: a stage record, or for a contact without
      interactions the bare string `'awareness'`. */
  datatype StageRef = Record(stage: Stage) | Name(name: string)

  datatype HistoryEntry = HistoryEntry(stage: Stage, action: string, date: Timestamp)

  datatype ContactJourney = ContactJourney(currentStage: StageRef, history: seq<HistoryEntry>, nextActions: seq<string>)

  /** The sort key of `(a, b) => new Date(b.createdAt) - new Date(a.createdAt)`. */
  function NewestFirst(i: Interaction): int { -i.createdAt }

  /** A contact's interactions, newest first; equal stamps keep store order. */
  function Timeline(s: State, id: Id): (r: seq<Interaction>)
    ensures multiset(r) == multiset(InteractionsOf(s.interactions, id))
    ensures |r| == |InteractionsOf(s.interactions, id)|
    ensures forall i, j :: 0 <= i < j < |r| ==> r[i].createdAt >= r[j].createdAt
  {
    Sorting.SortBy(InteractionsOf(s.interactions, id), NewestFirst)
  }

  /** The order of the timeline is fully determined: interactions stamped
      at the same instant keep their store order. */
  lemma TimelineStable(s: State, id: Id, t: Timestamp)
    ensures Sorting.WithKey(Timeline(s, id), NewestFirst, -t) ==
            Sorting.WithKey(InteractionsOf(s.interactions, id), NewestFirst, -t)
  {
  }

  /** The stage every history entry carries: `STAGES[index - 1] || STAGES[0]`. */
  function PreviousStage(index: nat): (st: Stage)
    requires index < |Stages|
    ensures index > 0 ==> Position(st) == index - 1
    ensures index == 0 ==> st == Awareness
  {
    if index == 0 then Stages[0] else Stages[index - 1]
  }

  /** `getContactJourney(contactId)`. With no interaction: the string
      `'awareness'`, no history and the awareness actions. Otherwise the stage
      at the capped index, the five newest interactions as history, all
      tagged with the stage before the current one, and the current stage's
      actions. */
  function GetContactJourney(s: State, id: Id): (j: ContactJourney)
    ensures var n := |InteractionsOf(s.interactions, id)|;
            (n == 0 ==> j.currentStage == Name("awareness") && j.history == [] && j.nextActions == ActionsOf(Awareness)) &&
            (n > 0 ==> j.currentStage == Record(Stages[StageIndex(n)]) && |j.history| == Min(5, n) &&
                       j.nextActions == ActionsOf(Stages[StageIndex(n)]))
    ensures |j.nextActions| > 0
    ensures forall k :: 0 <= k < |j.history| ==>
              j.history[k].stage == PreviousStage(StageIndex(|InteractionsOf(s.interactions, id)|)) &&
              j.history[k].action == Timeline(s, id)[k].summary &&
              j.history[k].date == Timeline(s, id)[k].createdAt
    ensures forall k, l :: 0 <= k < l < |j.history| ==> j.history[k].date >= j.history[l].date
  {
    var xs := Timeline(s, id);
    if |xs| == 0 then ContactJourney(Name("awareness"), [], StageActions("awareness").value)
    else
      var index := StageIndex(|xs|);
      var current := Stages[index];
      var recent := Slice(xs, 0, 5);
      SliceTake(xs, 5);
      var history := seq(|recent|, k requires 0 <= k < |recent| =>
                           HistoryEntry(PreviousStage(index), recent[k].summary, recent[k].createdAt));
      ContactJourney(Record(current), history, StageActions(StageId(current)).GetOr([]))
  }

  // --------------------------------------------------------- stage stats

  datatype Bucket = Bucket(count: nat, contacts: seq<Contact>)

  /** `stats[stage.id] = { count: 0, contacts: [] }` for every stage, by position. */
  const EmptyBuckets: seq<Bucket> :=
    [Bucket(0, []), Bucket(0, []), Bucket(0, []), Bucket(0, []), Bucket(0, []), Bucket(0, []), Bucket(0, [])]

  /** `stats[id].count++; stats[id].contacts.push(contact)`. */
  function AddTo(b: seq<Bucket>, p: nat, c: Contact): (r: seq<Bucket>)
    requires p < |b|
    ensures |r| == |b|
    ensures r[p] == Bucket(b[p].count + 1, b[p].contacts + [c])
    ensures forall k :: 0 <= k < |b| && k != p ==> r[k] == b[k]
  {
    b[p := Bucket(b[p].count + 1, b[p].contacts + [c])]
  }

  function BucketTotal(b: seq<Bucket>): nat
    decreases |b|
  {
    if |b| == 0 then 0 else b[0].count + BucketTotal(b[1..])
  }

  lemma {:induction false} BucketTotalAddTo(b: seq<Bucket>, p: nat, c: Contact)
    requires p < |b|
    ensures BucketTotal(AddTo(b, p, c)) == BucketTotal(b) + 1
    decreases |b|
  {
    var r := AddTo(b, p, c);
    if p > 0 {
      assert r[1..] == AddTo(b[1..], p - 1, c);
      BucketTotalAddTo(b[1..], p - 1, c);
    } else {
      assert r[1..] == b[1..];
    }
  }

  lemma EmptyBucketsTotal()
    ensures BucketTotal(EmptyBuckets) == 0
  {
    var b := EmptyBuckets;
    assert b[1..][1..][1..][1..][1..][1..][1..] == [];
  }

  /** A contact's stage for the statistics when the bare `'awareness'` string
      is read as the stage it names. */
  function StageOf(s: State, c: Contact): (st: Stage)
    ensures |InteractionsOf(s.interactions, c.id)| == 0 ==> st == Awareness
    ensures |InteractionsOf(s.interactions, c.id)| > 0 ==>
              st == Stages[StageIndex(|InteractionsOf(s.interactions, c.id)|)]
  {
    match GetContactJourney(s, c.id).currentStage
    case Record(st) => st
    case Name(_) => Awareness
  }

  /** The contacts of `cs` in stage `st`, in their order in `cs`. */
  function InStage(s: State, cs: seq<Contact>, st: Stage): seq<Contact>
    decreases |cs|
  {
    if |cs| == 0 then []
    else
      var last := cs[|cs| - 1];
      InStage(s, cs[..|cs| - 1], st) + (if StageOf(s, last) == st then [last] else [])
  }

  /** `getStageStats()` as written, walking `cs` in order: a contact without
      interactions has the string `'awareness'` as its stage, whose `id` is
      undefined, so `stats[undefined].count++` throws a `TypeError`. */
  datatype JsError = TypeError

  function StageStatsAsWritten(s: State, cs: seq<Contact>): (r: Result<seq<Bucket>, JsError>)
    ensures r.Success? ==> |r.value| == |Stages|
    decreases |cs|
  {
    if |cs| == 0 then Success(EmptyBuckets)
    else
      match StageStatsAsWritten(s, cs[..|cs| - 1])
      case Failure(e) => Failure(e)
      case Success(b) =>
        var last := cs[|cs| - 1];
        match GetContactJourney(s, last.id).currentStage
        case Name(_) => Failure(TypeError)
        case Record(st) => Success(AddTo(b, Position(st), last))
  }

  /** `getStageStats()` with a contact without interactions counted under
      awareness: every contact lands in exactly one bucket, in order, and each
      bucket's count is the length of its contact list. */
  function StageStats(s: State, cs: seq<Contact>): (r: seq<Bucket>)
    ensures |r| == |Stages|
    ensures forall k :: 0 <= k < |Stages| ==> r[k].contacts == InStage(s, cs, Stages[k])
    ensures forall k :: 0 <= k < |Stages| ==> r[k].count == |r[k].contacts|
    ensures BucketTotal(r) == |cs|
    decreases |cs|
  {
    if |cs| == 0 then
      EmptyBucketsTotal();
      EmptyBuckets
    else
      var b := StageStats(s, cs[..|cs| - 1]);
      var last := cs[|cs| - 1];
      var p := Position(StageOf(s, last));
      BucketTotalAddTo(b, p, last);
      var r := AddTo(b, p, last);
      StageStatsStep(s, cs, b, r);
      r
  }

  /** Adding the last contact to its stage's bucket extends exactly that
      stage's list, keeping each count equal to its list's length. */
  lemma StageStatsStep(s: State, cs: seq<Contact>, b: seq<Bucket>, r: seq<Bucket>)
    requires |cs| > 0 && |b| == |Stages|
    requires forall k :: 0 <= k < |Stages| ==> b[k].contacts == InStage(s, cs[..|cs| - 1], Stages[k])
    requires forall k :: 0 <= k < |Stages| ==> b[k].count == |b[k].contacts|
    requires r == AddTo(b, Position(StageOf(s, cs[|cs| - 1])), cs[|cs| - 1])
    ensures forall k :: 0 <= k < |Stages| ==> r[k].contacts == InStage(s, cs, Stages[k])
    ensures forall k :: 0 <= k < |Stages| ==> r[k].count == |r[k].contacts|
  {
    StagesDistinct();
  }

  /** The statistics as written fail exactly when some contact has no
      interaction, and otherwise agree with the corrected ones. */
  lemma {:induction false} AsWrittenFailsIff(s: State, cs: seq<Contact>)
    ensures StageStatsAsWritten(s, cs).Failure? <==> SomeUnlogged(s, cs)
    ensures StageStatsAsWritten(s, cs).Success? ==> StageStatsAsWritten(s, cs).value == StageStats(s, cs)
    decreases |cs|
  {
    if |cs| > 0 {
      AsWrittenFailsIff(s, cs[..|cs| - 1]);
      UnloggedSnoc(s, cs);
      JourneyStage(s, cs[|cs| - 1]);
    }
  }

  /** A contact that has no interaction yet. */
  predicate Unlogged(s: State, c: Contact) {
    |InteractionsOf(s.interactions, c.id)| == 0
  }

  /** Some contact of `cs` has no interaction yet. */
  predicate SomeUnlogged(s: State, cs: seq<Contact>) {
    exists i :: 0 <= i < |cs| && Unlogged(s, cs[i])
  }

  /** Some contact of `cs` is unlogged iff one of all but the last is, or the last is. */
  lemma UnloggedSnoc(s: State, cs: seq<Contact>)
    requires |cs| > 0
    ensures SomeUnlogged(s, cs) <==> SomeUnlogged(s, cs[..|cs| - 1]) || Unlogged(s, cs[|cs| - 1])
  {
    var init := cs[..|cs| - 1];
    assert forall i :: 0 <= i < |init| ==> init[i] == cs[i];
  }

  /** The journey's stage is the bare name exactly for an unlogged contact,
      and otherwise the stage the statistics use. */
  lemma JourneyStage(s: State, c: Contact)
    ensures GetContactJourney(s, c.id).currentStage.Name? <==> |InteractionsOf(s.interactions, c.id)| == 0
    ensures GetContactJourney(s, c.id).currentStage.Record? ==> GetContactJourney(s, c.id).currentStage.stage == StageOf(s, c)
  {
  }

  /** One contact that has never been logged breaks the statistics. */
  lemma NewContactBreaksStats(c: Contact)
    ensures StageStatsAsWritten(State([c], []), [c]) == Failure(TypeError)
  {
    var s := State([c], []);
    assert [c][..0] == [];
    assert InteractionsOf(s.interactions, c.id) == [];
  }
}
