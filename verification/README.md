# Orbit relationship manager — a Dafny model of its core logic

Orbit is a React Native app for keeping track of the people in one's life. This
project models its logic, not its screens:

- **The persisted store** (`stores/orbitStore.js`). It holds contacts and interactions,
  newest first. Its mutations are add, update, delete with cascade, and logging an
  interaction. Its queries find a contact, filter by type and count by type.
- **The relationship health score.** It is a 0–100 blend of recency, frequency and
  energy, and feeds the "needing attention" list.
- **The keyword sentiment analyser** (`screens/SentimentScreen.js`). It scores each
  interaction, gives each contact a tone and a trend, and computes an overview.
- **The services in `services/enhancedFeatures.js`:**
  - follow-up suggestions and the `markComplete` status update;
  - the energy history, its average and its trend;
  - the group analysis and its insights;
  - the quick actions offered per contact.
- **The journey stages** of `screens/JourneyMapping.js`. A contact's stage follows
  from how many interactions it has, and `getStageStats` buckets the contacts by stage.
- **The form guards** of `AddContactScreen` and `AddInteractionScreen`. This covers
  trimming, the blank-input refusal, topic parsing and the composed type text.
- **The contacts list logic** of `ContactsListScreen`. This covers the name search,
  the type and score fallbacks, and the five health colours.

Every store mutation is a pure function from the old state to the new one. The two
sources of nondeterminism are parameters:

- the clock, `now`, in milliseconds since the epoch;
- the generated id, `freshId`.

Stored ISO-8601 dates are integer timestamps. Whole days are computed with
`(now - t) / 86400000`. Dafny's division rounds down for a positive divisor, which
is what `Math.floor` does.

`Array.prototype.sort` is modelled as a stable insertion sort, as ECMAScript 2019
requires. Its contract says the result is ordered by key, that for every key the
elements with that key keep their input order, and that it is a permutation. This
fully determines the sorted list.

A plain object used as a counter (`counts[k] = (counts[k] || 0) + 1`) is a
`Tally`: a sequence of key/count pairs in the order the keys were first counted.
That is the order in which JavaScript enumerates string keys.

Where the code's behaviour is surprising, the model follows the code:

- `addInteraction` does not check that the contact exists. `Store.AddInteractionReferentialIff`
  shows it keeps the "every interaction has a contact" rule exactly when the
  contact exists. `Store.AddInteractionChecked` is the checked variant.
- `updateContact` can overwrite `id` and `createdAt` (`Store.UpdateCanRewriteId`).
- The health score is not clamped. A last interaction stamped in the future gives
  a score above 100 (`Health.FutureStampExceeds100`).
- `generateInsights` divides the draining count by the total of the energy
  counters, not by the number of contacts. A contact whose `energy` is not one of
  the five keys is not in that total.
- Line 116 of `stores/orbitStore.js` is garbled: a comment fragment is spliced into
  the declaration, so the line does not parse. The model uses the evident intent,
  `ENERGY_LEVELS[contact.energy]?.value || 0` (`Health.EnergyValueOf`).

## Model

| member | source | states |
|---|---|---|
| Store.TypeOf | stores/orbitStore.js:5-11 | A key is found only under the relationship type it names. |
| Store.TypeKeyRoundTrip | stores/orbitStore.js:5-11 | Each of the five relationship types is found again under its own key. |
| Store.EnergyOf | stores/orbitStore.js:13-19 | A key is found only under the energy level it names. |
| Store.EnergyKeyRoundTrip | stores/orbitStore.js:13-19 | Each of the five energy levels is found again under its own key. |
| Store.AddContact | stores/orbitStore.js:28-41 | The new contact goes in front and the interactions are untouched. It gets energy "neutral", score 100, no last interaction and `createdAt = now`. An id in the input wins over the generated one. Name, type, notes and tags come from the input. |
| Store.MergeIdempotent | stores/orbitStore.js:47 | Spreading the same patch over a contact twice is spreading it once. |
| Store.UpdateContact | stores/orbitStore.js:44-50 | Each contact with the id gets the patch merged in. Every other contact and all interactions are unchanged, and the count is kept. |
| Store.UpdateUnknownIsNoOp | stores/orbitStore.js:44-50 | Updating an id no contact has leaves the state as it was. |
| Store.UpdateIdempotent | stores/orbitStore.js:44-50 | Applying an update twice equals applying it once, even when the patch rewrites the id. |
| Store.UpdateCanRewriteId | stores/orbitStore.js:44-50 | A patch carrying `id` changes the contact's id; nothing keeps ids immutable. |
| Store.DeleteContact | stores/orbitStore.js:53-58 | No contact with the id and no interaction naming it remains. Everything else survives, in order, every copy kept: each collection keeps exactly as many entries as it had not naming the id. |
| Store.DeleteUnknownIsNoOp | stores/orbitStore.js:53-58 | Deleting an id that nothing carries leaves the state as it was. |
| Store.AddInteraction | stores/orbitStore.js:61-80 | The new interaction goes in front, with the input's fields, `createdAt = now` and the generated or given id. Exactly the contacts with that id get `lastInteraction = now`; every other contact is unchanged. |
| Store.FindContact | stores/orbitStore.js:85 | Absent exactly when no contact has the id. Otherwise it is the first contact with that id. |
| Store.GetContactWithInteractions | stores/orbitStore.js:83-90 | The contact is present iff one has the id, and then it is the first contact with that id. The interactions are exactly those naming it, in store order, as many as the store holds. |
| Store.DuplicateIdShowsFirst | stores/orbitStore.js:85 | Of two contacts sharing an id, the earlier one is returned. |
| Store.GetByType | stores/orbitStore.js:132-135 | Exactly the contacts of that type, in store order, as many as the store holds. |
| Store.GetStats | stores/orbitStore.js:138-150 | The two collection sizes, plus a well-formed per-type tally. The tally's counts sum to the number of contacts, and each equals the size of `getByType` for that key. Its keys are the contacts' types in the order they are first met. |
| Store.AddContactKeepsReferential | stores/orbitStore.js:28-41 | Adding a contact keeps every interaction pointing at an existing contact. |
| Store.DeleteKeepsReferential | stores/orbitStore.js:53-58 | The cascading delete keeps every interaction pointing at an existing contact. |
| Store.UpdateKeepsReferential | stores/orbitStore.js:44-50 | An update that leaves ids alone keeps every interaction pointing at an existing contact. |
| Store.AddKnownInteractionKeepsReferential | stores/orbitStore.js:61-80 | Logging against an existing contact keeps the referential rule. |
| Store.AddInteractionReferentialIff | stores/orbitStore.js:61-80 | From a referential state, `addInteraction` yields a referential state iff the named contact exists. |
| Store.AddInteractionChecked | stores/orbitStore.js:61-80 | Fails exactly for an unknown contact. Otherwise it is `addInteraction` and keeps the referential rule. |
| Tally.Bump | services/enhancedFeatures.js:134 | Incrementing a counter raises that key by one and no other. A new key goes at the end; an existing key stays in place with every other key. The tally stays well-formed and its total grows by one. |
| Tally.CountBy | stores/orbitStore.js:140-143 | Counting from an empty object: each key's count is its number of occurrences, and the counts sum to the number of elements. The keys are the distinct keys of the elements, in the order of their first occurrence. |
| Tally.FirstIndexOccurs | stores/orbitStore.js:140-143 | A key occurs among the elements iff its first position lies among them. |
| Tally.FirstIndexSnoc | stores/orbitStore.js:140-143 | Counting one more element never moves the first position of a key already counted; a new key's first position is the new element. |
| Tally.CountByOrder | stores/orbitStore.js:140-143 | Counting one more element keeps the tally's keys in order of first occurrence. |
| Basics.FilterUnique | stores/orbitStore.js:86-88 | An ordered selection whose elements all pass the filter and that is as long as their count is the filter's result itself, so those contracts pin every filtering query. |
| Tally.DominantIndex | services/enhancedFeatures.js:167 | The key the `reduce` ends on has a largest count, and no later key has an equal one. |
| Sorting.SortBy | stores/orbitStore.js:128 | The result has the same multiset and is ordered by key. For every key, the elements with that key keep their input order. |
| Sorting.InsertWithKey | stores/orbitStore.js:128 | Insertion puts `x` first among the elements with its key and leaves every other key's elements as they were. |
| Sorting.SortSortedIsIdentity | stores/orbitStore.js:128 | Sorting an already ordered list changes nothing. |
| Health.DaysBetween | stores/orbitStore.js:106-108 | The whole number of days `d` with `d` days ≤ elapsed time < `d+1` days. |
| Health.EnergyValueOf | stores/orbitStore.js:116 | The level's ordinal in [-2, 2], and 0 for a key that names no level. |
| Health.BlendInt | stores/orbitStore.js:117-119 | The integer formula equals the source's real-number blend rounded half up. |
| Health.HealthScore | stores/orbitStore.js:93-120 | 0 for an unknown id and 100 without interactions. Otherwise the rounded blend of recency (365 days without a stamp), frequency over at most the 10 newest interactions, and energy. |
| Health.HealthScoreRange | stores/orbitStore.js:93-120 | With no future timestamp the score lies in [0, 100], and in [3, 100] once there is an interaction. |
| Health.FutureStampExceeds100 | stores/orbitStore.js:106-109 | A last interaction 100 days ahead of the clock yields a score of 113. |
| Health.Scored | stores/orbitStore.js:126 | Every contact with `healthScore` replaced by its computed score, nothing else changed. |
| Health.NeedingAttention | stores/orbitStore.js:123-129 | Only scores below 70, ascending. For each score below 70, exactly the contacts with that score, in store order. |
| Text.Lower | screens/SentimentScreen.js:13 | Same length. Each capital becomes its own lower-case letter, and every other character is kept. |
| Text.LowerIdempotent | screens/ContactsListScreen.js:13 | Lower-casing twice equals lower-casing once. |
| Text.Trim | screens/AddContactScreen.js:16-22 | The input with whitespace-only prefix and suffix removed, and no surrounding whitespace left. |
| Text.TrimEmptyIff | screens/AddContactScreen.js:16 | The trimmed text is empty iff the input is all whitespace. |
| Text.TrimIdempotent | screens/AddContactScreen.js:22 | Trimming twice equals trimming once. |
| Text.Split | screens/AddInteractionScreen.js:34 | One more piece than separators, no piece holds the separator, and joining gives the input back. |
| Text.SplitJoin | screens/AddInteractionScreen.js:34 | Splitting undoes joining when no piece holds the separator. |
| Text.IncludesIff | screens/ContactsListScreen.js:13 | `includes` holds iff the substring occurs at some position. |
| Text.MissingChar | screens/SentimentScreen.js:17-18 | A word cannot include a keyword one of whose characters it lacks. |
| Sentiment.WordsDelta | screens/SentimentScreen.js:16-19 | The keyword adjustment of a word list is at most 10 per word either way. |
| Sentiment.WordsDeltaCounts | screens/SentimentScreen.js:16-19 | The keyword adjustment is 10 per word holding a positive keyword minus 10 per word holding a negative one. |
| Sentiment.AnalyzeInteraction | screens/SentimentScreen.js:8-24 | Positive iff the score is ≥ 20 and negative iff ≤ -20, never unknown. The score is the mood's base plus 10 per word holding a positive keyword minus 10 per word holding a negative one, so within 10 per word of the base. |
| Sentiment.AnalyzeIgnoresCase | screens/SentimentScreen.js:13 | Letter case in the summary does not change the result. |
| Sentiment.NoKeywordsKeepBase | screens/SentimentScreen.js:14-19 | Words without any keyword leave the mood's base score unchanged. |
| Sentiment.GreatCallExample | screens/SentimentScreen.js:8-24 | "great call" with a positive mood scores 30 and reads positive. |
| Sentiment.NoKeywordIn | screens/SentimentScreen.js:17-18 | A word matches no keyword when each keyword has a character the word lacks. |
| Sentiment.Scores | screens/SentimentScreen.js:49-52 | One interaction score per interaction, in order. |
| Sentiment.ClassifyAverage | screens/SentimentScreen.js:71-87 | An average is positive iff ≥ 20 and negative iff ≤ -20. |
| Sentiment.ScoreTrend | screens/SentimentScreen.js:56-69 | Stable with five scores or fewer. Otherwise improving iff the mean of the first five exceeds the mean of items 6-10 by more than 15, and declining iff it falls more than 15 below. |
| Sentiment.AnalyzeOne | screens/SentimentScreen.js:29-98 | Unknown exactly for a contact without interactions (score 0, stable, no count). Otherwise the classified mean of the five newest scores, the trend, and the full count. |
| Sentiment.AnalyzeContacts | screens/SentimentScreen.js:26-102 | One entry per contact, in contact order. |
| Sentiment.UniformRecentTone | screens/SentimentScreen.js:46-87 | If all of the five newest interactions read positive, the contact does; likewise for negative. |
| Sentiment.OverallInsights | screens/SentimentScreen.js:104-121 | The four counts, disjoint in pairs. The summary is positive iff positives outnumber negatives, needs-attention iff some negative and no majority of positives, and stable iff neither. |
| Reminders.Threshold | services/enhancedFeatures.js:50-58 | Between 7 and 60 days, and 30 for a type with no entry. |
| Reminders.ThresholdOrder | services/enhancedFeatures.js:50-58 | Romantic < family < friend < professional < acquaintance, and an unknown type waits as long as a professional one. |
| Reminders.Suggest | services/enhancedFeatures.js:60-66 | The suggestion carries the days since last contact, and is high priority iff that exceeds twice the threshold. |
| Reminders.Candidates | services/enhancedFeatures.js:42-68 | One suggestion per overdue contact, in contact order. |
| Reminders.GetSuggestions | services/enhancedFeatures.js:38-71 | Exactly the overdue contacts (sound and complete), each correctly suggested, longest absence first. Equal absences keep contact order. |
| Reminders.PermutedSuggestions | services/enhancedFeatures.js:70 | Any reordering of the candidates still holds one correct suggestion per overdue contact and no other. |
| Reminders.SuggestedIff | services/enhancedFeatures.js:60 | A contact of the list is suggested iff it is overdue. |
| Reminders.RecentContactNotSuggested | services/enhancedFeatures.js:43-60 | A contact seen within the last week is never suggested. |
| Reminders.MarkComplete | services/enhancedFeatures.js:32-34 | Reminders with the id become completed and every other is kept, same length. |
| Reminders.MarkCompleteIdempotent | services/enhancedFeatures.js:32-34 | Completing twice is completing once. |
| Reminders.MarkCompleteCommutes | services/enhancedFeatures.js:32-34 | Completing two reminders does not depend on the order. |
| Reminders.MarkCompleteUnknownIsNoOp | services/enhancedFeatures.js:32-34 | An id no reminder has leaves the list unchanged. |
| EnergyTracker.Track | services/enhancedFeatures.js:76-88 | At most 30 readings, the newest last, forming a suffix of the old history plus the reading. |
| EnergyTracker.TrackKeepsOrDropsOldest | services/enhancedFeatures.js:84 | A short history only grows; a full one drops exactly its oldest reading. |
| EnergyTracker.TrackAll | services/enhancedFeatures.js:76-88 | Derived property of successive `trackEnergy` calls (the application has no such batch operation): they never keep more than 30 readings and end on the last one. |
| EnergyTracker.Average | services/enhancedFeatures.js:99-105 | 0 for an empty history. Otherwise the average times the count is the sum of readings. |
| EnergyTracker.AverageBounds | services/enhancedFeatures.js:99-105 | The average of readings within [lo, hi] lies within [lo, hi]. |
| EnergyTracker.GetTrend | services/enhancedFeatures.js:108-123 | Stable below 7 readings. Otherwise improving iff the mean of the last five exceeds the mean of the up-to-five before by more than 0.3, and declining iff it falls more than 0.3 below. |
| EnergyTracker.ConstantHistoryIsStable | services/enhancedFeatures.js:108-123 | Readings that never change give a stable trend. |
| GroupAnalysis.BumpEnergy | services/enhancedFeatures.js:137-139 | One more contact at a level raises that counter and no other. |
| GroupAnalysis.CountEnergies | services/enhancedFeatures.js:130-140 | Each level's counter is the number of contacts at that level. The counters plus the contacts with an unknown level make up all contacts. |
| GroupAnalysis.CountHealth | services/enhancedFeatures.js:143-150 | The three bands sum to the number of scores. Healthy counts those ≥ 70 and needs-attention counts those < 40. |
| GroupAnalysis.GenerateInsights | services/enhancedFeatures.js:161-184 | At most three insights, in push order. A type insight appears iff any type was counted, naming a largest count (the last on ties). The draining warning appears iff draining and low exceed 30% of the counted energies. The attention warning appears iff needs-attention exceeds healthy. |
| GroupAnalysis.Analyze | services/enhancedFeatures.js:128-159 | The total, the type tally (well-formed, summing to the contact count, each key's count equal to its contacts, keys in the order the types are first met), the energy counters, and bands summing to the contact count. The insights are computed from these. |
| GroupAnalysis.TieNamesLaterType | services/enhancedFeatures.js:130-167 | A friend then a family member tie at one each, and the type insight names family, the key met later. |
| GroupAnalysis.TieCounts | services/enhancedFeatures.js:130-135 | Counting a friend then a family member gives friend then family, once each. |
| GroupAnalysis.TieInsight | services/enhancedFeatures.js:165-168 | On a tie between two keys the type insight names the later key. |
| GroupAnalysis.NothingCountedNoInsights | services/enhancedFeatures.js:172-176 | With nothing counted there are no insights; in particular 0/0 raises no draining warning. |
| GroupAnalysis.AllDrainingWarns | services/enhancedFeatures.js:128-176 | A non-empty group whose every contact is draining gets the draining warning. |
| QuickActions.GetForContact | services/enhancedFeatures.js:189-204 | Log and reminder only for a professional contact, all five actions otherwise. Always in declared order, logging first. |
| QuickActions.ProfessionalSeesFewer | services/enhancedFeatures.js:199-203 | Every action a professional contact is offered is offered to anyone else. |
| Journey.Position | screens/JourneyMapping.js:7-15 | Each stage sits at its own index of the stage list. |
| Journey.StagesDistinct | screens/JourneyMapping.js:7-15 | The stage list holds each stage once, under distinct ids. |
| Journey.ActionsOf | screens/JourneyMapping.js:18-26 | Every stage id has an action list of at least three entries, so the `|| []` fallback never applies. |
| Journey.StageIndex | screens/JourneyMapping.js:45-48 | The index is within the list, at most half the count, and exactly half the count (rounded down) until capped at the last stage. |
| Journey.StageIndexMonotone | screens/JourneyMapping.js:45-48 | More interactions never move a contact to an earlier stage. |
| Journey.AdvocacyIff | screens/JourneyMapping.js:45-48 | The last stage is reached iff there are at least 12 interactions. |
| Journey.Timeline | screens/JourneyMapping.js:36-38 | A permutation of the contact's interactions, newest first. |
| Journey.TimelineStable | screens/JourneyMapping.js:36-38 | Interactions with the same timestamp keep their store order, so the timeline is fully determined. |
| Journey.PreviousStage | screens/JourneyMapping.js:52 | The stage before the current index, or the first stage at index 0. |
| Journey.GetContactJourney | screens/JourneyMapping.js:35-60 | Without interactions: the string "awareness", no history and the awareness actions. Otherwise the stage at the capped index and its actions. The history is the five newest interactions, newest first, each tagged with the previous stage. |
| Journey.AddTo | screens/JourneyMapping.js:71-72 | One bucket's count grows by one and the contact is appended; other buckets are unchanged. |
| Journey.BucketTotalAddTo | screens/JourneyMapping.js:71-72 | Adding to a bucket raises the bucket total by one. |
| Journey.StageOf | screens/JourneyMapping.js:40-49 | Awareness without interactions; otherwise the stage at the capped index. |
| Journey.StageStatsAsWritten | screens/JourneyMapping.js:62-76 | On success, one bucket per stage. |
| Journey.StageStats | screens/JourneyMapping.js:62-76 | Seven buckets. Each holds exactly the contacts in that stage, in order, with a count equal to its length. The counts sum to the number of contacts. |
| Journey.AsWrittenFailsIff | screens/JourneyMapping.js:62-76 | The source's statistics fail iff some contact has no interaction. Otherwise they equal the corrected statistics. |
| Journey.JourneyStage | screens/JourneyMapping.js:40-49 | The journey's stage is the bare string exactly for a contact without interactions, and otherwise the stage record the corrected statistics use. |
| Journey.NewContactBreaksStats | screens/JourneyMapping.js:68-71 | A single contact with no interaction makes the source's statistics throw a TypeError. |
| ContactForm.Submit | screens/AddContactScreen.js:15-29 | Refused iff the name is all whitespace. Otherwise the trimmed name (non-empty, no surrounding space), the type and notes as entered, no tags, and no store-owned field. |
| ContactForm.SubmitToStore | screens/AddContactScreen.js:15-29 | A blank name leaves the store unchanged. Otherwise one new contact in front with the trimmed name, the type, no tags and score 100. |
| ContactForm.BlankIsRejected | screens/AddContactScreen.js:10-19 | Submitting the initial form changes nothing. |
| ContactForm.SubmittedNameIsStable | screens/AddContactScreen.js:16-22 | Resubmitting a submitted name submits it unchanged. |
| InteractionForm.TypeText | screens/AddInteractionScreen.js:32 | The emoji, a space, then the label. |
| InteractionForm.TypeTextRoundTrip | screens/AddInteractionScreen.js:6-13 | Distinct interaction types give distinct texts, so the type can be read back. |
| InteractionForm.ParseTopics | screens/AddInteractionScreen.js:34 | Exactly the non-blank trimmed pieces between commas, in order, duplicates kept: each topic is non-empty, with no surrounding whitespace and no comma, and there are as many as there are non-blank pieces. |
| InteractionForm.NoTopics | screens/AddInteractionScreen.js:34 | An empty topics field gives no topics. |
| InteractionForm.ParseTopicsIdempotent | screens/AddInteractionScreen.js:34 | Parsing the parsed topics joined by commas gives the same topics. |
| InteractionForm.Submit | screens/AddInteractionScreen.js:24-39 | Refused iff the summary is all whitespace. Otherwise the trimmed summary (a piece of the input with no whitespace at either end), a type text that reads back as the selected type, the parsed topics, one of the three mood keys, and no store-owned field. |
| InteractionForm.SummaryFacts | screens/AddInteractionScreen.js:25-33 | The trimmed summary is empty iff the summary is all whitespace; otherwise it is a piece of the summary with no whitespace at either end. |
| InteractionForm.SubmitToStore | screens/AddInteractionScreen.js:24-39 | A blank summary leaves the store unchanged. Otherwise one new interaction in front for the contact, with the trimmed summary and the current time. |
| InteractionForm.BlankIsRejected | screens/AddInteractionScreen.js:19-28 | Submitting the initial form changes nothing. |
| ContactsList.Search | screens/ContactsListScreen.js:12-14 | Exactly the contacts whose lower-cased name includes the lower-cased search, in store order, as many as the store holds. |
| ContactsList.EmptySearchListsAll | screens/ContactsListScreen.js:12-14 | An empty search lists every contact. |
| ContactsList.LongerSearchNarrows | screens/ContactsListScreen.js:12-14 | Extending the search text never lists a contact that was not listed before. |
| ContactsList.ShownType | screens/ContactsListScreen.js:17 | The contact's relationship type when its key is known, acquaintance otherwise. |
| ContactsList.ShownTypeOfKey | screens/ContactsListScreen.js:17 | A known type key is shown as itself. |
| ContactsList.ShownScore | screens/ContactsListScreen.js:18 | Never 0. A non-zero score is shown as is; a missing score or 0 shows as 100. |
| ContactsList.HealthBandOf | screens/ContactsListScreen.js:82-88 | Strong from 80 and critical below 20. In between, the band of width 20 holding the score. |
| ContactsList.HealthBandMonotone | screens/ContactsListScreen.js:82-88 | A higher score never gets a weaker colour. |
| ContactsList.NoScoresShowStrong | screens/ContactsListScreen.js:18 | Without any scores every contact shows the strongest colour. |

## Left out

- Persistence is not modelled. That covers `zustand`'s `persist` with `AsyncStorage`, and the reads and writes of reminders and energy history. Each operation takes the list it would have read, and returns the list it would have written.
- `ReminderSystem.scheduleReminder` is not modelled. It only builds a record and pushes it onto a freshly read list that it never stores, so it has no effect to model beyond the `Reminder` datatype.
- `EnergyTracker.getHistory` and `ReminderSystem.getReminders` are not modelled; they are storage reads.
- `Date.now()` and `Math.random()` are parameters. The clock is `now`, the generated id is `freshId`, and the group analysis's health draws are `draws`.
- Store.AddContact and Store.AddInteraction: the source reads the clock separately for each stamp. `addContact` reads it for the id (stores/orbitStore.js:30) and for `createdAt` (:34). `addInteraction` reads it for the id (:63), for the interaction's `createdAt` (:65) and for the contact's `lastInteraction` (:71). The model uses one `now` for every stamp of one call, so the new interaction's `createdAt` and the contact's `lastInteraction` are always equal. The id `freshId` is independent of the clock, so the model does not promise that an id is the creation time in milliseconds, nor that two ids made in the same millisecond collide.
- GroupAnalysis.Analyze: takes the random draws as given, one per contact, in [0, 100) in the source. The model says nothing about their distribution.
- Floating point is not modelled. Averages, the 0.3 and ±15 margins and the health blend are exact rational arithmetic, so rounding differences of IEEE doubles are not captured.
- Health.HealthScore: the blend is proved equal to round-half-up of the exact value, whereas `Math.round` works on a double. The two agree for these small integer-weighted sums except in possible double-rounding corner cases, which the model does not rule out.
- Strings are restricted to ASCII. `trim` removes only ASCII whitespace, and `toLowerCase` maps only `A`–`Z`. Unicode whitespace and case mappings are left out.
- JavaScript prototype keys are left out. A type, energy or stage key such as `"constructor"` would find an inherited property in the source's object literals. The model treats every key outside the declared ones as absent.
- Integer-like object keys are left out. JavaScript enumerates such keys (e.g. a type `"2"`) before the others, so `Tally` keeps plain insertion order only for non-numeric keys.
- Fields a caller omits altogether, e.g. a contact without `type` or `energy`, are left out. Every field is present in the datatypes, with strings where the source stores arbitrary text.
- Dates are integer millisecond timestamps, not ISO-8601 strings. `new Date(string)` parsing is left out.
- Rendering is left out. That covers emoji, colours shown, labels, message texts, insight wording, the funnel widths of the journey screen and navigation.
- `ContactsListScreen` calls `useState` without importing it. The model covers the list's logic as if the hook were available.
- `screens/InsightsScreen.js`, `screens/MapScreen.js`, `screens/ContactDetailScreen.js` and `App.js` are callers and layout, not part of this model.
- GroupAnalysis.MostlyDraining: `draining / totalEnergy > 0.3` is stated in integers as `10 * (draining + low) > 3 * total`, with a zero total counted as false. In the source a zero total means a zero numerator, so `0 / 0` is `NaN` and the comparison is false there too.

## Findings

| source | as written | input that shows it | evidently intended | confidence | as-written member | corrected member |
|---|---|---|---|---|---|---|
| screens/JourneyMapping.js:68-72 | `getStageStats` reads `journey.currentStage.id`. For a contact without interactions, `getContactJourney` returns the string `'awareness'` as the stage, whose `id` is `undefined`, so `stats[undefined].count++` throws a TypeError. | A store with one contact and no interactions, for instance a contact just added. | A contact without interactions is counted under the awareness stage. | not executed | Journey.StageStatsAsWritten (with Journey.NewContactBreaksStats and Journey.AsWrittenFailsIff) | Journey.StageStats |
