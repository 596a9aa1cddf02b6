/** The keyword-and-mood sentiment heuristic of `SentimentAnalyzer` in
    `screens/SentimentScreen.js`: a score per interaction, a per-contact
    average over the five newest interactions with a trend against the five
    before them, and counts over all contacts. Averages are exact reals. */
module Sentiment {
  import opened Basics
  import opened Text
  import opened Store

  const PositiveWords: seq<string> :=
    ["great", "good", "love", "amazing", "excellent", "happy", "fun", "success", "win", "excited"]

  const NegativeWords: seq<string> :=
    ["bad", "terrible", "awful", "hate", "sad", "fail", "lost", "angry", "frustrated", "stress"]

  /** The sentiment classes; `Unknown` is reserved for a contact without interactions. */
  datatype Tone = Positive | Negative | Neutral | Unknown

  /** `keywords.some(w => word.includes(w))`. */
  predicate MatchesAny(word: string, keywords: seq<string>) {
    exists i :: 0 <= i < |keywords| && Includes(word, keywords[i])
  }

  /** The word contains a positive keyword. */
  predicate HasPositive(word: string) { MatchesAny(word, PositiveWords) }

  /** The word contains a negative keyword. */
  predicate HasNegative(word: string) { MatchesAny(word, NegativeWords) }

  /** +10 for a word containing a positive keyword and, independently, -10 for
      one containing a negative keyword. */
  function WordDelta(word: string): int {
    (if MatchesAny(word, PositiveWords) then 10 else 0) - (if MatchesAny(word, NegativeWords) then 10 else 0)
  }

  /** The keyword adjustments of all words: at most 10 per word either way. */
  function WordsDelta(words: seq<string>): (d: int)
    ensures -10 * |words| <= d <= 10 * |words|
    decreases |words|
  {
    if |words| == 0 then 0 else WordDelta(words[0]) + WordsDelta(words[1..])
  }

  /** The mood's starting score. */
  function MoodBase(mood: string): int {
    if mood == "positive" then 20 else if mood == "negative" then -20 else 0
  }

  /** The words of a summary: lower-cased, split on single spaces. */
  function Words(summary: string): seq<string> {
    Split(Lower(summary), ' ')
  }

  datatype Analysis = Analysis(tone: Tone, score: int)

  /** `analyzeInteraction(summary, mood)`: the mood's base score moved by at most
      10 per word; positive from 20 up, negative from -20 down, neutral between. */
  function AnalyzeInteraction(summary: string, mood: string): (r: Analysis)
    ensures r.tone != Unknown
    ensures r.tone == Positive <==> r.score >= 20
    ensures r.tone == Negative <==> r.score <= -20
    ensures MoodBase(mood) - 10 * |Words(summary)| <= r.score <= MoodBase(mood) + 10 * |Words(summary)|
    ensures r.score == MoodBase(mood) + 10 * CountIf(Words(summary), HasPositive)
                                      - 10 * CountIf(Words(summary), HasNegative)
  {
    WordsDeltaCounts(Words(summary));
    var score := MoodBase(mood) + WordsDelta(Words(summary));
    if score >= 20 then Analysis(Positive, score)
    else if score <= -20 then Analysis(Negative, score)
    else Analysis(Tone.Neutral, score)
  }

  /** The keyword adjustment is 10 for every word with a positive keyword
      less 10 for every word with a negative one; a word with both counts
      both ways. */
  lemma {:induction false} WordsDeltaCounts(words: seq<string>)
    ensures WordsDelta(words) == 10 * CountIf(words, HasPositive) - 10 * CountIf(words, HasNegative)
    decreases |words|
  {
    if |words| > 0 {
      WordsDeltaCounts(words[1..]);
    }
  }

  /** Letter case in the summary does not matter. */
  lemma AnalyzeIgnoresCase(summary: string, mood: string)
    ensures AnalyzeInteraction(summary, mood) == AnalyzeInteraction(Lower(summary), mood)
  {
    LowerIdempotent(summary);
  }

  /** With no keyword anywhere the score is the mood's base score. */
  lemma {:induction false} NoKeywordsKeepBase(words: seq<string>)
    requires forall i :: 0 <= i < |words| ==> WordDelta(words[i]) == 0
    ensures WordsDelta(words) == 0
    decreases |words|
  {
    if |words| > 0 {
      NoKeywordsKeepBase(words[1..]);
    }
  }

  /** A positive mood plus one positive keyword: 30, positive. */
  lemma GreatCallExample()
    ensures AnalyzeInteraction("great call", "positive") == Analysis(Positive, 30)
  {
    GreatCallWords();
    GreatDelta();
    CallDelta();
  }

  lemma GreatCallWords()
    ensures Words("great call") == ["great", "call"]
  {
    LowerKeepsLowerCase("great call");
    assert "great call" == "great" + [' '] + "call";
    SplitAtFirstSeparator("great", "call", ' ');
    SplitWithoutSeparator("call", ' ');
  }

  lemma GreatDelta()
    ensures WordDelta("great") == 10
  {
    GreatIsPositive();
    GreatIsNotNegative();
  }

  lemma GreatIsPositive()
    ensures MatchesAny("great", PositiveWords)
  {
    var w := PositiveWords[0];
    assert w == "great";
    assert w <= "great";
    assert Includes("great", w);
  }

  lemma GreatIsNotNegative()
    ensures !MatchesAny("great", NegativeWords)
  {
    NoKeywordIn("great", NegativeWords, "blwhsflnfs");
  }

  lemma CallDelta()
    ensures WordDelta("call") == 0
  {
    NoKeywordIn("call", PositiveWords, "ggomehfswe");
    NoKeywordIn("call", NegativeWords, "btwhsfonfs");
  }

  /** A word matches none of the keywords when each keyword has a character,
      `missing[i]`, that the word lacks. */
  lemma NoKeywordIn(word: string, keywords: seq<string>, missing: string)
    requires |missing| == |keywords|
    requires forall i :: 0 <= i < |keywords| ==> missing[i] in keywords[i] && missing[i] !in word
    ensures !MatchesAny(word, keywords)
  {
    forall i | 0 <= i < |keywords| ensures !Includes(word, keywords[i]) {
      MissingChar(word, keywords[i], missing[i]);
    }
  }

  // ------------------------------------------------------- per contact

  /** The interaction scores, in order. */
  function Scores(xs: seq<Interaction>): (r: seq<int>)
    ensures |r| == |xs|
    ensures forall i :: 0 <= i < |r| ==> r[i] == AnalyzeInteraction(xs[i].summary, xs[i].mood).score
  {
    seq(|xs|, i requires 0 <= i < |xs| => AnalyzeInteraction(xs[i].summary, xs[i].mood).score)
  }

  /** The same thresholds applied to an average. */
  function ClassifyAverage(avg: real): (t: Tone)
    ensures t != Unknown
    ensures t == Positive <==> avg >= 20.0
    ensures t == Negative <==> avg <= -20.0
  {
    if avg >= 20.0 then Positive else if avg <= -20.0 then Negative else Tone.Neutral
  }

  /** Trend of a newest-first score list: the average of items 1-5 against
      items 6-10, stable when there are no older items. */
  function ScoreTrend(scores: seq<int>): (t: Trend)
    ensures |scores| <= 5 ==> t == Stable
    ensures |scores| > 5 ==>
              var avg := Mean(scores[..5]);
              var older := Mean(scores[5..Min(|scores|, 10)]);
              (t == Improving <==> avg > older + 15.0) && (t == Declining <==> avg < older - 15.0)
  {
    var recent := Slice(scores, 0, 5);
    var older := Slice(scores, 5, 10);
    if |older| > 0 then
      var avg := Mean(recent);
      var olderAvg := Mean(older);
      if avg > olderAvg + 15.0 then Improving
      else if avg < olderAvg - 15.0 then Declining
      else Stable
    else Stable
  }

  datatype ContactSentiment = ContactSentiment(
    contact: Contact,
    sentiment: Tone,
    score: real,
    trend: Trend,
    interactionCount: Option<nat>)

  /** One contact's entry: `unknown`, score 0 and stable for a contact without
      interactions (and no count); otherwise the classified average of the
      five newest scores, the trend, and the full interaction count. */
  function AnalyzeOne(c: Contact, interactions: seq<Interaction>): (r: ContactSentiment)
    ensures r.contact == c
    ensures var n := |InteractionsOf(interactions, c.id)|;
            (r.sentiment == Unknown <==> n == 0) &&
            (n == 0 ==> r.score == 0.0 && r.trend == Stable && r.interactionCount == None) &&
            (n > 0 ==> r.interactionCount == Some(n)
                       && r.score == Mean(Scores(InteractionsOf(interactions, c.id))[..Min(n, 5)])
                       && r.sentiment == ClassifyAverage(r.score)
                       && r.trend == ScoreTrend(Scores(InteractionsOf(interactions, c.id))))
  {
    var mine := InteractionsOf(interactions, c.id);
    if |mine| == 0 then ContactSentiment(c, Unknown, 0.0, Stable, None)
    else
      var scores := Scores(mine);
      var avg := Mean(Slice(scores, 0, 5));
      ContactSentiment(c, ClassifyAverage(avg), avg, ScoreTrend(scores), Some(|mine|))
  }

  /** `analyzeContact(contacts, interactions)`: one entry per contact, in order. */
  function AnalyzeContacts(contacts: seq<Contact>, interactions: seq<Interaction>): (r: seq<ContactSentiment>)
    ensures |r| == |contacts|
    ensures forall i :: 0 <= i < |r| ==> r[i].contact == contacts[i]
    ensures forall i :: 0 <= i < |r| ==> r[i] == AnalyzeOne(contacts[i], interactions)
  {
    seq(|contacts|, i requires 0 <= i < |contacts| => AnalyzeOne(contacts[i], interactions))
  }

  /** When the five newest interactions all read positive, so does the contact;
      likewise for negative. */
  lemma UniformRecentTone(c: Contact, interactions: seq<Interaction>)
    requires |InteractionsOf(interactions, c.id)| > 0
    ensures var sc := Scores(InteractionsOf(interactions, c.id));
            var k := Min(|sc|, 5);
            ((forall i :: 0 <= i < k ==> sc[i] >= 20) ==> AnalyzeOne(c, interactions).sentiment == Positive) &&
            ((forall i :: 0 <= i < k ==> sc[i] <= -20) ==> AnalyzeOne(c, interactions).sentiment == Negative)
  {
    var sc := Scores(InteractionsOf(interactions, c.id));
    var k := Min(|sc|, 5);
    var recent := sc[..k];
    if forall i :: 0 <= i < k ==> sc[i] >= 20 {
      MeanBounds(recent, 20, MaxOf(recent));
    }
    if forall i :: 0 <= i < k ==> sc[i] <= -20 {
      MeanBounds(recent, MinOf(recent), -20);
    }
  }

  function MaxOf(xs: seq<int>): (m: int)
    requires |xs| > 0
    ensures forall i :: 0 <= i < |xs| ==> xs[i] <= m
    decreases |xs|
  {
    if |xs| == 1 then xs[0] else Max(xs[0], MaxOf(xs[1..]))
  }

  function MinOf(xs: seq<int>): (m: int)
    requires |xs| > 0
    ensures forall i :: 0 <= i < |xs| ==> m <= xs[i]
    decreases |xs|
  {
    if |xs| == 1 then xs[0] else Min(xs[0], MinOf(xs[1..]))
  }

  // --------------------------------------------------------- overview

  datatype Summary = TrendingPositive | NeedsAttention | GenerallyStable

  datatype Overview = Overview(positive: nat, negative: nat, improving: nat, declining: nat, summary: Summary)

  predicate IsPositive(r: ContactSentiment) { r.sentiment == Positive }
  predicate IsNegative(r: ContactSentiment) { r.sentiment == Negative }
  predicate IsImproving(r: ContactSentiment) { r.trend == Improving }
  predicate IsDeclining(r: ContactSentiment) { r.trend == Declining }

  /** `getOverallInsights(results)`: the four counts, and the positive message
      when positives outnumber negatives, the attention message when there is
      any negative otherwise, the stable message when there is neither. */
  function OverallInsights(results: seq<ContactSentiment>): (r: Overview)
    ensures r.positive == CountIf(results, IsPositive) && r.negative == CountIf(results, IsNegative)
    ensures r.improving == CountIf(results, IsImproving) && r.declining == CountIf(results, IsDeclining)
    ensures r.positive + r.negative <= |results| && r.improving + r.declining <= |results|
    ensures r.summary == TrendingPositive <==> r.positive > r.negative
    ensures r.summary == NeedsAttention <==> r.positive <= r.negative && r.negative > 0
    ensures r.summary == GenerallyStable <==> r.positive == 0 && r.negative == 0
  {
    var p := CountIf(results, IsPositive);
    var n := CountIf(results, IsNegative);
    CountIfDisjoint(results, IsPositive, IsNegative);
    CountIfDisjoint(results, IsImproving, IsDeclining);
    Overview(p, n, CountIf(results, IsImproving), CountIf(results, IsDeclining),
             if p > n then TrendingPositive else if n > 0 then NeedsAttention else GenerallyStable)
  }
}
