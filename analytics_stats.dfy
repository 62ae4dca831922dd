/** The chart data of the analytics page (pages/AnalyticsPage.tsx): the mood history
    cut to the chosen time range, the per-mood frequency buckets and the journal
    sentiment buckets. */
module MoodStats {
  import opened Wrappers
  import opened Types

  /** The chart's time range tabs. */
  datatype TimeRange = DayRange | WeekRange | MonthRange | YearRange | AllTime

  /** `filteredMoodHistory`: every entry for 'all'; otherwise the entries at or after the
      range's start instant `cutoff`, which the page takes from the clock. */
  function MoodsInRange(history: seq<MoodEntry>, range: TimeRange, cutoff: int): (r: seq<MoodEntry>)
    ensures range == AllTime ==> r == history
  {
    if range == AllTime then history else AtOrAfter(history, cutoff)
  }

  /** `history.filter(m => m.timestamp >= cutoff)`. */
  function AtOrAfter(history: seq<MoodEntry>, cutoff: int): (r: seq<MoodEntry>)
    ensures |r| <= |history|
  {
    if history == [] then []
    else (if history[0].timestamp >= cutoff then [history[0]] else []) + AtOrAfter(history[1..], cutoff)
  }

  /** The range filter keeps exactly the entries at or after the cutoff, each as often as
      before, and keeps the whole history when no entry is older than the cutoff. */
  lemma AtOrAfterExact(history: seq<MoodEntry>, cutoff: int)
    ensures forall e :: multiset(AtOrAfter(history, cutoff))[e] ==
                        if e.timestamp >= cutoff then multiset(history)[e] else 0
    ensures (forall i :: 0 <= i < |history| ==> history[i].timestamp >= cutoff) ==>
              AtOrAfter(history, cutoff) == history
  {
    forall e {
      AtOrAfterCount(history, cutoff, e);
    }
    if forall i :: 0 <= i < |history| ==> history[i].timestamp >= cutoff {
      AtOrAfterAll(history, cutoff);
    }
  }

  lemma {:induction false} AtOrAfterCount(history: seq<MoodEntry>, cutoff: int, e: MoodEntry)
    ensures multiset(AtOrAfter(history, cutoff))[e] ==
            if e.timestamp >= cutoff then multiset(history)[e] else 0
  {
    if history != [] {
      var h, t := history[0], history[1..];
      AtOrAfterCount(t, cutoff, e);
      assert history == [h] + t;
      var head := if h.timestamp >= cutoff then [h] else [];
      assert multiset(AtOrAfter(history, cutoff)) == multiset(head) + multiset(AtOrAfter(t, cutoff));
    }
  }

  lemma {:induction false} AtOrAfterAll(history: seq<MoodEntry>, cutoff: int)
    requires forall i :: 0 <= i < |history| ==> history[i].timestamp >= cutoff
    ensures AtOrAfter(history, cutoff) == history
  {
    if history != [] {
      var t := history[1..];
      assert forall i :: 0 <= i < |t| ==> t[i] == history[i + 1];
      AtOrAfterAll(t, cutoff);
      assert history == [history[0]] + t;
    }
  }

  /** The number of entries with mood `m`. */
  function CountMood(entries: seq<MoodEntry>, m: MoodType): nat
  {
    if entries == [] then 0
    else CountMood(entries[..|entries| - 1], m) + (if entries[|entries| - 1].mood == m then 1 else 0)
  }

  /** The six mood counts together count every entry once. */
  lemma {:induction false} MoodCountsTotal(entries: seq<MoodEntry>)
    ensures CountMood(entries, Happy) + CountMood(entries, Calm) + CountMood(entries, Neutral) +
            CountMood(entries, Sad) + CountMood(entries, Anxious) + CountMood(entries, Angry) == |entries|
  {
    if entries != [] {
      MoodCountsTotal(entries[..|entries| - 1]);
    }
  }

  /** A bucket: the mood and its count (the colour is presentation). */
  datatype MoodBucket = MoodBucket(mood: MoodType, count: nat)

  /** `moodFrequencyData`: a counter per mood, all starting at 0, incremented once per
      entry; then one bucket per counter in the declared order of the moods. */
  method MoodFrequency(entries: seq<MoodEntry>) returns (buckets: seq<MoodBucket>)
    ensures |buckets| == |AllMoods|
    ensures forall i :: 0 <= i < |AllMoods| ==> buckets[i] == MoodBucket(AllMoods[i], CountMood(entries, AllMoods[i]))
  {
    var counts: map<MoodType, nat> := map[Happy := 0, Calm := 0, Neutral := 0, Sad := 0, Anxious := 0, Angry := 0];
    forall m: MoodType ensures m in counts && counts[m] == 0 {
      match m
      case Happy =>
      case Calm =>
      case Neutral =>
      case Sad =>
      case Anxious =>
      case Angry =>
    }
    for i := 0 to |entries|
      invariant forall m: MoodType :: m in counts && counts[m] == CountMood(entries[..i], m)
    {
      assert entries[..i + 1][..i] == entries[..i];
      var m := entries[i].mood;
      if m in counts {
        counts := counts[m := counts[m] + 1];
      }
    }
    assert entries[..|entries|] == entries;
    buckets := [];
    for j := 0 to |AllMoods|
      invariant |buckets| == j
      invariant forall i :: 0 <= i < j ==> buckets[i] == MoodBucket(AllMoods[i], CountMood(entries, AllMoods[i]))
    {
      buckets := buckets + [MoodBucket(AllMoods[j], counts[AllMoods[j]])];
    }
  }

  /** The buckets of `moodFrequencyData` add up to the number of charted entries. */
  lemma MoodFrequencyTotal(entries: seq<MoodEntry>, buckets: seq<MoodBucket>)
    requires |buckets| == |AllMoods|
    requires forall i :: 0 <= i < |AllMoods| ==> buckets[i] == MoodBucket(AllMoods[i], CountMood(entries, AllMoods[i]))
    ensures buckets[0].count + buckets[1].count + buckets[2].count + buckets[3].count +
            buckets[4].count + buckets[5].count == |entries|
  {
    MoodCountsTotal(entries);
  }

  /** A journal counts for the sentiment chart when it carries one of the three labels. */
  predicate Labelled(j: JournalEntry)
  {
    j.sentiment.Some? && !j.sentiment.value.polarity.Unrecognised?
  }

  /** The number of journals whose sentiment label is `l`. */
  function CountLabel(journals: seq<JournalEntry>, l: SentimentLabel): nat
  {
    if journals == [] then 0
    else
      CountLabel(journals[..|journals| - 1], l) +
      (var j := journals[|journals| - 1]; if j.sentiment.Some? && j.sentiment.value.polarity == l then 1 else 0)
  }

  /** The number of journals carrying a recognised label (`total`). */
  function CountLabelled(journals: seq<JournalEntry>): nat
  {
    if journals == [] then 0
    else CountLabelled(journals[..|journals| - 1]) + (if Labelled(journals[|journals| - 1]) then 1 else 0)
  }

  /** A sentiment bucket: the label's name and its count. */
  datatype SentimentBucket = SentimentBucket(name: string, count: nat)

  /** `sentimentData`: three counters; a journal with a recognised label increments its
      counter and the total; the buckets come out only when the total is positive. */
  method SentimentData(journals: seq<JournalEntry>) returns (buckets: seq<SentimentBucket>)
    ensures CountLabelled(journals) == 0 ==> buckets == []
    ensures CountLabelled(journals) > 0 ==>
              buckets == [SentimentBucket("Positive", CountLabel(journals, Positive)),
                          SentimentBucket("Neutral", CountLabel(journals, NeutralLabel)),
                          SentimentBucket("Negative", CountLabel(journals, Negative))]
  {
    var positive, neutral, negative, total := 0, 0, 0, 0;
    for i := 0 to |journals|
      invariant positive == CountLabel(journals[..i], Positive)
      invariant neutral == CountLabel(journals[..i], NeutralLabel)
      invariant negative == CountLabel(journals[..i], Negative)
      invariant total == CountLabelled(journals[..i])
    {
      assert journals[..i + 1][..i] == journals[..i];
      var j := journals[i];
      if j.sentiment.Some? {
        match j.sentiment.value.polarity {
          case Positive => positive, total := positive + 1, total + 1;
          case NeutralLabel => neutral, total := neutral + 1, total + 1;
          case Negative => negative, total := negative + 1, total + 1;
          case Unrecognised(_) =>
        }
      }
    }
    assert journals[..|journals|] == journals;
    if total > 0 {
      buckets := [SentimentBucket("Positive", positive), SentimentBucket("Neutral", neutral),
                  SentimentBucket("Negative", negative)];
    } else {
      buckets := [];
    }
  }

  /** The total is the sum of the three counters, and it is zero exactly when no journal
      carries a recognised label (so the chart is empty exactly then). */
  lemma {:induction false} LabelledTotal(journals: seq<JournalEntry>)
    ensures CountLabelled(journals) ==
            CountLabel(journals, Positive) + CountLabel(journals, NeutralLabel) + CountLabel(journals, Negative)
    ensures CountLabelled(journals) == 0 <==> forall i :: 0 <= i < |journals| ==> !Labelled(journals[i])
  {
    if journals != [] {
      var init := journals[..|journals| - 1];
      LabelledTotal(init);
      assert forall i :: 0 <= i < |init| ==> init[i] == journals[i];
    }
  }
}
