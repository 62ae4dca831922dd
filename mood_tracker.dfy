/** The mood check-in card (components/MoodTracker.tsx): submitting a selected mood logs it,
    and some moods are answered with a coping suggestion; without one the card resets itself
    after three seconds. The timeout is an explicit `TimerFires`. */
module MoodTracker {
  import opened Wrappers
  import opened Types

  /** Where a suggestion's button leads: a tool of the tools page, or the chat tab with voice
      on. */
  datatype Destination = Tool(toolId: string) | VoiceChat

  /** A coping suggestion: its heading and where it leads (text, icon and colour are
      presentation). */
  datatype Intervention = Intervention(title: string, target: Destination)

  /** The suggestion for a logged mood. */
  function InterventionFor(m: MoodType): (r: Option<Intervention>)
    ensures r.None? <==> m == Calm || m == Neutral
    ensures m == Anxious ==> r == Some(Intervention("Let's pause.", Tool("breathing")))
    ensures m == Angry ==> r == Some(Intervention("Release it.", Tool("journal")))
    ensures m == Sad ==> r == Some(Intervention("I'm here.", VoiceChat))
    ensures m == Happy ==> r == Some(Intervention("Cherish this.", Tool("journal")))
  {
    match m
    case Anxious => Some(Intervention("Let's pause.", Tool("breathing")))
    case Angry => Some(Intervention("Release it.", Tool("journal")))
    case Sad => Some(Intervention("I'm here.", VoiceChat))
    case Happy => Some(Intervention("Cherish this.", Tool("journal")))
    case Calm => None
    case Neutral => None
  }

  /** Only the breathing tool, the journal and the voice chat are ever suggested, and the
      journal exactly for the two moods that vent or keep a feeling. */
  lemma InterventionTargets(m: MoodType)
    ensures InterventionFor(m).Some? ==>
              InterventionFor(m).value.target in {Tool("breathing"), Tool("journal"), VoiceChat}
    ensures (InterventionFor(m).Some? && InterventionFor(m).value.target == Tool("journal")) <==>
              m == Angry || m == Happy
  {
  }

  class MoodCard {
    var selectedMood: Option<MoodType>
    var note: string
    var isSubmitted: bool
    var suggestion: Option<Intervention>
    /** The `onLogMood` calls made, in order. */
    var logged: seq<(MoodType, string)>
    /** Whether the three-second auto-reset is pending. */
    var resetPending: bool

    constructor ()
      ensures selectedMood.None? && note == "" && !isSubmitted && suggestion.None?
      ensures logged == [] && !resetPending
    {
      selectedMood, note, isSubmitted, suggestion, logged, resetPending := None, "", false, None, [], false;
    }

    method Select(m: MoodType)
      modifies this`selectedMood
      ensures selectedMood == Some(m)
    {
      selectedMood := Some(m);
    }

    /** `handleSubmit`: nothing without a selected mood; otherwise the mood and note are
        logged, the suggestion for the mood is shown, and the auto-reset is scheduled only
        when there is none. */
    method Submit()
      modifies this`logged, this`suggestion, this`isSubmitted, this`resetPending
      ensures selectedMood.None? ==>
                logged == old(logged) && suggestion == old(suggestion) &&
                isSubmitted == old(isSubmitted) && resetPending == old(resetPending)
      ensures selectedMood.Some? ==>
                logged == old(logged) + [(selectedMood.value, note)] &&
                suggestion == InterventionFor(selectedMood.value) && isSubmitted &&
                resetPending == (old(resetPending) || suggestion.None?)
    {
      match selectedMood {
        case None =>
        case Some(m) =>
          logged := logged + [(m, note)];
          var intervention := InterventionFor(m);
          suggestion, isSubmitted := intervention, true;
          if intervention.None? {
            resetPending := true;
          }
      }
    }

    /** `resetForm`. */
    method ResetForm()
      modifies this`isSubmitted, this`selectedMood, this`note, this`suggestion
      ensures !isSubmitted && selectedMood.None? && note == "" && suggestion.None?
    {
      isSubmitted, selectedMood, note, suggestion := false, None, "", None;
    }

    /** The three seconds have passed: a pending auto-reset runs `resetForm`. */
    method TimerFires()
      modifies this`isSubmitted, this`selectedMood, this`note, this`suggestion, this`resetPending
      ensures !resetPending
      ensures old(resetPending) ==> !isSubmitted && selectedMood.None? && note == "" && suggestion.None?
      ensures !old(resetPending) ==>
                isSubmitted == old(isSubmitted) && selectedMood == old(selectedMood) &&
                note == old(note) && suggestion == old(suggestion)
    {
      if resetPending {
        ResetForm();
        resetPending := false;
      }
    }
  }
}
