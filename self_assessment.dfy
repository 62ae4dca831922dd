/** The self check-in wizard (components/SelfAssessmentModal.tsx): questions are fetched,
    answered one by one, and the question/answer pairs are sent for an assessment. The two
    requests are parameters: a reply, or `None` where the request throws. */
module SelfAssessment {
  import opened Wrappers
  import opened Strings
  import opened GeminiService

  datatype Step = Intro | LoadingQuestions | Questions | Analyzing | ResultShown

  /** The question asked when loading the questions throws. */
  const FallbackQuestion: string := "How are you feeling right now?"

  /** The wizard's question state. */
  datatype Wizard = Wizard(step: Step, questions: seq<string>, index: nat, answers: seq<string>)

  /** The synchronous part of `handleNextQuestion`: a blank input is ignored; otherwise the
      input is appended as typed, and the wizard moves to the next question or, after the
      last one, to the analysis. */
  function Answer(w: Wizard, input: string): (r: Wizard)
    ensures !HasText(input) ==> r == w
    ensures HasText(input) ==> r.answers == w.answers + [input] && r.questions == w.questions
    ensures HasText(input) && w.index + 1 < |w.questions| ==> r.index == w.index + 1 && r.step == w.step
    ensures HasText(input) && w.index + 1 >= |w.questions| ==> r.index == w.index && r.step == Analyzing
  {
    if !HasText(input) then w
    else if w.index + 1 < |w.questions| then w.(index := w.index + 1, answers := w.answers + [input])
    else w.(step := Analyzing, answers := w.answers + [input])
  }

  /** The inputs submitted one after another. */
  function AnswerAll(w: Wizard, inputs: seq<string>): Wizard
    decreases |inputs|
  {
    if inputs == [] then w else AnswerAll(Answer(w, inputs[0]), inputs[1..])
  }

  /** Answering the remaining questions, each with some text, from question `i` on. */
  lemma {:induction false} AnswerRest(questions: seq<string>, inputs: seq<string>, i: nat)
    requires 0 < |questions| == |inputs| && i < |inputs|
    requires forall k :: 0 <= k < |inputs| ==> HasText(inputs[k])
    ensures AnswerAll(Wizard(Questions, questions, i, inputs[..i]), inputs[i..]) ==
            Wizard(Analyzing, questions, |questions| - 1, inputs)
    decreases |inputs| - i
  {
    var w := Wizard(Questions, questions, i, inputs[..i]);
    assert inputs[..i] + [inputs[i]] == inputs[..i + 1];
    assert inputs[i..][1..] == inputs[i + 1..];
    if i + 1 < |questions| {
      AnswerRest(questions, inputs, i + 1);
    } else {
      assert inputs[..i + 1] == inputs;
      assert inputs[i + 1..] == [];
    }
  }

  /** Answering every one of `n > 0` questions with some text from a fresh start records
      exactly those inputs, stays on the last question and reaches the analysis. */
  lemma AnswerAllQuestions(questions: seq<string>, inputs: seq<string>)
    requires 0 < |questions| == |inputs|
    requires forall k :: 0 <= k < |inputs| ==> HasText(inputs[k])
    ensures AnswerAll(Wizard(Questions, questions, 0, []), inputs) == Wizard(Analyzing, questions, |questions| - 1, inputs)
  {
    AnswerRest(questions, inputs, 0);
    assert inputs[..0] == [] && inputs[0..] == inputs;
  }

  /** `questions.map((q, i) => ({ question: q, answer: newAnswers[i] }))`. */
  function QaPairs(questions: seq<string>, answers: seq<string>): (r: seq<QaPair>)
    requires |questions| <= |answers|
    ensures |r| == |questions|
    ensures forall i :: 0 <= i < |r| ==> r[i] == QaPair(questions[i], answers[i])
  {
    if questions == [] then [] else [QaPair(questions[0], answers[0])] + QaPairs(questions[1..], answers[1..])
  }

  class AssessmentModal {
    var step: Step
    var questions: seq<string>
    var currentQIndex: nat
    var answers: seq<string>
    var currentInput: string
    var result: Option<Assessment>
    /** The pairs of the last assessment request. */
    var sent: seq<QaPair>

    function State(): Wizard
      reads this
    {
      Wizard(step, questions, currentQIndex, answers)
    }

    /** Every question passed has its answer recorded. */
    predicate Valid()
      reads this
    {
      currentQIndex <= |answers|
    }

    constructor ()
      ensures Valid() && State() == Wizard(Intro, [], 0, []) && currentInput == "" && result.None?
    {
      step, questions, currentQIndex, answers, currentInput, result, sent := Intro, [], 0, [], "", None, [];
    }

    /** `handleStart`: through loading to the questions. The fetched questions start afresh at
        the first with no answers; when the request throws, only the single fallback question
        is set. */
    method Start(reply: Option<seq<string>>)
      requires Valid()
      modifies this`step, this`questions, this`currentQIndex, this`answers
      ensures Valid() && step == Questions
      ensures reply.Some? ==> questions == reply.value && currentQIndex == 0 && answers == []
      ensures reply.None? ==> questions == [FallbackQuestion] &&
                              currentQIndex == old(currentQIndex) && answers == old(answers)
    {
      step := LoadingQuestions;
      match reply {
        case Some(q) =>
          questions, step, currentQIndex, answers := q, Questions, 0, [];
        case None =>
          questions, step := [FallbackQuestion], Questions;
      }
    }

    /** `handleNextQuestion`, with the assessment request's reply: the answer step, and after
        the last question the request with the questions zipped with the answers, ending on
        the result, or back on the intro when the request throws. */
    method NextQuestion(reply: Option<Assessment>)
      requires Valid()
      modifies this`step, this`currentQIndex, this`answers, this`currentInput, this`result, this`sent
      ensures Valid()
      ensures !HasText(old(currentInput)) ==>
                State() == old(State()) && currentInput == old(currentInput) && sent == old(sent) && result == old(result)
      ensures HasText(old(currentInput)) ==> currentInput == ""
      ensures HasText(old(currentInput)) && old(currentQIndex) + 1 < |old(questions)| ==>
                State() == Answer(old(State()), old(currentInput)) && sent == old(sent) && result == old(result)
      ensures HasText(old(currentInput)) && old(currentQIndex) + 1 >= |old(questions)| ==>
                && State() == Answer(old(State()), old(currentInput)).(step := if reply.Some? then ResultShown else Intro)
                && sent == QaPairs(old(questions), old(answers) + [old(currentInput)])
                && result == (if reply.Some? then reply else old(result))
    {
      if !HasText(currentInput) {
        return;
      }
      var last := currentQIndex + 1 >= |questions|;
      var w := Answer(State(), currentInput);
      assert w.answers == answers + [currentInput] && w.questions == questions;
      assert w.index <= |w.answers|;
      answers, currentQIndex, step := w.answers, w.index, w.step;
      currentInput := "";
      if last {
        assert |questions| <= |w.answers|;
        sent := QaPairs(questions, w.answers);
        match reply {
          case Some(a) =>
            result, step := Some(a), ResultShown;
          case None =>
            step := Intro;
        }
      }
    }
  }
}
