/** The agent's intent router (backend/agent_service.py): the keyword rule of `detect_intent`
    that picks the conversation phase, the `router` that returns it, and the conditional edges
    from the phase to the node that answers. The nodes' language-model calls are not part of
    this model; the messages each node hands to the model are. */
module AgentService {
  import opened Wrappers
  import opened Strings
  import BackendMain

  /** The values of `current_phase`. */
  datatype Phase = Start | Cbt | Crisis | General

  /** The answering nodes. */
  datatype Node = CrisisNode | CbtNode | GeneralChatNode

  const CrisisKeywords: seq<string> := ["kill myself", "suicide", "hurt myself", "end it all", "don't want to live"]
  const CbtTriggerKeywords: seq<string> := ["anxious", "depressed", "stuck", "overwhelmed", "hopeless"]

  /** `any(k in text for k in keywords)`. */
  predicate AnyKeyword(text: string, keywords: seq<string>)
  {
    exists i :: 0 <= i < |keywords| && Contains(text, keywords[i])
  }

  /** `detect_intent`, on the content of the last message and the phase so far. The text is
      lower-cased first. Crisis words win in every phase; in the CBT phase, "stop" or "exit"
      leaves it and anything else stays; otherwise a trigger word starts CBT, and the rest is
      general chat. */
  function DetectIntent(phase: Phase, lastContent: string): (r: Phase)
    ensures r != Start
    ensures AnyKeyword(Lower(lastContent), CrisisKeywords) <==> r == Crisis
  {
    var text := Lower(lastContent);
    if AnyKeyword(text, CrisisKeywords) then Crisis
    else if phase == Cbt then
      (if Contains(text, "stop") || Contains(text, "exit") then General else Cbt)
    else if AnyKeyword(text, CbtTriggerKeywords) then Cbt
    else General
  }

  /** The conditional edge map: the three phases `detect_intent` produces each lead to their
      node; any other value has no edge. */
  function EdgeTarget(phase: Phase): (r: Option<Node>)
    ensures r.None? <==> phase == Start
  {
    match phase
    case Crisis => Some(CrisisNode)
    case Cbt => Some(CbtNode)
    case General => Some(GeneralChatNode)
    case Start => None
  }

  /** `router` returns the phase, and the node run after `detect_intent`. */
  function NextNode(phase: Phase, lastContent: string): (r: Option<Node>)
  {
    EdgeTarget(DetectIntent(phase, lastContent))
  }

  /** Every message reaches a node: the phase `detect_intent` sets always has an edge, and the
      crisis node answers exactly the messages with a crisis word. */
  lemma AlwaysRouted(phase: Phase, lastContent: string)
    ensures NextNode(phase, lastContent).Some?
    ensures NextNode(phase, lastContent) == Some(CrisisNode) <==> AnyKeyword(Lower(lastContent), CrisisKeywords)
  {
  }

  /** Lower-casing keeps a text without capitals as it is. */
  lemma LowerKeeps(s: string)
    requires forall i :: 0 <= i < |s| ==> !('A' <= s[i] <= 'Z')
    ensures Lower(s) == s
  {
  }

  /** A crisis word anywhere in the message, in any phase, sends it to the crisis node. */
  lemma CrisisOverrides(phase: Phase, before: string, i: nat, after: string)
    requires i < |CrisisKeywords|
    ensures DetectIntent(phase, before + CrisisKeywords[i] + after) == Crisis
  {
    var k := CrisisKeywords[i];
    LowerKeeps(k);
    LowerAppend(before + k, after);
    LowerAppend(before, k);
    assert Contains(k, k) by {
      assert k[..|k|] == k;
    }
    ContainsExtend(k, k, Lower(before), Lower(after));
    assert Lower(before + k + after) == Lower(before) + k + Lower(after);
  }

  /** The rule does not see capitals: a message decides the same as its lower-cased form. */
  lemma CaseInsensitive(phase: Phase, lastContent: string)
    ensures DetectIntent(phase, Lower(lastContent)) == DetectIntent(phase, lastContent)
  {
    LowerIdempotent(lastContent);
  }

  /** The CBT phase is sticky: a message with neither a crisis word nor "stop" nor "exit"
      keeps it, whether or not it has a trigger word. Outside it, the same message leads to
      CBT only with a trigger word. */
  lemma CbtSticky(phase: Phase, lastContent: string)
    requires !AnyKeyword(Lower(lastContent), CrisisKeywords)
    requires !Contains(Lower(lastContent), "stop") && !Contains(Lower(lastContent), "exit")
    ensures phase == Cbt ==> DetectIntent(phase, lastContent) == Cbt
    ensures phase != Cbt ==> (DetectIntent(phase, lastContent) == Cbt <==> AnyKeyword(Lower(lastContent), CbtTriggerKeywords))
  {
  }

  /** `state['messages'][-5:]`: the last five messages, or all of them when there are fewer. */
  function LastFive(messages: seq<BackendMain.LcMessage>): (r: seq<BackendMain.LcMessage>)
    ensures |r| == if |messages| < 5 then |messages| else 5
    ensures messages == messages[..|messages| - |r|] + r
  {
    if |messages| < 5 then messages else messages[|messages| - 5..]
  }

  /** What each node hands to the model: the crisis node its protocol and the last message;
      the others their own system prompt and the last five messages. The prompt texts are
      parameters. */
  function NodeInput(node: Node, prompt: string, messages: seq<BackendMain.LcMessage>): (r: seq<BackendMain.LcMessage>)
    requires |messages| > 0
    ensures |r| >= 2 && r[0] == BackendMain.SystemMessage(prompt)
    ensures r[|r| - 1] == messages[|messages| - 1]
    ensures node == CrisisNode ==> |r| == 2
    ensures node != CrisisNode ==> r[1..] == LastFive(messages)
  {
    if node == CrisisNode then [BackendMain.SystemMessage(prompt), messages[|messages| - 1]]
    else [BackendMain.SystemMessage(prompt)] + LastFive(messages)
  }

  /** The endpoint starts every request in the 'start' phase, so the sticky CBT rule never
      applies to it: the phase comes from the crisis and trigger words alone. */
  lemma EndpointStartsFresh(lastContent: string)
    ensures DetectIntent(Start, lastContent) ==
              if AnyKeyword(Lower(lastContent), CrisisKeywords) then Crisis
              else if AnyKeyword(Lower(lastContent), CbtTriggerKeywords) then Cbt
              else General
  {
  }
}
