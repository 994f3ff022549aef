/** The remote methods and the capability that each of them needs, with the capability names that the device file holds
    and that the loader reads back. Dispatch checks a method against them, and a pairing grants no more than
    its token allows. */
module Protocol {

  import opened Wrappers

  datatype Capability = Observe | Prompt | Approve | AnswerQuestion

  datatype RemoteMethod =
    | SessionList | SessionAttach | PromptSubmit | ApprovalRespond | QuestionRespond | StreamAck | Ping

  /** A ping needs no capability. */
  function RequiredCapability(m: RemoteMethod): Option<Capability> {
    match m
    case SessionList => Some(Observe)
    case SessionAttach => Some(Observe)
    case PromptSubmit => Some(Prompt)
    case ApprovalRespond => Some(Approve)
    case QuestionRespond => Some(AnswerQuestion)
    case StreamAck => Some(Observe)
    case Ping => None
  }

  function CapabilityName(c: Capability): string {
    match c
    case Observe => "observe"
    case Prompt => "prompt"
    case Approve => "approve"
    case AnswerQuestion => "answer-question"
  }

  function ParseCapability(s: string): Option<Capability> {
    if s == "observe" then Some(Observe)
    else if s == "prompt" then Some(Prompt)
    else if s == "approve" then Some(Approve)
    else if s == "answer-question" then Some(AnswerQuestion)
    else None
  }

  lemma CapabilityNames(c: Capability)
    ensures ParseCapability(CapabilityName(c)) == Some(c)
  {
    assert "observe"[0] == 'o' && "prompt"[0] == 'p' && "approve"[..2] == "ap" && "answer-question"[..2] == "an";
  }
}
