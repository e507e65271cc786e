/** The agent page of the evaluator: the language model is shown the whole
    conversation on every page run; a reply containing `CALL:` is read as an
    action call, run through the action map and recorded, and any other reply
    is shown as a question with a 60-second answer box. The model's reply,
    the JSON parser and serialiser, the actions themselves and the clock are
    parameters. */
module EvaluatorAgent {
  import opened Base
  import opened Strings

  const CallMarker: string := "CALL:"
  const AnswerTimeLimit: int := 60

  /** The keys of `action_map`. */
  const ActionNames: seq<string> := ["generate_tags", "generate_question", "evaluate_mcq",
    "evaluate_short_answer", "run_code_in_sandbox", "update_beliefs", "summarize_results"]

  /** The sender of a conversation message; action messages carry the action's name. */
  datatype Role = System | User | Assistant | Action(name: string)

  datatype Message = Message(role: Role, content: string)

  /** How a reply reads: no call, a call the two unpackings reject, or an
      action name with the text of its arguments. */
  datatype CallParse = NotACall | Malformed | Call(name: string, argsText: string)

  /** `json.loads(args_json)`, as far as dispatch looks at it: a dictionary of
      keyword arguments, or any other JSON value. */
  datatype Arguments<J> = Keywords(fields: J) | NotKeywords

  /** What handling an action call showed. */
  datatype CallOutcome =
    | ParseFailed
    | Unrecognized(name: string)
    | ActionFailed(name: string)
    | Performed(name: string, resultText: string)

  /** A handled call: its outcome and what it appended to `action_results`
      and to `messages`. */
  datatype Effect<J> = Effect(outcome: CallOutcome, results: seq<(string, J)>, messages: seq<Message>)

  /** What a page run did with the reply. */
  datatype TurnOutcome = CallHandled(outcome: CallOutcome) | ReplyShown(remaining: nat)

  /** What pressing "Submit Answer" did. */
  datatype AnswerOutcome = Blank | Late | Recorded(answer: string)

  /** `_, rest = content.split("CALL:")` followed by
      `action_name, args_json = rest.strip().split(" ", 1)`. */
  function ParseCall(content: string): (p: CallParse)
    ensures p.NotACall? <==> !Contains(content, CallMarker)
    ensures p.Call? ==> IsStripped(p.name)
  {
    if !Contains(content, CallMarker) then NotACall
    else
      var parts := SplitOn(content, CallMarker);
      if |parts| != 2 then Malformed
      else
        var words := SplitFirst(Strip(parts[1]), " ");
        if |words| != 2 then Malformed else Call(Strip(words[0]), words[1])
  }

  /** A parsed call comes from a reply with exactly one marker, whose
      stripped remainder is the raw name, a space, and the argument text. */
  lemma CallParts(content: string) returns (before: string, rest: string, rawName: string)
    requires ParseCall(content).Call?
    ensures content == before + CallMarker + rest
    ensures !Contains(before, CallMarker) && !Contains(rest, CallMarker)
    ensures Strip(rest) == rawName + " " + ParseCall(content).argsText && !Contains(rawName, " ")
    ensures ParseCall(content).name == Strip(rawName)
  {
    var parts := SplitOn(content, CallMarker);
    JoinSplit(content, CallMarker);
    before, rest := parts[0], parts[1];
    assert Join(parts, CallMarker) == before + CallMarker + Join(parts[1..], CallMarker);
    assert parts[1..] == [rest];
    var words := SplitFirst(Strip(rest), " ");
    rawName := words[0];
  }

  /** A reply that holds the marker twice is rejected. */
  lemma TwoMarkersMalformed(a: string, b: string, c: string)
    ensures ParseCall(a + CallMarker + b + CallMarker + c).Malformed?
  {
    var s := a + CallMarker + b + CallMarker + c;
    var j1 := |a|;
    var j2 := |a| + |CallMarker| + |b|;
    assert s[j1..j1 + |CallMarker|] == CallMarker;
    assert s[j2..j2 + |CallMarker|] == CallMarker;
    SplitOnTwice(s, CallMarker, j1, j2);
  }

  /** A call whose stripped remainder has no space is rejected. */
  lemma NameOnlyMalformed(before: string, rest: string)
    requires !Contains(before, CallMarker) && !Contains(rest, CallMarker)
    requires Contains(before + CallMarker + rest, CallMarker)
    requires SplitOn(before + CallMarker + rest, CallMarker) == [before, rest]
    requires !Contains(Strip(rest), " ")
    ensures ParseCall(before + CallMarker + rest).Malformed?
  {
  }

  /** The call format of the instructions, `CALL: name args`, is read back
      into the name and the argument text, provided the name has no
      whitespace, the arguments end in a non-space and no other marker occurs. */
  lemma CallRoundTrip(name: string, args: string)
    requires name != [] && forall i :: 0 <= i < |name| ==> !IsSpace(name[i])
    requires args != [] && !IsSpace(args[|args| - 1])
    requires !Contains(" " + name + " " + args, CallMarker)
    ensures ParseCall(CallMarker + " " + name + " " + args) == Call(name, args)
  {
    var rest := " " + name + " " + args;
    var content := CallMarker + rest;
    assert content == CallMarker + " " + name + " " + args;
    assert content[..|CallMarker|] == CallMarker;
    assert FindFirst(content, CallMarker) == Some(0);
    assert content[|CallMarker|..] == rest;
    assert SplitOn(content, CallMarker) == [content[..0]] + SplitOn(rest, CallMarker);
    assert SplitOn(content, CallMarker) == ["", rest];
    var body := name + " " + args;
    assert rest == " " + body + "";
    assert IsStripped(body);
    StripOfPadded(" ", body, "");
    assert ' ' !in name;
    FindFirstAfter(name, " ", args);
    assert SplitFirst(body, " ") == [body[..|name|], body[|name| + 1..]];
    assert body[..|name|] == name && body[|name| + 1..] == args;
    assert IsStripped(name);
    StripStripped(name);
  }

  /** The outcome of the `CALL:` branch: an unreadable call or arguments are
      reported; an unknown name is reported and nothing is recorded; a known
      action is called with the keyword arguments (or with none when the
      arguments are not a dictionary). Its result is recorded, then the reply
      is appended, then the serialised result as an action message; a failure
      at any of these steps stops the rest. */
  function CallEffect<J>(content: string, parse: string -> Option<Arguments<J>>,
                         act: (string, Option<J>) -> Result<J>, dump: J -> Option<string>): (e: Effect<J>)
    requires Contains(content, CallMarker)
    ensures |e.messages| == 2 <==> e.outcome.Performed?
    ensures |e.results| == 1 <==> |e.messages| >= 1
    ensures |e.results| <= 1 && |e.messages| <= 2
    ensures e.results != [] ==>
      && ParseCall(content).Call?
      && e.results[0].0 == ParseCall(content).name
      && e.results[0].0 in ActionNames
    ensures e.messages != [] ==> e.messages[0] == Message(Assistant, content)
    ensures e.outcome.Performed? ==> e.messages[1] == Message(Action(e.outcome.name), e.outcome.resultText)
    ensures e.outcome.Unrecognized? ==> ParseCall(content).Call? && e.outcome.name !in ActionNames
    ensures e.outcome.ParseFailed? <==> !ParseCall(content).Call? || parse(ParseCall(content).argsText).None?
    ensures e.outcome.ParseFailed? || e.outcome.Unrecognized? ==> e.results == [] && e.messages == []
    ensures ParseCall(content).Call? && parse(ParseCall(content).argsText).Some?
            && ParseCall(content).name in ActionNames ==>
      e == PerformEffect(content, ParseCall(content).name, parse(ParseCall(content).argsText).value, act, dump)
  {
    match ParseCall(content)
    case Call(name, argsText) =>
      (match parse(argsText)
       case None => Effect(ParseFailed, [], [])
       case Some(args) =>
         if name !in ActionNames then Effect(Unrecognized(name), [], [])
         else PerformEffect(content, name, args, act, dump))
    case _ => Effect(ParseFailed, [], [])
  }

  /** The known action called, its result recorded, the reply appended, and
      the serialised result appended as an action message. */
  function PerformEffect<J>(content: string, name: string, args: Arguments<J>,
                            act: (string, Option<J>) -> Result<J>, dump: J -> Option<string>): (e: Effect<J>)
    ensures |e.messages| == 2 <==> e.outcome.Performed?
    ensures |e.results| == 1 <==> |e.messages| >= 1
    ensures |e.results| <= 1 && |e.messages| <= 2
    ensures e.results != [] ==> e.results[0].0 == name
    ensures e.messages != [] ==> e.messages[0] == Message(Assistant, content)
    ensures e.outcome.Performed? ==> e.messages[1] == Message(Action(e.outcome.name), e.outcome.resultText)
    ensures e.outcome.Performed? || e.outcome == ActionFailed(name)
    ensures var res := act(name, if args.Keywords? then Some(args.fields) else None);
      && (res.Err? ==> e == Effect(ActionFailed(name), [], []))
      && (res.Ok? ==> e.results == [(name, res.value)] && e.messages[0] == Message(Assistant, content)
                      && (e.outcome.Performed? <==> dump(res.value).Some?))
      && (e.outcome.Performed? ==> res.Ok? && e.outcome == Performed(name, dump(res.value).value))
  {
    var result := act(name, if args.Keywords? then Some(args.fields) else None);
    if result.Err? then Effect(ActionFailed(name), [], [])
    else
      var text := dump(result.value);
      if text.None? then Effect(ActionFailed(name), [(name, result.value)], [Message(Assistant, content)])
      else Effect(Performed(name, text.value), [(name, result.value)],
                  [Message(Assistant, content), Message(Action(name), text.value)])
  }

  /** A reply in the call format of the instructions, naming a known action
      whose arguments parse, whose call returns and whose result serialises,
      records that result and appends the reply and the serialised result. */
  lemma CallDispatched<J>(name: string, argsText: string, parse: string -> Option<Arguments<J>>,
                          act: (string, Option<J>) -> Result<J>, dump: J -> Option<string>)
    requires name != [] && forall i :: 0 <= i < |name| ==> !IsSpace(name[i])
    requires argsText != [] && !IsSpace(argsText[|argsText| - 1])
    requires !Contains(" " + name + " " + argsText, CallMarker)
    requires name in ActionNames && parse(argsText).Some?
    requires var args := parse(argsText).value;
      var res := act(name, if args.Keywords? then Some(args.fields) else None);
      res.Ok? && dump(res.value).Some?
    ensures var content := CallMarker + " " + name + " " + argsText;
      var args := parse(argsText).value;
      var v := act(name, if args.Keywords? then Some(args.fields) else None).value;
      CallEffect(content, parse, act, dump)
        == Effect(Performed(name, dump(v).value), [(name, v)],
                  [Message(Assistant, content), Message(Action(name), dump(v).value)])
  {
    var content := CallMarker + " " + name + " " + argsText;
    CallRoundTrip(name, argsText);
    assert ParseCall(content).Call?;
  }

  /** A call that names no known action records nothing. */
  lemma UnknownActionRecordsNothing<J>(content: string, parse: string -> Option<Arguments<J>>,
                                       act: (string, Option<J>) -> Result<J>, dump: J -> Option<string>)
    requires Contains(content, CallMarker) && ParseCall(content).Call?
    requires ParseCall(content).name !in ActionNames
    ensures CallEffect(content, parse, act, dump).results == []
    ensures CallEffect(content, parse, act, dump).messages == []
  {
  }

  /** `remaining_time = max(0, int(60 - elapsed))`. */
  function RemainingTime(start: real, now: real): (r: nat)
    ensures start <= now ==> r <= AnswerTimeLimit
  {
    var t := Trunc(AnswerTimeLimit as real - (now - start));
    if t > 0 then t else 0
  }

  /** An answer is taken when at most 60 seconds have passed. */
  predicate InTime(start: real, now: real) {
    now - start <= AnswerTimeLimit as real
  }

  /** What "Submit Answer" does with the stripped answer: nothing when it is
      blank, records it when at most 60 seconds have passed since the
      question was shown, and otherwise reports it late. */
  function AnswerGate(answer: string, start: real, now: real): (r: AnswerOutcome)
    ensures r.Blank? <==> answer == []
    ensures r.Recorded? <==> answer != [] && InTime(start, now)
    ensures r.Recorded? ==> r.answer == answer
  {
    if answer == [] then Blank
    else if now - start > AnswerTimeLimit as real then Late
    else Recorded(answer)
  }

  /** The countdown shows zero exactly once more than 59 seconds have passed. */
  lemma RemainingZero(start: real, now: real)
    requires start <= now
    ensures RemainingTime(start, now) == 0 <==> now - start > (AnswerTimeLimit - 1) as real
  {
    var x := AnswerTimeLimit as real - (now - start);
    var t := Trunc(x);
    if now - start > (AnswerTimeLimit - 1) as real && x >= 0.0 {
      assert x < 1.0;
    }
  }

  /** While the countdown shows time left the answer is taken; but during the
      last second before the limit the countdown already shows zero, with the
      "not evaluated" notice, and an answer submitted then is still taken. */
  lemma GateDisagreesInLastSecond(start: real, now: real)
    requires start <= now
    ensures RemainingTime(start, now) > 0 ==> InTime(start, now)
    ensures (AnswerTimeLimit - 1) as real < now - start <= AnswerTimeLimit as real ==>
      RemainingTime(start, now) == 0 && InTime(start, now)
  {
    RemainingZero(start, now);
  }

  /** The agent page's session: the conversation, the recorded action
      results, whether the assessment started, the question timer, the
      clear-the-answer-box flag, and the answer box itself. */
  class AgentSession<J> {
    var messages: seq<Message>
    var actionResults: seq<(string, J)>
    var started: bool
    var questionStartTime: Option<real>
    var clearInputNext: bool
    var answerInput: string

    /** The first page run: the conversation holds the action instructions
        as its system message. */
    constructor(instructions: string)
      ensures messages == [Message(System, Strip(instructions))] && actionResults == []
      ensures !started && questionStartTime == None && !clearInputNext && answerInput == ""
    {
      messages := [Message(System, Strip(instructions))];
      actionResults := [];
      started := false;
      questionStartTime := None;
      clearInputNext := false;
      answerInput := "";
    }

    /** "Start Assessment". */
    method StartAssessment(topic: string)
      requires !started
      modifies this
      ensures started && messages == old(messages) + [Message(User, "Start evaluating the topic: " + topic)]
      ensures actionResults == old(actionResults) && questionStartTime == old(questionStartTime)
      ensures clearInputNext == old(clearInputNext) && answerInput == old(answerInput)
    {
      started := true;
      messages := messages + [Message(User, "Start evaluating the topic: " + topic)];
    }

    /** The user typing into the answer box. */
    method EnterAnswer(text: string)
      modifies this
      ensures answerInput == text
      ensures messages == old(messages) && actionResults == old(actionResults) && started == old(started)
      ensures questionStartTime == old(questionStartTime) && clearInputNext == old(clearInputNext)
    {
      answerInput := text;
    }

    /** The `CALL:` branch of a page run. */
    method HandleCall(content: string, parse: string -> Option<Arguments<J>>,
                      act: (string, Option<J>) -> Result<J>, dump: J -> Option<string>)
      returns (outcome: CallOutcome)
      requires started && Contains(content, CallMarker)
      modifies this
      ensures var e := CallEffect(content, parse, act, dump);
        && outcome == e.outcome
        && actionResults == old(actionResults) + e.results
        && messages == old(messages) + e.messages
      ensures started == old(started) && questionStartTime == old(questionStartTime)
      ensures clearInputNext == old(clearInputNext) && answerInput == old(answerInput)
    {
      var p := ParseCall(content);
      if !p.Call? {
        return ParseFailed;
      }
      var actionName := p.name;
      var args := parse(p.argsText);
      if args.None? {
        return ParseFailed;
      }
      if actionName !in ActionNames {
        return Unrecognized(actionName);
      }
      outcome := Perform(content, actionName, args.value, act, dump);
    }

    /** Calling a known action and recording it; an exception from the
        action or from serialising its result is caught and reported. */
    method Perform(content: string, actionName: string, args: Arguments<J>,
                   act: (string, Option<J>) -> Result<J>, dump: J -> Option<string>)
      returns (outcome: CallOutcome)
      modifies this
      ensures var e := PerformEffect(content, actionName, args, act, dump);
        && outcome == e.outcome
        && actionResults == old(actionResults) + e.results
        && messages == old(messages) + e.messages
      ensures started == old(started) && questionStartTime == old(questionStartTime)
      ensures clearInputNext == old(clearInputNext) && answerInput == old(answerInput)
    {
      var result := act(actionName, if args.Keywords? then Some(args.fields) else None);
      if result.Err? {
        return ActionFailed(actionName);
      }
      actionResults := actionResults + [(actionName, result.value)];
      messages := messages + [Message(Assistant, content)];
      var text := dump(result.value);
      if text.None? {
        return ActionFailed(actionName);
      }
      messages := messages + [Message(Action(actionName), text.value)];
      return Performed(actionName, text.value);
    }

    /** The other branch of a page run: the reply is appended as a question,
        a pending clear of the answer box is carried out, the timer starts if
        it has not, and the seconds left are shown. */
    method ShowReply(content: string, now: real) returns (remaining: nat)
      requires started && !Contains(content, CallMarker)
      modifies this
      ensures messages == old(messages) + [Message(Assistant, content)]
      ensures questionStartTime == Some(if old(questionStartTime).Some? then old(questionStartTime).value else now)
      ensures remaining == RemainingTime(questionStartTime.value, now)
      ensures !clearInputNext && answerInput == (if old(clearInputNext) then "" else old(answerInput))
      ensures actionResults == old(actionResults) && started == old(started)
    {
      messages := messages + [Message(Assistant, content)];
      if clearInputNext {
        answerInput := "";
        clearInputNext := false;
      }
      if questionStartTime.None? {
        questionStartTime := Some(now);
      }
      remaining := RemainingTime(questionStartTime.value, now);
    }

    /** One page run after the start: the reply decides the branch. */
    method Turn(content: string, now: real, parse: string -> Option<Arguments<J>>,
                act: (string, Option<J>) -> Result<J>, dump: J -> Option<string>)
      returns (outcome: TurnOutcome)
      requires started
      modifies this
      ensures outcome.CallHandled? <==> ParseCall(content) != NotACall
      ensures outcome.CallHandled? ==>
        var e := CallEffect(content, parse, act, dump);
        outcome.outcome == e.outcome && messages == old(messages) + e.messages
        && actionResults == old(actionResults) + e.results
      ensures outcome.ReplyShown? ==>
        messages == old(messages) + [Message(Assistant, content)] && actionResults == old(actionResults)
    {
      if Contains(content, CallMarker) {
        var o := HandleCall(content, parse, act, dump);
        outcome := CallHandled(o);
      } else {
        var r := ShowReply(content, now);
        outcome := ReplyShown(r);
      }
    }

    /** "Submit Answer", pressed in a run that showed a question: a blank
        answer does nothing; otherwise the stripped answer is appended as a
        user message if at most 60 seconds have passed, and in either case
        the box is marked for clearing and the timer is dropped. */
    method SubmitAnswer(now: real) returns (outcome: AnswerOutcome)
      requires started && questionStartTime.Some?
      modifies this
      ensures outcome == AnswerGate(Strip(old(answerInput)), old(questionStartTime).value, now)
      ensures messages == old(messages) + (if outcome.Recorded? then [Message(User, outcome.answer)] else [])
      ensures outcome.Blank? ==> clearInputNext == old(clearInputNext) && questionStartTime == old(questionStartTime)
      ensures !outcome.Blank? ==> clearInputNext && questionStartTime == None
      ensures actionResults == old(actionResults) && started == old(started) && answerInput == old(answerInput)
    {
      var answer := Strip(answerInput);
      if answer == [] {
        return Blank;
      }
      var timeTaken := now - questionStartTime.value;
      if timeTaken > AnswerTimeLimit as real {
        outcome := Late;
      } else {
        messages := messages + [Message(User, answer)];
        outcome := Recorded(answer);
      }
      clearInputNext := true;
      questionStartTime := None;
    }
  }
}
