/** The producer: a client that keeps an append-only chat history with receipts, and the
    rollout loop that drives it.  Main result: whatever the model and the retriever answer,
    a rollout that completes leaves an audit the separate checker accepts. */
module TeacherRollout {
  import opened Outcome
  import opened Sequences
  import opened ChatHistory
  import opened ContinuationChecker

  // -------------------------------------------------------------------- replies

  datatype Finish = Stop | ToolCalls | Interrupted | OtherFinish

  /** `usable`: a function call with an identifier, naming the one tool; `action` is absent
      when the arguments are not exactly one action string. */
  datatype RawCall = RawCall(usable: bool, id: string, action: Option<string>)

  /** One reply of the API; `receipt` is its identifier when identifier and model are there,
      `shaped` says that it holds exactly one assistant choice. */
  datatype Reply =
    | Unreachable
    | Reply(receipt: Option<string>, shaped: bool, finish: Finish, calls: seq<RawCall>,
            content: Option<string>, reasoning: Option<string>, reported: Option<nat>)

  datatype Failure =
    | InvalidInput | ApiFailure | BadReply | OverLimit | Integrity | BadObservation | BadAction | BadAnswer | Unfinished

  datatype Output = FunctionCall(call: ToolCall) | TextOut(text: string)

  datatype Response = Response(id: string, assistant: Message, output: Output)

  datatype Pending = Pending(id: string, input: seq<Manifest>, message: Manifest, output: Output)

  /** The search in a reply: a native call, or a block written in the content. */
  function ExtractSearch(rules: Rules, reply: Reply, choice: Choice): Result<Option<ToolCall>, Failure>
    requires reply.Reply? && reply.receipt.Some?
  {
    var content := if reply.content.Some? then reply.content.value else "";
    if |reply.calls| > 1 then Err(BadReply)
    else if |reply.calls| == 1 then
      var call := reply.calls[0];
      if choice == NoTool || reply.finish != ToolCalls then Err(BadReply)
      else if !call.usable || call.id == "" || call.action.None? then Err(BadReply)
      else if rules.extract(call.action.value).None? then Err(BadReply)
      else
        var action := rules.extract(call.action.value).value;
        if content != "" && rules.mentionsAnswer(content) then Err(BadReply)
        else if content != "" && rules.mentionsSearch(content) && rules.extract(content) != Some(action) then
          Err(BadReply)
        else Ok(Some(ToolCall(call.id, action)))
    else if reply.content.Some? && rules.mentionsSearch(content) then
      if choice == NoTool || reply.finish != Stop || rules.extract(content).None? then Err(BadReply)
      else
        var id := "call_extracted_" + rules.digest(reply.receipt.value + content);
        Ok(Some(ToolCall(id, rules.extract(content).value)))
    else Ok(None)
  }

  /** The message that a reply becomes in the history. */
  function ReadReply(
      rules: Rules, thinking: bool, reply: Reply, choice: Choice, seen: set<string>): (r: Result<Message, Failure>)
    requires reply.Reply?
    ensures r.Ok? ==> Answer(rules, thinking, r.value, choice, seen)
    ensures r.Err? ==> r.error == BadReply || r.error == ApiFailure
  {
    if reply.receipt.None? || !reply.shaped then Err(BadReply)
    else if reply.finish == Interrupted then Err(ApiFailure)
    else if reply.finish == OtherFinish then Err(BadReply)
    else
      var search := ExtractSearch(rules, reply, choice);
      var reasoning := if thinking then reply.reasoning else None;
      if search.Err? then Err(BadReply)
      else if thinking && reasoning.None? then Err(BadReply)
      else if search.value.Some? then
        if search.value.value.id in seen then Err(BadReply) else Ok(Assistant("", search.value, reasoning))
      else if reply.finish != Stop || reply.content.None? || rules.isBlank(reply.content.value) then Err(BadReply)
      else Ok(Assistant(reply.content.value, None, reasoning))
  }

  /** What a reply is read as was written by the model.  A search is the literal block in the
      single native call, which then stands beside no answer and no other search, or in the
      content when there is no call; a final answer is the content itself, unchanged, and holds
      no search: once no tool is allowed, a reply that searches is refused. */
  lemma ReadIsModelWritten(rules: Rules, thinking: bool, reply: Reply, choice: Choice, seen: set<string>)
    requires reply.Reply? && ReadReply(rules, thinking, reply, choice, seen).Ok?
    ensures var a := ReadReply(rules, thinking, reply, choice, seen).value;
      match a.search
      case Some(call) =>
        || (reply.calls == [] && reply.content.Some? && reply.finish == Stop
            && rules.extract(reply.content.value) == Some(call.action))
        || (|reply.calls| == 1 && reply.finish == ToolCalls && NativeCall(rules, reply, call))
      case None =>
        && reply.calls == [] && reply.content == Some(a.content) && reply.finish == Stop
        && !rules.mentionsSearch(a.content)
  {
    if |reply.calls| == 0 { assert reply.calls == []; }
  }

  predicate NativeCall(rules: Rules, reply: Reply, call: ToolCall)
    requires reply.Reply? && |reply.calls| == 1
  {
    && reply.calls[0].usable && reply.calls[0].id == call.id
    && reply.calls[0].action.Some? && rules.extract(reply.calls[0].action.value) == Some(call.action)
    && (reply.content.Some? && reply.content.value != "" ==>
          && !rules.mentionsAnswer(reply.content.value)
          && (rules.mentionsSearch(reply.content.value) ==> rules.extract(reply.content.value) == Some(call.action)))
  }

  /** An assistant message the client may act on. */
  ghost predicate Answer(rules: Rules, thinking: bool, a: Message, choice: Choice, seen: set<string>) {
    && a.Assistant?
    && (a.reasoning.Some? <==> thinking)
    && (a.search.Some? ==>
          && a.content == "" && choice != NoTool && a.search.value.id != "" && a.search.value.id !in seen
          && (Idempotent(rules) ==> rules.extract(a.search.value.action) == Some(a.search.value.action)))
  }

  function OutputOf(a: Message): Output
    requires a.Assistant?
  {
    if a.search.Some? then FunctionCall(a.search.value) else TextOut(a.content)
  }

  // --------------------------------------------------------------- what is sent

  function Note(rules: Rules, choice: Choice, repair: bool): seq<Message> {
    if choice == NoTool && !repair then [User(rules.exhausted)] else []
  }

  function WireChoice(thinking: bool, choice: Choice): Choice {
    if thinking && choice == Required then Auto else choice
  }

  /** The audit of a request before its answer is read. */
  function Sent(rules: Rules, settings: Settings, messages: seq<Message>, choice: Choice): Call {
    var wire := [System(rules.instructions)] + messages;
    Call(Manifests(wire), Some(WireChoice(settings.thinking, choice)), Some(settings),
         ReasoningMessages(wire), ReasoningCharacters(wire), Unread, None, false)
  }

  function ActionOf(a: Message): Action
    requires a.Assistant?
  {
    if a.search.Some? then SearchAction(a.search.value.id, a.search.value) else FinalAction(a.content)
  }

  function Answered(sent: Call, a: Message): Call
    requires a.Assistant?
  {
    sent.(action := ActionOf(a), response := Some(ManifestOf(a)))
  }

  // --------------------------------------------------------------------- client

  class History {
    var messages: seq<Message>

    constructor (start: seq<Message>)
      ensures messages == start
    {
      messages := start;
    }
  }

  class Client {
    const rules: Rules
    const settings: Settings
    const reasoningLimit: nat
    var calls: seq<Call>
    var expected: Option<seq<Manifest>>
    var pending: Option<Pending>
    var lastWire: seq<Message>
    var reasoningUsed: nat

    constructor (rules: Rules, settings: Settings, reasoningLimit: nat)
      ensures this.rules == rules && this.settings == settings && this.reasoningLimit == reasoningLimit
      ensures calls == [] && expected == None && pending == None && reasoningUsed == 0
    {
      this.rules, this.settings, this.reasoningLimit := rules, settings, reasoningLimit;
      calls, expected, pending, lastWire, reasoningUsed := [], None, None, [], 0;
    }

    /** A new question: only the audited calls are kept. */
    method BeginTrajectory()
      modifies this
      ensures calls == old(calls) && expected == None && pending == None && lastWire == [] && reasoningUsed == 0
    {
      expected, pending, lastWire, reasoningUsed := None, None, [], 0;
    }

    /** The history this client expects to see next. */
    ghost predicate Current(history: seq<Message>)
      reads this
    {
      WellFormed(rules, settings.thinking, history) && (expected == None || expected == Some(Manifests(history)))
    }

    /** One request.  Success adds exactly one answered call; failure at most an unanswered one. */
    method CreateOnce(history: seq<Message>, choice: Choice, repair: bool, replies: nat -> Reply)
      returns (r: Result<Response, Failure>)
      modifies this
      ensures expected == old(expected)
      ensures old(calls) <= calls && |calls| <= |old(calls)| + 1
      ensures r.Ok? ==>
        && WellFormed(rules, settings.thinking, history)
        && Answer(rules, settings.thinking, r.value.assistant, choice, CallIds(history))
        && r.value.output == OutputOf(r.value.assistant)
        && lastWire == history + Note(rules, choice, repair)
        && calls == old(calls) + [Answered(Sent(rules, settings, lastWire, choice), r.value.assistant)]
        && pending == Some(Pending(r.value.id, Manifests(history), ManifestOf(r.value.assistant), r.value.output))
        && reasoningUsed <= reasoningLimit
      ensures old(Current(history)) ==> r != Err(Integrity)
      ensures r.Err? ==> r.error in {Integrity, OverLimit, ApiFailure, BadReply}
    {
      var seen := ValidateHistory(rules, settings.thinking, history);
      if seen.None? || (expected.Some? && expected.value != Manifests(history)) { return Err(Integrity); }
      pending := None;
      var messages := history + Note(rules, choice, repair);
      if !rules.requestFits(messages) { return Err(OverLimit); }
      lastWire := messages;
      var reply := replies(|calls|);
      var sent := Sent(rules, settings, messages, choice);
      if reply.Unreachable? {
        calls := calls + [sent.(choice := None, settings := None)];
        return Err(ApiFailure);
      }
      r := Receive(history, choice, sent, seen.value, reply);
    }

    /** The audit of a request that got a reply, and of its answer when it is taken. */
    method Receive(history: seq<Message>, choice: Choice, sent: Call, seen: set<string>, reply: Reply)
      returns (r: Result<Response, Failure>)
      requires reply.Reply?
      modifies this`calls, this`pending, this`reasoningUsed
      ensures old(calls) <= calls && |calls| == |old(calls)| + 1
      ensures r.Ok? ==>
        && Answer(rules, settings.thinking, r.value.assistant, choice, seen)
        && r.value.output == OutputOf(r.value.assistant)
        && calls == old(calls) + [Answered(sent, r.value.assistant)]
        && pending == Some(Pending(r.value.id, Manifests(history), ManifestOf(r.value.assistant), r.value.output))
        && reasoningUsed <= reasoningLimit
      ensures r.Err? ==> r.error in {OverLimit, ApiFailure, BadReply}
    {
      calls := calls + [sent];
      var read := ReadReply(rules, settings.thinking, reply, choice, seen);
      if read.Err? { return Err(read.error); }
      var a := read.value;
      reasoningUsed := reasoningUsed + ReasoningCharge(reply, a);
      if reasoningUsed > reasoningLimit { return Err(OverLimit); }
      LastReplaced(old(calls), sent, Answered(sent, a));
      calls := calls[|calls| - 1 := Answered(sent, a)];
      pending := Some(Pending(reply.receipt.value, Manifests(history), ManifestOf(a), OutputOf(a)));
      return Ok(Response(reply.receipt.value, a, OutputOf(a)));
    }

    function ReasoningCharge(reply: Reply, a: Message): nat
      requires reply.Reply? && a.Assistant? && (settings.thinking ==> a.reasoning.Some?)
    {
      if !settings.thinking then 0
      else if reply.reported.Some? then reply.reported.value
      else rules.utf8Length(a.reasoning.value)
    }

    /** One turn: a request, and one repair when its answer is complete but over budget. */
    method Create(history: seq<Message>, choice: Choice, replies: nat -> Reply)
      returns (r: Result<Response, Failure>, ghost discarded: Option<Message>)
      requires history != []
      modifies this
      ensures old(calls) <= calls && |calls| <= |old(calls)| + 2
      ensures r.Ok? ==>
        && WellFormed(rules, settings.thinking, history)
        && r.value.assistant.Assistant? && r.value.output == OutputOf(r.value.assistant)
        && Turn(rules, settings, history, choice, discarded, r.value.assistant, calls[|old(calls)|..])
      ensures r.Ok? && discarded == None ==>
        && expected == old(expected)
        && pending == Some(Pending(r.value.id, Manifests(history), ManifestOf(r.value.assistant), r.value.output))
      ensures old(Current(history)) ==> r != Err(Integrity)
      ensures r.Err? ==> r.error in {Integrity, OverLimit, ApiFailure, BadReply, BadAction}
    {
      discarded := None;
      r := CreateOnce(history, choice, false, replies);
      if r.Err? { return; }
      if r.value.output.FunctionCall? || rules.parseAnswer(r.value.output.text) != OverBudget { return; }
      var first := r.value.assistant;
      discarded := Some(first);
      var wire := lastWire;
      RepairExtends(rules, settings.thinking, history, Note(rules, choice, false), first);
      r := Repair(wire + [first, User(rules.repair)], replies);
      if r.Ok? {
        assert calls == old(calls) + calls[|old(calls)|..];
      }
    }

    /** Mark the last call as discarded and ask once more, without tools. */
    method Repair(correction: seq<Message>, replies: nat -> Reply) returns (r: Result<Response, Failure>)
      requires calls != []
      modifies this
      ensures |old(calls)| <= |calls| <= |old(calls)| + 1
      ensures calls[..|old(calls)| - 1] == old(calls)[..|old(calls)| - 1]
      ensures r.Ok? ==>
        && r.value.assistant.Assistant? && r.value.assistant.search.None?
        && r.value.output == OutputOf(r.value.assistant)
        && (r.value.assistant.reasoning.Some? <==> settings.thinking)
        && rules.parseAnswer(r.value.assistant.content) == Fits
        && calls[|old(calls)| - 1..] == [old(calls)[|old(calls)| - 1].(discarded := true),
                                         Answered(Sent(rules, settings, correction, NoTool), r.value.assistant)]
      ensures WellFormed(rules, settings.thinking, correction) ==> r != Err(Integrity)
      ensures r.Err? ==> r.error in {Integrity, OverLimit, ApiFailure, BadReply, BadAction}
    {
      calls := calls[..|calls| - 1] + [calls[|calls| - 1].(discarded := true)];
      expected := Some(Manifests(correction));
      label Marked:
      r := CreateOnce(correction, NoTool, true, replies);
      assert calls[..|old(calls)|] == old@Marked(calls);
      if r.Ok? {
        assert correction + [] == correction;
        if rules.parseAnswer(r.value.output.text) != Fits { return Err(BadAction); }
      }
    }

    /** The search and its observation enter the history together, and only when every
        receipt matches what this client last returned. */
    method AppendToolResult(history: History, response: Response, call: Output, information: string)
      returns (r: Result<(), Failure>)
      modifies this, history
      ensures calls == old(calls)
      ensures r.Ok? <==> Appendable(old(pending), old(history.messages), response, call, information)
      ensures r.Ok? ==>
        && history.messages == old(history.messages) + [response.assistant, Tool(call.call.id, information)]
        && expected == Some(Manifests(history.messages)) && pending == None
      ensures r.Err? ==>
        history.messages == old(history.messages) && expected == old(expected) && pending == old(pending)
      ensures r.Err? ==>
        r.error == if Receipted(old(pending), old(history.messages), response, call) && !rules.infoOk(information)
                   then BadObservation else Integrity
    {
      var before := ValidateHistory(rules, settings.thinking, history.messages);
      if before.None? || pending.None? { return Err(Integrity); }
      var p := pending.value;
      if response.id != p.id || !response.assistant.Assistant? || ManifestOf(response.assistant) != p.message
         || Manifests(history.messages) != p.input || response.output != p.output
      { return Err(Integrity); }
      if !response.output.FunctionCall? || response.output != call { return Err(Integrity); }
      if !rules.infoOk(information) { return Err(BadObservation); }
      var candidate := history.messages + [response.assistant, Tool(call.call.id, information)];
      var after := ValidateHistory(rules, settings.thinking, candidate);
      if after.None? { return Err(Integrity); }
      expected := Some(Manifests(candidate));
      history.messages := candidate;
      pending := None;
      return Ok(());
    }

    /** The response, its call and the history are the ones this client last handed out. */
    ghost predicate Receipted(pending: Option<Pending>, h: seq<Message>, response: Response, call: Output) {
      && WellFormed(rules, settings.thinking, h)
      && response.assistant.Assistant? && call.FunctionCall?
      && pending == Some(Pending(response.id, Manifests(h), ManifestOf(response.assistant), call))
      && response.output == call
    }

    ghost predicate Appendable(
        pending: Option<Pending>, h: seq<Message>, response: Response, call: Output, information: string)
    {
      && Receipted(pending, h, response, call)
      && rules.infoOk(information)
      && WellFormed(rules, settings.thinking, h + [response.assistant, Tool(call.call.id, information)])
    }
  }

  /** The calls one turn adds: the answered request, or a discarded one and its repair. */
  ghost predicate Turn(rules: Rules, settings: Settings, history: seq<Message>, choice: Choice,
                       discarded: Option<Message>, a: Message, added: seq<Call>)
    requires a.Assistant?
  {
    var wire := history + Note(rules, choice, false);
    match discarded
    case None =>
      && Answer(rules, settings.thinking, a, choice, CallIds(history))
      && added == [Answered(Sent(rules, settings, wire, choice), a)]
    case Some(first) =>
      && Answer(rules, settings.thinking, first, choice, CallIds(history)) && first.search.None?
      && a.search.None? && rules.parseAnswer(a.content) == Fits
      && (a.reasoning.Some? <==> settings.thinking)
      && added == [Answered(Sent(rules, settings, wire, choice), first).(discarded := true),
                   Answered(Sent(rules, settings, wire + [first, User(rules.repair)], NoTool), a)]
  }

  // -------------------------------------------------- what the checker makes of it

  /** A request sent with the history the checker expects, and its answer, are clean. */
  lemma SentIsClean(rules: Rules, row: Row, settings: Settings, repair: bool, ck: Check,
                    messages: seq<Message>, choice: Choice, a: Message, c: Call)
    requires ExpectedRequest(rules, row, repair, ck) == Manifests([System(rules.instructions)] + messages)
    requires choice == ExpectedChoice(row, repair, ck.searches)
    requires a.Assistant? && (a.reasoning.Some? <==> settings.thinking)
    requires a.search.Some? ==>
      a.content == "" && a.search.value.id !in ck.seen && 2 * ck.searches + 1 < |row.events|
    requires c.(discarded := false) == Answered(Sent(rules, settings, messages, choice), a)
    ensures Clean(rules, row, Some(settings), repair, ck, c)
  {
    ReplayCountsAgree([System(rules.instructions)] + messages);
  }

  /** A rollout between turns: everything so far is accepted, and the checker's
      reconstruction is the live history. */
  ghost predicate BetweenTurns(
      rules: Rules, settings: Settings, row: Row, searches: nat, mine: seq<Call>, history: seq<Message>)
  {
    && history != []
    && WellFormed(rules, settings.thinking, history)
    && CheckAll(rules, row, mine)
       == Check(Manifests([System(rules.instructions)] + history), searches, CallIds(history), [], false)
    && AllSearches(settings, mine)
    && |row.events| == 2 * searches && |mine| == searches <= row.maxSearches
    && |CallIds(history)| == searches
  }

  ghost predicate AllSearches(settings: Settings, mine: seq<Call>) {
    forall c | c in mine :: c.settings == Some(settings) && c.action.SearchAction? && !c.discarded
  }

  function ChoiceAt(row: Row, searches: nat): Choice { if searches >= row.maxSearches then NoTool else Auto }

  function WithEvents(row: Row, more: seq<string>): Row { row.(events := row.events + more) }

  /** What the checker expects next is what the client sends next. */
  lemma ExpectedIsSent(
      rules: Rules, settings: Settings, row: Row, searches: nat, mine: seq<Call>, history: seq<Message>)
    requires BetweenTurns(rules, settings, row, searches, mine, history)
    ensures ExpectedRequest(rules, row, false, CheckAll(rules, row, mine))
            == Manifests([System(rules.instructions)] + (history + Note(rules, ChoiceAt(row, searches), false)))
  {
    var sys, note := [System(rules.instructions)], Note(rules, ChoiceAt(row, searches), false);
    assert sys + (history + note) == (sys + history) + note;
    ManifestsAppend(sys + history, note);
    assert note != [] ==> Manifests(note) == [ManifestOf(User(rules.exhausted))];
  }

  /** A clean call at the end of a rollout so far is judged on its own. */
  lemma NextCall(
      rules: Rules, settings: Settings, row: Row, more: Row, searches: nat, mine: seq<Call>, history: seq<Message>,
      c: Call)
    requires BetweenTurns(rules, settings, row, searches, mine, history) && Extends(row, more)
    requires c.settings == Some(settings)
    ensures CheckAll(rules, more, mine + [c])
            == CheckCall(rules, more, Some(settings), false, CheckAll(rules, row, mine), c)
  {
    AuditGrows(rules, row, more, mine, c);
    if mine != [] { assert mine[0] in mine && mine[|mine| - 1] in mine; }
  }

  lemma SearchTurnAudited(
      rules: Rules, settings: Settings, row: Row, searches: nat, mine: seq<Call>, history: seq<Message>,
      a: Message, c: Call, info: string)
    requires BetweenTurns(rules, settings, row, searches, mine, history)
    requires IsSearch(a) && Turn(rules, settings, history, ChoiceAt(row, searches), None, a, [c])
    requires WellFormed(rules, settings.thinking, history + [a, Tool(a.search.value.id, info)])
    ensures BetweenTurns(rules, settings, WithEvents(row, [a.search.value.action, info]), searches + 1,
                         mine + [c], history + [a, Tool(a.search.value.id, info)])
  {
    var more, t := WithEvents(row, [a.search.value.action, info]), Tool(a.search.value.id, info);
    var ck := CheckAll(rules, row, mine);
    ExpectedIsSent(rules, settings, row, searches, mine, history);
    assert history + [] == history;
    SearchCall(rules, settings, more, ck, history, a, c, info);
    NextCall(rules, settings, row, more, searches, mine, history, c);
    IdsAfterSearch(history, a, t);
  }

  lemma SearchCall(
      rules: Rules, settings: Settings, row: Row, ck: Check, history: seq<Message>, a: Message, c: Call, info: string)
    requires ck.expected == Manifests([System(rules.instructions)] + history) && ck.searches < row.maxSearches
    requires !ck.halted && ck.errors == [] && ck.seen == CallIds(history)
    requires IsSearch(a) && Answer(rules, settings.thinking, a, Auto, ck.seen)
    requires c == Answered(Sent(rules, settings, history, Auto), a)
    requires |row.events| == 2 * ck.searches + 2 && row.events[2 * ck.searches + 1] == info
    ensures var t := Tool(a.search.value.id, info);
      CheckCall(rules, row, Some(settings), false, ck, c)
      == Check(Manifests([System(rules.instructions)] + (history + [a, t])), ck.searches + 1,
               ck.seen + {a.search.value.id}, [], false)
  {
    var t, sys := Tool(a.search.value.id, info), [System(rules.instructions)];
    SentIsClean(rules, row, settings, false, ck, history, Auto, a, c);
    CleanStep(rules, row, Some(settings), false, ck, c);
    assert sys + (history + [a, t]) == (sys + history) + [a, t];
    ManifestsAppend(sys + history, [a, t]);
    assert Manifests([a, t]) == [ManifestOf(a), ManifestOf(t)];
  }

  lemma IdsAfterSearch(history: seq<Message>, a: Message, t: Message)
    requires IsSearch(a) && t.Tool? && a.search.value.id !in CallIds(history)
    ensures CallIds(history + [a, t]) == CallIds(history) + {a.search.value.id}
    ensures |CallIds(history + [a, t])| == |CallIds(history)| + 1
  {
    CallIdsGrow(history, a);
    CallIdsGrow(history + [a], t);
    assert history + [a, t] == (history + [a]) + [t];
  }

  lemma FinalTurnAudited(
      rules: Rules, settings: Settings, row: Row, searches: nat, mine: seq<Call>, history: seq<Message>,
      a: Message, c: Call, text: string)
    requires BetweenTurns(rules, settings, row, searches, mine, history)
    requires a.Assistant? && a.search.None? && Turn(rules, settings, history, ChoiceAt(row, searches), None, a, [c])
    ensures Accepted(rules, WithEvents(row, [text]), mine + [c])
  {
    var more, ck := WithEvents(row, [text]), CheckAll(rules, row, mine);
    ExpectedIsSent(rules, settings, row, searches, mine, history);
    SentIsClean(rules, more, settings, false, ck, history + Note(rules, ChoiceAt(row, searches), false),
                ChoiceAt(row, searches), a, c);
    CleanStep(rules, more, Some(settings), false, ck, c);
    NextCall(rules, settings, row, more, searches, mine, history, c);
  }

  /** After a discarded answer the checker expects the repair request. */
  lemma DiscardAudited(rules: Rules, settings: Settings, row: Row, searches: nat, mine: seq<Call>,
                       history: seq<Message>, first: Message, c: Call, text: string)
    requires BetweenTurns(rules, settings, row, searches, mine, history)
    requires first.Assistant? && first.search.None? && (first.reasoning.Some? <==> settings.thinking) && c.discarded
    requires var choice := ChoiceAt(row, searches);
      c.(discarded := false) == Answered(Sent(rules, settings, history + Note(rules, choice, false), choice), first)
    ensures var wire := history + Note(rules, ChoiceAt(row, searches), false);
      var expected := Manifests([System(rules.instructions)] + (wire + [first, User(rules.repair)]));
      CheckAll(rules, WithEvents(row, [text]), mine + [c]) == Check(expected, searches, CallIds(history), [], false)
  {
    var more, ck, sys := WithEvents(row, [text]), CheckAll(rules, row, mine), [System(rules.instructions)];
    var wire, fix := history + Note(rules, ChoiceAt(row, searches), false), [first, User(rules.repair)];
    ExpectedIsSent(rules, settings, row, searches, mine, history);
    SentIsClean(rules, more, settings, false, ck, wire, ChoiceAt(row, searches), first, c);
    CleanStep(rules, more, Some(settings), false, ck, c);
    NextCall(rules, settings, row, more, searches, mine, history, c);
    assert sys + (wire + fix) == (sys + wire) + fix;
    ManifestsAppend(sys + wire, fix);
    assert Manifests(fix) == [ManifestOf(first), ManifestOf(User(rules.repair))];
  }

  lemma RepairedTurnAudited(rules: Rules, settings: Settings, row: Row, searches: nat, mine: seq<Call>,
                            history: seq<Message>, first: Message, a: Message, c: Call, d: Call, text: string)
    requires BetweenTurns(rules, settings, row, searches, mine, history)
    requires a.Assistant? && Turn(rules, settings, history, ChoiceAt(row, searches), Some(first), a, [c, d])
    ensures Accepted(rules, WithEvents(row, [text]), mine + [c] + [d])
  {
    var more := WithEvents(row, [text]);
    var wire := history + Note(rules, ChoiceAt(row, searches), false) + [first, User(rules.repair)];
    DiscardAudited(rules, settings, row, searches, mine, history, first, c, text);
    var ck := CheckAll(rules, more, mine + [c]);
    SentIsClean(rules, more, settings, true, ck, wire, NoTool, a, d);
    CleanStep(rules, more, Some(settings), true, ck, d);
    RepairCall(rules, settings, more, mine, c, d);
  }

  lemma RepairCall(rules: Rules, settings: Settings, row: Row, mine: seq<Call>, c: Call, d: Call)
    requires Accepted(rules, row, mine + [c]) && c.discarded && AllSearches(settings, mine)
    requires c.settings == Some(settings)
    ensures CheckAll(rules, row, mine + [c] + [d])
            == CheckCall(rules, row, Some(settings), true, CheckAll(rules, row, mine + [c]), d)
  {
    AuditGrows(rules, row, row, mine + [c], d);
    assert mine != [] ==> mine[0] in mine;
    assert (mine + [c])[|mine|] == c;
  }

  /** The last turn: direct, or discarded and repaired. */
  lemma FinalAudited(rules: Rules, settings: Settings, row: Row, searches: nat, mine: seq<Call>, history: seq<Message>,
                     discarded: Option<Message>, a: Message, added: seq<Call>, text: string)
    requires BetweenTurns(rules, settings, row, searches, mine, history)
    requires a.Assistant? && a.search.None?
    requires Turn(rules, settings, history, ChoiceAt(row, searches), discarded, a, added)
    ensures Accepted(rules, WithEvents(row, [text]), mine + added) && 1 <= |added| <= 2
    ensures RequestsGrow(mine + added)
  {
    var all, more := mine + added, WithEvents(row, [text]);
    if discarded.None? {
      FinalTurnAudited(rules, settings, row, searches, mine, history, a, added[0], text);
    } else {
      RepairedTurnAudited(rules, settings, row, searches, mine, history, discarded.value, a, added[0], added[1], text);
      assert all == mine + [added[0]] + [added[1]];
    }
    forall k | 0 <= k < |all| - 1 ensures all[k].request < all[k + 1].request {
      if k < |mine| { assert all[k] == mine[k] && mine[k] in mine; } else { assert all[k] == added[0]; }
      AcceptedRequestsGrow(rules, more, all, k);
    }
  }

  predicate RequestsGrow(calls: seq<Call>) {
    forall k | 0 <= k < |calls| - 1 :: calls[k].request < calls[k + 1].request
  }

  lemma OpeningBetweenTurns(rules: Rules, settings: Settings, row: Row)
    requires row.events == []
    ensures BetweenTurns(rules, settings, row, 0, [], [User(row.prompt)])
  {
    assert [System(rules.instructions)] + [User(row.prompt)] == [System(rules.instructions), User(row.prompt)];
    assert CallIds([User(row.prompt)]) == {};
  }

  /** A search the client has just handed out, with any sound observation, is appendable. */
  lemma SearchIsAppendable(
      rules: Rules, settings: Settings, row: Row, searches: nat, mine: seq<Call>, history: seq<Message>,
      a: Message, added: seq<Call>, info: string)
    requires BetweenTurns(rules, settings, row, searches, mine, history) && row.maxSearches <= MAX_SEARCH_TURNS
    requires IsSearch(a) && Turn(rules, settings, history, ChoiceAt(row, searches), None, a, added)
    requires Idempotent(rules)
    ensures WellFormed(rules, settings.thinking, history + [a, Tool(a.search.value.id, info)]) <==> rules.infoOk(info)
  {
    TurnExtends(rules, settings.thinking, history, a, Tool(a.search.value.id, info));
  }

  // -------------------------------------------------------------------- rollout

  /** The parts of the loop that look at texts only: the query of an action, its normal form,
      whether a final answer is right and supported, and its training form. */
  datatype Task = Task(
    prompt: string,
    query: string -> string,
    normalize: string -> string,
    answerOk: (string, seq<string>) -> bool,
    finalAction: (string, nat) -> Option<string>)

  datatype Record = Record(row: Row, queries: seq<string>)

  /** No query is repeated, up to its normal form. */
  ghost predicate Unrepeated(task: Task, queries: seq<string>) {
    forall j, k | 0 <= j < k < |queries| :: task.normalize(queries[j]) != task.normalize(queries[k])
  }

  /** The record holds, in order, each search action and the observation its query brought;
      no query is repeated. */
  ghost predicate Faithful(task: Task, observe: string -> Option<string>, events: seq<string>, queries: seq<string>) {
    && |events| >= 2 * |queries|
    && (forall k | 0 <= k < |queries| ::
          task.query(events[2 * k]) == queries[k] && observe(queries[k]) == Some(events[2 * k + 1]))
    && Unrepeated(task, queries)
  }

  lemma NewQuery(task: Task, queries: seq<string>, query: string)
    requires Unrepeated(task, queries)
    requires task.normalize(query) !in (set q | q in queries :: task.normalize(q))
    ensures Unrepeated(task, queries + [query])
  {
    forall j | 0 <= j < |queries| ensures task.normalize(queries[j]) != task.normalize(query) {
      assert queries[j] in queries;
    }
  }

  lemma StillFaithful(task: Task, observe: string -> Option<string>, events: seq<string>, queries: seq<string>,
                      action: string, query: string, info: string)
    requires Faithful(task, observe, events, queries) && |events| == 2 * |queries|
    requires Unrepeated(task, queries + [query]) && task.query(action) == query && observe(query) == Some(info)
    ensures Faithful(task, observe, events + [action, info], queries + [query])
  {
  }

  /** The search half of a turn: the query is checked and retrieved, and the observation
      enters the record and the history.  `asked` holds the query when it was retrieved. */
  method SearchStep(client: Client, task: Task, history: History, row: Row, queries: seq<string>, response: Response,
                    observe: string -> Option<string>, ghost mine: seq<Call>, ghost added: seq<Call>)
    returns (r: Result<(Row, seq<string>), Failure>, ghost asked: seq<string>)
    requires BetweenTurns(client.rules, client.settings, row, |queries|, mine, history.messages)
    requires row.maxSearches <= MAX_SEARCH_TURNS && Faithful(task, observe, row.events, queries)
    requires IsSearch(response.assistant) && response.output == OutputOf(response.assistant)
    requires Turn(client.rules, client.settings, history.messages, ChoiceAt(row, |queries|), None,
                  response.assistant, added)
    requires client.pending
             == Some(Pending(response.id, Manifests(history.messages), ManifestOf(response.assistant), response.output))
    modifies client, history
    ensures client.calls == old(client.calls)
    ensures |asked| <= 1 && Unrepeated(task, queries + asked)
    ensures r.Ok? ==>
      && r.value.0.prompt == row.prompt && r.value.0.maxSearches == row.maxSearches
      && |asked| == 1 && r.value.1 == queries + asked
      && BetweenTurns(client.rules, client.settings, r.value.0, |queries| + 1, mine + added, history.messages)
      && client.expected == Some(Manifests(history.messages))
      && Faithful(task, observe, r.value.0.events, r.value.1)
    ensures r.Err? ==> r.error in {BadAction, BadObservation, Integrity}
    ensures Idempotent(client.rules) ==> r != Err(Integrity)
  {
    var a := response.assistant;
    var action := a.search.value.action;
    asked := [];
    assert queries + asked == queries;
    var query := task.query(action);
    if task.normalize(query) in (set q | q in queries :: task.normalize(q)) { return Err(BadAction), asked; }
    NewQuery(task, queries, query);
    asked := [query];
    var info := observe(query);
    if info.None? { return Err(BadObservation), asked; }
    StillFaithful(task, observe, row.events, queries, action, query, info.value);
    ghost var before := history.messages;
    var done := client.AppendToolResult(history, response, response.output, info.value);
    if Idempotent(client.rules) {
      SearchIsAppendable(client.rules, client.settings, row, |queries|, mine, before, a, added, info.value);
    }
    if done.Err? { return Err(done.error), asked; }
    SearchTurnAudited(client.rules, client.settings, row, |queries|, mine, before, a, added[0], info.value);
    assert added == [added[0]];
    return Ok((WithEvents(row, [action, info.value]), queries + [query])), asked;
  }

  /** The final half of a turn: the answer is checked and closes the record. */
  method FinalStep(client: Client, task: Task, row: Row, queries: seq<string>, a: Message,
                   ghost observe: string -> Option<string>, ghost history: seq<Message>,
                   ghost discarded: Option<Message>, ghost mine: seq<Call>, ghost added: seq<Call>)
    returns (r: Result<Record, Failure>)
    requires BetweenTurns(client.rules, client.settings, row, |queries|, mine, history)
    requires a.Assistant? && a.search.None? && Faithful(task, observe, row.events, queries)
    requires Turn(client.rules, client.settings, history, ChoiceAt(row, |queries|), discarded, a, added)
    ensures r.Ok? ==> Completed(client.rules, task, observe, r.value, row.prompt, row.maxSearches, mine + added)
    ensures r.Ok? ==> r.value.queries == queries
    ensures r.Err? ==> r.error in {BadAction, BadAnswer}
  {
    if client.rules.parseAnswer(a.content) != Fits { return Err(BadAction); }
    if !task.answerOk(a.content, queries) { return Err(BadAnswer); }
    var final := task.finalAction(a.content, |queries|);
    if final.None? { return Err(BadAction); }
    FinalAudited(client.rules, client.settings, row, |queries|, mine, history, discarded, a, added, final.value);
    return Ok(Record(WithEvents(row, [final.value]), queries));
  }

  /** What a completed rollout leaves behind: a record and an audit that agree. */
  ghost predicate Completed(rules: Rules, task: Task, observe: string -> Option<string>, record: Record,
                            prompt: string, maxSearches: int, mine: seq<Call>) {
    && record.row.prompt == prompt && record.row.maxSearches == maxSearches
    && Accepted(rules, record.row, mine)
    && |record.queries| <= maxSearches && |record.row.events| == 2 * |record.queries| + 1
    && |record.queries| + 1 <= |mine| <= |record.queries| + 2
    && RequestsGrow(mine)
    && Faithful(task, observe, record.row.events, record.queries)
  }

  datatype TurnResult = Closed(record: Record) | Open(row: Row, queries: seq<string>) | Stopped(failure: Failure)

  /** One turn of the loop: a request, and then either the end or a search. */
  method TakeTurn(client: Client, task: Task, history: History, row: Row, queries: seq<string>,
                  replies: nat -> Reply, observe: string -> Option<string>, ghost mine: seq<Call>)
    returns (r: TurnResult, ghost added: seq<Call>, ghost asked: seq<string>)
    requires BetweenTurns(client.rules, client.settings, row, |queries|, mine, history.messages)
    requires row.maxSearches <= MAX_SEARCH_TURNS && Faithful(task, observe, row.events, queries)
    requires client.expected == None || client.expected == Some(Manifests(history.messages))
    modifies client, history
    ensures client.calls == old(client.calls) + added && |added| <= 2
    ensures Unrepeated(task, queries + asked) && |queries + asked| <= row.maxSearches
    ensures r.Closed? ==>
      && Completed(client.rules, task, observe, r.record, row.prompt, row.maxSearches, mine + added)
      && r.record.queries == queries + asked
    ensures r.Open? ==>
      && |queries| < row.maxSearches && r.row.prompt == row.prompt && r.row.maxSearches == row.maxSearches
      && |asked| == 1 && r.queries == queries + asked && Faithful(task, observe, r.row.events, r.queries)
      && BetweenTurns(client.rules, client.settings, r.row, |queries| + 1, mine + added, history.messages)
      && client.expected == Some(Manifests(history.messages))
    ensures r.Stopped? ==>
      r.failure !in {Unfinished, InvalidInput} && (Idempotent(client.rules) ==> r.failure != Integrity)
  {
    ghost var messages := history.messages;
    var choice := if |queries| >= row.maxSearches then NoTool else Auto;
    var response, discarded := client.Create(history.messages, choice, replies);
    added := client.calls[|old(client.calls)|..];
    PrefixSplits(old(client.calls), client.calls);
    asked := [];
    assert queries + asked == queries;
    if response.Err? { return Stopped(response.error), added, asked; }
    var a := response.value.assistant;
    if response.value.output.TextOut? {
      var final := FinalStep(client, task, row, queries, a, observe, messages, discarded, mine, added);
      return if final.Ok? then Closed(final.value) else Stopped(final.error), added, asked;
    }
    if |queries| >= row.maxSearches { return Stopped(Unfinished), added, asked; }
    var next;
    next, asked := SearchStep(client, task, history, row, queries, response.value, observe, mine, added);
    return if next.Ok? then Open(next.value.0, next.value.1) else Stopped(next.error), added, asked;
  }

  /** `observe` is the retriever: the observation of a query, or None when it is refused.

      Whatever the model and the retriever answer: a rollout that completes leaves calls that
      the checker accepts against the record, each request a strict prefix of the next one.
      However it ends, `mine` are its requests, at most `maxSearches` and two more, and `asked`
      its retrievals, at most `maxSearches` and no query twice.  The history integrity checks
      and the two limit errors of the loop never fire. */
  method Rollout(client: Client, task: Task, maxSearches: int, replies: nat -> Reply, observe: string -> Option<string>)
    returns (r: Result<Record, Failure>, ghost mine: seq<Call>, ghost asked: seq<string>)
    modifies client
    ensures client.calls == old(client.calls) + mine
    ensures r.Ok? ==> Completed(client.rules, task, observe, r.value, task.prompt, maxSearches, mine)
    ensures r.Ok? ==> asked == r.value.queries
    ensures Idempotent(client.rules) ==> r != Err(Integrity)
    ensures r != Err(Unfinished)
    ensures r == Err(InvalidInput) <==> !(1 <= maxSearches <= MAX_SEARCH_TURNS)
    ensures if r == Err(InvalidInput) then mine == [] && asked == []
            else |mine| <= maxSearches + 2 && |asked| <= maxSearches && Unrepeated(task, asked)
  {
    mine, asked := [], [];
    if !(1 <= maxSearches <= MAX_SEARCH_TURNS) { return Err(InvalidInput), mine, asked; }
    client.BeginTrajectory();
    var history := new History([User(task.prompt)]);
    var row: Row, queries: seq<string> := Row(task.prompt, maxSearches, []), [];
    ghost var start := client.calls;
    OpeningBetweenTurns(client.rules, client.settings, row);
    for turn := 0 to maxSearches + 1
      invariant client.calls == start + mine
      invariant row.prompt == task.prompt && row.maxSearches == maxSearches && |queries| == turn && asked == queries
      invariant BetweenTurns(client.rules, client.settings, row, turn, mine, history.messages)
      invariant client.expected == None || client.expected == Some(Manifests(history.messages))
      invariant Faithful(task, observe, row.events, queries)
    {
      ghost var added, now;
      var taken;
      taken, added, now := TakeTurn(client, task, history, row, queries, replies, observe, mine);
      Associates(start, mine, added);
      mine, asked := mine + added, asked + now;
      if taken.Stopped? { return Err(taken.failure), mine, asked; }
      if taken.Closed? { return Ok(taken.record), mine, asked; }
      row, queries := taken.row, taken.queries;
    }
    return Err(Unfinished), mine, asked;
  }
}
