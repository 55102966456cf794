/** The separate checker: it rebuilds the whole wire history, discarded answer repairs
    included, from the audited calls and the trajectory record alone. */
module ContinuationChecker {
  import opened Outcome
  import opened ChatHistory

  datatype Choice = Auto | Required | NoTool

  datatype Settings = Settings(thinking: bool, effort: string, maxTokens: nat)

  datatype Action =
    | Unread
    | SearchAction(toolCallId: string, normalized: ToolCall)
    | FinalAction(text: string)

  /** One audited request.  A request that failed has no settings; `discarded` marks an
      over-budget answer that was then repaired. */
  datatype Call = Call(
    request: seq<Manifest>,
    choice: Option<Choice>,
    settings: Option<Settings>,
    replayedMessages: nat,
    replayedCharacters: nat,
    action: Action,
    response: Option<Manifest>,
    discarded: bool)

  datatype Row = Row(prompt: string, maxSearches: nat, events: seq<string>)

  datatype Check = Check(expected: seq<Manifest>, searches: nat, seen: set<string>, errors: seq<string>, halted: bool)

  function OpeningManifests(rules: Rules, row: Row): seq<Manifest> {
    Manifests([System(rules.instructions), User(row.prompt)])
  }

  function ExpectedChoice(row: Row, repair: bool, searches: nat): Choice {
    if repair || searches >= row.maxSearches then NoTool else Auto
  }

  function ExpectedRequest(rules: Rules, row: Row, repair: bool, ck: Check): seq<Manifest> {
    if ExpectedChoice(row, repair, ck.searches) == NoTool && !repair
    then ck.expected + [ManifestOf(User(rules.exhausted))]
    else ck.expected
  }

  function Report(errors: seq<string>, wrong: bool, code: string): seq<string> {
    if wrong then errors + [code] else errors
  }

  function PublicOf(action: Action): Option<Message> {
    match action
    case Unread => None
    case SearchAction(_, normalized) => Some(Assistant("", Some(normalized), None))
    case FinalAction(text) => Some(Assistant(text, None, None))
  }

  function ReceiptWrong(settings: Option<Settings>, reasoning: Option<Receipt>): bool {
    settings.None? || settings.value.thinking != reasoning.Some?
  }

  function RequestErrors(row: Row, settings: Option<Settings>, repair: bool, ck: Check, call: Call,
                         expected: seq<Manifest>): seq<string> {
    var choice := Some(ExpectedChoice(row, repair, ck.searches));
    var e := Report(ck.errors, call.request != expected || call.choice != choice || call.settings != settings,
                    "continuation_request_mismatch");
    var f := Report(e, call.replayedMessages != ReplayedMessages(expected)
                       || call.replayedCharacters != ReplayedCharacters(expected), "reasoning_replay_budget_mismatch");
    Report(f, call.action.SearchAction? && call.action.toolCallId in ck.seen, "continuation_duplicate_tool_id")
  }

  function ResponseErrors(
      settings: Option<Settings>, action: Action, manifest: Manifest, early: seq<string>): seq<string>
  {
    var e := Report(early, ReceiptWrong(settings, manifest.reasoning), "invalid_reasoning_replay_receipt");
    Report(e, PublicOf(action) != Some(manifest.public), "continuation_response_mismatch")
  }

  function SeenAfter(seen: set<string>, action: Action): set<string> {
    if action.SearchAction? then seen + {action.toolCallId} else seen
  }

  function CheckResponse(rules: Rules, row: Row, settings: Option<Settings>, call: Call,
                         expected: seq<Manifest>, searches: nat, seen: set<string>, early: seq<string>): Check {
    if call.response.None? then Check(expected, searches, seen, early + ["missing_continuation_response"], true)
    else
      var manifest := call.response.value;
      var errors := ResponseErrors(settings, call.action, manifest, early);
      if call.action.SearchAction? then
        var index := 2 * searches + 1;
        if index >= |row.events| then
          Check(expected, searches, seen, errors + ["continuation_observation_mismatch"], true)
        else
          Check(expected + [manifest, ManifestOf(Tool(call.action.toolCallId, row.events[index]))],
                searches + 1, seen, errors, false)
      else if call.discarded then
        Check(expected + [manifest, ManifestOf(User(rules.repair))], searches, seen, errors, false)
      else Check(expected, searches, seen, errors, false)
  }

  /** What one audited call does to the checker's reconstruction. */
  function CheckCall(
      rules: Rules, row: Row, settings: Option<Settings>, repair: bool, ck: Check, call: Call): (r: Check)
    ensures r.errors == [] ==> ck.errors == [] && !r.halted
  {
    var expected := ExpectedRequest(rules, row, repair, ck);
    CheckResponse(rules, row, settings, call, expected, ck.searches, SeenAfter(ck.seen, call.action),
                  RequestErrors(row, settings, repair, ck, call, expected))
  }

  predicate Repairing(calls: seq<Call>, k: nat)
    requires k < |calls|
  {
    k > 0 && calls[k - 1].discarded
  }

  /** Steps 0, 1, ..., k-1 in turn, except that a halted state stays as it is. */
  function RunFirst(step: (Check, nat) -> Check, start: Check, k: nat): Check {
    if k == 0 then start
    else
      var prior := RunFirst(step, start, k - 1);
      if prior.halted then prior else step(prior, k - 1)
  }

  lemma {:induction false} HaltedStays(step: (Check, nat) -> Check, start: Check, j: nat, k: nat)
    requires j <= k && RunFirst(step, start, j).halted
    ensures RunFirst(step, start, k) == RunFirst(step, start, j)
  {
    if j < k { HaltedStays(step, start, j, k - 1); }
  }

  lemma {:induction false} RunAgrees(step: (Check, nat) -> Check, step': (Check, nat) -> Check, start: Check, k: nat)
    requires forall ck, i: nat | i < k :: step(ck, i) == step'(ck, i)
    ensures RunFirst(step, start, k) == RunFirst(step', start, k)
  {
    if k > 0 { RunAgrees(step, step', start, k - 1); }
  }

  function Stepper(rules: Rules, row: Row, calls: seq<Call>): (Check, nat) -> Check {
    (ck: Check, i: nat) =>
      if i < |calls| then CheckCall(rules, row, calls[0].settings, Repairing(calls, i), ck, calls[i]) else ck
  }

  function Opening(rules: Rules, row: Row): Check {
    Check(OpeningManifests(rules, row), 0, {}, [], false)
  }

  /** The reconstruction after the first `k` calls. */
  function CheckFirst(rules: Rules, row: Row, calls: seq<Call>, k: nat): Check {
    RunFirst(Stepper(rules, row, calls), Opening(rules, row), k)
  }

  function CheckAll(rules: Rules, row: Row, calls: seq<Call>): Check {
    CheckFirst(rules, row, calls, |calls|)
  }

  ghost predicate Accepted(rules: Rules, row: Row, calls: seq<Call>) {
    CheckAll(rules, row, calls).errors == []
  }

  method ValidateContinuation(rules: Rules, row: Row, calls: seq<Call>) returns (errors: seq<string>)
    requires calls != []
    ensures errors == CheckAll(rules, row, calls).errors
  {
    var expected, searches, seen, halted, k := OpeningManifests(rules, row), 0, {}, false, 0;
    errors := [];
    while k < |calls| && !halted
      invariant k <= |calls|
      invariant CheckFirst(rules, row, calls, k) == Check(expected, searches, seen, errors, halted)
    {
      expected, searches, seen, errors, halted := AuditCall(rules, row, calls, k, expected, searches, seen, errors);
      k := k + 1;
    }
    if halted { HaltedStays(Stepper(rules, row, calls), Opening(rules, row), k, |calls|); }
  }

  lemma OneMore(rules: Rules, row: Row, calls: seq<Call>, k: nat)
    requires k < |calls| && !CheckFirst(rules, row, calls, k).halted
    ensures CheckFirst(rules, row, calls, k + 1)
            == CheckCall(rules, row, calls[0].settings, Repairing(calls, k), CheckFirst(rules, row, calls, k), calls[k])
  {
  }

  method AuditCall(rules: Rules, row: Row, calls: seq<Call>, k: nat,
                   expected: seq<Manifest>, searches: nat, seen: set<string>, errors: seq<string>)
    returns (expected': seq<Manifest>, searches': nat, seen': set<string>, errors': seq<string>, halted: bool)
    requires k < |calls| && CheckFirst(rules, row, calls, k) == Check(expected, searches, seen, errors, false)
    ensures CheckFirst(rules, row, calls, k + 1) == Check(expected', searches', seen', errors', halted)
  {
    OneMore(rules, row, calls, k);
    var settings, repair := calls[0].settings, k > 0 && calls[k - 1].discarded;
    ghost var before := Check(expected, searches, seen, errors, false);
    expected', seen', errors' := AuditRequest(rules, row, settings, repair, before, calls[k], expected, searches, seen,
        errors);
    expected', searches', errors', halted := AuditResponse(rules, row, settings, calls[k], expected', searches, seen',
        errors');
  }

  method AuditRequest(rules: Rules, row: Row, settings: Option<Settings>, repair: bool, ghost before: Check, call: Call,
                      expected: seq<Manifest>, searches: nat, seen: set<string>, errors: seq<string>)
    returns (expected': seq<Manifest>, seen': set<string>, errors': seq<string>)
    requires before == Check(expected, searches, seen, errors, false)
    ensures expected' == ExpectedRequest(rules, row, repair, before)
    ensures seen' == SeenAfter(seen, call.action)
    ensures errors' == RequestErrors(row, settings, repair, before, call, expected')
  {
    expected', seen', errors' := expected, seen, errors;
    var choice := if repair || searches >= row.maxSearches then NoTool else Auto;
    if choice == NoTool && !repair { expected' := expected' + [ManifestOf(User(rules.exhausted))]; }
    if call.request != expected' || call.choice != Some(choice) || call.settings != settings {
      errors' := errors' + ["continuation_request_mismatch"];
    }
    if call.replayedMessages != ReplayedMessages(expected')
       || call.replayedCharacters != ReplayedCharacters(expected')
    {
      errors' := errors' + ["reasoning_replay_budget_mismatch"];
    }
    if call.action.SearchAction? {
      if call.action.toolCallId in seen { errors' := errors' + ["continuation_duplicate_tool_id"]; }
      seen' := seen' + {call.action.toolCallId};
    }
  }

  method AuditResponse(rules: Rules, row: Row, settings: Option<Settings>, call: Call,
                       expected: seq<Manifest>, searches: nat, ghost seen: set<string>, errors: seq<string>)
    returns (expected': seq<Manifest>, searches': nat, errors': seq<string>, halted: bool)
    ensures Check(expected', searches', seen, errors', halted)
            == CheckResponse(rules, row, settings, call, expected, searches, seen, errors)
  {
    expected', searches', errors', halted := expected, searches, errors, false;
    if call.response.None? { return expected, searches, errors + ["missing_continuation_response"], true; }
    var manifest := call.response.value;
    if ReceiptWrong(settings, manifest.reasoning) { errors' := errors' + ["invalid_reasoning_replay_receipt"]; }
    if PublicOf(call.action) != Some(manifest.public) { errors' := errors' + ["continuation_response_mismatch"]; }
    if call.action.SearchAction? {
      var index := 2 * searches + 1;
      if index >= |row.events| { return expected, searches, errors' + ["continuation_observation_mismatch"], true; }
      expected' := expected' + [manifest, ManifestOf(Tool(call.action.toolCallId, row.events[index]))];
      searches' := searches + 1;
    } else if call.discarded {
      expected' := expected' + [manifest, ManifestOf(User(rules.repair))];
    }
  }

  // ------------------------------------------------------- what acceptance means

  /** A step that never drops an error, and halts only with one. */
  ghost predicate Loud(step: (Check, nat) -> Check) {
    forall ck: Check, i: nat | !ck.halted ::
      step(ck, i).errors == [] ==> ck.errors == [] && !step(ck, i).halted
  }

  lemma {:induction false} ErrorsStay(step: (Check, nat) -> Check, start: Check, j: nat, k: nat)
    requires Loud(step) && !start.halted && j <= k && RunFirst(step, start, k).errors == []
    ensures RunFirst(step, start, j).errors == [] && !RunFirst(step, start, j).halted
    decreases k
  {
    if k > 0 {
      if RunFirst(step, start, k - 1).halted {
        HaltedWithError(step, start, k - 1);
      } else {
        ErrorsStay(step, start, if j < k then j else k - 1, k - 1);
      }
    }
  }

  lemma {:induction false} HaltedWithError(step: (Check, nat) -> Check, start: Check, k: nat)
    requires Loud(step) && !start.halted && RunFirst(step, start, k).halted
    ensures RunFirst(step, start, k).errors != []
  {
    if RunFirst(step, start, k - 1).halted { HaltedWithError(step, start, k - 1); }
  }

  lemma StepperIsLoud(rules: Rules, row: Row, calls: seq<Call>)
    ensures Loud(Stepper(rules, row, calls))
  {
  }

  /** Every prefix of an accepted audit is accepted, with nothing halted. */
  lemma AcceptedPrefix(rules: Rules, row: Row, calls: seq<Call>, k: nat)
    requires k <= |calls| && Accepted(rules, row, calls)
    ensures CheckFirst(rules, row, calls, k).errors == [] && !CheckFirst(rules, row, calls, k).halted
  {
    StepperIsLoud(rules, row, calls);
    ErrorsStay(Stepper(rules, row, calls), Opening(rules, row), k, |calls|);
  }

  /** What a call must be for the checker to find nothing wrong with it. */
  ghost predicate Clean(rules: Rules, row: Row, settings: Option<Settings>, repair: bool, ck: Check, call: Call) {
    && call.request == ExpectedRequest(rules, row, repair, ck)
    && call.choice == Some(ExpectedChoice(row, repair, ck.searches))
    && call.settings == settings
    && call.replayedMessages == ReplayedMessages(call.request)
    && call.replayedCharacters == ReplayedCharacters(call.request)
    && call.response.Some?
    && !ReceiptWrong(settings, call.response.value.reasoning)
    && PublicOf(call.action) == Some(call.response.value.public)
    && (call.action.SearchAction? ==> call.action.toolCallId !in ck.seen && 2 * ck.searches + 1 < |row.events|)
  }

  /** The history after a clean call: a search brings its observation, a discarded answer
      the repair instruction, and a final answer nothing. */
  function Onward(rules: Rules, row: Row, ck: Check, call: Call): seq<Manifest>
    requires call.response.Some? && (call.action.SearchAction? ==> 2 * ck.searches + 1 < |row.events|)
  {
    if call.action.SearchAction? then
      call.request
      + [call.response.value, ManifestOf(Tool(call.action.toolCallId, row.events[2 * ck.searches + 1]))]
    else if call.discarded then call.request + [call.response.value, ManifestOf(User(rules.repair))]
    else call.request
  }

  /** The checker accepts a call exactly when it is clean, and its reconstruction then goes on. */
  lemma CleanStep(rules: Rules, row: Row, settings: Option<Settings>, repair: bool, ck: Check, call: Call)
    requires !ck.halted
    ensures var r := CheckCall(rules, row, settings, repair, ck, call);
      && (r.errors == [] <==> ck.errors == [] && Clean(rules, row, settings, repair, ck, call))
      && (Clean(rules, row, settings, repair, ck, call) ==>
            r == Check(Onward(rules, row, ck, call), ck.searches + (if call.action.SearchAction? then 1 else 0),
                       SeenAfter(ck.seen, call.action), ck.errors, false))
  {
    var expected := ExpectedRequest(rules, row, repair, ck);
    var early := RequestErrors(row, settings, repair, ck, call, expected);
    if call.response.Some? {
      var errors := ResponseErrors(settings, call.action, call.response.value, early);
      assert |errors| >= |early| >= |ck.errors|;
    }
  }

  lemma AcceptedCallIsClean(rules: Rules, row: Row, calls: seq<Call>, k: nat)
    requires k < |calls| && Accepted(rules, row, calls)
    ensures var ck := CheckFirst(rules, row, calls, k);
      && !ck.halted && Clean(rules, row, calls[0].settings, Repairing(calls, k), ck, calls[k])
      && CheckFirst(rules, row, calls, k + 1).expected == Onward(rules, row, ck, calls[k])
  {
    AcceptedPrefix(rules, row, calls, k);
    AcceptedPrefix(rules, row, calls, k + 1);
    OneMore(rules, row, calls, k);
    CleanStep(rules, row, calls[0].settings, Repairing(calls, k), CheckFirst(rules, row, calls, k), calls[k]);
  }

  /** In an accepted audit, each request that led to another one is a strict prefix of it. */
  lemma AcceptedRequestsGrow(rules: Rules, row: Row, calls: seq<Call>, k: nat)
    requires k + 1 < |calls| && Accepted(rules, row, calls)
    requires calls[k].action.SearchAction? || calls[k].discarded
    ensures calls[k].request < calls[k + 1].request
  {
    AcceptedCallIsClean(rules, row, calls, k + 1);
    AcceptedCallIsClean(rules, row, calls, k);
    assert calls[k].request < CheckFirst(rules, row, calls, k + 1).expected <= calls[k + 1].request;
  }

  /** Two calls that differ at most in what was sent. */
  predicate SameAnswer(a: Call, b: Call) {
    a.settings == b.settings && a.action == b.action && a.response == b.response && a.discarded == b.discarded
  }

  predicate SameAnswers(a: seq<Call>, b: seq<Call>) {
    |a| == |b| && forall i | 0 <= i < |a| :: SameAnswer(a[i], b[i])
  }

  /** An altered request is always caught: in accepted audits of one record, the answers
      determine the requests. */
  lemma AnswersDetermineRequests(rules: Rules, row: Row, a: seq<Call>, b: seq<Call>)
    requires Accepted(rules, row, a) && Accepted(rules, row, b) && SameAnswers(a, b)
    ensures a == b
  {
    forall k | 0 <= k < |a| ensures a[k] == b[k] {
      SameReconstruction(rules, row, a, b, k);
      SameCall(rules, row, a, b, k);
    }
  }

  lemma SameReconstruction(rules: Rules, row: Row, a: seq<Call>, b: seq<Call>, k: nat)
    requires Accepted(rules, row, a) && Accepted(rules, row, b) && SameAnswers(a, b) && k <= |a|
    ensures CheckFirst(rules, row, a, k) == CheckFirst(rules, row, b, k)
  {
    for i := 0 to k
      invariant CheckFirst(rules, row, a, i) == CheckFirst(rules, row, b, i)
    {
      SameCall(rules, row, a, b, i);
    }
  }

  lemma SameCall(rules: Rules, row: Row, a: seq<Call>, b: seq<Call>, k: nat)
    requires Accepted(rules, row, a) && Accepted(rules, row, b) && SameAnswers(a, b) && k < |a|
    requires CheckFirst(rules, row, a, k) == CheckFirst(rules, row, b, k)
    ensures a[k] == b[k] && CheckFirst(rules, row, a, k + 1) == CheckFirst(rules, row, b, k + 1)
  {
    assert SameAnswer(a[0], b[0]) && SameAnswer(a[k], b[k]);
    assert Repairing(a, k) == Repairing(b, k) by {
      if k > 0 { assert SameAnswer(a[k - 1], b[k - 1]); }
    }
    SameCleanCall(rules, row, a[0].settings, Repairing(a, k), CheckFirst(rules, row, a, k), a[k], b[k]) by {
      AcceptedCallIsClean(rules, row, a, k);
      AcceptedCallIsClean(rules, row, b, k);
    }
    AcceptedPrefix(rules, row, a, k);
    OneMore(rules, row, a, k);
    OneMore(rules, row, b, k);
  }

  lemma SameCleanCall(rules: Rules, row: Row, settings: Option<Settings>, repair: bool, ck: Check, a: Call, b: Call)
    requires Clean(rules, row, settings, repair, ck, a) && Clean(rules, row, settings, repair, ck, b)
    requires SameAnswer(a, b)
    ensures a == b
  {
  }

  // ------------------------------------------------- growing an audit and a record

  /** One more call on a clean audit, checked against a record with more events. */
  lemma AuditGrows(rules: Rules, row: Row, more: Row, calls: seq<Call>, c: Call)
    requires Accepted(rules, row, calls) && Extends(row, more)
    ensures var settings := if calls == [] then c.settings else calls[0].settings;
      var ck := CheckAll(rules, row, calls);
      && CheckAll(rules, more, calls) == ck && !ck.halted
      && CheckAll(rules, more, calls + [c])
         == CheckCall(rules, more, settings, calls != [] && calls[|calls| - 1].discarded, ck, c)
  {
    var all := calls + [c];
    AcceptedPrefix(rules, row, calls, |calls|);
    SameWithMoreEvents(rules, row, more, calls, |calls|);
    forall ck, i: nat | i < |calls| ensures Stepper(rules, more, calls)(ck, i) == Stepper(rules, more, all)(ck, i) {
      assert all[i] == calls[i] && all[0] == calls[0] && (i > 0 ==> all[i - 1] == calls[i - 1]);
    }
    RunAgrees(Stepper(rules, more, calls), Stepper(rules, more, all), Opening(rules, more), |calls|);
    OneMore(rules, more, all, |calls|);
  }

  predicate Extends(row: Row, more: Row) {
    row.prompt == more.prompt && row.maxSearches == more.maxSearches && row.events <= more.events
  }

  lemma {:induction false} SameWithMoreEvents(rules: Rules, row: Row, more: Row, calls: seq<Call>, k: nat)
    requires k <= |calls| && Accepted(rules, row, calls) && Extends(row, more)
    ensures CheckFirst(rules, row, calls, k) == CheckFirst(rules, more, calls, k)
  {
    if k > 0 {
      SameWithMoreEvents(rules, row, more, calls, k - 1);
      AcceptedCallIsClean(rules, row, calls, k - 1);
      OneMore(rules, row, calls, k - 1);
      OneMore(rules, more, calls, k - 1);
      MoreEventsSameCall(rules, row, more, calls[0].settings, Repairing(calls, k - 1),
                         CheckFirst(rules, row, calls, k - 1), calls[k - 1]);
    }
  }

  lemma MoreEventsSameCall(
      rules: Rules, row: Row, more: Row, settings: Option<Settings>, repair: bool, ck: Check, call: Call)
    requires !ck.halted && Extends(row, more) && Clean(rules, row, settings, repair, ck, call)
    ensures CheckCall(rules, row, settings, repair, ck, call) == CheckCall(rules, more, settings, repair, ck, call)
  {
    CleanStep(rules, row, settings, repair, ck, call);
    CleanStep(rules, more, settings, repair, ck, call);
  }
}
