/** Chat messages, their audit manifests, and the rules a replayed history must meet.

    Every text rule is an arbitrary function.  A fingerprint is modelled as injective: it is
    the text itself. */
module ChatHistory {
  import opened Outcome

  const MAX_SEARCH_TURNS := 5

  // ------------------------------------------------------------------- messages

  datatype ToolCall = ToolCall(id: string, action: string)

  datatype Message =
    | System(content: string)
    | User(content: string)
    | Assistant(content: string, search: Option<ToolCall>, reasoning: Option<string>)
    | Tool(callId: string, content: string)

  datatype Verdict = Fits | OverBudget | Malformed

  /** The fixed texts and the text-level rules. */
  datatype Rules = Rules(
    instructions: string,
    exhausted: string,
    repair: string,
    parseAnswer: string -> Verdict,
    extract: string -> Option<string>,
    mentionsSearch: string -> bool,
    mentionsAnswer: string -> bool,
    isBlank: string -> bool,
    digest: string -> string,
    utf8Length: string -> nat,
    requestFits: seq<Message> -> bool,
    infoOk: string -> bool)

  /** Extracting from an extracted action gives it back. */
  ghost predicate Idempotent(rules: Rules) {
    forall raw, action | rules.extract(raw) == Some(action) :: rules.extract(action) == Some(action)
  }

  datatype Receipt = Receipt(hash: string, characters: nat)

  /** What the audit keeps of a message: its public part, and a receipt for its reasoning. */
  datatype Manifest = Manifest(public: Message, reasoning: Option<Receipt>)

  function ManifestOf(m: Message): Manifest {
    if m.Assistant? then
      Manifest(m.(reasoning := None), if m.reasoning.Some? then Some(ReceiptOf(m.reasoning.value)) else None)
    else Manifest(m, None)
  }

  function ReceiptOf(text: string): Receipt { Receipt(text, |text|) }

  function Manifests(h: seq<Message>): seq<Manifest> {
    seq(|h|, i requires 0 <= i < |h| => ManifestOf(h[i]))
  }

  lemma ManifestsAppend(a: seq<Message>, b: seq<Message>)
    ensures Manifests(a + b) == Manifests(a) + Manifests(b)
  {
  }

  function ReasoningMessages(h: seq<Message>): nat {
    if h == [] then 0
    else ReasoningMessages(h[..|h| - 1]) + (if HasReasoning(h[|h| - 1]) then 1 else 0)
  }

  function ReasoningCharacters(h: seq<Message>): nat {
    if h == [] then 0
    else ReasoningCharacters(h[..|h| - 1]) + (if HasReasoning(h[|h| - 1]) then |h[|h| - 1].reasoning.value| else 0)
  }

  predicate HasReasoning(m: Message) { m.Assistant? && m.reasoning.Some? }

  function ReplayedMessages(ms: seq<Manifest>): nat {
    if ms == [] then 0
    else ReplayedMessages(ms[..|ms| - 1]) + (if ms[|ms| - 1].reasoning.Some? then 1 else 0)
  }

  function ReplayedCharacters(ms: seq<Manifest>): nat {
    if ms == [] then 0
    else
      var last := ms[|ms| - 1].reasoning;
      ReplayedCharacters(ms[..|ms| - 1]) + (if last.Some? then last.value.characters else 0)
  }

  /** The checker counts on manifests what the client counts on messages. */
  lemma {:induction false} ReplayCountsAgree(h: seq<Message>)
    ensures ReplayedMessages(Manifests(h)) == ReasoningMessages(h)
    ensures ReplayedCharacters(Manifests(h)) == ReasoningCharacters(h)
  {
    if h != [] {
      ReplayCountsAgree(h[..|h| - 1]);
      assert Manifests(h)[..|h| - 1] == Manifests(h[..|h| - 1]);
    }
  }

  // -------------------------------------------------------- a well-formed history

  predicate IsSearch(m: Message) { m.Assistant? && m.search.Some? }

  /** What a message must be on its own: canonical searches, complete answers (an
      over-budget one included), observations in the fixed form, reasoning kept. */
  predicate MessageOk(rules: Rules, thinking: bool, m: Message) {
    match m
    case System(_) => false
    case User(_) => true
    case Tool(_, content) => rules.infoOk(content)
    case Assistant(content, search, reasoning) =>
      && (thinking ==> reasoning.Some?)
      && (match search
          case Some(call) => content == "" && call.id != "" && rules.extract(call.action) == Some(call.action)
          case None => rules.parseAnswer(content) != Malformed)
  }

  /** Where a message may stand: a user opens, an assistant answers a user or a tool result,
      and a tool result directly follows the search it belongs to. */
  predicate Placed(h: seq<Message>, i: nat)
    requires i < |h|
  {
    && (i == 0 ==> h[i].User?)
    && (h[i].Assistant? ==> i > 0 && (h[i - 1].User? || h[i - 1].Tool?))
    && (h[i].Tool? <==> i > 0 && IsSearch(h[i - 1]))
    && (h[i].Tool? ==> h[i].callId == h[i - 1].search.value.id)
  }

  ghost function CallIds(h: seq<Message>): set<string> {
    set i | 0 <= i < |h| && IsSearch(h[i]) :: h[i].search.value.id
  }

  ghost predicate DistinctIds(h: seq<Message>) {
    forall i, j | 0 <= i < j < |h| && IsSearch(h[i]) && IsSearch(h[j]) ::
      h[i].search.value.id != h[j].search.value.id
  }

  ghost predicate Chained(rules: Rules, thinking: bool, h: seq<Message>) {
    && AllOk(rules, thinking, h)
    && AllPlaced(h)
    && DistinctIds(h)
  }

  predicate AllOk(rules: Rules, thinking: bool, h: seq<Message>) {
    forall m | m in h :: MessageOk(rules, thinking, m)
  }

  predicate AllPlaced(h: seq<Message>) {
    forall i | 0 <= i < |h| :: Placed(h, i)
  }

  ghost predicate WellFormed(rules: Rules, thinking: bool, h: seq<Message>) {
    && Chained(rules, thinking, h)
    && |CallIds(h)| <= MAX_SEARCH_TURNS
    && (h != [] ==> !h[|h| - 1].Assistant?)
  }

  lemma CallIdsGrow(h: seq<Message>, m: Message)
    ensures CallIds(h + [m]) == CallIds(h) + (if IsSearch(m) then {m.search.value.id} else {})
  {
    var g := h + [m];
    forall id ensures id in CallIds(g) <==> id in CallIds(h) + (if IsSearch(m) then {m.search.value.id} else {}) {
      if id in CallIds(h) {
        var i :| 0 <= i < |h| && IsSearch(h[i]) && h[i].search.value.id == id;
        assert g[i] == h[i];
      }
      if IsSearch(m) && id == m.search.value.id { assert g[|h|] == m; }
    }
  }

  /** What one more message does to a chained history. */
  lemma ChainGrows(rules: Rules, thinking: bool, h: seq<Message>, m: Message)
    requires Chained(rules, thinking, h)
    ensures Chained(rules, thinking, h + [m]) <==>
      MessageOk(rules, thinking, m) && Placed(h + [m], |h|) && (IsSearch(m) ==> m.search.value.id !in CallIds(h))
  {
    AllOkGrows(rules, thinking, h, m);
    AllPlacedGrows(h, m);
    DistinctGrows(h, m);
  }

  lemma AllOkGrows(rules: Rules, thinking: bool, h: seq<Message>, m: Message)
    ensures AllOk(rules, thinking, h + [m]) <==> AllOk(rules, thinking, h) && MessageOk(rules, thinking, m)
  {
    assert m in h + [m];
    forall x | x in h ensures x in h + [m] {
    }
  }

  lemma AllPlacedGrows(h: seq<Message>, m: Message)
    ensures AllPlaced(h + [m]) <==> AllPlaced(h) && Placed(h + [m], |h|)
  {
    var g := h + [m];
    forall i | 0 <= i < |h| ensures Placed(g, i) <==> Placed(h, i) {
      assert g[i] == h[i] && (i > 0 ==> g[i - 1] == h[i - 1]);
    }
  }

  lemma DistinctGrows(h: seq<Message>, m: Message)
    ensures DistinctIds(h + [m]) <==> DistinctIds(h) && (IsSearch(m) ==> m.search.value.id !in CallIds(h))
  {
    var g := h + [m];
    assert g[|h|] == m;
    if DistinctIds(g) {
      assert forall i | 0 <= i < |h| :: g[i] == h[i];
    }
    if DistinctIds(h) && (IsSearch(m) ==> m.search.value.id !in CallIds(h)) {
      forall i, j | 0 <= i < j < |g| && IsSearch(g[i]) && IsSearch(g[j])
        ensures g[i].search.value.id != g[j].search.value.id
      {
        assert g[i] == h[i] && (j < |h| ==> g[j] == h[j]);
      }
    }
  }

  lemma {:induction false} ChainPrefix(rules: Rules, thinking: bool, h: seq<Message>, k: nat)
    requires k <= |h| && Chained(rules, thinking, h)
    ensures Chained(rules, thinking, h[..k])
    decreases |h|
  {
    if k == |h| {
      assert h[..k] == h;
    } else {
      var g := h[..|h| - 1];
      assert h == g + [h[|h| - 1]] && g[..k] == h[..k];
      AllOkGrows(rules, thinking, g, h[|h| - 1]);
      AllPlacedGrows(g, h[|h| - 1]);
      DistinctGrows(g, h[|h| - 1]);
      ChainPrefix(rules, thinking, g, k);
    }
  }

  /** The one pass over a history: accepted exactly when it is well formed, and then the
      result is the set of its tool-call identifiers. */
  method ValidateHistory(rules: Rules, thinking: bool, h: seq<Message>) returns (r: Option<set<string>>)
    ensures r.Some? <==> WellFormed(rules, thinking, h)
    ensures r.Some? ==> r.value == CallIds(h)
  {
    var seen: set<string>, pending: Option<string> := {}, None;
    for k := 0 to |h|
      invariant Chained(rules, thinking, h[..k]) && seen == CallIds(h[..k])
      invariant pending == if k > 0 && IsSearch(h[k - 1]) then Some(h[k - 1].search.value.id) else None
    {
      var m := h[k];
      StepDecides(rules, thinking, h, k);
      if m.System? { return None; }
      if (k == 0 && !m.User?) || (m.Assistant? && (k == 0 || !(h[k - 1].User? || h[k - 1].Tool?))) { return None; }
      if pending.Some? && !m.Tool? { return None; }
      if m.Tool? {
        if pending != Some(m.callId) || !rules.infoOk(m.content) { return None; }
        pending := None;
      } else if m.Assistant? {
        if thinking && m.reasoning.None? { return None; }
        if m.search.Some? {
          var call := m.search.value;
          if m.content != "" || call.id == "" || rules.extract(call.action) != Some(call.action) { return None; }
          if call.id in seen { return None; }
          seen, pending := seen + {call.id}, Some(call.id);
        } else if rules.parseAnswer(m.content) == Malformed {
          return None;
        }
      }
    }
    assert h[..|h|] == h;
    if pending.Some? || |seen| > MAX_SEARCH_TURNS || (h != [] && h[|h| - 1].Assistant?) { return None; }
    return Some(seen);
  }

  /** Whether the next message may stand there, in terms of the message before it. */
  predicate Follows(before: Option<Message>, m: Message) {
    && (before.None? ==> m.User?)
    && (m.Assistant? ==> before.Some? && (before.value.User? || before.value.Tool?))
    && (m.Tool? <==> before.Some? && IsSearch(before.value))
    && (m.Tool? ==> m.callId == before.value.search.value.id)
  }

  lemma StepDecides(rules: Rules, thinking: bool, h: seq<Message>, k: nat)
    requires k < |h| && Chained(rules, thinking, h[..k])
    ensures var m := h[k];
      var fine := && MessageOk(rules, thinking, m) && Follows(if k == 0 then None else Some(h[k - 1]), m)
                  && (IsSearch(m) ==> m.search.value.id !in CallIds(h[..k]));
      && (Chained(rules, thinking, h[..k + 1]) <==> fine)
      && (!fine ==> !WellFormed(rules, thinking, h))
      && CallIds(h[..k + 1]) == CallIds(h[..k]) + (if IsSearch(m) then {m.search.value.id} else {})
  {
    var g := h[..k] + [h[k]];
    assert h[..k + 1] == g;
    ChainGrows(rules, thinking, h[..k], h[k]);
    CallIdsGrow(h[..k], h[k]);
    assert Placed(g, k) <==> Follows(if k == 0 then None else Some(h[k - 1]), h[k]);
    if WellFormed(rules, thinking, h) { ChainPrefix(rules, thinking, h, k + 1); }
  }

  /** The history `h` with `m` appended, when `m` may stand there. */
  lemma Extend(rules: Rules, thinking: bool, h: seq<Message>, m: Message) returns (g: seq<Message>)
    requires Chained(rules, thinking, h) && h != [] && Follows(Some(h[|h| - 1]), m)
    requires IsSearch(m) ==> m.search.value.id !in CallIds(h)
    ensures g == h + [m] && (Chained(rules, thinking, g) <==> MessageOk(rules, thinking, m))
    ensures CallIds(g) == CallIds(h) + (if IsSearch(m) then {m.search.value.id} else {})
  {
    g := h + [m];
    CallIdsGrow(h, m);
    ChainGrows(rules, thinking, h, m);
  }

  /** A search with a new identifier and its observation extend a well-formed history. */
  lemma TurnExtends(rules: Rules, thinking: bool, h: seq<Message>, a: Message, t: Message)
    requires WellFormed(rules, thinking, h) && h != []
    requires IsSearch(a) && MessageOk(rules, thinking, a) && a.search.value.id !in CallIds(h)
    requires t.Tool? && t.callId == a.search.value.id && |CallIds(h)| < MAX_SEARCH_TURNS
    ensures WellFormed(rules, thinking, h + [a, t]) <==> rules.infoOk(t.content)
    ensures CallIds(h + [a, t]) == CallIds(h) + {a.search.value.id}
  {
    LastIsQuiet(rules, thinking, h);
    var k := SearchAndResult(rules, thinking, h, a, t);
    assert h + [a, t] == k;
  }

  lemma SearchAndResult(rules: Rules, thinking: bool, h: seq<Message>, a: Message, t: Message) returns (k: seq<Message>)
    requires Chained(rules, thinking, h) && h != [] && (h[|h| - 1].User? || h[|h| - 1].Tool?)
    requires IsSearch(a) && MessageOk(rules, thinking, a) && a.search.value.id !in CallIds(h)
    requires t.Tool? && t.callId == a.search.value.id
    ensures Chained(rules, thinking, k) <==> rules.infoOk(t.content)
    ensures k == h + [a, t] && CallIds(k) == CallIds(h) + {a.search.value.id}
  {
    var g := Extend(rules, thinking, h, a);
    k := Extend(rules, thinking, g, t);
  }

  lemma LastIsQuiet(rules: Rules, thinking: bool, h: seq<Message>)
    requires WellFormed(rules, thinking, h) && h != []
    ensures h[|h| - 1].User? || h[|h| - 1].Tool?
  {
    assert h[|h| - 1] in h;
  }

  /** So do a complete answer, over budget, and the repair instruction after it. */
  lemma RepairExtends(rules: Rules, thinking: bool, h: seq<Message>, note: seq<Message>, a: Message)
    requires WellFormed(rules, thinking, h) && h != [] && (note == [] || note == [User(rules.exhausted)])
    requires a.Assistant? && a.search.None? && MessageOk(rules, thinking, a)
    ensures WellFormed(rules, thinking, h + note + [a, User(rules.repair)])
    ensures CallIds(h + note + [a, User(rules.repair)]) == CallIds(h)
  {
    var w := NoteExtends(rules, thinking, h, note);
    var v := AnswerAndRepair(rules, thinking, w, a);
    assert h + note + [a, User(rules.repair)] == v;
  }

  lemma NoteExtends(rules: Rules, thinking: bool, h: seq<Message>, note: seq<Message>) returns (w: seq<Message>)
    requires WellFormed(rules, thinking, h) && h != [] && (note == [] || note == [User(rules.exhausted)])
    ensures Chained(rules, thinking, w) && CallIds(w) == CallIds(h) && w == h + note
    ensures w[|w| - 1].User? || w[|w| - 1].Tool?
  {
    LastIsQuiet(rules, thinking, h);
    w := h;
    if note != [] { w := Extend(rules, thinking, h, User(rules.exhausted)); }
  }

  lemma AnswerAndRepair(rules: Rules, thinking: bool, w: seq<Message>, a: Message) returns (v: seq<Message>)
    requires Chained(rules, thinking, w) && w != [] && (w[|w| - 1].User? || w[|w| - 1].Tool?)
    requires a.Assistant? && a.search.None? && MessageOk(rules, thinking, a)
    ensures Chained(rules, thinking, v) && CallIds(v) == CallIds(w)
    ensures v == w + [a, User(rules.repair)]
  {
    var u := Extend(rules, thinking, w, a);
    v := Extend(rules, thinking, u, User(rules.repair));
  }
}
