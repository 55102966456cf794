/** Cutting a training text at the loss-mask boundaries, in both trainers.  What a segment
    list means is its joined text and the label of each character. */
module MaskSegments {
  import opened Outcome
  import opened Markup

  datatype Label = Prompt | Supervised | Masked

  datatype Segment = Segment(text: string, mark: Label)

  function Joined(segments: seq<Segment>): string {
    if segments == [] then "" else Joined(segments[..|segments| - 1]) + segments[|segments| - 1].text
  }

  /** The label of every character of the joined text. */
  function Labels(segments: seq<Segment>): (r: seq<Label>)
    ensures |r| == |Joined(segments)|
  {
    if segments == [] then []
    else
      var last := segments[|segments| - 1];
      Labels(segments[..|segments| - 1]) + seq(|last.text|, _ => last.mark)
  }

  lemma Append(segments: seq<Segment>, s: Segment)
    ensures Joined(segments + [s]) == Joined(segments) + s.text
    ensures Labels(segments + [s]) == Labels(segments) + seq(|s.text|, _ => s.mark)
  {
    assert (segments + [s])[..|segments|] == segments;
  }

  /** The spans follow each other within the text, from `cursor` on; `strict` asks for a gap
      before each. */
  predicate InOrder(spans: seq<Span>, cursor: nat, limit: nat, strict: bool) {
    spans == []
    || (cursor <= spans[0].start < spans[0].end <= limit && (strict ==> cursor < spans[0].start)
        && InOrder(spans[1..], spans[0].end, limit, strict))
  }

  function LastEnd(spans: seq<Span>, cursor: nat): nat {
    if spans == [] then cursor else spans[|spans| - 1].end
  }

  predicate Covered(spans: seq<Span>, i: int) {
    exists sp :: sp in spans && sp.start <= i < sp.end
  }

  function RightLabel(spans: seq<Span>, contentStart: nat, i: int): Label {
    if i < contentStart then Prompt else if Covered(spans, i) then Masked else Supervised
  }

  /** The segments make up the text up to `cursor`, with the right label on each character. */
  ghost predicate CutTo(segments: seq<Segment>, text: string, contentStart: nat, spans: seq<Span>, cursor: nat) {
    && cursor <= |text| && Joined(segments) == text[..cursor]
    && (forall i | 0 <= i < cursor :: Labels(segments)[i] == RightLabel(spans, contentStart, i))
    && (forall sp | sp in spans :: sp.end <= cursor)
  }

  lemma CutGap(segments: seq<Segment>, text: string, contentStart: nat, spans: seq<Span>, cursor: nat, next: nat)
    requires CutTo(segments, text, contentStart, spans, cursor) && contentStart <= cursor <= next <= |text|
    ensures CutTo(segments + [Segment(text[cursor..next], Supervised)], text, contentStart, spans, next)
  {
    Append(segments, Segment(text[cursor..next], Supervised));
    assert text[..cursor] + text[cursor..next] == text[..next];
  }

  lemma CutSpan(segments: seq<Segment>, text: string, contentStart: nat, spans: seq<Span>, cursor: nat, sp: Span)
    requires CutTo(segments, text, contentStart, spans, cursor)
    requires contentStart <= cursor == sp.start <= sp.end <= |text|
    ensures CutTo(segments + [Segment(text[sp.start..sp.end], Masked)], text, contentStart, spans + [sp], sp.end)
  {
    var all, more := segments + [Segment(text[sp.start..sp.end], Masked)], spans + [sp];
    Append(segments, Segment(text[sp.start..sp.end], Masked));
    assert text[..cursor] + text[cursor..sp.end] == text[..sp.end];
    forall i | 0 <= i < sp.end ensures Labels(all)[i] == RightLabel(more, contentStart, i) {
      if i < cursor {
        assert Covered(more, i) <==> Covered(spans, i) by {
          if Covered(spans, i) {
            var x :| x in spans && x.start <= i < x.end;
            assert x in more;
          }
        }
      } else {
        assert sp in more;
      }
    }
  }

  predicate SomeEmpty(segments: seq<Segment>) {
    exists s :: s in segments && s.text == ""
  }

  lemma AppendFull(segments: seq<Segment>, s: Segment)
    ensures SomeEmpty(segments + [s]) <==> SomeEmpty(segments) || s.text == ""
  {
    if SomeEmpty(segments) {
      var x :| x in segments && x.text == "";
      assert x in segments + [s];
    }
    if s.text == "" { assert s in segments + [s]; }
  }

  lemma NextSpan(spans: seq<Span>, k: nat, cursor: nat, limit: nat, strict: bool)
    requires k < |spans|
    ensures InOrder(spans[k..], cursor, limit, strict) <==>
      cursor <= spans[k].start < spans[k].end <= limit && (strict ==> cursor < spans[k].start)
      && InOrder(spans[k + 1..], spans[k].end, limit, strict)
    ensures spans[..k + 1] == spans[..k] + [spans[k]]
  {
    assert spans[k..][1..] == spans[k + 1..];
  }

  /** The supervised trainer's cut: prompt, then supervised and masked parts in turn.  It
      succeeds exactly when there is a prompt, a gap before each span and a tail after the
      last; the text is then made up exactly, so the reconstruction error never fires. */
  method BuildMaskSegments(text: string, contentStart: nat, spans: seq<Span>) returns (r: Option<seq<Segment>>)
    requires contentStart <= |text|
    ensures r.Some? <==>
      0 < contentStart && InOrder(spans, contentStart, |text|, true) && LastEnd(spans, contentStart) < |text|
    ensures r.Some? ==> Joined(r.value) == text
    ensures r.Some? ==> forall i | 0 <= i < |text| :: Labels(r.value)[i] == RightLabel(spans, contentStart, i)
  {
    var segments := [Segment(text[..contentStart], Prompt)];
    Append([], segments[0]);
    var cursor := contentStart;
    for k := 0 to |spans|
      invariant contentStart <= cursor <= |text| && cursor == LastEnd(spans[..k], contentStart)
      invariant CutTo(segments, text, contentStart, spans[..k], cursor)
      invariant SomeEmpty(segments) <==> contentStart == 0
      invariant InOrder(spans, contentStart, |text|, true) <==> InOrder(spans[k..], cursor, |text|, true)
    {
      var sp := spans[k];
      NextSpan(spans, k, cursor, |text|, true);
      if !(cursor < sp.start < sp.end <= |text|) { return None; }
      var gap, masked := Segment(text[cursor..sp.start], Supervised), Segment(text[sp.start..sp.end], Masked);
      CutGap(segments, text, contentStart, spans[..k], cursor, sp.start);
      CutSpan(segments + [gap], text, contentStart, spans[..k], sp.start, sp);
      AppendFull(segments, gap);
      AppendFull(segments + [gap], masked);
      segments := segments + [gap] + [masked];
      cursor := sp.end;
    }
    assert spans[..|spans|] == spans;
    var tail := Segment(text[cursor..], Supervised);
    CutGap(segments, text, contentStart, spans, cursor, |text|);
    assert text[cursor..|text|] == text[cursor..] && text[..|text|] == text;
    AppendFull(segments, tail);
    segments := segments + [tail];
    if SomeEmpty(segments) { return None; }
    if Joined(segments) != text { return None; }
    return Some(segments);
  }

  method AddSpan(
      continuation: string, ghost text: string, segments: seq<Segment>, ghost done: seq<Span>, cursor: nat, sp: Span)
    returns (more: seq<Segment>)
    requires continuation <= text && cursor <= sp.start < sp.end <= |continuation|
    requires CutTo(segments, text, 0, done, cursor) && !SomeEmpty(segments)
    ensures CutTo(more, text, 0, done + [sp], sp.end) && !SomeEmpty(more)
  {
    more := segments;
    if sp.start > cursor {
      var gap := Segment(continuation[cursor..sp.start], Supervised);
      CutGap(segments, text, 0, done, cursor, sp.start);
      assert text[cursor..sp.start] == continuation[cursor..sp.start];
      AppendFull(segments, gap);
      more := segments + [gap];
    }
    var masked := Segment(continuation[sp.start..sp.end], Masked);
    CutSpan(more, text, 0, done, sp.start, sp);
    assert text[sp.start..sp.end] == continuation[sp.start..sp.end];
    AppendFull(more, masked);
    more := more + [masked];
  }

  /** The preference trainer's cut of a continuation: no prompt, adjacent spans allowed, empty
      parts skipped, and the end-of-turn marker after a final answer. */
  method BuildContinuationSegments(continuation: string, spans: seq<Span>, isFinal: bool, endOfTurn: string)
    returns (r: Option<(seq<Segment>, string)>)
    requires endOfTurn != ""
    ensures var text := if isFinal then continuation + endOfTurn else continuation;
      && (r.Some? <==> InOrder(spans, 0, |continuation|, false) && text != "")
      && (r.Some? ==> r.value.1 == text && Joined(r.value.0) == text && !SomeEmpty(r.value.0))
      && (r.Some? ==> forall i | 0 <= i < |text| :: Labels(r.value.0)[i] == RightLabel(spans, 0, i))
  {
    var segments: seq<Segment>, cursor := [], 0;
    ghost var text := if isFinal then continuation + endOfTurn else continuation;
    for k := 0 to |spans|
      invariant cursor == LastEnd(spans[..k], 0) <= |continuation|
      invariant CutTo(segments, text, 0, spans[..k], cursor) && !SomeEmpty(segments)
      invariant InOrder(spans, 0, |continuation|, false) <==> InOrder(spans[k..], cursor, |continuation|, false)
    {
      var sp := spans[k];
      NextSpan(spans, k, cursor, |continuation|, false);
      if !(cursor <= sp.start < sp.end <= |continuation|) { return None; }
      segments := AddSpan(continuation, text, segments, spans[..k], cursor, sp);
      cursor := sp.end;
    }
    assert spans[..|spans|] == spans;
    var tail := continuation[cursor..];
    if isFinal { tail := tail + endOfTurn; }
    assert tail == text[cursor..|text|] && text[..|text|] == text;
    if tail != "" {
      CutGap(segments, text, 0, spans, cursor, |text|);
      AppendFull(segments, Segment(tail, Supervised));
      segments := segments + [Segment(tail, Supervised)];
    }
    if segments == [] || SomeEmpty(segments) { return None; }
    var finalText := continuation + (if isFinal then endOfTurn else "");
    assert finalText == text;
    if Joined(segments) != finalText { return None; }
    return Some((segments, finalText));
  }
}
