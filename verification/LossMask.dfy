/** The loss masks of the two trainers: which texts they accept, where they find the
    information blocks, and how they cut a text at the mask boundaries. */
module LossMask {
  import opened Outcome
  import opened Markup
  import opened TagCounts
  import F = TrajectoryFormat
  import M = MaskSegments

  // ------------------------------------------------------------ structural checks

  function ExpectedTags(count: nat): seq<TagMark> {
    if count == 0 then
      [TagMark(Think, false), TagMark(Think, true), TagMark(Answer, false), TagMark(Answer, true)]
    else
      [TagMark(Think, false), TagMark(Think, true), TagMark(Search, false), TagMark(Search, true),
       TagMark(Information, false), TagMark(Information, true)] + ExpectedTags(count - 1)
  }

  predicate Balanced(ts: seq<TagMark>) {
    forall n: Name :: multiset(ts)[TagMark(n, false)] == multiset(ts)[TagMark(n, true)]
  }

  function SpanBody(tags: Tags, s: string, sp: Span): string {
    var from := sp.start + |tags.open(sp.name)|;
    if from + |tags.close(sp.name)| <= sp.end <= |s| then s[from..sp.end - |tags.close(sp.name)|] else ""
  }

  predicate NoneBlank(tags: Tags, isBlank: string -> bool, s: string, spans: seq<Span>) {
    forall sp | sp in spans :: !isBlank(SpanBody(tags, s, sp))
  }

  /** Each think is followed at once by its search, that by its information, and that by
      the next think; the last think by the answer, which ends the text. */
  predicate Adjacent(thinks: seq<Span>, searches: seq<Span>, infos: seq<Span>, answers: seq<Span>, limit: nat)
    decreases |infos|
  {
    && |thinks| == |infos| + 1 && |searches| == |infos| && |answers| == 1
    && if infos == [] then thinks[0].end == answers[0].start && answers[0].end == limit
       else
         && thinks[0].end == searches[0].start && searches[0].end == infos[0].start && infos[0].end == thinks[1].start
         && Adjacent(thinks[1..], searches[1..], infos[1..], answers, limit)
  }

  /** The assistant text of a full trajectory with `count` searches, as the supervised
      trainer checks it: the information spans, or None. */
  function SftLayout(tags: Tags, isBlank: string -> bool, s: string, count: nat): Option<seq<Span>> {
    var ts := TagSequence(tags, s);
    var infos, searches := Spans(tags, {Information}, s), Spans(tags, {Search}, s);
    var thinks, answers := Spans(tags, {Think}, s), Spans(tags, {Answer}, s);
    if At(s, 0, tags.open(Think)) && Balanced(ts) && ts == ExpectedTags(count)
       && |searches| == count && |infos| == count && |thinks| == count + 1 && |answers| == 1
       && NoneBlank(tags, isBlank, s, searches) && NoneBlank(tags, isBlank, s, thinks)
       && NoneBlank(tags, isBlank, s, answers) && NoneBlank(tags, isBlank, s, infos)
       && Adjacent(thinks, searches, infos, answers, |s|)
    then Some(infos) else None
  }

  // ----------------------------------------- what is published can be trained on

  ghost predicate Filled(isBlank: string -> bool, t: F.Trajectory) {
    forall b | b in F.Blocks(t) :: !isBlank(b.body)
  }

  lemma TagsCons(b: Block, bs: seq<Block>)
    ensures TagsOf([b] + bs) == [TagMark(b.name, false), TagMark(b.name, true)] + TagsOf(bs)
  {
    assert ([b] + bs)[1..] == bs;
  }

  lemma SpansCons(tags: Tags, names: set<Name>, b: Block, bs: seq<Block>, i: nat)
    ensures SpansOf(tags, names, [b] + bs, i)
            == (if b.name in names then [Span(b.name, i, After(tags, i, b))] else [])
               + SpansOf(tags, names, bs, After(tags, i, b))
  {
    assert ([b] + bs)[1..] == bs;
  }

  lemma {:induction false} TagsOfTrajectory(t: F.Trajectory)
    ensures TagsOf(F.Blocks(t)) == ExpectedTags(|t.turns|)
    decreases |t.turns|
  {
    if t.turns == [] {
      F.SplitFinal(t);
      TagsCons(Block(Think, t.think), [Block(Answer, t.answer)] + []);
      TagsCons(Block(Answer, t.answer), []);
    } else {
      var u, rest := t.turns[0], t.(turns := t.turns[1..]);
      var c := [Block(Information, u.info)] + F.Blocks(rest);
      F.SplitTurn(t);
      TagsCons(Block(Think, u.think), [Block(Search, u.query)] + c);
      TagsCons(Block(Search, u.query), c);
      TagsCons(Block(Information, u.info), F.Blocks(rest));
      TagsOfTrajectory(rest);
    }
  }

  lemma {:induction false} BlocksBalanced(bs: seq<Block>)
    ensures Balanced(TagsOf(bs))
  {
    if bs != [] {
      BlocksBalanced(bs[1..]);
      var two := [TagMark(bs[0].name, false), TagMark(bs[0].name, true)];
      assert multiset(TagsOf(bs)) == multiset(two) + multiset(TagsOf(bs[1..]));
    }
  }

  ghost predicate NamedFilled(isBlank: string -> bool, names: set<Name>, bs: seq<Block>) {
    forall b | b in bs && b.name in names :: !isBlank(b.body)
  }

  /** The spans of consecutive blocks hold the bodies of the blocks of their names. */
  lemma {:induction false} SpansHoldBodies(
      tags: Tags, isBlank: string -> bool, names: set<Name>, s: string, i: nat, bs: seq<Block>, end: nat)
    requires BlocksHere(tags, s, i, bs, end) && end <= |s|
    ensures NoneBlank(tags, isBlank, s, SpansOf(tags, names, bs, i)) <==> NamedFilled(isBlank, names, bs)
    decreases |bs|
  {
    if bs != [] {
      var b, rest, e := bs[0], SpansOf(tags, names, bs[1..], After(tags, i, bs[0])), After(tags, i, bs[0]);
      SpansHoldBodies(tags, isBlank, names, s, e, bs[1..], end);
      BlocksEndLater(tags, s, e, bs[1..], end);
      SpanOfBlock(tags, s, i, b);
      assert bs == [b] + bs[1..];
      NoneBlankCons(tags, isBlank, s, Span(b.name, i, e), rest);
    }
  }

  lemma SpanOfBlock(tags: Tags, s: string, i: nat, b: Block)
    requires BlockHere(tags, s, i, b)
    ensures SpanBody(tags, s, Span(b.name, i, After(tags, i, b))) == b.body
  {
    var j := i + |tags.open(b.name)|;
    F.AtSlice(s, j, j + |b.body|);
    AtUnique(s, j, b.body, s[j..j + |b.body|]);
  }

  lemma NoneBlankCons(tags: Tags, isBlank: string -> bool, s: string, sp: Span, rest: seq<Span>)
    ensures NoneBlank(tags, isBlank, s, [sp] + rest) <==>
      !isBlank(SpanBody(tags, s, sp)) && NoneBlank(tags, isBlank, s, rest)
    ensures [] + rest == rest
  {
    var all := [sp] + rest;
    assert sp in all;
    forall x | x in rest ensures x in all {
    }
  }

  /** The spans of one name: those of the first turn and then the rest. */
  lemma SpansOfTurn(tags: Tags, n: Name, t: F.Trajectory, i: nat)
    requires t.turns != []
    ensures var u := t.turns[0];
      var j := After(tags, i, Block(Think, u.think)); var k := After(tags, j, Block(Search, u.query));
      var e := F.TurnEnd(tags, i, u); var more := SpansOf(tags, {n}, F.Blocks(t.(turns := t.turns[1..])), e);
      SpansOf(tags, {n}, F.Blocks(t), i)
      == match n
         case Think => [Span(Think, i, j)] + more
         case Search => [Span(Search, j, k)] + more
         case Information => [Span(Information, k, e)] + more
         case Answer => more
  {
    var u, more := t.turns[0], F.Blocks(t.(turns := t.turns[1..]));
    var a, b, c := Block(Think, u.think), Block(Search, u.query), Block(Information, u.info);
    F.SplitTurn(t);
    SpansCons(tags, {n}, a, [b] + ([c] + more), i);
    SpansCons(tags, {n}, b, [c] + more, After(tags, i, a));
    SpansCons(tags, {n}, c, more, After(tags, After(tags, i, a), b));
    OneOfThree(n, Span(Think, i, After(tags, i, a)), Span(Search, After(tags, i, a), After(tags, After(tags, i, a), b)),
               Span(Information, After(tags, After(tags, i, a), b), F.TurnEnd(tags, i, u)),
               SpansOf(tags, {n}, more, F.TurnEnd(tags, i, u)));
  }

  lemma OneOfThree<T>(n: Name, a: T, b: T, c: T, more: seq<T>)
    ensures (if Think in {n} then [a] else []) + ((if Search in {n} then [b] else [])
            + ((if Information in {n} then [c] else []) + more))
         == match n
            case Think => [a] + more
            case Search => [b] + more
            case Information => [c] + more
            case Answer => more
  {
    assert [] + more == more && [] + ([c] + more) == [c] + more;
  }

  lemma SpansOfFinal(tags: Tags, n: Name, t: F.Trajectory, i: nat)
    requires t.turns == []
    ensures var j := After(tags, i, Block(Think, t.think)); var e := After(tags, j, Block(Answer, t.answer));
      SpansOf(tags, {n}, F.Blocks(t), i)
      == match n
         case Think => [Span(Think, i, j)]
         case Answer => [Span(Answer, j, e)]
         case _ => []
  {
    var a, b := Block(Think, t.think), Block(Answer, t.answer);
    F.SplitFinal(t);
    SpansCons(tags, {n}, a, [b] + [], i);
    SpansCons(tags, {n}, b, [], After(tags, i, a));
  }

  predicate SpansAdjacent(tags: Tags, bs: seq<Block>, i: nat, limit: nat) {
    Adjacent(SpansOf(tags, {Think}, bs, i), SpansOf(tags, {Search}, bs, i), SpansOf(tags, {Information}, bs, i),
             SpansOf(tags, {Answer}, bs, i), limit)
  }

  lemma {:induction false} TrajectoryIsAdjacent(tags: Tags, t: F.Trajectory, s: string, i: nat, end: nat)
    requires BlocksHere(tags, s, i, F.Blocks(t), end)
    ensures SpansAdjacent(tags, F.Blocks(t), i, end)
    ensures SpansOf(tags, {Think}, F.Blocks(t), i)[0].start == i
    ensures |SpansOf(tags, {Information}, F.Blocks(t), i)| == |t.turns|
    decreases |t.turns|
  {
    if t.turns == [] {
      var a, b := Block(Think, t.think), Block(Answer, t.answer);
      F.SplitFinal(t);
      BlocksCons(tags, s, i, a, [b] + [], end);
      BlocksCons(tags, s, After(tags, i, a), b, [], end);
      SpansOfFinal(tags, Think, t, i);
      SpansOfFinal(tags, Search, t, i);
      SpansOfFinal(tags, Information, t, i);
      SpansOfFinal(tags, Answer, t, i);
    } else {
      var rest, e := t.(turns := t.turns[1..]), F.TurnEnd(tags, i, t.turns[0]);
      BlocksAfterTurn(tags, t, s, i, end);
      TrajectoryIsAdjacent(tags, rest, s, e, end);
      TurnAdjacent(tags, t, i, end);
    }
  }

  lemma BlocksAfterTurn(tags: Tags, t: F.Trajectory, s: string, i: nat, end: nat)
    requires t.turns != [] && BlocksHere(tags, s, i, F.Blocks(t), end)
    ensures BlocksHere(tags, s, F.TurnEnd(tags, i, t.turns[0]), F.Blocks(t.(turns := t.turns[1..])), end)
  {
    var u, more := t.turns[0], F.Blocks(t.(turns := t.turns[1..]));
    var a, b, c := Block(Think, u.think), Block(Search, u.query), Block(Information, u.info);
    F.SplitTurn(t);
    BlocksCons(tags, s, i, a, [b] + ([c] + more), end);
    BlocksCons(tags, s, After(tags, i, a), b, [c] + more, end);
    BlocksCons(tags, s, After(tags, After(tags, i, a), b), c, more, end);
  }

  lemma TurnAdjacent(tags: Tags, t: F.Trajectory, i: nat, end: nat)
    requires t.turns != []
    requires var rest, e := t.(turns := t.turns[1..]), F.TurnEnd(tags, i, t.turns[0]);
      && SpansAdjacent(tags, F.Blocks(rest), e, end)
      && SpansOf(tags, {Think}, F.Blocks(rest), e)[0].start == e
      && |SpansOf(tags, {Information}, F.Blocks(rest), e)| == |rest.turns|
    ensures SpansAdjacent(tags, F.Blocks(t), i, end)
    ensures SpansOf(tags, {Think}, F.Blocks(t), i)[0].start == i
    ensures |SpansOf(tags, {Information}, F.Blocks(t), i)| == |t.turns|
  {
    SpansOfTurn(tags, Think, t, i);
    SpansOfTurn(tags, Search, t, i);
    SpansOfTurn(tags, Information, t, i);
    SpansOfTurn(tags, Answer, t, i);
    var rest, e := F.Blocks(t.(turns := t.turns[1..])), F.TurnEnd(tags, i, t.turns[0]);
    var bs := F.Blocks(t);
    assert SpansOf(tags, {Think}, bs, i)[1..] == SpansOf(tags, {Think}, rest, e);
    assert SpansOf(tags, {Search}, bs, i)[1..] == SpansOf(tags, {Search}, rest, e);
    assert SpansOf(tags, {Information}, bs, i)[1..] == SpansOf(tags, {Information}, rest, e);
  }

  /** MAIN RESULT: of all trajectories the publisher could render, the supervised trainer
      accepts exactly those with no blank body and no structural tag inside a body, and it
      finds exactly their information blocks. */
  lemma PublishedIsTrainable(tags: Tags, isBlank: string -> bool, t: F.Trajectory)
    requires Proper(tags)
    ensures SftLayout(tags, isBlank, F.Body(tags, t), |t.turns|)
         == if AllTagFree(tags, F.Blocks(t)) && Filled(isBlank, t)
            then Some(SpansOf(tags, {Information}, F.Blocks(t), 0)) else None
  {
    TagsOfTrajectory(t);
    TwoMarksABlock(F.Blocks(t));
    TwoTagsABlock(tags, F.Blocks(t));
    if AllTagFree(tags, F.Blocks(t)) { TagFreeLayout(tags, isBlank, t); }
  }

  lemma TagFreeLayout(tags: Tags, isBlank: string -> bool, t: F.Trajectory)
    requires Proper(tags) && AllTagFree(tags, F.Blocks(t))
    ensures SftLayout(tags, isBlank, F.Body(tags, t), |t.turns|)
         == if Filled(isBlank, t) then Some(SpansOf(tags, {Information}, F.Blocks(t), 0)) else None
  {
    var bs, s := F.Blocks(t), F.Body(tags, t);
    TagFreeShape(tags, t);
    FoundInRendering(tags, isBlank, Think, bs);
    FoundInRendering(tags, isBlank, Search, bs);
    FoundInRendering(tags, isBlank, Information, bs);
    FoundInRendering(tags, isBlank, Answer, bs);
    FilledByName(isBlank, t);
  }

  /** The shape checks hold of any rendered trajectory. */
  lemma TagFreeShape(tags: Tags, t: F.Trajectory)
    requires Proper(tags)
    ensures var bs, s := F.Blocks(t), F.Body(tags, t);
      && SpansAdjacent(tags, bs, 0, |s|) && At(s, 0, tags.open(Think))
      && TagsOf(bs) == ExpectedTags(|t.turns|) && Balanced(TagsOf(bs))
      && |SpansOf(tags, {Search}, bs, 0)| == |SpansOf(tags, {Information}, bs, 0)| == |t.turns|
  {
    var bs, s := F.Blocks(t), F.Body(tags, t);
    BlocksAreRendered(tags, s, 0, bs, |s|);
    TrajectoryIsAdjacent(tags, t, s, 0, |s|);
    TagsOfTrajectory(t);
    BlocksBalanced(bs);
    OpensWithThink(tags, t, s);
    SpanCounts(tags, t, 0);
  }

  const OTHER_MARKS := {
    TagMark(Think, false), TagMark(Think, true), TagMark(Answer, false), TagMark(Answer, true)}

  /** What the publisher's validator accepts the trainer refuses, blank bodies apart, exactly
      when an observation holds a think or answer tag: the validator counts only the others. */
  lemma ValidatedIsTrainable(tags: Tags, rules: F.Rules, isBlank: string -> bool, t: F.Trajectory)
    requires Proper(tags) && F.Grammar(tags, t) && F.Verdict(tags, rules, F.Body(tags, t), |t.turns|)
    ensures SftLayout(tags, isBlank, F.Body(tags, t), |t.turns|).Some? <==>
      Filled(isBlank, t) && forall u | u in t.turns :: Free(tags, OTHER_MARKS, u.info)
  {
    PublishedIsTrainable(tags, isBlank, t);
    F.VerdictIsMembership(tags, rules, F.Body(tags, t), |t.turns|, t);
    F.TagsAreInObservations(tags, t, ALL_MARKS);
    forall b | b in F.Blocks(t) ensures TagFree(tags, b.body) <==> Free(tags, ALL_MARKS, b.body) {
      TagFreeIs(tags, b.body);
    }
    forall u | u in t.turns ensures Free(tags, ALL_MARKS, u.info) <==> Free(tags, OTHER_MARKS, u.info) {
      FreeOfBoth(tags, u.info);
    }
  }

  function TagInObservation(): F.Trajectory { F.Trajectory([F.Turn("x", "y", "<think>")], "z", "w") }

  /** A trajectory that only the validator accepts: its one observation is a think tag. */
  lemma ValidatedButNotTrainable(rules: F.Rules, isBlank: string -> bool)
    requires rules.searchOk("x", "y") && rules.answerOk("z", "w") && !rules.isBlank("<think>")
    ensures F.Verdict(ActualTags(), rules, F.Body(ActualTags(), TagInObservation()), 1)
    ensures SftLayout(ActualTags(), isBlank, F.Body(ActualTags(), TagInObservation()), 1).None?
    ensures forall b | b in F.Blocks(TagInObservation()) :: b.body != ""
  {
    TagsAreProper();
    ThinkIsNotCounted();
    WitnessIsGrammatical();
    WitnessBodies();
    OneTurnOnlyValidated(ActualTags(), rules, isBlank, TagInObservation());
  }

  lemma OneTurnOnlyValidated(tags: Tags, rules: F.Rules, isBlank: string -> bool, t: F.Trajectory)
    requires Proper(tags) && F.Grammar(tags, t) && |t.turns| == 1 && F.Sound(rules, t)
    requires var info := t.turns[0].info; Free(tags, F.COUNTED_MARKS, info) && Here(tags, OTHER_MARKS, info, 0)
    ensures F.Verdict(tags, rules, F.Body(tags, t), 1) && SftLayout(tags, isBlank, F.Body(tags, t), 1).None?
  {
    F.VerdictIsMembership(tags, rules, F.Body(tags, t), 1, t);
    ValidatedIsTrainable(tags, rules, isBlank, t);
    assert t.turns[0] in t.turns;
  }

  lemma ThinkIsNotCounted()
    ensures Free(ActualTags(), F.COUNTED_MARKS, "<think>")
  {
    TagsAreProper();
    forall k: nat, m | m in F.COUNTED_MARKS ensures !At("<think>", k, TagText(ActualTags(), m)) {
      CountedIsNotThink(k, m);
    }
  }

  lemma CountedIsNotThink(k: nat, m: TagMark)
    requires Proper(ActualTags()) && m in F.COUNTED_MARKS
    ensures !At("<think>", k, TagText(ActualTags(), m))
  {
    var tags, text := ActualTags(), TagText(ActualTags(), m);
    assert OpenShape(m.name, tags.open(m.name)) && CloseShape(m.name, tags.close(m.name));
    assert text[0] == '<' && text[1] != 't';
    Differs("<think>", k, text, if k == 0 then 1 else 0);
  }

  lemma Differs(s: string, i: nat, pat: string, x: nat)
    requires x < |pat| && (i + x >= |s| || s[i + x] != pat[x])
    ensures !At(s, i, pat)
  {
  }

  lemma WitnessBodies()
    ensures forall b | b in F.Blocks(TagInObservation()) :: b.body != ""
  {
    var t := TagInObservation();
    F.SplitTurn(t);
    F.SplitFinal(t.(turns := t.turns[1..]));
    assert F.Blocks(t)
        == [Block(Think, "x"), Block(Search, "y"), Block(Information, "<think>"),
            Block(Think, "z"), Block(Answer, "w")];
  }

  lemma WitnessIsGrammatical()
    ensures F.Grammar(ActualTags(), TagInObservation())
    ensures Here(ActualTags(), OTHER_MARKS, "<think>", 0)
  {
    var info, c := "<think>", ActualTags().close(Information);
    forall k | 0 <= k < |info| ensures !At(info + c, k, c) {
      if At(info + c, k, c) { Shows(info + c, k, c, 1); }
    }
    assert At(info, 0, TagText(ActualTags(), TagMark(Think, false)));
  }

  lemma FreeOfBoth(tags: Tags, s: string)
    requires Free(tags, F.COUNTED_MARKS, s)
    ensures Free(tags, ALL_MARKS, s) <==> Free(tags, OTHER_MARKS, s)
  {
    forall k: nat ensures Here(tags, ALL_MARKS, s, k) <==> Here(tags, OTHER_MARKS, s, k) {
      assert !Here(tags, F.COUNTED_MARKS, s, k);
    }
  }

  lemma {:induction false} TwoMarksABlock(bs: seq<Block>)
    ensures |TagsOf(bs)| == 2 * |bs|
  {
    if bs != [] { TwoMarksABlock(bs[1..]); }
  }

  lemma FilledByName(isBlank: string -> bool, t: F.Trajectory)
    ensures Filled(isBlank, t) <==>
      && NamedFilled(isBlank, {Think}, F.Blocks(t)) && NamedFilled(isBlank, {Search}, F.Blocks(t))
      && NamedFilled(isBlank, {Information}, F.Blocks(t)) && NamedFilled(isBlank, {Answer}, F.Blocks(t))
  {
    forall b | b in F.Blocks(t) ensures b.name in {Think} + {Search} + {Information} + {Answer} {
      EveryName(b.name);
    }
  }

  lemma FoundInRendering(tags: Tags, isBlank: string -> bool, n: Name, bs: seq<Block>)
    requires Proper(tags) && AllTagFree(tags, bs)
    ensures var s := Render(tags, bs);
      && Spans(tags, {n}, s) == SpansOf(tags, {n}, bs, 0) && TagSequence(tags, s) == TagsOf(bs)
      && (NoneBlank(tags, isBlank, s, Spans(tags, {n}, s)) <==> NamedFilled(isBlank, {n}, bs))
  {
    var s := Render(tags, bs);
    BlocksAreRendered(tags, s, 0, bs, |s|);
    ScanOfRendering(tags, {n}, bs);
    SpansHoldBodies(tags, isBlank, {n}, s, 0, bs, |s|);
  }

  lemma OpensWithThink(tags: Tags, t: F.Trajectory, s: string)
    requires BlocksHere(tags, s, 0, F.Blocks(t), |s|)
    ensures At(s, 0, tags.open(Think))
  {
    assert F.Blocks(t)[0].name == Think && BlockHere(tags, s, 0, F.Blocks(t)[0]);
  }

  lemma {:induction false} SpanCounts(tags: Tags, t: F.Trajectory, i: nat)
    ensures |SpansOf(tags, {Search}, F.Blocks(t), i)| == |SpansOf(tags, {Information}, F.Blocks(t), i)| == |t.turns|
    decreases |t.turns|
  {
    if t.turns == [] {
      SpansOfFinal(tags, Search, t, i);
      SpansOfFinal(tags, Information, t, i);
    } else {
      SpansOfTurn(tags, Search, t, i);
      SpansOfTurn(tags, Information, t, i);
      SpanCounts(tags, t.(turns := t.turns[1..]), F.TurnEnd(tags, i, t.turns[0]));
    }
  }

  // -------------------------------------------- what is trained on has that shape

  function BlockOf(tags: Tags, s: string, sp: Span): Block { Block(sp.name, SpanBody(tags, s, sp)) }

  /** A found span is a block of the text. */
  predicate Genuine(tags: Tags, names: set<Name>, s: string, sp: Span) {
    && sp.name in names && BlockHere(tags, s, sp.start, BlockOf(tags, s, sp))
    && sp.end == After(tags, sp.start, BlockOf(tags, s, sp))
  }

  lemma SpanAtGenuine(tags: Tags, names: set<Name>, s: string, i: nat)
    requires Proper(tags) && SpanAt(tags, names, s, i).Some?
    ensures var (sp, e) := SpanAt(tags, names, s, i).value;
      Genuine(tags, names, s, sp) && sp.start == i && sp.end == e > i
  {
    var n, k := SpanParts(tags, names, s, i);
    DelimitedIsBlock(tags, s, i, n, k);
  }

  lemma SpanParts(tags: Tags, names: set<Name>, s: string, i: nat) returns (n: Name, k: nat)
    requires Proper(tags) && SpanAt(tags, names, s, i).Some?
    ensures n in names && At(s, i, tags.open(n)) && i < i + |tags.open(n)| <= k && At(s, k, tags.close(n))
    ensures SpanAt(tags, names, s, i) == Some((Span(n, i, k + |tags.close(n)|), k + |tags.close(n)|))
  {
    n := NameAt(tags, s, i).value;
    k := Find(s, i + |tags.open(n)|, tags.close(n)).value;
    assert OpenShape(n, tags.open(n)) && CloseShape(n, tags.close(n));
  }

  lemma DelimitedIsBlock(tags: Tags, s: string, i: nat, n: Name, k: nat)
    requires At(s, i, tags.open(n)) && i + |tags.open(n)| <= k && At(s, k, tags.close(n))
    ensures var sp := Span(n, i, k + |tags.close(n)|); var b := BlockOf(tags, s, sp);
      BlockHere(tags, s, i, b) && sp.end == After(tags, i, b)
  {
    F.AtSlice(s, i + |tags.open(n)|, k);
  }

  lemma {:induction false} ScanGenuine(tags: Tags, names: set<Name>, s: string, i: nat)
    requires Proper(tags)
    ensures forall sp | sp in Scan(SpanStep(tags, names, s), |s|, i) :: Genuine(tags, names, s, sp)
    decreases |s| - i
  {
    if i < |s| {
      if SpanAt(tags, names, s, i).Some? {
        SpanAtGenuine(tags, names, s, i);
        ScanGenuine(tags, names, s, SpanAt(tags, names, s, i).value.1);
      } else {
        ScanGenuine(tags, names, s, i + 1);
      }
    }
  }

  /** A text that opens with a tag has its first span of that name there, if it has any. */
  lemma FirstSpanAtStart(tags: Tags, n: Name, s: string)
    requires Proper(tags) && At(s, 0, tags.open(n)) && Spans(tags, {n}, s) != []
    ensures Spans(tags, {n}, s)[0].start == 0
  {
    var sp := Spans(tags, {n}, s)[0];
    ScanGenuine(tags, {n}, s, 0);
    assert sp in Spans(tags, {n}, s);
    NameAtIs(tags, s, 0, n);
    assert At(s, CloseOf(tags, sp.start, BlockOf(tags, s, sp)), tags.close(n));
    assert SpanAt(tags, {n}, s, 0).Some?;
    SpanAtGenuine(tags, {n}, s, 0);
  }

  /** The blocks that adjacent spans are. */
  function Chain(
      tags: Tags, s: string, thinks: seq<Span>, searches: seq<Span>, infos: seq<Span>, answers: seq<Span>): seq<Block>
    requires |thinks| == |infos| + 1 && |searches| == |infos| && |answers| == 1
    decreases |infos|
  {
    [BlockOf(tags, s, thinks[0])]
    + if infos == [] then [BlockOf(tags, s, answers[0])] + []
      else [BlockOf(tags, s, searches[0])] + ([BlockOf(tags, s, infos[0])]
           + Chain(tags, s, thinks[1..], searches[1..], infos[1..], answers))
  }

  predicate AllGenuine(tags: Tags, n: Name, s: string, spans: seq<Span>) {
    forall sp | sp in spans :: Genuine(tags, {n}, s, sp)
  }

  lemma {:induction false} AdjacentBlocks(
      tags: Tags, s: string, thinks: seq<Span>, searches: seq<Span>, infos: seq<Span>, answers: seq<Span>)
    requires Adjacent(thinks, searches, infos, answers, |s|)
    requires AllGenuine(tags, Think, s, thinks) && AllGenuine(tags, Search, s, searches)
    requires AllGenuine(tags, Information, s, infos) && AllGenuine(tags, Answer, s, answers)
    ensures var bs := Chain(tags, s, thinks, searches, infos, answers);
      && BlocksHere(tags, s, thinks[0].start, bs, |s|)
      && SpansOf(tags, {Information}, bs, thinks[0].start) == infos
    decreases |infos|
  {
    assert Genuine(tags, {Think}, s, thinks[0]);
    if infos == [] {
      assert Genuine(tags, {Answer}, s, answers[0]);
      var last := Prepend(tags, s, answers[0], Answer, [], []);
      var both := Prepend(tags, s, thinks[0], Think, last, []);
    } else {
      assert Genuine(tags, {Search}, s, searches[0]) && Genuine(tags, {Information}, s, infos[0]);
      AdjacentBlocks(tags, s, thinks[1..], searches[1..], infos[1..], answers);
      OneTurn(tags, s, thinks[0], searches[0], infos[0], infos[1..], thinks[1].start,
              Chain(tags, s, thinks[1..], searches[1..], infos[1..], answers));
      assert infos == [infos[0]] + infos[1..];
    }
  }

  lemma OneTurn(tags: Tags, s: string, th: Span, se: Span, info: Span, more: seq<Span>, start: nat, rest: seq<Block>)
    requires Genuine(tags, {Think}, s, th) && Genuine(tags, {Search}, s, se) && Genuine(tags, {Information}, s, info)
    requires th.end == se.start && se.end == info.start && info.end == start
    requires BlocksHere(tags, s, start, rest, |s|) && SpansOf(tags, {Information}, rest, start) == more
    ensures var bs := [BlockOf(tags, s, th)] + ([BlockOf(tags, s, se)] + ([BlockOf(tags, s, info)] + rest));
      BlocksHere(tags, s, th.start, bs, |s|) && SpansOf(tags, {Information}, bs, th.start) == [info] + more
  {
    var c := Prepend(tags, s, info, Information, rest, more);
    var b := Prepend(tags, s, se, Search, c, [info] + more);
    var a := Prepend(tags, s, th, Think, b, [info] + more);
  }

  lemma Prepend(tags: Tags, s: string, sp: Span, n: Name, rest: seq<Block>, infos: seq<Span>) returns (bs: seq<Block>)
    requires Genuine(tags, {n}, s, sp) && BlocksHere(tags, s, sp.end, rest, |s|)
    requires SpansOf(tags, {Information}, rest, sp.end) == infos
    ensures bs == [BlockOf(tags, s, sp)] + rest && BlocksHere(tags, s, sp.start, bs, |s|)
    ensures SpansOf(tags, {Information}, bs, sp.start) == if n == Information then [sp] + infos else infos
  {
    bs := [BlockOf(tags, s, sp)] + rest;
    BlocksCons(tags, s, sp.start, BlockOf(tags, s, sp), rest, |s|);
    SpansCons(tags, {Information}, BlockOf(tags, s, sp), rest, sp.start);
  }

  function ExpectedNames(count: nat): seq<Name> {
    if count == 0 then [Think] + ([Answer] + [])
    else [Think] + ([Search] + ([Information] + ExpectedNames(count - 1)))
  }

  function Names(bs: seq<Block>): seq<Name> {
    if bs == [] then [] else [bs[0].name] + Names(bs[1..])
  }

  lemma NamesCons(b: Block, bs: seq<Block>)
    ensures Names([b] + bs) == [b.name] + Names(bs)
  {
    assert ([b] + bs)[1..] == bs;
  }

  lemma {:induction false} ChainNames(
      tags: Tags, s: string, thinks: seq<Span>, searches: seq<Span>, infos: seq<Span>, answers: seq<Span>)
    requires |thinks| == |infos| + 1 && |searches| == |infos| && |answers| == 1
    requires AllGenuine(tags, Think, s, thinks) && AllGenuine(tags, Search, s, searches)
    requires AllGenuine(tags, Information, s, infos) && AllGenuine(tags, Answer, s, answers)
    ensures Names(Chain(tags, s, thinks, searches, infos, answers)) == ExpectedNames(|infos|)
    decreases |infos|
  {
    var th := BlockOf(tags, s, thinks[0]);
    assert Genuine(tags, {Think}, s, thinks[0]) && Genuine(tags, {Answer}, s, answers[0]);
    if infos == [] {
      NamesCons(th, [BlockOf(tags, s, answers[0])] + []);
      NamesCons(BlockOf(tags, s, answers[0]), []);
    } else {
      assert Genuine(tags, {Search}, s, searches[0]) && Genuine(tags, {Information}, s, infos[0]);
      ChainNames(tags, s, thinks[1..], searches[1..], infos[1..], answers);
      var rest := Chain(tags, s, thinks[1..], searches[1..], infos[1..], answers);
      NamesOfTurn(th, BlockOf(tags, s, searches[0]), BlockOf(tags, s, infos[0]), rest);
    }
  }

  lemma NamesOfTurn(a: Block, b: Block, c: Block, rest: seq<Block>)
    ensures Names([a] + ([b] + ([c] + rest))) == [a.name] + ([b.name] + ([c.name] + Names(rest)))
  {
    NamesCons(a, [b] + ([c] + rest));
    NamesCons(b, [c] + rest);
    NamesCons(c, rest);
  }

  /** Whatever the supervised trainer accepts is (think search information)* think answer,
      and the spans it masks are exactly its information blocks. */
  lemma TrainableIsRendered(tags: Tags, isBlank: string -> bool, s: string, count: nat) returns (bs: seq<Block>)
    requires Proper(tags) && SftLayout(tags, isBlank, s, count).Some?
    ensures s == Render(tags, bs) && Names(bs) == ExpectedNames(count)
    ensures SftLayout(tags, isBlank, s, count) == Some(SpansOf(tags, {Information}, bs, 0))
  {
    var infos, searches := Spans(tags, {Information}, s), Spans(tags, {Search}, s);
    var thinks, answers := Spans(tags, {Think}, s), Spans(tags, {Answer}, s);
    ScanGenuine(tags, {Information}, s, 0);
    ScanGenuine(tags, {Search}, s, 0);
    ScanGenuine(tags, {Think}, s, 0);
    ScanGenuine(tags, {Answer}, s, 0);
    FirstSpanAtStart(tags, Think, s);
    AdjacentBlocks(tags, s, thinks, searches, infos, answers);
    ChainNames(tags, s, thinks, searches, infos, answers);
    bs := Chain(tags, s, thinks, searches, infos, answers);
    BlocksAreRendered(tags, s, 0, bs, |s|);
    F.AtSlice(s, 0, |s|);
    AtUnique(s, 0, Render(tags, bs), s);
  }

  // ---------------------------------------------------- the cut of an accepted text

  function Shift(spans: seq<Span>, offset: nat): seq<Span> {
    if spans == [] then []
    else [spans[0].(start := spans[0].start + offset, end := spans[0].end + offset)] + Shift(spans[1..], offset)
  }

  lemma {:induction false} ShiftKeepsOrder(spans: seq<Span>, offset: nat, cursor: nat, limit: nat, strict: bool)
    ensures M.InOrder(Shift(spans, offset), cursor + offset, limit + offset, strict) <==>
      M.InOrder(spans, cursor, limit, strict)
  {
    if spans != [] {
      assert Shift(spans, offset)[1..] == Shift(spans[1..], offset);
      ShiftKeepsOrder(spans[1..], offset, spans[0].end, limit, strict);
    }
  }

  lemma {:induction false} AdjacentInOrder(
      thinks: seq<Span>, searches: seq<Span>, infos: seq<Span>, answers: seq<Span>, limit: nat)
    requires Adjacent(thinks, searches, infos, answers, limit)
    requires forall sp | sp in thinks + searches + infos + answers :: sp.start < sp.end
    ensures thinks[0].start < limit && M.InOrder(infos, thinks[0].start, limit, true)
    ensures M.LastEnd(infos, thinks[0].start) < limit
    decreases |infos|
  {
    assert thinks[0] in thinks && answers[0] in answers;
    if infos != [] {
      assert searches[0] in searches && infos[0] in infos;
      AdjacentInOrder(thinks[1..], searches[1..], infos[1..], answers, limit);
    }
  }

  /** For every text the supervised trainer accepts, behind any prompt and before any tail,
      the cut is defined: no span, empty-segment or reconstruction error can occur. */
  lemma AcceptedTextIsCut(tags: Tags, isBlank: string -> bool, s: string, count: nat, prompt: string, tail: string)
    requires Proper(tags) && SftLayout(tags, isBlank, s, count).Some? && prompt != ""
    ensures var spans, limit := Shift(SftLayout(tags, isBlank, s, count).value, |prompt|), |prompt + s + tail|;
      M.InOrder(spans, |prompt|, limit, true) && M.LastEnd(spans, |prompt|) < limit
  {
    AcceptedSpansInOrder(tags, isBlank, s, count);
    ShiftedInOrder(SftLayout(tags, isBlank, s, count).value, |prompt|, |s|, |prompt + s + tail|);
  }

  lemma ShiftedInOrder(infos: seq<Span>, offset: nat, limit: nat, wider: nat)
    requires M.InOrder(infos, 0, limit, true) && M.LastEnd(infos, 0) < limit && limit + offset <= wider
    ensures M.InOrder(Shift(infos, offset), offset, wider, true) && M.LastEnd(Shift(infos, offset), offset) < wider
  {
    ShiftKeepsOrder(infos, offset, 0, limit, true);
    WiderLimit(Shift(infos, offset), offset, limit + offset, wider);
    ShiftEnd(infos, offset, 0);
  }

  lemma AcceptedSpansInOrder(tags: Tags, isBlank: string -> bool, s: string, count: nat)
    requires Proper(tags) && SftLayout(tags, isBlank, s, count).Some?
    ensures var infos := Spans(tags, {Information}, s);
      SftLayout(tags, isBlank, s, count) == Some(infos) && M.InOrder(infos, 0, |s|, true) && M.LastEnd(infos, 0) < |s|
  {
    SpansHaveLength(tags, Information, s);
    SpansHaveLength(tags, Search, s);
    SpansHaveLength(tags, Think, s);
    SpansHaveLength(tags, Answer, s);
    FirstSpanAtStart(tags, Think, s);
    AdjacentInOrder(Spans(tags, {Think}, s), Spans(tags, {Search}, s), Spans(tags, {Information}, s),
                    Spans(tags, {Answer}, s), |s|);
  }

  lemma SpansHaveLength(tags: Tags, n: Name, s: string)
    requires Proper(tags)
    ensures forall sp | sp in Spans(tags, {n}, s) :: sp.start < sp.end
  {
    ScanGenuine(tags, {n}, s, 0);
    forall sp | sp in Spans(tags, {n}, s) ensures sp.start < sp.end {
      assert Genuine(tags, {n}, s, sp) && OpenShape(sp.name, tags.open(sp.name));
    }
  }

  lemma {:induction false} WiderLimit(spans: seq<Span>, cursor: nat, limit: nat, wider: nat)
    requires M.InOrder(spans, cursor, limit, true) && limit <= wider
    ensures M.InOrder(spans, cursor, wider, true)
  {
    if spans != [] { WiderLimit(spans[1..], spans[0].end, limit, wider); }
  }

  lemma {:induction false} ShiftEnd(spans: seq<Span>, offset: nat, cursor: nat)
    ensures M.LastEnd(Shift(spans, offset), cursor + offset) == M.LastEnd(spans, cursor) + offset
  {
    if spans != [] {
      var more := Shift(spans[1..], offset);
      assert Shift(spans, offset)[1..] == more;
      ShiftEnd(spans[1..], offset, spans[0].end);
    }
  }

  // ---------------------------------------------------------- the preference trainer

  const ALL_NAMES := {Think, Search, Information, Answer}

  function SpanNames(spans: seq<Span>): seq<Name> {
    if spans == [] then [] else [spans[0].name] + SpanNames(spans[1..])
  }

  function InformationOnly(spans: seq<Span>): seq<Span> {
    if spans == [] then []
    else (if spans[0].name == Information then [spans[0]] else []) + InformationOnly(spans[1..])
  }

  /** Searching turns, and then a think and an answer. */
  predicate AnswerSequence(names: seq<Name>) {
    if |names| >= 3 && names[0] == Think && names[1] == Search && names[2] == Information then
      AnswerSequence(names[3..])
    else names == [Think, Answer]
  }

  predicate GapsBlank(isBlank: string -> bool, s: string, spans: seq<Span>) {
    forall k | 0 <= k < |spans| - 1 ::
      spans[k].end <= spans[k + 1].start <= |s| ==> isBlank(s[spans[k].end..spans[k + 1].start])
  }

  predicate EndsWith(s: string, tail: string) { |tail| <= |s| && At(s, |s| - |tail|, tail) }

  /** The spans fill the text but for blank gaps, none has a blank body, and there are no
      other structural tags. */
  predicate SpansFill(tags: Tags, isBlank: string -> bool, s: string, all: seq<Span>) {
    && all != [] && all[0].start == 0 && all[|all| - 1].end == |s| && GapsBlank(isBlank, s, all)
    && NoneBlank(tags, isBlank, s, all)
    && |TagSequence(tags, s)| == 2 * |all|
  }

  function Terminal(tags: Tags, s: string): Option<Name> {
    if EndsWith(s, tags.close(Search)) then Some(Search)
    else if EndsWith(s, tags.close(Answer)) then Some(Answer)
    else None
  }

  predicate SequenceOk(terminal: Name, names: seq<Name>) {
    if terminal == Search then names == [Think, Search] else AnswerSequence(names)
  }

  /** A continuation as the preference trainer checks it: its terminal and its information
      spans; None when it is refused.  `clean` stands for the checks on the text as a whole
      (not empty, trimmed, no chat marker). */
  function DpoLayout(tags: Tags, isBlank: string -> bool, clean: string -> bool, s: string): Option<(Name, seq<Span>)> {
    var all, terminal := Spans(tags, ALL_NAMES, s), Terminal(tags, s);
    if clean(s) && At(s, 0, tags.open(Think)) && Balanced(TagSequence(tags, s)) && SpansFill(tags, isBlank, s, all)
       && terminal.Some? && SequenceOk(terminal.value, SpanNames(all))
    then Some((terminal.value, InformationOnly(all))) else None
  }

  lemma EveryName(n: Name)
    ensures n in ALL_NAMES
  {
    match n case Think => case Search => case Information => case Answer =>
  }

  lemma {:induction false} NamesOfTrajectory(t: F.Trajectory)
    ensures AnswerSequence(Names(F.Blocks(t)))
    decreases |t.turns|
  {
    if t.turns == [] {
      F.SplitFinal(t);
      NamesCons(Block(Think, t.think), [Block(Answer, t.answer)] + []);
      NamesCons(Block(Answer, t.answer), []);
    } else {
      var u, rest := t.turns[0], t.(turns := t.turns[1..]);
      F.SplitTurn(t);
      NamesOfTurn(Block(Think, u.think), Block(Search, u.query), Block(Information, u.info), F.Blocks(rest));
      assert Names(F.Blocks(t))[3..] == Names(F.Blocks(rest));
      NamesOfTrajectory(rest);
    }
  }

  /** Two closing tags cannot both end a text: each has a '<' only in front. */
  lemma SameEnding(tags: Tags, s: string, m: Name, n: Name)
    requires Proper(tags) && EndsWith(s, tags.close(m)) && EndsWith(s, tags.close(n))
    ensures m == n
  {
    var c, d := tags.close(m), tags.close(n);
    assert CloseShape(m, c) && CloseShape(n, d);
    NotLonger(s, c, d);
    NotLonger(s, d, c);
    Shows(s, |s| - |c|, c, 2);
    Shows(s, |s| - |d|, d, 2);
  }

  lemma NotLonger(s: string, c: string, d: string)
    requires EndsWith(s, c) && EndsWith(s, d) && c != "" && c[0] == '<' && d != "" && NoLaterBracket(d)
    ensures |d| <= |c|
  {
    FirstShows(s, |s| - |c|, c);
    Shows(s, |s| - |d|, d, if |c| < |d| then |d| - |c| else 0);
  }

  lemma {:induction false} LastName(bs: seq<Block>)
    requires bs != []
    ensures Names(bs) != [] && |Names(bs)| == |bs| && Names(bs)[|bs| - 1] == bs[|bs| - 1].name
    ensures AnswerSequence(Names(bs)) ==> bs[|bs| - 1].name == Answer
  {
    if |bs| > 1 { LastName(bs[1..]); } else { assert bs[1..] == []; }
    if AnswerSequence(Names(bs)) { AnswerLast(Names(bs)); }
  }

  lemma {:induction false} AnswerLast(names: seq<Name>)
    requires AnswerSequence(names)
    ensures names != [] && names[|names| - 1] == Answer
  {
    if |names| >= 3 && names[0] == Think && names[1] == Search && names[2] == Information { AnswerLast(names[3..]); }
  }

  lemma EarlierCursor(spans: seq<Span>, from: nat, cursor: nat, limit: nat)
    requires M.InOrder(spans, cursor, limit, false) && from <= cursor
    ensures M.InOrder(spans, from, limit, false)
  {
  }

  /** Found spans never overlap. */
  lemma {:induction false} ScanInOrder(tags: Tags, names: set<Name>, s: string, i: nat)
    requires Proper(tags)
    ensures M.InOrder(Scan(SpanStep(tags, names, s), |s|, i), i, |s|, false)
    decreases |s| - i
  {
    if i < |s| {
      if SpanAt(tags, names, s, i).Some? {
        var e := SpanAt(tags, names, s, i).value.1;
        SpanAtGenuine(tags, names, s, i);
        ScanInOrder(tags, names, s, e);
        assert Scan(SpanStep(tags, names, s), |s|, i)[1..] == Scan(SpanStep(tags, names, s), |s|, e);
      } else {
        ScanInOrder(tags, names, s, i + 1);
        EarlierCursor(Scan(SpanStep(tags, names, s), |s|, i + 1), i, i + 1, |s|);
      }
    }
  }

  lemma {:induction false} InformationInOrder(spans: seq<Span>, cursor: nat, limit: nat)
    requires M.InOrder(spans, cursor, limit, false)
    ensures M.InOrder(InformationOnly(spans), cursor, limit, false)
  {
    if spans != [] {
      InformationInOrder(spans[1..], spans[0].end, limit);
      if spans[0].name == Information {
        assert InformationOnly(spans)[1..] == InformationOnly(spans[1..]);
      } else {
        assert InformationOnly(spans) == InformationOnly(spans[1..]);
        EarlierCursor(InformationOnly(spans[1..]), cursor, spans[0].end, limit);
      }
    }
  }

  /** Blocks with a gap between each and the next. */
  function Weave(tags: Tags, bs: seq<Block>, gaps: seq<string>): string
    requires |bs| == |gaps| + 1
    decreases |gaps|
  {
    if gaps == [] then Text(tags, bs[0]) else Text(tags, bs[0]) + (gaps[0] + Weave(tags, bs[1..], gaps[1..]))
  }

  function BlocksOf(tags: Tags, s: string, spans: seq<Span>): (r: seq<Block>)
    ensures |r| == |spans| && forall k | 0 <= k < |r| :: r[k] == BlockOf(tags, s, spans[k])
  {
    seq(|spans|, k requires 0 <= k < |spans| => BlockOf(tags, s, spans[k]))
  }

  /** What stands between spans that do not overlap. */
  function GapsOf(s: string, spans: seq<Span>): seq<string>
    requires spans != [] && M.InOrder(spans, 0, |s|, false)
  {
    if |spans| == 1 then []
    else
      EarlierCursor(spans[1..], 0, spans[0].end, |s|);
      [s[spans[0].end..spans[1].start]] + GapsOf(s, spans[1..])
  }

  lemma {:induction false} SpansAreWoven(tags: Tags, s: string, spans: seq<Span>)
    requires spans != [] && M.InOrder(spans, 0, |s|, false)
    requires forall sp | sp in spans :: Genuine(tags, ALL_NAMES, s, sp)
    ensures |GapsOf(s, spans)| == |spans| - 1 && spans[0].start <= spans[|spans| - 1].end <= |s|
    ensures s[spans[0].start..spans[|spans| - 1].end] == Weave(tags, BlocksOf(tags, s, spans), GapsOf(s, spans))
    decreases |spans|
  {
    var first, last := spans[0], spans[|spans| - 1];
    assert first in spans;
    SpanIsText(tags, s, first);
    if |spans| > 1 {
      EarlierCursor(spans[1..], 0, first.end, |s|);
      SpansAreWoven(tags, s, spans[1..]);
      assert BlocksOf(tags, s, spans)[1..] == BlocksOf(tags, s, spans[1..]);
      assert GapsOf(s, spans)[1..] == GapsOf(s, spans[1..]);
      CutInThree(s, first.start, first.end, spans[1].start, last.end);
    }
  }

  lemma SpanIsText(tags: Tags, s: string, sp: Span)
    requires Genuine(tags, ALL_NAMES, s, sp)
    ensures sp.start <= sp.end <= |s| && s[sp.start..sp.end] == Text(tags, BlockOf(tags, s, sp))
  {
    BlockIsText(tags, s, sp.start, BlockOf(tags, s, sp));
    F.AtSlice(s, sp.start, sp.end);
    AtUnique(s, sp.start, Text(tags, BlockOf(tags, s, sp)), s[sp.start..sp.end]);
  }

  lemma CutInThree(s: string, a: nat, b: nat, c: nat, d: nat)
    requires a <= b <= c <= d <= |s|
    ensures s[a..d] == s[a..b] + (s[b..c] + s[c..d])
  {
  }

  lemma WeaveStarts(tags: Tags, bs: seq<Block>, gaps: seq<string>)
    requires Proper(tags) && |bs| == |gaps| + 1
    ensures Weave(tags, bs, gaps) != "" && Weave(tags, bs, gaps)[0] == '<'
  {
    assert OpenShape(bs[0].name, tags.open(bs[0].name));
  }

  /** The tags of a block that any text follows. */
  lemma PlacesOfBlockThen(tags: Tags, b: Block, rest: string)
    requires Proper(tags)
    ensures Places(tags, ALL_MARKS, Text(tags, b) + rest, 0)
         == 2 + Places(tags, ALL_MARKS, b.body, 0) + Places(tags, ALL_MARKS, rest, 0)
  {
    var open, close := TagMark(b.name, false), TagMark(b.name, true);
    var front, back := tags.open(b.name) + b.body, tags.close(b.name) + rest;
    EveryMark(open);
    EveryMark(close);
    TagTextShape(tags, close);
    assert Text(tags, b) + rest == front + back;
    PlacesApart(tags, ALL_MARKS, front, back, 0);
    PlacesAfterTag(tags, ALL_MARKS, open, b.body);
    PlacesAfterTag(tags, ALL_MARKS, close, rest);
  }

  function InGaps(tags: Tags, gaps: seq<string>): nat {
    if gaps == [] then 0 else Places(tags, ALL_MARKS, gaps[0], 0) + InGaps(tags, gaps[1..])
  }

  lemma {:induction false} TagsInWeave(tags: Tags, bs: seq<Block>, gaps: seq<string>)
    requires Proper(tags) && |bs| == |gaps| + 1
    ensures Places(tags, ALL_MARKS, Weave(tags, bs, gaps), 0)
            == 2 * |bs| + InBodies(tags, ALL_MARKS, bs) + InGaps(tags, gaps)
    decreases |gaps|
  {
    if gaps == [] {
      assert Text(tags, bs[0]) + "" == Weave(tags, bs, gaps) && bs[1..] == [];
      PlacesOfBlockThen(tags, bs[0], "");
    } else {
      var more := Weave(tags, bs[1..], gaps[1..]);
      PlacesOfBlockThen(tags, bs[0], gaps[0] + more);
      WeaveStarts(tags, bs[1..], gaps[1..]);
      PlacesApart(tags, ALL_MARKS, gaps[0], more, 0);
      TagsInWeave(tags, bs[1..], gaps[1..]);
    }
  }

  lemma {:induction false} NothingInGaps(tags: Tags, gaps: seq<string>)
    requires Proper(tags)
    ensures InGaps(tags, gaps) == 0 ==> forall g | g in gaps :: TagFree(tags, g)
  {
    if gaps != [] {
      TagFreeBy(tags, gaps[0]);
      NothingInGaps(tags, gaps[1..]);
      assert gaps == [gaps[0]] + gaps[1..];
    }
  }

  /** With only two tags a block, neither a body nor a gap holds one. */
  lemma WovenIsTagFree(tags: Tags, bs: seq<Block>, gaps: seq<string>)
    requires Proper(tags) && |bs| == |gaps| + 1
    requires Places(tags, ALL_MARKS, Weave(tags, bs, gaps), 0) == 2 * |bs|
    ensures AllTagFree(tags, bs) && forall g | g in gaps :: TagFree(tags, g)
  {
    TagsInWeave(tags, bs, gaps);
    NothingInGaps(tags, gaps);
    NothingInBodies(tags, ALL_MARKS, bs);
    forall b | b in bs ensures TagFree(tags, b.body) {
      TagFreeIs(tags, b.body);
    }
  }

  lemma TagFreeBy(tags: Tags, s: string)
    requires Proper(tags)
    ensures TagFree(tags, s) <==> Places(tags, ALL_MARKS, s, 0) == 0
  {
    TagFreeIs(tags, s);
    FreeIff(tags, ALL_MARKS, s, 0);
  }

  /** MAIN RESULT: every continuation the preference trainer accepts is a sequence of blocks
      with blank gaps, in the name order of its terminal; no body is blank and no body or gap
      holds a structural tag; and the spans it masks are the information blocks. */
  lemma PreferableIsWoven(tags: Tags, isBlank: string -> bool, clean: string -> bool, s: string)
    returns (bs: seq<Block>, gaps: seq<string>)
    requires Proper(tags) && DpoLayout(tags, isBlank, clean, s).Some?
    ensures |bs| == |gaps| + 1 && s == Weave(tags, bs, gaps)
    ensures SequenceOk(DpoLayout(tags, isBlank, clean, s).value.0, Names(bs))
    ensures (forall g | g in gaps :: isBlank(g) && TagFree(tags, g)) && (forall b | b in bs :: !isBlank(b.body))
    ensures AllTagFree(tags, bs)
    ensures BlocksOf(tags, s, DpoLayout(tags, isBlank, clean, s).value.1) == InformationBlocks(bs)
  {
    var all := Spans(tags, ALL_NAMES, s);
    ScanGenuine(tags, ALL_NAMES, s, 0);
    ScanInOrder(tags, ALL_NAMES, s, 0);
    SpansAreWoven(tags, s, all);
    bs, gaps := BlocksOf(tags, s, all), GapsOf(s, all);
    assert s[0..|s|] == s;
    TagSequenceIs(tags, s);
    WovenIsTagFree(tags, bs, gaps);
    BlanksOfSpans(tags, isBlank, s, all);
    NamesOfSpans(tags, s, all);
  }

  function InformationBlocks(bs: seq<Block>): seq<Block> {
    if bs == [] then [] else (if bs[0].name == Information then [bs[0]] else []) + InformationBlocks(bs[1..])
  }

  lemma {:induction false} NamesOfSpans(tags: Tags, s: string, spans: seq<Span>)
    ensures SpanNames(spans) == Names(BlocksOf(tags, s, spans))
    ensures BlocksOf(tags, s, InformationOnly(spans)) == InformationBlocks(BlocksOf(tags, s, spans))
  {
    if spans != [] {
      NamesOfSpans(tags, s, spans[1..]);
      assert BlocksOf(tags, s, spans)[1..] == BlocksOf(tags, s, spans[1..]);
      var rest := InformationOnly(spans[1..]);
      assert BlocksOf(tags, s, [spans[0]] + rest) == [BlockOf(tags, s, spans[0])] + BlocksOf(tags, s, rest);
      assert [] + rest == rest;
    }
  }

  lemma BlanksOfSpans(tags: Tags, isBlank: string -> bool, s: string, spans: seq<Span>)
    requires spans != [] && M.InOrder(spans, 0, |s|, false)
    requires GapsBlank(isBlank, s, spans) && NoneBlank(tags, isBlank, s, spans)
    ensures forall g | g in GapsOf(s, spans) :: isBlank(g)
    ensures forall b | b in BlocksOf(tags, s, spans) :: !isBlank(b.body)
  {
    GapsAreBlank(isBlank, s, spans);
    forall b | b in BlocksOf(tags, s, spans) ensures !isBlank(b.body) {
      var k :| 0 <= k < |spans| && b == BlockOf(tags, s, spans[k]);
      assert spans[k] in spans;
    }
  }

  lemma {:induction false} GapsAreBlank(isBlank: string -> bool, s: string, spans: seq<Span>)
    requires spans != [] && M.InOrder(spans, 0, |s|, false) && GapsBlank(isBlank, s, spans)
    ensures forall g | g in GapsOf(s, spans) :: isBlank(g)
    decreases |spans|
  {
    if |spans| > 1 {
      EarlierCursor(spans[1..], 0, spans[0].end, |s|);
      forall k | 0 <= k < |spans[1..]| - 1 && spans[1..][k].end <= spans[1..][k + 1].start <= |s|
        ensures isBlank(s[spans[1..][k].end..spans[1..][k + 1].start])
      {
        assert spans[1..][k] == spans[k + 1] && spans[1..][k + 1] == spans[k + 2];
      }
      GapsAreBlank(isBlank, s, spans[1..]);
    }
  }

  /** Blocks stand from position `i` to `end`, with these gaps between them. */
  predicate WovenHere(tags: Tags, s: string, i: nat, bs: seq<Block>, gaps: seq<string>, end: nat)
    requires |bs| == |gaps| + 1
    decreases |gaps|
  {
    var e := After(tags, i, bs[0]);
    BlockHere(tags, s, i, bs[0])
    && if gaps == [] then e == end
       else At(s, e, gaps[0]) && WovenHere(tags, s, e + |gaps[0]|, bs[1..], gaps[1..], end)
  }

  lemma {:induction false} WeaveIsHere(tags: Tags, s: string, i: nat, bs: seq<Block>, gaps: seq<string>)
    requires |bs| == |gaps| + 1 && At(s, i, Weave(tags, bs, gaps))
    ensures WovenHere(tags, s, i, bs, gaps, i + |Weave(tags, bs, gaps)|)
    decreases |gaps|
  {
    BlockIsText(tags, s, i, bs[0]);
    if gaps != [] {
      var rest := Weave(tags, bs[1..], gaps[1..]);
      AtAppend(s, i, Text(tags, bs[0]), gaps[0] + rest);
      AtAppend(s, After(tags, i, bs[0]), gaps[0], rest);
      WeaveIsHere(tags, s, After(tags, i, bs[0]) + |gaps[0]|, bs[1..], gaps[1..]);
    }
  }

  /** The spans that woven blocks are. */
  function WovenSpans(tags: Tags, bs: seq<Block>, gaps: seq<string>, i: nat): seq<Span>
    requires |bs| == |gaps| + 1
    decreases |gaps|
  {
    var e := After(tags, i, bs[0]);
    [Span(bs[0].name, i, e)] + if gaps == [] then [] else WovenSpans(tags, bs[1..], gaps[1..], e + |gaps[0]|)
  }

  ghost predicate AllFree(tags: Tags, gaps: seq<string>) { forall g | g in gaps :: TagFree(tags, g) }

  lemma WovenSpansCons(tags: Tags, bs: seq<Block>, gaps: seq<string>, i: nat)
    requires |bs| == |gaps| + 1 && gaps != []
    ensures var e := After(tags, i, bs[0]);
      WovenSpans(tags, bs, gaps, i) == [Span(bs[0].name, i, e)] + WovenSpans(tags, bs[1..], gaps[1..], e + |gaps[0]|)
  {
  }

  /** No scanner finds anything in a tag-free gap that a tag follows. */
  lemma NothingInGap(tags: Tags, s: string, j: nat, gap: string)
    requires Proper(tags) && At(s, j, gap) && TagFree(tags, gap) && j + |gap| < |s| && s[j + |gap|] == '<'
    ensures forall x: nat | j <= x < j + |gap| :: SpanStep(tags, ALL_NAMES, s)(x).None?
    ensures forall x: nat | j <= x < j + |gap| :: TagStep(tags, s)(x).None?
  {
    forall x: nat | j <= x < j + |gap|
      ensures SpanStep(tags, ALL_NAMES, s)(x).None? && TagStep(tags, s)(x).None?
    {
      forall n: Name ensures !At(s, x, tags.open(n)) && !At(s, x, tags.close(n)) {
        NoTagInFree(tags, s, j, gap, x, n);
      }
    }
  }

  /** A tag-free block and the gap behind it are one span. */
  lemma SpansPastGap(tags: Tags, s: string, i: nat, b: Block, gap: string, e: nat, k: nat)
    requires Proper(tags) && BlockHere(tags, s, i, b) && TagFree(tags, b.body)
    requires e == After(tags, i, b) && k == e + |gap|
    requires At(s, e, gap) && TagFree(tags, gap) && k < |s| && s[k] == '<'
    ensures Scan(SpanStep(tags, ALL_NAMES, s), |s|, i)
            == [Span(b.name, i, e)] + Scan(SpanStep(tags, ALL_NAMES, s), |s|, k)
  {
    EveryName(b.name);
    BlockSpans(tags, ALL_NAMES, s, i, b);
    NothingInGap(tags, s, e, gap);
    ScanPast(SpanStep(tags, ALL_NAMES, s), |s|, i, [Span(b.name, i, e)], e, k);
  }

  /** They are two structural tags. */
  lemma TagsPastGap(tags: Tags, s: string, i: nat, b: Block, gap: string, e: nat, k: nat)
    requires Proper(tags) && BlockHere(tags, s, i, b) && TagFree(tags, b.body)
    requires e == After(tags, i, b) && k == e + |gap|
    requires At(s, e, gap) && TagFree(tags, gap) && k < |s| && s[k] == '<'
    ensures Scan(TagStep(tags, s), |s|, i)
            == [TagMark(b.name, false), TagMark(b.name, true)] + Scan(TagStep(tags, s), |s|, k)
  {
    BlockTags(tags, s, i, b);
    NothingInGap(tags, s, e, gap);
    ScanPast(TagStep(tags, s), |s|, i, [TagMark(b.name, false), TagMark(b.name, true)], e, k);
  }

  /** The span scanner recovers tag-free blocks with tag-free gaps. */
  lemma {:induction false} SpansOfWoven(tags: Tags, s: string, i: nat, bs: seq<Block>, gaps: seq<string>)
    requires Proper(tags) && |bs| == |gaps| + 1 && WovenHere(tags, s, i, bs, gaps, |s|)
    requires AllTagFree(tags, bs) && AllFree(tags, gaps)
    ensures Scan(SpanStep(tags, ALL_NAMES, s), |s|, i) == WovenSpans(tags, bs, gaps, i)
    decreases |gaps|
  {
    if gaps == [] {
      EveryName(bs[0].name);
      BlockSpans(tags, ALL_NAMES, s, i, bs[0]);
    } else {
      var e := After(tags, i, bs[0]);
      var next := e + |gaps[0]|;
      WovenStarts(tags, s, next, bs[1..], gaps[1..], |s|);
      SpansPastGap(tags, s, i, bs[0], gaps[0], e, next);
      SpansOfWoven(tags, s, next, bs[1..], gaps[1..]);
      WovenSpansCons(tags, bs, gaps, i);
    }
  }

  /** So does the tag scanner. */
  lemma {:induction false} TagsOfWoven(tags: Tags, s: string, i: nat, bs: seq<Block>, gaps: seq<string>)
    requires Proper(tags) && |bs| == |gaps| + 1 && WovenHere(tags, s, i, bs, gaps, |s|)
    requires AllTagFree(tags, bs) && AllFree(tags, gaps)
    ensures Scan(TagStep(tags, s), |s|, i) == TagsOf(bs)
    decreases |gaps|
  {
    if gaps == [] {
      BlockTags(tags, s, i, bs[0]);
      assert TagsOf(bs[1..]) == [];
    } else {
      var e := After(tags, i, bs[0]);
      var next := e + |gaps[0]|;
      WovenStarts(tags, s, next, bs[1..], gaps[1..], |s|);
      TagsPastGap(tags, s, i, bs[0], gaps[0], e, next);
      TagsOfWoven(tags, s, next, bs[1..], gaps[1..]);
    }
  }

  lemma WovenStarts(tags: Tags, s: string, i: nat, bs: seq<Block>, gaps: seq<string>, end: nat)
    requires Proper(tags) && |bs| == |gaps| + 1 && WovenHere(tags, s, i, bs, gaps, end)
    ensures i < |s| && s[i] == '<'
  {
    assert OpenShape(bs[0].name, tags.open(bs[0].name));
    FirstShows(s, i, tags.open(bs[0].name));
  }

  /** One span for every block, the first at the start and the last at the end. */
  lemma {:induction false} WovenShape(
      tags: Tags, s: string, i: nat, bs: seq<Block>, gaps: seq<string>, end: nat)
    requires |bs| == |gaps| + 1 && WovenHere(tags, s, i, bs, gaps, end)
    ensures var all := WovenSpans(tags, bs, gaps, i);
      |all| == |bs| && all[0].start == i && all[|all| - 1].end == end && SpanNames(all) == Names(bs)
    decreases |gaps|
  {
    if gaps == [] {
      assert Names(bs[1..]) == [];
    } else {
      var rest := WovenSpans(tags, bs[1..], gaps[1..], After(tags, i, bs[0]) + |gaps[0]|);
      WovenShape(tags, s, After(tags, i, bs[0]) + |gaps[0]|, bs[1..], gaps[1..], end);
      assert WovenSpans(tags, bs, gaps, i)[1..] == rest;
    }
  }

  /** The spans hold the blocks' bodies. */
  lemma {:induction false} WovenBodies(
      tags: Tags, isBlank: string -> bool, s: string, i: nat, bs: seq<Block>, gaps: seq<string>, end: nat)
    requires |bs| == |gaps| + 1 && WovenHere(tags, s, i, bs, gaps, end) && forall b | b in bs :: !isBlank(b.body)
    ensures NoneBlank(tags, isBlank, s, WovenSpans(tags, bs, gaps, i))
    decreases |gaps|
  {
    var e := After(tags, i, bs[0]);
    var first := Span(bs[0].name, i, e);
    SpanOfBlock(tags, s, i, bs[0]);
    if gaps == [] {
      NoneBlankCons(tags, isBlank, s, first, []);
    } else {
      WovenBodies(tags, isBlank, s, e + |gaps[0]|, bs[1..], gaps[1..], end);
      NoneBlankCons(tags, isBlank, s, first, WovenSpans(tags, bs[1..], gaps[1..], e + |gaps[0]|));
    }
  }

  /** Between the spans stand the gaps. */
  lemma {:induction false} WovenGaps(
      tags: Tags, isBlank: string -> bool, s: string, i: nat, bs: seq<Block>, gaps: seq<string>, end: nat)
    requires |bs| == |gaps| + 1 && WovenHere(tags, s, i, bs, gaps, end) && forall g | g in gaps :: isBlank(g)
    ensures GapsBlank(isBlank, s, WovenSpans(tags, bs, gaps, i))
    decreases |gaps|
  {
    if gaps != [] {
      var e := After(tags, i, bs[0]);
      var rest := WovenSpans(tags, bs[1..], gaps[1..], e + |gaps[0]|);
      WovenGaps(tags, isBlank, s, e + |gaps[0]|, bs[1..], gaps[1..], end);
      WovenSpansCons(tags, bs, gaps, i);
      GapsBlankCons(isBlank, s, Span(bs[0].name, i, e), rest, gaps[0]);
    }
  }

  lemma GapsBlankCons(isBlank: string -> bool, s: string, first: Span, rest: seq<Span>, gap: string)
    requires rest != [] && rest[0].start == first.end + |gap| && At(s, first.end, gap)
    requires isBlank(gap) && GapsBlank(isBlank, s, rest)
    ensures GapsBlank(isBlank, s, [first] + rest)
  {
    var all := [first] + rest;
    assert s[first.end..rest[0].start] == gap;
    forall k | 0 <= k < |all| - 1 && all[k].end <= all[k + 1].start <= |s|
      ensures isBlank(s[all[k].end..all[k + 1].start])
    {
      if k > 0 { assert all[k] == rest[k - 1] && all[k + 1] == rest[k]; }
    }
  }

  /** A woven text ends with the closing tag of its last block, and no other. */
  lemma {:induction false} WovenEnds(tags: Tags, s: string, i: nat, bs: seq<Block>, gaps: seq<string>)
    requires Proper(tags) && |bs| == |gaps| + 1 && WovenHere(tags, s, i, bs, gaps, |s|)
    ensures forall n: Name :: EndsWith(s, tags.close(n)) <==> n == bs[|bs| - 1].name
    decreases |gaps|
  {
    if gaps == [] {
      forall n: Name ensures EndsWith(s, tags.close(n)) <==> n == bs[0].name {
        if EndsWith(s, tags.close(n)) { SameEnding(tags, s, n, bs[0].name); }
      }
    } else {
      WovenEnds(tags, s, After(tags, i, bs[0]) + |gaps[0]|, bs[1..], gaps[1..]);
    }
  }

  /** A continuation: blocks in the name order of its terminal, none with a blank body or a
      tag in it, and blank gaps between them. */
  ghost predicate WellWoven(
      tags: Tags, isBlank: string -> bool, terminal: Name, bs: seq<Block>, gaps: seq<string>)
  {
    && |bs| == |gaps| + 1 && terminal in {Search, Answer} && SequenceOk(terminal, Names(bs))
    && AllTagFree(tags, bs) && AllFree(tags, gaps)
    && (forall b | b in bs :: !isBlank(b.body)) && (forall g | g in gaps :: isBlank(g))
  }

  lemma WovenIsPreferable(
      tags: Tags, isBlank: string -> bool, clean: string -> bool, terminal: Name, bs: seq<Block>, gaps: seq<string>)
    requires Proper(tags) && WellWoven(tags, isBlank, terminal, bs, gaps) && clean(Weave(tags, bs, gaps))
    ensures DpoLayout(tags, isBlank, clean, Weave(tags, bs, gaps))
            == Some((terminal, InformationOnly(WovenSpans(tags, bs, gaps, 0))))
  {
    var s, all := Weave(tags, bs, gaps), WovenSpans(tags, bs, gaps, 0);
    WeaveIsHere(tags, s, 0, bs, gaps);
    SpansOfWoven(tags, s, 0, bs, gaps);
    WovenTags(tags, s, bs, gaps);
    WovenFill(tags, isBlank, s, bs, gaps, all);
    TerminalOf(tags, s, bs, gaps, terminal);
  }

  lemma WovenFill(
      tags: Tags, isBlank: string -> bool, s: string, bs: seq<Block>, gaps: seq<string>, all: seq<Span>)
    requires |bs| == |gaps| + 1 && WovenHere(tags, s, 0, bs, gaps, |s|) && all == WovenSpans(tags, bs, gaps, 0)
    requires (forall b | b in bs :: !isBlank(b.body)) && (forall g | g in gaps :: isBlank(g))
    requires |TagSequence(tags, s)| == 2 * |bs|
    ensures SpansFill(tags, isBlank, s, all) && SpanNames(all) == Names(bs)
  {
    WovenShape(tags, s, 0, bs, gaps, |s|);
    WovenBodies(tags, isBlank, s, 0, bs, gaps, |s|);
    WovenGaps(tags, isBlank, s, 0, bs, gaps, |s|);
  }

  lemma WovenTags(tags: Tags, s: string, bs: seq<Block>, gaps: seq<string>)
    requires Proper(tags) && |bs| == |gaps| + 1 && WovenHere(tags, s, 0, bs, gaps, |s|)
    requires AllTagFree(tags, bs) && AllFree(tags, gaps)
    ensures Balanced(TagSequence(tags, s)) && |TagSequence(tags, s)| == 2 * |bs|
  {
    TagsOfWoven(tags, s, 0, bs, gaps);
    BlocksBalanced(bs);
    TwoMarksABlock(bs);
  }

  lemma TerminalOf(tags: Tags, s: string, bs: seq<Block>, gaps: seq<string>, terminal: Name)
    requires Proper(tags) && |bs| == |gaps| + 1 && WovenHere(tags, s, 0, bs, gaps, |s|)
    requires terminal in {Search, Answer} && SequenceOk(terminal, Names(bs))
    ensures Terminal(tags, s) == Some(terminal) && At(s, 0, tags.open(Think))
  {
    WovenEnds(tags, s, 0, bs, gaps);
    LastName(bs);
    assert Names(bs)[0] == bs[0].name;
  }

  /** The text is such a continuation, and `infos` are its information blocks. */
  ghost predicate Continuation(
      tags: Tags, isBlank: string -> bool, s: string, terminal: Name, infos: seq<Span>,
      bs: seq<Block>, gaps: seq<string>)
  {
    && WellWoven(tags, isBlank, terminal, bs, gaps) && s == Weave(tags, bs, gaps)
    && infos == InformationOnly(WovenSpans(tags, bs, gaps, 0))
  }

  /** MAIN RESULT: the preference trainer accepts exactly the blocks with blank gaps in the
      name order of a terminal, with no blank body and no tag in a body or gap, that pass the
      checks on the text as a whole; and what it masks is exactly their information blocks. */
  lemma PreferableIff(
      tags: Tags, isBlank: string -> bool, clean: string -> bool, s: string, terminal: Name, infos: seq<Span>)
    requires Proper(tags)
    ensures DpoLayout(tags, isBlank, clean, s) == Some((terminal, infos)) <==>
      clean(s) && exists bs, gaps :: Continuation(tags, isBlank, s, terminal, infos, bs, gaps)
  {
    if DpoLayout(tags, isBlank, clean, s) == Some((terminal, infos)) {
      var bs, gaps := PreferableIsWoven(tags, isBlank, clean, s);
      WovenIsPreferable(tags, isBlank, clean, terminal, bs, gaps);
      assert Continuation(tags, isBlank, s, terminal, infos, bs, gaps);
    }
    if clean(s) && exists bs, gaps :: Continuation(tags, isBlank, s, terminal, infos, bs, gaps) {
      var bs, gaps :| Continuation(tags, isBlank, s, terminal, infos, bs, gaps);
      WovenIsPreferable(tags, isBlank, clean, terminal, bs, gaps);
    }
  }

  /** For every continuation the preference trainer accepts, its cut is defined too. */
  lemma AcceptedContinuationIsCut(tags: Tags, isBlank: string -> bool, clean: string -> bool, s: string)
    requires Proper(tags) && DpoLayout(tags, isBlank, clean, s).Some?
    ensures M.InOrder(DpoLayout(tags, isBlank, clean, s).value.1, 0, |s|, false) && s != ""
  {
    ScanInOrder(tags, ALL_NAMES, s, 0);
    InformationInOrder(Spans(tags, ALL_NAMES, s), 0, |s|);
    assert OpenShape(Think, tags.open(Think));
  }
}
