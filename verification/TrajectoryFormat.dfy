/** The published trajectory format: (think search information)* think answer, with a
    position-by-position validator, and the language it accepts. */
module TrajectoryFormat {
  import opened Outcome
  import opened Markup
  import opened TagCounts

  datatype Turn = Turn(think: string, query: string, info: string)

  datatype Trajectory = Trajectory(turns: seq<Turn>, think: string, answer: string)

  const MAX_QUERY := 300

  function TurnBlocks(turns: seq<Turn>): seq<Block> {
    if turns == [] then []
    else
      [Block(Think, turns[0].think), Block(Search, turns[0].query), Block(Information, turns[0].info)]
      + TurnBlocks(turns[1..])
  }

  function Blocks(t: Trajectory): seq<Block> {
    TurnBlocks(t.turns) + [Block(Think, t.think), Block(Answer, t.answer)]
  }

  /** The blocks of a trajectory: those of its first turn and then the rest. */
  lemma SplitTurn(t: Trajectory)
    requires t.turns != []
    ensures var u := t.turns[0];
      Blocks(t) == [Block(Think, u.think)] + ([Block(Search, u.query)] + ([Block(Information, u.info)]
                   + Blocks(t.(turns := t.turns[1..]))))
  {
  }

  lemma SplitFinal(t: Trajectory)
    requires t.turns == []
    ensures Blocks(t) == [Block(Think, t.think)] + ([Block(Answer, t.answer)] + [])
  {
  }

  function Body(tags: Tags, t: Trajectory): string { Render(tags, Blocks(t)) }

  /** Bodies of actions: at least one character, none a bracket; queries on one short line. */
  predicate ActionBody(m: string) { m != "" && Plain(m) }

  predicate QueryBody(m: string) {
    ActionBody(m) && |m| <= MAX_QUERY && '\n' !in m && '\r' !in m
  }

  /** An observation ends at its first closing tag. */
  predicate InfoBody(tags: Tags, m: string) {
    var c := tags.close(Information);
    forall k | 0 <= k < |m| :: !At(m + c, k, c)
  }

  predicate TurnOk(tags: Tags, t: Turn) {
    ActionBody(t.think) && QueryBody(t.query) && InfoBody(tags, t.info)
  }

  predicate Grammar(tags: Tags, t: Trajectory) {
    (forall u | u in t.turns :: TurnOk(tags, u)) && ActionBody(t.think) && ActionBody(t.answer)
  }

  // ---------------------------------------------------------------------- parsing

  /** A block with a bracket-free, non-empty body at position `i`, and where it ends. */
  function PlainBlockAt(tags: Tags, n: Name, s: string, i: nat): Option<(string, nat)> {
    var j := i + |tags.open(n)|;
    if !At(s, i, tags.open(n)) then None
    else
      var k := Run(s, j);
      if k > j && At(s, k, tags.close(n)) then Some((s[j..k], k + |tags.close(n)|)) else None
  }

  function InfoAt(tags: Tags, s: string, i: nat): Option<(string, nat)> {
    var j := i + |tags.open(Information)|;
    if !At(s, i, tags.open(Information)) then None
    else
      var k := Find(s, j, tags.close(Information));
      if k.None? then None else Some((s[j..k.value], k.value + |tags.close(Information)|))
  }

  lemma AtSlice(s: string, i: nat, j: nat)
    requires i <= j <= |s|
    ensures At(s, i, s[i..j])
  {
  }

  /** Exactly the blocks with such a body are recognised. */
  lemma PlainBlockAtIs(tags: Tags, n: Name, s: string, i: nat, m: string, e: nat)
    requires Proper(tags)
    ensures PlainBlockAt(tags, n, s, i) == Some((m, e)) <==>
      BlockHere(tags, s, i, Block(n, m)) && ActionBody(m) && e == After(tags, i, Block(n, m))
  {
    var b, j := Block(n, m), i + |tags.open(n)|;
    if PlainBlockAt(tags, n, s, i) == Some((m, e)) {
      AtSlice(s, j, Run(s, j));
    }
    if BlockHere(tags, s, i, b) && ActionBody(m) {
      FindClose(tags, s, i, b);
      AtSlice(s, j, j + |m|);
      AtUnique(s, j, m, s[j..j + |m|]);
    }
  }

  lemma InfoAtIs(tags: Tags, s: string, i: nat, m: string, e: nat)
    ensures InfoAt(tags, s, i) == Some((m, e)) <==>
      BlockHere(tags, s, i, Block(Information, m)) && InfoBody(tags, m) && e == After(tags, i, Block(Information, m))
  {
    var j, c := i + |tags.open(Information)|, tags.close(Information);
    if InfoAt(tags, s, i) == Some((m, e)) {
      var k := Find(s, j, c).value;
      AtSlice(s, j, k);
      CloseInBody(s, j, m, c);
    }
    if BlockHere(tags, s, i, Block(Information, m)) && InfoBody(tags, m) {
      CloseInBody(s, j, m, c);
      forall k | j <= k < j + |m| ensures !At(s, k, c) {
        assert !At(m + c, k - j, c);
      }
      FindFirst(s, j, c, j + |m|);
      AtSlice(s, j, j + |m|);
      AtUnique(s, j, m, s[j..j + |m|]);
    }
  }

  lemma CloseInBody(s: string, j: nat, m: string, c: string)
    requires At(s, j, m) && At(s, j + |m|, c)
    ensures forall k | 0 <= k < |m| :: At(m + c, k, c) <==> At(s, j + k, c)
  {
    AtAppend(s, j, m, c);
    forall k | 0 <= k < |m| ensures At(m + c, k, c) <==> At(s, j + k, c) {
      assert forall x | 0 <= x < |m + c| :: s[j + x] == (m + c)[x];
    }
  }

  datatype Piece = Piece(turn: Turn, end: nat)

  /** A search action and its observation at position `i`. */
  function TurnAt(tags: Tags, s: string, i: nat): Option<Piece> {
    var th := PlainBlockAt(tags, Think, s, i);
    if th.None? then None else
    var q := PlainBlockAt(tags, Search, s, th.value.1);
    if q.None? || !QueryBody(q.value.0) then None else
    var info := InfoAt(tags, s, q.value.1);
    if info.None? then None else Some(Piece(Turn(th.value.0, q.value.0, info.value.0), info.value.1))
  }

  /** A final action from position `i` to the end of the text. */
  function FinalAt(tags: Tags, s: string, i: nat): Option<Trajectory> {
    var th := PlainBlockAt(tags, Think, s, i);
    if th.None? then None else
    var a := PlainBlockAt(tags, Answer, s, th.value.1);
    if a.None? || a.value.1 != |s| then None else Some(Trajectory([], th.value.0, a.value.0))
  }

  function Join(done: seq<Turn>, rest: Option<Trajectory>): Option<Trajectory> {
    if rest.None? then None else Some(rest.value.(turns := done + rest.value.turns))
  }

  /** The text from position `i` on, read as `count` turns and a final action. */
  function Parse(tags: Tags, s: string, i: nat, count: nat): (r: Option<Trajectory>)
    ensures r.Some? ==> |r.value.turns| == count
    decreases count
  {
    if count == 0 then FinalAt(tags, s, i)
    else
      var piece := TurnAt(tags, s, i);
      if piece.None? then None
      else Join([piece.value.turn], Parse(tags, s, piece.value.end, count - 1))
  }

  predicate TurnHere(tags: Tags, s: string, i: nat, t: Turn, end: nat) {
    && BlockHere(tags, s, i, Block(Think, t.think))
    && var j := After(tags, i, Block(Think, t.think));
       && BlockHere(tags, s, j, Block(Search, t.query))
       && var k := After(tags, j, Block(Search, t.query));
          BlockHere(tags, s, k, Block(Information, t.info)) && end == After(tags, k, Block(Information, t.info))
  }

  lemma TurnAtIs(tags: Tags, s: string, i: nat, t: Turn, e: nat)
    requires Proper(tags)
    ensures TurnAt(tags, s, i) == Some(Piece(t, e)) <==> TurnHere(tags, s, i, t, e) && TurnOk(tags, t)
  {
    var j := After(tags, i, Block(Think, t.think));
    var k := After(tags, j, Block(Search, t.query));
    PlainBlockAtIs(tags, Think, s, i, t.think, j);
    PlainBlockAtIs(tags, Search, s, j, t.query, k);
    InfoAtIs(tags, s, k, t.info, e);
    if TurnAt(tags, s, i) == Some(Piece(t, e)) {
      var th := PlainBlockAt(tags, Think, s, i).value;
      PlainBlockAtIs(tags, Think, s, i, th.0, th.1);
      var q := PlainBlockAt(tags, Search, s, th.1).value;
      PlainBlockAtIs(tags, Search, s, th.1, q.0, q.1);
    }
  }

  predicate FinalHere(tags: Tags, s: string, i: nat, t: Trajectory) {
    && BlockHere(tags, s, i, Block(Think, t.think))
    && var j := After(tags, i, Block(Think, t.think));
       BlockHere(tags, s, j, Block(Answer, t.answer)) && |s| == After(tags, j, Block(Answer, t.answer))
  }

  lemma FinalAtIs(tags: Tags, s: string, i: nat, t: Trajectory)
    requires Proper(tags)
    ensures FinalAt(tags, s, i) == Some(t) <==>
      t.turns == [] && FinalHere(tags, s, i, t) && ActionBody(t.think) && ActionBody(t.answer)
  {
    var j := After(tags, i, Block(Think, t.think));
    PlainBlockAtIs(tags, Think, s, i, t.think, j);
    PlainBlockAtIs(tags, Answer, s, j, t.answer, |s|);
    if FinalAt(tags, s, i) == Some(t) {
      var th := PlainBlockAt(tags, Think, s, i).value;
      PlainBlockAtIs(tags, Think, s, i, th.0, th.1);
    }
  }

  /** The parser accepts exactly the renderings of grammatical trajectories, and gives the
      trajectory back. */
  lemma {:induction false} ParseIs(tags: Tags, s: string, i: nat, count: nat, t: Trajectory)
    requires Proper(tags) && i <= |s|
    ensures Parse(tags, s, i, count) == Some(t) <==>
      BlocksHere(tags, s, i, Blocks(t), |s|) && |t.turns| == count && Grammar(tags, t)
    decreases count
  {
    if |t.turns| == count {
      if count == 0 {
        ParseFinal(tags, s, i, t);
      } else {
        var rest, e := t.(turns := t.turns[1..]), TurnEnd(tags, i, t.turns[0]);
        if e <= |s| { ParseIs(tags, s, e, count - 1, rest); } else { LateBlocks(tags, s, e, Blocks(rest)); }
        ParseMore(tags, s, i, count, t);
      }
    }
  }

  lemma ParseFinal(tags: Tags, s: string, i: nat, t: Trajectory)
    requires Proper(tags) && t.turns == []
    ensures Parse(tags, s, i, 0) == Some(t) <==> BlocksHere(tags, s, i, Blocks(t), |s|) && Grammar(tags, t)
  {
    FinalAtIs(tags, s, i, t);
    FinalBlocks(tags, s, i, t);
  }

  lemma ParseMore(tags: Tags, s: string, i: nat, count: nat, t: Trajectory)
    requires Proper(tags) && |t.turns| == count > 0
    requires var rest, e := t.(turns := t.turns[1..]), TurnEnd(tags, i, t.turns[0]);
      e <= |s| ==>
        (Parse(tags, s, e, count - 1) == Some(rest) <==>
         BlocksHere(tags, s, e, Blocks(rest), |s|) && Grammar(tags, rest))
    requires var rest, e := t.(turns := t.turns[1..]), TurnEnd(tags, i, t.turns[0]);
      e > |s| ==> !BlocksHere(tags, s, e, Blocks(rest), |s|) && !TurnHere(tags, s, i, t.turns[0], e)
    ensures Parse(tags, s, i, count) == Some(t) <==> BlocksHere(tags, s, i, Blocks(t), |s|) && Grammar(tags, t)
  {
    ParseTurn(tags, s, i, count, t);
    TurnThenRest(tags, s, i, t);
    GrammarSplits(tags, t);
  }

  /** Parsing a first turn off. */
  lemma ParseTurn(tags: Tags, s: string, i: nat, count: nat, t: Trajectory)
    requires Proper(tags) && count > 0 && t.turns != []
    ensures var u, rest := t.turns[0], t.(turns := t.turns[1..]);
      var e := TurnEnd(tags, i, u);
      Parse(tags, s, i, count) == Some(t) <==>
      TurnHere(tags, s, i, u, e) && TurnOk(tags, u) && Parse(tags, s, e, count - 1) == Some(rest)
  {
    var u, e := t.turns[0], TurnEnd(tags, i, t.turns[0]);
    TurnAtIs(tags, s, i, u, e);
    if TurnAt(tags, s, i).Some? {
      var p := TurnAt(tags, s, i).value;
      TurnAtIs(tags, s, i, p.turn, p.end);
      Unjoin(p.turn, Parse(tags, s, p.end, count - 1), t);
    }
  }

  lemma Unjoin(u: Turn, rest: Option<Trajectory>, t: Trajectory)
    requires t.turns != []
    ensures Join([u], rest) == Some(t) <==> u == t.turns[0] && rest == Some(t.(turns := t.turns[1..]))
  {
    assert t.turns == [t.turns[0]] + t.turns[1..];
    if rest.Some? { assert ([u] + rest.value.turns)[1..] == rest.value.turns; }
  }

  lemma GrammarSplits(tags: Tags, t: Trajectory)
    requires t.turns != []
    ensures Grammar(tags, t) <==> TurnOk(tags, t.turns[0]) && Grammar(tags, t.(turns := t.turns[1..]))
  {
    assert t.turns == [t.turns[0]] + t.turns[1..];
    assert t.turns[0] in t.turns;
    forall u | u in t.turns[1..] ensures u in t.turns {
    }
  }

  function TurnEnd(tags: Tags, i: nat, t: Turn): nat {
    After(tags, After(tags, After(tags, i, Block(Think, t.think)), Block(Search, t.query)), Block(Information, t.info))
  }

  lemma LateBlocks(tags: Tags, s: string, i: nat, bs: seq<Block>)
    requires i > |s|
    ensures !BlocksHere(tags, s, i, bs, |s|)
  {
    BlocksEndLater(tags, s, i, bs, |s|);
  }

  lemma FinalBlocks(tags: Tags, s: string, i: nat, t: Trajectory)
    requires t.turns == []
    ensures BlocksHere(tags, s, i, Blocks(t), |s|) <==> FinalHere(tags, s, i, t)
  {
    var a, b := Block(Think, t.think), Block(Answer, t.answer);
    SplitFinal(t);
    BlocksCons(tags, s, i, a, [b] + [], |s|);
    BlocksCons(tags, s, After(tags, i, a), b, [], |s|);
  }

  lemma TurnThenRest(tags: Tags, s: string, i: nat, t: Trajectory)
    requires t.turns != []
    ensures var u := t.turns[0];
      BlocksHere(tags, s, i, Blocks(t), |s|) <==>
      TurnHere(tags, s, i, u, TurnEnd(tags, i, u))
      && BlocksHere(tags, s, TurnEnd(tags, i, u), Blocks(t.(turns := t.turns[1..])), |s|)
  {
    var u, more := t.turns[0], Blocks(t.(turns := t.turns[1..]));
    var a, b, c := Block(Think, u.think), Block(Search, u.query), Block(Information, u.info);
    SplitTurn(t);
    BlocksCons(tags, s, i, a, [b] + ([c] + more), |s|);
    var j := After(tags, i, a);
    BlocksCons(tags, s, j, b, [c] + more, |s|);
    BlocksCons(tags, s, After(tags, j, b), c, more, |s|);
  }

  /** Round trip: parsing a rendered trajectory gives it back exactly when it is grammatical. */
  lemma RoundTrip(tags: Tags, t: Trajectory)
    requires Proper(tags)
    ensures Parse(tags, Body(tags, t), 0, |t.turns|) == Some(t) <==> Grammar(tags, t)
  {
    var s := Body(tags, t);
    BlocksAreRendered(tags, s, 0, Blocks(t), |s|);
    ParseIs(tags, s, 0, |t.turns|, t);
  }

  lemma {:induction false} CountIsDetermined(tags: Tags, s: string, i: nat, m: nat, n: nat)
    requires Proper(tags) && m <= n && Parse(tags, s, i, m).Some? && Parse(tags, s, i, n).Some?
    ensures m == n
    decreases n
  {
    var p := FirstPiece(tags, s, i, m);
    var q := FirstPiece(tags, s, i, n);
    if m == 0 < n {
      NotBothFinalAndSearch(tags, s, i);
    } else if m > 0 {
      CountIsDetermined(tags, s, p, m - 1, n - 1);
    }
  }

  lemma FirstPiece(tags: Tags, s: string, i: nat, n: nat) returns (e: nat)
    requires Parse(tags, s, i, n).Some?
    ensures if n == 0 then FinalAt(tags, s, i).Some?
            else TurnAt(tags, s, i).Some? && e == TurnAt(tags, s, i).value.end && Parse(tags, s, e, n - 1).Some?
  {
    e := if n == 0 then 0 else TurnAt(tags, s, i).value.end;
  }

  lemma NotBothFinalAndSearch(tags: Tags, s: string, i: nat)
    requires Proper(tags)
    ensures FinalAt(tags, s, i).None? || TurnAt(tags, s, i).None?
  {
    if PlainBlockAt(tags, Think, s, i).Some? {
      var e := PlainBlockAt(tags, Think, s, i).value.1;
      if At(s, e, tags.open(Answer)) { NameAtIs(tags, s, e, Answer); }
      if At(s, e, tags.open(Search)) { NameAtIs(tags, s, e, Search); }
    }
  }

  /** A text has at most one reading as a trajectory, even between readings with different
      numbers of searches. */
  lemma UniqueReading(tags: Tags, t: Trajectory, u: Trajectory)
    requires Proper(tags) && Grammar(tags, t) && Grammar(tags, u) && Body(tags, t) == Body(tags, u)
    ensures t == u
  {
    RoundTrip(tags, t);
    RoundTrip(tags, u);
    if |t.turns| <= |u.turns| {
      CountIsDetermined(tags, Body(tags, t), 0, |t.turns|, |u.turns|);
    } else {
      CountIsDetermined(tags, Body(tags, t), 0, |u.turns|, |t.turns|);
    }
  }

  // ------------------------------------------------------------------- validation

  /** The checks on an action that do not concern its shape. */
  datatype Rules = Rules(
    searchOk: (string, string) -> bool,
    answerOk: (string, string) -> bool,
    isBlank: string -> bool,
    normalize: string -> string)

  predicate CountsOk(tags: Tags, s: string, count: nat) {
    && Count(s, tags.open(Search)) == count && Count(s, tags.close(Search)) == count
    && Count(s, tags.open(Information)) == count && Count(s, tags.close(Information)) == count
  }

  function Queries(turns: seq<Turn>): seq<string> {
    seq(|turns|, i requires 0 <= i < |turns| => turns[i].query)
  }

  predicate Known(rules: Rules, queries: seq<string>, query: string) {
    exists q :: q in queries && rules.normalize(q) == rules.normalize(query)
  }

  /** A next turn after these queries: a sound action, a new query and an observation. */
  predicate Acceptable(rules: Rules, queries: seq<string>, t: Turn) {
    rules.searchOk(t.think, t.query) && !Known(rules, queries, t.query) && !rules.isBlank(t.info)
  }

  predicate TurnsSound(rules: Rules, turns: seq<Turn>) {
    && (forall t | t in turns :: rules.searchOk(t.think, t.query) && !rules.isBlank(t.info))
    && (forall k | 0 <= k < |turns| :: !Known(rules, Queries(turns)[..k], turns[k].query))
  }

  predicate Sound(rules: Rules, t: Trajectory) {
    TurnsSound(rules, t.turns) && rules.answerOk(t.think, t.answer)
  }

  lemma OneMoreTurn(rules: Rules, done: seq<Turn>, t: Turn, rest: seq<Turn>)
    requires TurnsSound(rules, done)
    ensures var fine :=
        rules.searchOk(t.think, t.query) && !rules.isBlank(t.info) && !Known(rules, Queries(done), t.query);
      && (TurnsSound(rules, done + [t]) <==> fine)
      && (!fine ==> !TurnsSound(rules, done + [t] + rest))
      && Queries(done + [t]) == Queries(done) + [t.query]
  {
    var one, all := done + [t], done + [t] + rest;
    assert t in all && t in one && one[|done|] == t && all[|done|] == t;
    assert Queries(one)[..|done|] == Queries(done) && Queries(all)[..|done|] == Queries(done);
    forall k | 0 <= k < |done| ensures !Known(rules, Queries(one)[..k], one[k].query) {
      assert Queries(one)[..k] == Queries(done)[..k] && one[k] == done[k];
    }
    if !rules.searchOk(t.think, t.query) || rules.isBlank(t.info) {
      assert !TurnsSound(rules, all);
    } else if Known(rules, Queries(done), t.query) {
      assert Known(rules, Queries(all)[..|done|], all[|done|].query);
    }
  }

  ghost predicate Verdict(tags: Tags, rules: Rules, s: string, count: nat) {
    CountsOk(tags, s, count) && SoundWhole(rules, Parse(tags, s, 0, count))
  }

  const COUNTED_MARKS := {
    TagMark(Search, false), TagMark(Search, true), TagMark(Information, false), TagMark(Information, true)}

  /** No search or information tag stands in an observation. */
  ghost predicate ObservationsTagFree(tags: Tags, turns: seq<Turn>) { InfosFree(tags, COUNTED_MARKS, turns) }

  ghost predicate InfosFree(tags: Tags, marks: set<TagMark>, turns: seq<Turn>) {
    forall u | u in turns :: Free(tags, marks, u.info)
  }

  lemma InfosCons(tags: Tags, marks: set<TagMark>, turns: seq<Turn>)
    requires turns != []
    ensures InfosFree(tags, marks, turns) <==> Free(tags, marks, turns[0].info) && InfosFree(tags, marks, turns[1..])
  {
    assert turns == [turns[0]] + turns[1..];
  }

  lemma TagsCons(m: TagMark, b: Block, bs: seq<Block>)
    ensures TagsOfBlocks({m}, [b] + bs) == One(m.name == b.name) + TagsOfBlocks({m}, bs)
  {
    assert ([b] + bs)[1..] == bs;
    assert m.closing ==> m == TagMark(m.name, true);
    assert !m.closing ==> m == TagMark(m.name, false);
  }

  /** A search or information tag stands once in the blocks of every turn. */
  lemma {:induction false} TagsOfTrajectory(t: Trajectory, m: TagMark)
    requires m in COUNTED_MARKS
    ensures TagsOfBlocks({m}, Blocks(t)) == |t.turns|
    decreases |t.turns|
  {
    if t.turns == [] {
      TagsOfFinal(t, m);
    } else {
      TagsOfTrajectory(t.(turns := t.turns[1..]), m);
      TagsOfTurn(t, m);
    }
  }

  lemma TagsOfFinal(t: Trajectory, m: TagMark)
    requires m in COUNTED_MARKS && t.turns == []
    ensures TagsOfBlocks({m}, Blocks(t)) == 0
  {
    var a, b := Block(Think, t.think), Block(Answer, t.answer);
    SplitFinal(t);
    TagsCons(m, a, [b] + []);
    TagsCons(m, b, []);
  }

  lemma TagsOfTurn(t: Trajectory, m: TagMark)
    requires m in COUNTED_MARKS && t.turns != []
    ensures TagsOfBlocks({m}, Blocks(t)) == 1 + TagsOfBlocks({m}, Blocks(t.(turns := t.turns[1..])))
  {
    var u, more := t.turns[0], Blocks(t.(turns := t.turns[1..]));
    var a, b, c := Block(Think, u.think), Block(Search, u.query), Block(Information, u.info);
    SplitTurn(t);
    TagsCons(m, a, [b] + ([c] + more));
    TagsCons(m, b, [c] + more);
    TagsCons(m, c, more);
  }

  /** In a grammatical trajectory only observations can hold tags. */
  lemma {:induction false} TagsAreInObservations(tags: Tags, t: Trajectory, marks: set<TagMark>)
    requires Proper(tags) && Grammar(tags, t)
    ensures BodiesFree(tags, marks, Blocks(t)) <==> InfosFree(tags, marks, t.turns)
    decreases |t.turns|
  {
    if t.turns == [] {
      PlainIsFree(tags, marks, t.think);
      PlainIsFree(tags, marks, t.answer);
      SplitFinal(t);
      FreeCons(tags, marks, Block(Think, t.think), [Block(Answer, t.answer)] + []);
      FreeCons(tags, marks, Block(Answer, t.answer), []);
    } else {
      var rest := t.(turns := t.turns[1..]);
      GrammarSplits(tags, t);
      TagsAreInObservations(tags, rest, marks);
      TurnIsFree(tags, t, marks);
      InfosCons(tags, marks, t.turns);
    }
  }

  lemma FreeCons(tags: Tags, marks: set<TagMark>, b: Block, bs: seq<Block>)
    ensures BodiesFree(tags, marks, [b] + bs) <==> Free(tags, marks, b.body) && BodiesFree(tags, marks, bs)
  {
    var all := [b] + bs;
    assert b in all;
    forall x | x in bs ensures x in all {
    }
  }

  lemma TurnIsFree(tags: Tags, t: Trajectory, marks: set<TagMark>)
    requires Proper(tags) && t.turns != [] && TurnOk(tags, t.turns[0])
    ensures BodiesFree(tags, marks, Blocks(t)) <==>
      Free(tags, marks, t.turns[0].info) && BodiesFree(tags, marks, Blocks(t.(turns := t.turns[1..])))
  {
    var u, more := t.turns[0], Blocks(t.(turns := t.turns[1..]));
    var a, b, c := Block(Think, u.think), Block(Search, u.query), Block(Information, u.info);
    PlainIsFree(tags, marks, u.think);
    PlainIsFree(tags, marks, u.query);
    SplitTurn(t);
    FreeCons(tags, marks, a, [b] + ([c] + more));
    FreeCons(tags, marks, b, [c] + more);
    FreeCons(tags, marks, c, more);
  }

  lemma OneTagCount(tags: Tags, t: Trajectory, m: TagMark)
    requires Proper(tags) && Grammar(tags, t) && m in COUNTED_MARKS
    ensures Count(Body(tags, t), TagText(tags, m)) == |t.turns| <==> InfosFree(tags, {m}, t.turns)
  {
    CountIs(tags, m, Body(tags, t));
    TagsInRendering(tags, {m}, Blocks(t));
    TagsOfTrajectory(t, m);
    NothingInBodies(tags, {m}, Blocks(t));
    TagsAreInObservations(tags, t, {m});
  }

  lemma FreeOfEach(tags: Tags, s: string)
    ensures Free(tags, COUNTED_MARKS, s) <==> forall m | m in COUNTED_MARKS :: Free(tags, {m}, s)
  {
    if forall m | m in COUNTED_MARKS :: Free(tags, {m}, s) {
      forall k: nat ensures !Here(tags, COUNTED_MARKS, s, k) {
        if m :| m in COUNTED_MARKS && At(s, k, TagText(tags, m)) { assert Here(tags, {m}, s, k); }
      }
    }
    if Free(tags, COUNTED_MARKS, s) {
      forall m, k: nat | m in COUNTED_MARKS ensures !Here(tags, {m}, s, k) {
        assert !Here(tags, COUNTED_MARKS, s, k);
      }
    }
  }

  /** The tag counts of a rendering are right exactly when no observation holds such a tag. */
  lemma CountsOfRendering(tags: Tags, t: Trajectory)
    requires Proper(tags) && Grammar(tags, t)
    ensures CountsOk(tags, Body(tags, t), |t.turns|) <==> ObservationsTagFree(tags, t.turns)
  {
    forall m | m in COUNTED_MARKS
      ensures Count(Body(tags, t), TagText(tags, m)) == |t.turns| <==> InfosFree(tags, {m}, t.turns)
    {
      OneTagCount(tags, t, m);
    }
    CountsOkIs(tags, Body(tags, t), |t.turns|);
    forall u | u in t.turns
      ensures Free(tags, COUNTED_MARKS, u.info) <==> forall m | m in COUNTED_MARKS :: Free(tags, {m}, u.info)
    {
      FreeOfEach(tags, u.info);
    }
  }

  lemma CountsOkIs(tags: Tags, s: string, count: nat)
    ensures CountsOk(tags, s, count) <==> forall m | m in COUNTED_MARKS :: Count(s, TagText(tags, m)) == count
  {
    assert TagText(tags, TagMark(Search, false)) == tags.open(Search)
        && TagText(tags, TagMark(Search, true)) == tags.close(Search);
    assert TagText(tags, TagMark(Information, false)) == tags.open(Information)
        && TagText(tags, TagMark(Information, true)) == tags.close(Information);
    assert forall m | m in COUNTED_MARKS :: m == TagMark(m.name, m.closing);
  }

  /** MAIN RESULT: the validator accepts the rendering of a grammatical trajectory exactly
      when it has that many turns, all sound, and no observation holds a search or
      information tag. */
  lemma VerdictIsMembership(tags: Tags, rules: Rules, s: string, count: nat, t: Trajectory)
    requires Proper(tags) && Body(tags, t) == s && Grammar(tags, t)
    ensures Verdict(tags, rules, s, count) <==>
      |t.turns| == count && Sound(rules, t) && ObservationsTagFree(tags, t.turns)
  {
    RoundTrip(tags, t);
    CountsOfRendering(tags, t);
    if Verdict(tags, rules, s, count) {
      if |t.turns| <= count {
        CountIsDetermined(tags, s, 0, |t.turns|, count);
      } else {
        CountIsDetermined(tags, s, 0, count, |t.turns|);
      }
    }
  }

  /** With bracket-free bodies only soundness remains. */
  lemma PlainVerdict(tags: Tags, rules: Rules, t: Trajectory)
    requires Proper(tags) && Grammar(tags, t) && AllPlain(Blocks(t))
    ensures Verdict(tags, rules, Body(tags, t), |t.turns|) <==> Sound(rules, t)
    ensures Parse(tags, Body(tags, t), 0, |t.turns|) == Some(t)
  {
    VerdictIsMembership(tags, rules, Body(tags, t), |t.turns|, t);
    RoundTrip(tags, t);
    forall u | u in t.turns ensures Free(tags, COUNTED_MARKS, u.info) {
      InfoAmongBlocks(t.turns, u);
      PlainIsFree(tags, COUNTED_MARKS, u.info);
    }
  }

  lemma {:induction false} InfoAmongBlocks(turns: seq<Turn>, u: Turn)
    requires u in turns
    ensures Block(Information, u.info) in TurnBlocks(turns)
  {
    if u != turns[0] { InfoAmongBlocks(turns[1..], u); }
  }

  /** Nothing outside the language is accepted. */
  lemma AcceptedIsRendered(tags: Tags, rules: Rules, s: string, count: nat) returns (t: Trajectory)
    requires Proper(tags) && Verdict(tags, rules, s, count)
    ensures Body(tags, t) == s && Grammar(tags, t) && |t.turns| == count && Sound(rules, t)
    ensures ObservationsTagFree(tags, t.turns)
  {
    t := Parse(tags, s, 0, count).value;
    ParseIs(tags, s, 0, count, t);
    BlocksAreRendered(tags, s, 0, Blocks(t), |s|);
    AtSlice(s, 0, |s|);
    AtUnique(s, 0, Body(tags, t), s);
    VerdictIsMembership(tags, rules, s, count, t);
  }

  /** The turns `done` have been read and found sound, and reading `left` more turns from
      `position` on gives the whole. */
  ghost predicate Reading(
      tags: Tags, rules: Rules, s: string, whole: Option<Trajectory>, done: seq<Turn>, position: nat, left: nat)
  {
    SoundSoFar(rules, done) && whole == Completed(tags, s, done, position, left)
  }

  /** The turns `done` and what the rest of the text reads as. */
  function Completed(tags: Tags, s: string, done: seq<Turn>, position: nat, left: nat): Option<Trajectory> {
    Join(done, Parse(tags, s, position, left))
  }

  /** The loop's view of soundness: each turn was acceptable after those before it. */
  predicate SoundSoFar(rules: Rules, done: seq<Turn>) {
    done == [] ||
    var front := done[..|done| - 1];
    SoundSoFar(rules, front) && Acceptable(rules, Queries(front), done[|done| - 1])
  }

  lemma {:induction false} SoundSoFarIs(rules: Rules, done: seq<Turn>)
    ensures SoundSoFar(rules, done) <==> TurnsSound(rules, done)
  {
    if done != [] {
      var front, last := done[..|done| - 1], done[|done| - 1];
      assert done == front + [last];
      SoundSoFarIs(rules, front);
      FrontSound(rules, front, last);
      if TurnsSound(rules, front) { OneMoreTurn(rules, front, last, []); }
    }
  }

  lemma FrontSound(rules: Rules, front: seq<Turn>, last: Turn)
    ensures TurnsSound(rules, front + [last]) ==> TurnsSound(rules, front)
  {
    var all := front + [last];
    if !TurnsSound(rules, all) { return; }
    forall t | t in front ensures t in all {
    }
    forall k | 0 <= k < |front| ensures !Known(rules, Queries(front)[..k], front[k].query) {
      assert all[k] == front[k] && Queries(all)[..k] == Queries(front)[..k];
    }
  }

  ghost predicate Underway(
      tags: Tags, rules: Rules, s: string, whole: Option<Trajectory>, done: seq<Turn>, position: nat, left: nat,
      queries: seq<string>)
  {
    Reading(tags, rules, s, whole, done, position, left) && QueriesOf(queries, done)
  }

  predicate QueriesOf(queries: seq<string>, done: seq<Turn>) {
    |queries| == |done| && forall i | 0 <= i < |done| :: queries[i] == done[i].query
  }

  lemma QueriesOfIs(queries: seq<string>, done: seq<Turn>)
    requires QueriesOf(queries, done)
    ensures queries == Queries(done)
  {
  }

  lemma OneMoreQuery(queries: seq<string>, done: seq<Turn>, t: Turn)
    requires QueriesOf(queries, done)
    ensures QueriesOf(queries + [t.query], done + [t])
  {
  }

  predicate SoundWhole(rules: Rules, whole: Option<Trajectory>) { whole.Some? && Sound(rules, whole.value) }

  lemma ReadNothing(
      tags: Tags, rules: Rules, s: string, whole: Option<Trajectory>, done: seq<Turn>, position: nat, left: nat)
    requires Reading(tags, rules, s, whole, done, position, left) && left > 0 && TurnAt(tags, s, position).None?
    ensures whole.None?
  {
    ParseOn(tags, s, whole, done, position, left);
  }

  lemma ReadRefused(
      tags: Tags, rules: Rules, s: string, whole: Option<Trajectory>, done: seq<Turn>, position: nat, left: nat,
      piece: Piece)
    requires Reading(tags, rules, s, whole, done, position, left) && left > 0
    requires TurnAt(tags, s, position) == Some(piece)
    requires !Acceptable(rules, Queries(done), piece.turn)
    ensures !SoundWhole(rules, whole)
  {
    ParseOn(tags, s, whole, done, position, left);
    JudgeTurn(rules, done, piece.turn, Parse(tags, s, piece.end, left - 1));
  }

  lemma ReadAccepted(
      tags: Tags, rules: Rules, s: string, whole: Option<Trajectory>, done: seq<Turn>, position: nat, left: nat,
      piece: Piece, more: seq<Turn>)
    requires Reading(tags, rules, s, whole, done, position, left) && left > 0
    requires TurnAt(tags, s, position) == Some(piece)
    requires Acceptable(rules, Queries(done), piece.turn) && more == done + [piece.turn]
    ensures Reading(tags, rules, s, whole, more, piece.end, left - 1)
    ensures Queries(more) == Queries(done) + [piece.turn.query]
  {
    ParseOn(tags, s, whole, done, position, left);
    JudgeTurn(rules, done, piece.turn, Parse(tags, s, piece.end, left - 1));
  }

  lemma ParseOn(tags: Tags, s: string, whole: Option<Trajectory>, done: seq<Turn>, position: nat, left: nat)
    requires left > 0 && whole == Join(done, Parse(tags, s, position, left))
    ensures var piece := TurnAt(tags, s, position);
      whole == if piece.None? then None
               else Join(done + [piece.value.turn], Parse(tags, s, piece.value.end, left - 1))
  {
    var piece := TurnAt(tags, s, position);
    if piece.Some? {
      JoinAgain(done, piece.value.turn, Parse(tags, s, piece.value.end, left - 1));
    }
  }

  lemma JudgeTurn(rules: Rules, done: seq<Turn>, t: Turn, rest: Option<Trajectory>)
    requires SoundSoFar(rules, done)
    ensures
      if Acceptable(rules, Queries(done), t)
      then SoundSoFar(rules, done + [t]) && Queries(done + [t]) == Queries(done) + [t.query]
      else Join(done + [t], rest).Some? ==> !Sound(rules, Join(done + [t], rest).value)
  {
    SoundSoFarIs(rules, done);
    OneMoreTurn(rules, done, t, if rest.Some? then rest.value.turns else []);
    assert (done + [t])[..|done|] == done;
  }

  lemma ReadFinal(tags: Tags, rules: Rules, s: string, whole: Option<Trajectory>, done: seq<Turn>, position: nat)
    requires Reading(tags, rules, s, whole, done, position, 0)
    ensures var final := FinalAt(tags, s, position);
      whole == if final.None? then None else Some(final.value.(turns := done))
  {
    var final := FinalAt(tags, s, position);
    if final.Some? { assert done + [] == done; }
  }

  method ValidateBody(tags: Tags, rules: Rules, s: string, count: nat) returns (r: Option<seq<string>>)
    requires Proper(tags)
    ensures r.Some? <==> Verdict(tags, rules, s, count)
    ensures r.Some? ==> r.value == Queries(Parse(tags, s, 0, count).value.turns)
  {
    ghost var whole := Parse(tags, s, 0, count);
    if !CountsOk(tags, s, count) { return None; }
    JoinNothing(whole);
    r := ReadBody(tags, rules, s, count, whole);
  }

  method ReadBody(tags: Tags, rules: Rules, s: string, count: nat, ghost whole: Option<Trajectory>)
    returns (r: Option<seq<string>>)
    requires Underway(tags, rules, s, whole, [], 0, count, [])
    ensures r.Some? <==> SoundWhole(rules, whole)
    ensures r.Some? ==> r.value == Queries(whole.value.turns)
  {
    var left, position, queries := count, 0, [];
    ghost var done: seq<Turn> := [];
    while left > 0
      invariant Underway(tags, rules, s, whole, done, position, left, queries)
      decreases left
    {
      var read;
      read, left, position, queries, done := ReadOne(tags, rules, s, whole, done, position, left, queries);
      if !read { return None; }
    }
    r := ReadLast(tags, rules, s, whole, done, position, queries);
  }

  method ReadLast(
      tags: Tags, rules: Rules, s: string, ghost whole: Option<Trajectory>, ghost done: seq<Turn>, position: nat,
      queries: seq<string>)
    returns (r: Option<seq<string>>)
    requires Underway(tags, rules, s, whole, done, position, 0, queries)
    ensures r.Some? <==> SoundWhole(rules, whole)
    ensures r.Some? ==> r.value == Queries(whole.value.turns)
  {
    ReadFinal(tags, rules, s, whole, done, position);
    SoundSoFarIs(rules, done);
    QueriesOfIs(queries, done);
    var final := FinalAt(tags, s, position);
    return if final.Some? && rules.answerOk(final.value.think, final.value.answer) then Some(queries) else None;
  }

  method ReadOne(
      tags: Tags, rules: Rules, s: string, ghost whole: Option<Trajectory>, ghost done: seq<Turn>,
      position: nat, left: nat, queries: seq<string>)
    returns (ok: bool, rest: nat, end: nat, more: seq<string>, ghost turns: seq<Turn>)
    requires Underway(tags, rules, s, whole, done, position, left, queries) && left > 0
    ensures rest == left - 1
    ensures if ok then Underway(tags, rules, s, whole, turns, end, rest, more) else !SoundWhole(rules, whole)
  {
    rest, end, more, turns := left - 1, position, queries, done;
    QueriesOfIs(queries, done);
    var found := TurnAt(tags, s, position);
    if found.None? {
      ReadNothing(tags, rules, s, whole, done, position, left);
      return false, rest, end, more, turns;
    }
    var piece := found.value;
    if !Acceptable(rules, queries, piece.turn) {
      ReadRefused(tags, rules, s, whole, done, position, left, piece);
      return false, rest, end, more, turns;
    }
    end, more, turns := piece.end, queries + [piece.turn.query], done + [piece.turn];
    OneMoreQuery(queries, done, piece.turn);
    ReadAccepted(tags, rules, s, whole, done, position, left, piece, turns);
    return true, rest, end, more, turns;
  }

  lemma JoinNothing(t: Option<Trajectory>)
    ensures Join([], t) == t
  {
    if t.Some? { assert [] + t.value.turns == t.value.turns; }
  }

  lemma JoinAgain(done: seq<Turn>, t: Turn, rest: Option<Trajectory>)
    ensures Join(done, Join([t], rest)) == Join(done + [t], rest)
  {
    if rest.Some? { assert done + ([t] + rest.value.turns) == (done + [t]) + rest.value.turns; }
  }
}
