/** Tagged text at the level of characters: finding substrings, the span and tag scanners
    used by the trainers, and the texts that consist of tagged blocks.

    Everything is stated for any tags of the right shape; TagsAreProper shows that the
    actual ones have it. */
module Markup {
  import opened Outcome
  import opened Sequences

  datatype Name = Think | Search | Information | Answer

  datatype Tags = Tags(open: Name -> string, close: Name -> string)

  function Label(name: Name): string {
    match name
    case Think => "think"
    case Search => "search"
    case Information => "information"
    case Answer => "answer"
  }

  function ActualTags(): Tags {
    Tags((name: Name) => "<" + Label(name) + ">", (name: Name) => "</" + Label(name) + ">")
  }

  /** The letter that tells a name from the others. */
  function Initial(name: Name): char {
    match name
    case Think => 't'
    case Search => 's'
    case Information => 'i'
    case Answer => 'a'
  }

  /** What the scanners rely on: a tag has '<' in front and nowhere else; the initial of its
      name follows, in a closing tag after a slash. */
  ghost predicate Proper(tags: Tags) {
    forall n: Name :: OpenShape(n, tags.open(n)) && CloseShape(n, tags.close(n))
  }

  predicate OpenShape(n: Name, o: string) {
    |o| >= 2 && o[0] == '<' && o[1] == Initial(n) && NoLaterBracket(o)
  }

  predicate CloseShape(n: Name, c: string) {
    |c| >= 3 && c[0] == '<' && c[1] == '/' && c[2] == Initial(n) && NoLaterBracket(c)
  }

  predicate NoLaterBracket(t: string) {
    forall x | 0 < x < |t| :: t[x] != '<'
  }

  lemma TagsAreProper()
    ensures Proper(ActualTags())
  {
    forall n: Name ensures OpenShape(n, ActualTags().open(n)) && CloseShape(n, ActualTags().close(n)) {
      LabelShape(n);
    }
  }

  lemma LabelShape(n: Name)
    ensures OpenShape(n, "<" + Label(n) + ">") && CloseShape(n, "</" + Label(n) + ">")
  {
    var word := Label(n);
    assert word != "" && word[0] == Initial(n) && NoLaterBracket(word);
    assert "<" + word + ">" == ['<'] + word + ['>'] && "</" + word + ">" == ['<', '/'] + word + ['>'];
  }

  predicate Bracket(c: char) { c == '<' || c == '>' }

  predicate Plain(s: string) {
    forall i | 0 <= i < |s| :: !Bracket(s[i])
  }

  // ------------------------------------------------------------------ searching

  /** `pat` occurs in `s` at position `i`. */
  predicate At(s: string, i: nat, pat: string) {
    i + |pat| <= |s| && forall x | 0 <= x < |pat| :: s[i + x] == pat[x]
  }

  /** The first occurrence of `pat` at or after `i`. */
  function Find(s: string, i: nat, pat: string): (r: Option<nat>)
    ensures r.Some? ==> i <= r.value && At(s, r.value, pat) && forall k | i <= k < r.value :: !At(s, k, pat)
    ensures r.None? ==> forall k | i <= k :: !At(s, k, pat)
    decreases |s| - i
  {
    if At(s, i, pat) then Some(i) else if i >= |s| then None else Find(s, i + 1, pat)
  }

  lemma FindFirst(s: string, i: nat, pat: string, j: nat)
    requires i <= j && At(s, j, pat) && forall k | i <= k < j :: !At(s, k, pat)
    ensures Find(s, i, pat) == Some(j)
  {
  }

  /** No bracket from position `i` up to `j`. */
  predicate Unbracketed(s: string, i: nat, j: nat)
    requires j <= |s|
  {
    forall k | i <= k < j :: !Bracket(s[k])
  }

  /** The end of the bracket-free run that starts at `i`. */
  function Run(s: string, i: nat): (j: nat)
    requires i <= |s|
    ensures i <= j <= |s| && Unbracketed(s, i, j) && (j < |s| ==> Bracket(s[j]))
    decreases |s| - i
  {
    if i < |s| && !Bracket(s[i]) then Run(s, i + 1) else i
  }

  lemma {:induction false} RunIs(s: string, i: nat, j: nat)
    requires i <= j <= |s| && Unbracketed(s, i, j) && (j < |s| ==> Bracket(s[j]))
    ensures Run(s, i) == j
    decreases j - i
  {
    if i < j { RunIs(s, i + 1, j); }
  }

  lemma Shows(s: string, i: nat, pat: string, x: nat)
    requires At(s, i, pat) && x < |pat|
    ensures i + x < |s| && s[i + x] == pat[x]
  {
  }

  lemma FirstShows(s: string, i: nat, pat: string)
    requires At(s, i, pat) && pat != ""
    ensures i < |s| && s[i] == pat[0]
  {
    assert s[i + 0] == pat[0];
  }

  // -------------------------------------------------- one delimited body in a text

  /** A bracket-free body ends at the first closing tag, and is one bracket-free run. */
  lemma PlainRun(s: string, j: nat, m: string, c: string)
    requires At(s, j, m) && Plain(m) && At(s, j + |m|, c) && c != "" && c[0] == '<'
    ensures Find(s, j, c) == Some(j + |m|) && Run(s, j) == j + |m|
  {
    var k := j + |m|;
    PlainHere(s, j, m);
    FirstShows(s, k, c);
    RunIs(s, j, k);
    forall x | j <= x < k ensures !At(s, x, c) {
      if At(s, x, c) { FirstShows(s, x, c); }
    }
    FindFirst(s, j, c, k);
  }

  lemma PlainHere(s: string, j: nat, m: string)
    requires At(s, j, m) && Plain(m)
    ensures Unbracketed(s, j, j + |m|)
  {
    forall x | j <= x < j + |m| ensures !Bracket(s[x]) {
      Shows(s, j, m, x - j);
    }
  }

  lemma AtAppend(s: string, i: nat, a: string, b: string)
    ensures At(s, i, a + b) <==> At(s, i, a) && At(s, i + |a|, b)
  {
    if At(s, i, a + b) {
      forall x | 0 <= x < |a| ensures s[i + x] == a[x] {
        Shows(s, i, a + b, x);
      }
      forall x | 0 <= x < |b| ensures s[i + |a| + x] == b[x] {
        Shows(s, i, a + b, |a| + x);
      }
    }
    if At(s, i, a) && At(s, i + |a|, b) {
      forall x | 0 <= x < |a + b| ensures s[i + x] == (a + b)[x] {
        if x < |a| { Shows(s, i, a, x); } else { Shows(s, i + |a|, b, x - |a|); }
      }
      assert At(s, i, a + b);
    }
  }

  /** What occurs at a place is determined by its length. */
  lemma AtUnique(s: string, i: nat, a: string, b: string)
    requires At(s, i, a) && At(s, i, b) && |a| == |b|
    ensures a == b
  {
    forall x | 0 <= x < |a| ensures a[x] == b[x] {
      Shows(s, i, a, x);
    }
  }

  // ---------------------------------------------------------------------- blocks

  datatype Block = Block(name: Name, body: string)

  function Text(tags: Tags, b: Block): string { tags.open(b.name) + b.body + tags.close(b.name) }

  function Render(tags: Tags, bs: seq<Block>): string {
    if bs == [] then "" else Text(tags, bs[0]) + Render(tags, bs[1..])
  }

  predicate AllPlain(bs: seq<Block>) {
    forall b | b in bs :: Plain(b.body)
  }

  /** A block stands at position `i` of a text. */
  predicate BlockHere(tags: Tags, s: string, i: nat, b: Block) {
    && At(s, i, tags.open(b.name))
    && At(s, i + |tags.open(b.name)|, b.body)
    && At(s, i + |tags.open(b.name)| + |b.body|, tags.close(b.name))
  }

  function CloseOf(tags: Tags, i: nat, b: Block): nat { i + |tags.open(b.name)| + |b.body| }

  function After(tags: Tags, i: nat, b: Block): nat { CloseOf(tags, i, b) + |tags.close(b.name)| }

  lemma BlockIsText(tags: Tags, s: string, i: nat, b: Block)
    ensures At(s, i, Text(tags, b)) <==> BlockHere(tags, s, i, b)
    ensures |Text(tags, b)| == After(tags, i, b) - i
  {
    AtAppend(s, i, tags.open(b.name) + b.body, tags.close(b.name));
    AtAppend(s, i, tags.open(b.name), b.body);
  }

  /** Blocks stand one after the other from position `i` to `end`. */
  predicate BlocksHere(tags: Tags, s: string, i: nat, bs: seq<Block>, end: nat)
    decreases |bs|
  {
    if bs == [] then i == end
    else BlockHere(tags, s, i, bs[0]) && BlocksHere(tags, s, After(tags, i, bs[0]), bs[1..], end)
  }

  lemma BlocksCons(tags: Tags, s: string, i: nat, b: Block, bs: seq<Block>, end: nat)
    ensures BlocksHere(tags, s, i, [b] + bs, end) <==>
      BlockHere(tags, s, i, b) && BlocksHere(tags, s, After(tags, i, b), bs, end)
  {
    assert ([b] + bs)[1..] == bs;
  }

  lemma {:induction false} BlocksAreRendered(tags: Tags, s: string, i: nat, bs: seq<Block>, end: nat)
    requires i <= end <= |s|
    ensures BlocksHere(tags, s, i, bs, end) <==> At(s, i, Render(tags, bs)) && end == i + |Render(tags, bs)|
    decreases |bs|
  {
    if bs != [] {
      var first, rest := Text(tags, bs[0]), Render(tags, bs[1..]);
      BlockIsText(tags, s, i, bs[0]);
      AtAppend(s, i, first, rest);
      assert Render(tags, bs) == first + rest;
      if i + |first| <= end {
        BlocksAreRendered(tags, s, i + |first|, bs[1..], end);
      } else {
        BlocksEndLater(tags, s, i + |first|, bs[1..], end);
      }
    }
  }

  lemma {:induction false} BlocksEndLater(tags: Tags, s: string, i: nat, bs: seq<Block>, end: nat)
    ensures BlocksHere(tags, s, i, bs, end) ==> i <= end
    decreases |bs|
  {
    if bs != [] { BlocksEndLater(tags, s, After(tags, i, bs[0]), bs[1..], end); }
  }

  // ------------------------------------------------------------------- scanners

  /** What is found from left to right up to `limit`, when `step` says what is found at a
      position and where to go on. */
  function Scan<T>(step: nat -> Option<(T, nat)>, limit: nat, i: nat): seq<T>
    decreases limit - i
  {
    if i >= limit then []
    else
      var found := step(i);
      if found.Some? && found.value.1 > i then [found.value.0] + Scan(step, limit, found.value.1)
      else Scan(step, limit, i + 1)
  }

  lemma {:induction false} ScanSkips<T>(step: nat -> Option<(T, nat)>, limit: nat, i: nat, j: nat)
    requires i <= j <= limit && forall k: nat | i <= k < j :: step(k).None?
    ensures Scan(step, limit, i) == Scan(step, limit, j)
    decreases j - i
  {
    if i < j { ScanSkips(step, limit, i + 1, j); }
  }

  lemma ScanPast<T>(step: nat -> Option<(T, nat)>, limit: nat, i: nat, front: seq<T>, j: nat, k: nat)
    requires Scan(step, limit, i) == front + Scan(step, limit, j)
    requires j <= k <= limit && forall x: nat | j <= x < k :: step(x).None?
    ensures Scan(step, limit, i) == front + Scan(step, limit, k)
  {
    ScanSkips(step, limit, j, k);
  }

  lemma ScanTwo<T>(step: nat -> Option<(T, nat)>, limit: nat, i: nat, j: nat, k: nat, e: nat, t: T, u: T)
    requires i < j <= k < e <= limit && step(i) == Some((t, j)) && step(k) == Some((u, e))
    requires forall x: nat | j <= x < k :: step(x).None?
    ensures Scan(step, limit, i) == [t, u] + Scan(step, limit, e)
  {
    ScanSkips(step, limit, j, k);
  }

  datatype Span = Span(name: Name, start: nat, end: nat)

  /** The name of the opening tag at `i`. */
  function NameAt(tags: Tags, s: string, i: nat): (r: Option<Name>)
    ensures r.Some? ==> At(s, i, tags.open(r.value))
  {
    if At(s, i, tags.open(Think)) then Some(Think)
    else if At(s, i, tags.open(Search)) then Some(Search)
    else if At(s, i, tags.open(Information)) then Some(Information)
    else if At(s, i, tags.open(Answer)) then Some(Answer)
    else None
  }

  /** The name of the closing tag at `i`. */
  function ClosingAt(tags: Tags, s: string, i: nat): (r: Option<Name>)
    ensures r.Some? ==> At(s, i, tags.close(r.value))
  {
    if At(s, i, tags.close(Think)) then Some(Think)
    else if At(s, i, tags.close(Search)) then Some(Search)
    else if At(s, i, tags.close(Information)) then Some(Information)
    else if At(s, i, tags.close(Answer)) then Some(Answer)
    else None
  }

  lemma NameAtIs(tags: Tags, s: string, i: nat, n: Name)
    requires Proper(tags) && At(s, i, tags.open(n))
    ensures NameAt(tags, s, i) == Some(n)
  {
    var m := NameAt(tags, s, i).value;
    assert OpenShape(m, tags.open(m)) && OpenShape(n, tags.open(n));
    Shows(s, i, tags.open(n), 1);
    Shows(s, i, tags.open(m), 1);
  }

  lemma ClosingAtIs(tags: Tags, s: string, i: nat, n: Name)
    requires Proper(tags) && At(s, i, tags.close(n))
    ensures ClosingAt(tags, s, i) == Some(n)
  {
    var m := ClosingAt(tags, s, i).value;
    assert CloseShape(m, tags.close(m)) && CloseShape(n, tags.close(n));
    Shows(s, i, tags.close(n), 2);
    Shows(s, i, tags.close(m), 2);
  }

  lemma NameShows(tags: Tags, s: string, k: nat)
    requires Proper(tags) && NameAt(tags, s, k).Some?
    ensures k + 1 < |s| && s[k] == '<' && s[k + 1] != '/'
  {
    var n := NameAt(tags, s, k).value;
    assert OpenShape(n, tags.open(n));
    FirstShows(s, k, tags.open(n));
    Shows(s, k, tags.open(n), 1);
  }

  lemma ClosingShows(tags: Tags, s: string, k: nat)
    requires Proper(tags) && ClosingAt(tags, s, k).Some?
    ensures k + 1 < |s| && s[k] == '<' && s[k + 1] == '/'
  {
    var n := ClosingAt(tags, s, k).value;
    assert CloseShape(n, tags.close(n));
    FirstShows(s, k, tags.close(n));
    Shows(s, k, tags.close(n), 1);
  }

  /** A span of one of the names that starts at `i`, and its end: an opening tag and the
      first closing tag of the same name after it. */
  function SpanAt(tags: Tags, names: set<Name>, s: string, i: nat): Option<(Span, nat)> {
    var name := NameAt(tags, s, i);
    if name.None? || name.value !in names then None
    else
      var close := Find(s, i + |tags.open(name.value)|, tags.close(name.value));
      if close.None? then None
      else
        var end := close.value + |tags.close(name.value)|;
        Some((Span(name.value, i, end), end))
  }

  function SpanStep(tags: Tags, names: set<Name>, s: string): nat -> Option<(Span, nat)> {
    (i: nat) => SpanAt(tags, names, s, i)
  }

  /** The spans of a text, found from left to right, none overlapping the one before. */
  function Spans(tags: Tags, names: set<Name>, s: string): seq<Span> {
    Scan(SpanStep(tags, names, s), |s|, 0)
  }

  datatype TagMark = TagMark(name: Name, closing: bool)

  function TagAt(tags: Tags, s: string, i: nat): Option<(TagMark, nat)> {
    var open, close := NameAt(tags, s, i), ClosingAt(tags, s, i);
    if open.Some? then Some((TagMark(open.value, false), i + |tags.open(open.value)|))
    else if close.Some? then Some((TagMark(close.value, true), i + |tags.close(close.value)|))
    else None
  }

  function TagStep(tags: Tags, s: string): nat -> Option<(TagMark, nat)> {
    (i: nat) => TagAt(tags, s, i)
  }

  /** All structural tags of a text from left to right. */
  function TagSequence(tags: Tags, s: string): seq<TagMark> {
    Scan(TagStep(tags, s), |s|, 0)
  }

  /** No structural tag stands anywhere in `s`. */
  ghost predicate TagFree(tags: Tags, s: string) {
    forall k: nat :: TagAt(tags, s, k).None?
  }

  ghost predicate AllTagFree(tags: Tags, bs: seq<Block>) {
    forall b | b in bs :: TagFree(tags, b.body)
  }

  // ------------------------------------------------- what the scanners see of blocks

  /** A tag that starts in a body which a bracket follows is a tag of the body. */
  lemma TagInBody(s: string, j: nat, m: string, x: nat, pat: string)
    requires At(s, j, m) && j + |m| < |s| && s[j + |m|] == '<'
    requires j <= x < j + |m| && pat != "" && NoLaterBracket(pat) && At(s, x, pat)
    ensures At(m, x - j, pat)
  {
    if x + |pat| > j + |m| { Shows(s, x, pat, j + |m| - x); }
    forall y | 0 <= y < |pat| ensures m[x - j + y] == pat[y] {
      Shows(s, x, pat, y);
      Shows(s, j, m, x - j + y);
    }
  }

  lemma TagIsSeen(tags: Tags, m: string, y: nat, n: Name)
    requires Proper(tags)
    ensures At(m, y, tags.open(n)) || At(m, y, tags.close(n)) ==> TagAt(tags, m, y).Some?
  {
    if At(m, y, tags.open(n)) { NameAtIs(tags, m, y, n); }
    if At(m, y, tags.close(n)) { ClosingAtIs(tags, m, y, n); }
  }

  /** In a tag-free part of a text that a tag follows no tag starts. */
  lemma NoTagInFree(tags: Tags, s: string, j: nat, m: string, x: nat, n: Name)
    requires Proper(tags) && At(s, j, m) && TagFree(tags, m) && j + |m| < |s| && s[j + |m|] == '<'
    requires j <= x < j + |m|
    ensures !At(s, x, tags.open(n)) && !At(s, x, tags.close(n))
  {
    assert OpenShape(n, tags.open(n)) && CloseShape(n, tags.close(n));
    TagIsSeen(tags, m, x - j, n);
    if At(s, x, tags.open(n)) {
      TagInBody(s, j, m, x, tags.open(n));
    } else if At(s, x, tags.close(n)) {
      TagInBody(s, j, m, x, tags.close(n));
    }
  }

  lemma NoTagInFreeBody(tags: Tags, s: string, i: nat, b: Block, x: nat, n: Name)
    requires Proper(tags) && BlockHere(tags, s, i, b) && TagFree(tags, b.body)
    requires i + |tags.open(b.name)| <= x < CloseOf(tags, i, b)
    ensures !At(s, x, tags.open(n)) && !At(s, x, tags.close(n))
  {
    var j := i + |tags.open(b.name)|;
    assert CloseShape(b.name, tags.close(b.name));
    FirstShows(s, j + |b.body|, tags.close(b.name));
    NoTagInFree(tags, s, j, b.body, x, n);
  }

  /** Where the closing tag of a block with a bracket-free body is found. */
  lemma FindClose(tags: Tags, s: string, i: nat, b: Block)
    requires Proper(tags) && BlockHere(tags, s, i, b) && Plain(b.body)
    ensures i + |tags.open(b.name)| <= |s| && i < After(tags, i, b) <= |s|
    ensures Find(s, i + |tags.open(b.name)|, tags.close(b.name)) == Some(CloseOf(tags, i, b))
    ensures Run(s, i + |tags.open(b.name)|) == CloseOf(tags, i, b)
  {
    assert OpenShape(b.name, tags.open(b.name)) && CloseShape(b.name, tags.close(b.name));
    PlainRun(s, i + |tags.open(b.name)|, b.body, tags.close(b.name));
  }

  /** The closing tag of a block with a tag-free body is the first one after it. */
  lemma FindCloseFree(tags: Tags, s: string, i: nat, b: Block)
    requires Proper(tags) && BlockHere(tags, s, i, b) && TagFree(tags, b.body)
    ensures i < i + |tags.open(b.name)| <= CloseOf(tags, i, b) < After(tags, i, b) <= |s|
    ensures Find(s, i + |tags.open(b.name)|, tags.close(b.name)) == Some(CloseOf(tags, i, b))
  {
    assert OpenShape(b.name, tags.open(b.name)) && CloseShape(b.name, tags.close(b.name));
    forall x | i + |tags.open(b.name)| <= x < CloseOf(tags, i, b) ensures !At(s, x, tags.close(b.name)) {
      NoTagInFreeBody(tags, s, i, b, x, b.name);
    }
    FindFirst(s, i + |tags.open(b.name)|, tags.close(b.name), CloseOf(tags, i, b));
  }

  /** Inside such a block no tag starts but its own two. */
  lemma NoTagInside(tags: Tags, s: string, i: nat, b: Block, x: nat)
    requires Proper(tags) && BlockHere(tags, s, i, b) && TagFree(tags, b.body)
    requires i < x < After(tags, i, b)
    ensures NameAt(tags, s, x).None?
    ensures x != CloseOf(tags, i, b) ==> ClosingAt(tags, s, x).None?
  {
    var o, c := tags.open(b.name), tags.close(b.name);
    assert OpenShape(b.name, o) && CloseShape(b.name, c);
    if x < i + |o| {
      Shows(s, i, o, x - i);
      NoBracketNoTag(tags, s, x);
    } else if x < CloseOf(tags, i, b) {
      forall n: Name ensures !At(s, x, tags.open(n)) && !At(s, x, tags.close(n)) {
        NoTagInFreeBody(tags, s, i, b, x, n);
      }
    } else if x > CloseOf(tags, i, b) {
      Shows(s, CloseOf(tags, i, b), c, x - CloseOf(tags, i, b));
      NoBracketNoTag(tags, s, x);
    } else {
      Shows(s, x, c, 1);
      if NameAt(tags, s, x).Some? { NameShows(tags, s, x); }
    }
  }

  lemma NoBracketNoTag(tags: Tags, s: string, x: nat)
    requires Proper(tags) && x < |s| && s[x] != '<'
    ensures NameAt(tags, s, x).None? && ClosingAt(tags, s, x).None?
  {
    if NameAt(tags, s, x).Some? { NameShows(tags, s, x); }
    if ClosingAt(tags, s, x).Some? { ClosingShows(tags, s, x); }
  }

  /** A block with a tag-free body is one span, or none when its name is not looked for. */
  lemma BlockSpans(tags: Tags, names: set<Name>, s: string, i: nat, b: Block)
    requires Proper(tags) && BlockHere(tags, s, i, b) && TagFree(tags, b.body)
    ensures var e, step := After(tags, i, b), SpanStep(tags, names, s);
      Scan(step, |s|, i) == (if b.name in names then [Span(b.name, i, e)] else []) + Scan(step, |s|, e)
  {
    BlockSpanAt(tags, names, s, i, b);
    if b.name !in names {
      forall x: nat | i <= x < After(tags, i, b) ensures SpanStep(tags, names, s)(x).None? {
        if x > i { NoTagInside(tags, s, i, b, x); }
      }
      ScanSkips(SpanStep(tags, names, s), |s|, i, After(tags, i, b));
    }
  }

  lemma BlockSpanAt(tags: Tags, names: set<Name>, s: string, i: nat, b: Block)
    requires Proper(tags) && BlockHere(tags, s, i, b) && TagFree(tags, b.body)
    ensures var e := After(tags, i, b);
      i < e <= |s| && SpanAt(tags, names, s, i) == if b.name in names then Some((Span(b.name, i, e), e)) else None
  {
    FindCloseFree(tags, s, i, b);
    NameAtIs(tags, s, i, b.name);
  }

  /** It is also exactly two structural tags. */
  lemma BlockTags(tags: Tags, s: string, i: nat, b: Block)
    requires Proper(tags) && BlockHere(tags, s, i, b) && TagFree(tags, b.body)
    ensures var e, step := After(tags, i, b), TagStep(tags, s);
      Scan(step, |s|, i) == [TagMark(b.name, false), TagMark(b.name, true)] + Scan(step, |s|, e)
  {
    var j, k := i + |tags.open(b.name)|, CloseOf(tags, i, b);
    TagsOfBlock(tags, s, i, b);
    ScanTwo(TagStep(tags, s), |s|, i, j, k, After(tags, i, b), TagMark(b.name, false), TagMark(b.name, true));
  }

  lemma TagsOfBlock(tags: Tags, s: string, i: nat, b: Block)
    requires Proper(tags) && BlockHere(tags, s, i, b) && TagFree(tags, b.body)
    ensures var j, k := i + |tags.open(b.name)|, CloseOf(tags, i, b);
      && i < j <= k < After(tags, i, b) <= |s|
      && TagAt(tags, s, i) == Some((TagMark(b.name, false), j))
      && TagAt(tags, s, k) == Some((TagMark(b.name, true), After(tags, i, b)))
      && forall x: nat | j <= x < k :: TagAt(tags, s, x).None?
  {
    var j, k := i + |tags.open(b.name)|, CloseOf(tags, i, b);
    assert OpenShape(b.name, tags.open(b.name)) && CloseShape(b.name, tags.close(b.name));
    NameAtIs(tags, s, i, b.name);
    NoTagInside(tags, s, i, b, k);
    ClosingAtIs(tags, s, k, b.name);
    forall x: nat | j <= x < k ensures TagAt(tags, s, x).None? {
      NoTagInside(tags, s, i, b, x);
    }
  }

  /** The spans that blocks laid out from position `i` on are. */
  function SpansOf(tags: Tags, names: set<Name>, bs: seq<Block>, i: nat): seq<Span> {
    if bs == [] then []
    else
      var e := After(tags, i, bs[0]);
      (if bs[0].name in names then [Span(bs[0].name, i, e)] else []) + SpansOf(tags, names, bs[1..], e)
  }

  function TagsOf(bs: seq<Block>): seq<TagMark> {
    if bs == [] then [] else [TagMark(bs[0].name, false), TagMark(bs[0].name, true)] + TagsOf(bs[1..])
  }

  lemma {:induction false} BlocksSpans(tags: Tags, names: set<Name>, s: string, i: nat, bs: seq<Block>, end: nat)
    requires Proper(tags) && BlocksHere(tags, s, i, bs, end) && AllTagFree(tags, bs)
    ensures Scan(SpanStep(tags, names, s), |s|, i)
            == SpansOf(tags, names, bs, i) + Scan(SpanStep(tags, names, s), |s|, end)
    decreases |bs|
  {
    if bs != [] {
      BlockSpans(tags, names, s, i, bs[0]);
      var e := After(tags, i, bs[0]);
      BlocksSpans(tags, names, s, e, bs[1..], end);
      Associates(if bs[0].name in names then [Span(bs[0].name, i, e)] else [],
              SpansOf(tags, names, bs[1..], e), Scan(SpanStep(tags, names, s), |s|, end));
    }
  }

  lemma {:induction false} BlocksTags(tags: Tags, s: string, i: nat, bs: seq<Block>, end: nat)
    requires Proper(tags) && BlocksHere(tags, s, i, bs, end) && AllTagFree(tags, bs)
    ensures Scan(TagStep(tags, s), |s|, i) == TagsOf(bs) + Scan(TagStep(tags, s), |s|, end)
    decreases |bs|
  {
    if bs != [] {
      BlockTags(tags, s, i, bs[0]);
      BlocksTags(tags, s, After(tags, i, bs[0]), bs[1..], end);
      Associates([TagMark(bs[0].name, false), TagMark(bs[0].name, true)], TagsOf(bs[1..]),
                 Scan(TagStep(tags, s), |s|, end));
    }
  }

  /** The scanners recover tag-free blocks from their rendering, whatever names are
      looked for. */
  lemma ScanOfRendering(tags: Tags, names: set<Name>, bs: seq<Block>)
    requires Proper(tags) && AllTagFree(tags, bs)
    ensures Spans(tags, names, Render(tags, bs)) == SpansOf(tags, names, bs, 0)
    ensures TagSequence(tags, Render(tags, bs)) == TagsOf(bs)
  {
    var s := Render(tags, bs);
    BlocksAreRendered(tags, s, 0, bs, |s|);
    BlocksSpans(tags, names, s, 0, bs, |s|);
    BlocksTags(tags, s, 0, bs, |s|);
  }
}
