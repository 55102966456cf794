/** Counting tags in tagged text: what a left-to-right scan for tags finds in a rendering
    whose bodies may hold any text. */
module TagCounts {
  import opened Outcome
  import opened Markup

  function TagText(tags: Tags, mark: TagMark): string {
    if mark.closing then tags.close(mark.name) else tags.open(mark.name)
  }

  lemma TagTextShape(tags: Tags, mark: TagMark)
    requires Proper(tags)
    ensures |TagText(tags, mark)| >= 2 && TagText(tags, mark)[0] == '<' && NoLaterBracket(TagText(tags, mark))
  {
    assert OpenShape(mark.name, tags.open(mark.name)) && CloseShape(mark.name, tags.close(mark.name));
  }

  function One(b: bool): nat { if b then 1 else 0 }

  /** One of the tags stands at position `k`. */
  predicate Here(tags: Tags, marks: set<TagMark>, s: string, k: nat) {
    exists m | m in marks :: At(s, k, TagText(tags, m))
  }

  /** The places from `i` on where one of the tags stands. */
  function Places(tags: Tags, marks: set<TagMark>, s: string, i: nat): nat
    decreases |s| - i
  {
    if i >= |s| then 0 else One(Here(tags, marks, s, i)) + Places(tags, marks, s, i + 1)
  }

  /** None of the tags stands anywhere in `s`. */
  ghost predicate Free(tags: Tags, marks: set<TagMark>, s: string) {
    forall k: nat :: !Here(tags, marks, s, k)
  }

  lemma HereShows(tags: Tags, marks: set<TagMark>, s: string, k: nat)
    requires Proper(tags) && Here(tags, marks, s, k)
    ensures k < |s| && s[k] == '<'
  {
    var m :| m in marks && At(s, k, TagText(tags, m));
    TagTextShape(tags, m);
    FirstShows(s, k, TagText(tags, m));
  }

  lemma PlainIsFree(tags: Tags, marks: set<TagMark>, s: string)
    requires Proper(tags) && Plain(s)
    ensures Free(tags, marks, s)
  {
    forall k: nat ensures !Here(tags, marks, s, k) {
      if Here(tags, marks, s, k) { HereShows(tags, marks, s, k); }
    }
  }

  lemma {:induction false} FreeIff(tags: Tags, marks: set<TagMark>, s: string, i: nat)
    requires Proper(tags)
    ensures Places(tags, marks, s, i) == 0 <==> forall k: nat | i <= k :: !Here(tags, marks, s, k)
    decreases |s| - i
  {
    if i < |s| {
      FreeIff(tags, marks, s, i + 1);
    } else {
      forall k: nat | i <= k ensures !Here(tags, marks, s, k) {
        if Here(tags, marks, s, k) { HereShows(tags, marks, s, k); }
      }
    }
  }

  lemma {:induction false} NoneBetween(tags: Tags, marks: set<TagMark>, s: string, i: nat, j: nat)
    requires i <= j <= |s| && forall k: nat | i <= k < j :: !Here(tags, marks, s, k)
    ensures Places(tags, marks, s, i) == Places(tags, marks, s, j)
    decreases j - i
  {
    if i < j { NoneBetween(tags, marks, s, i + 1, j); }
  }

  // ---------------------------------------------------------------------- scans

  /** A scan step that recognises exactly these tags and goes on behind them. */
  ghost predicate Sees<T(!new)>(tags: Tags, marks: set<TagMark>, s: string, step: nat -> Option<(T, nat)>) {
    forall i: nat :: SeesAt(tags, marks, s, i, step(i))
  }

  ghost predicate SeesAt<T>(tags: Tags, marks: set<TagMark>, s: string, i: nat, found: Option<(T, nat)>) {
    && (found.Some? <==> Here(tags, marks, s, i))
    && (found.Some? ==> i < found.value.1 <= |s|)
    && (found.Some? ==> forall k: nat | i < k < found.value.1 :: !Here(tags, marks, s, k))
  }

  lemma BehindFound<T>(tags: Tags, marks: set<TagMark>, s: string, i: nat, found: Option<(T, nat)>)
    requires SeesAt(tags, marks, s, i, found) && i < |s|
    ensures Places(tags, marks, s, i)
         == if found.Some? then 1 + Places(tags, marks, s, found.value.1) else Places(tags, marks, s, i + 1)
  {
    if found.Some? { NoneBetween(tags, marks, s, i + 1, found.value.1); }
  }

  lemma {:induction false} ScanFindsAll<T(!new)>(
      tags: Tags, marks: set<TagMark>, s: string, step: nat -> Option<(T, nat)>, i: nat)
    requires Sees(tags, marks, s, step) && i <= |s|
    ensures |Scan(step, |s|, i)| == Places(tags, marks, s, i)
    decreases |s| - i
  {
    if i < |s| {
      var found := step(i);
      assert SeesAt(tags, marks, s, i, found);
      BehindFound(tags, marks, s, i, found);
      ScanFindsAll(tags, marks, s, step, if found.Some? then found.value.1 else i + 1);
    }
  }

  /** Tags never overlap. */
  lemma TagsApart(tags: Tags, marks: set<TagMark>, s: string, i: nat, m: TagMark)
    requires Proper(tags) && At(s, i, TagText(tags, m))
    ensures forall k: nat | i < k < i + |TagText(tags, m)| :: !Here(tags, marks, s, k)
  {
    TagTextShape(tags, m);
    forall k: nat | i < k < i + |TagText(tags, m)| ensures !Here(tags, marks, s, k) {
      Shows(s, i, TagText(tags, m), k - i);
      if Here(tags, marks, s, k) { HereShows(tags, marks, s, k); }
    }
  }

  function CountStep(s: string, pat: string): nat -> Option<(string, nat)> {
    (i: nat) => if At(s, i, pat) then Some((pat, i + |pat|)) else None
  }

  /** Occurrences of `pat`, none overlapping the one before. */
  function Count(s: string, pat: string): nat { |Scan(CountStep(s, pat), |s|, 0)| }

  lemma CountIs(tags: Tags, m: TagMark, s: string)
    requires Proper(tags)
    ensures Count(s, TagText(tags, m)) == Places(tags, {m}, s, 0)
  {
    var step := CountStep(s, TagText(tags, m));
    TagTextShape(tags, m);
    forall i: nat ensures SeesAt(tags, {m}, s, i, step(i)) {
      assert Here(tags, {m}, s, i) <==> At(s, i, TagText(tags, m));
      if At(s, i, TagText(tags, m)) { TagsApart(tags, {m}, s, i, m); }
    }
    ScanFindsAll(tags, {m}, s, step, 0);
  }

  const ALL_MARKS := {
    TagMark(Think, false), TagMark(Think, true), TagMark(Search, false), TagMark(Search, true),
    TagMark(Information, false), TagMark(Information, true), TagMark(Answer, false), TagMark(Answer, true)}

  lemma EveryMark(m: TagMark)
    ensures m in ALL_MARKS
  {
    match m.name case Think => case Search => case Information => case Answer =>
  }

  lemma TagAtIs(tags: Tags, s: string, i: nat)
    requires Proper(tags)
    ensures SeesAt(tags, ALL_MARKS, s, i, TagAt(tags, s, i))
  {
    var found := TagAt(tags, s, i);
    if found.Some? {
      var m := found.value.0;
      EveryMark(m);
      TagTextShape(tags, m);
      TagsApart(tags, ALL_MARKS, s, i, m);
    } else if m :| m in ALL_MARKS && At(s, i, TagText(tags, m)) {
      if m.closing { ClosingAtIs(tags, s, i, m.name); } else { NameAtIs(tags, s, i, m.name); }
    }
  }

  lemma TagSequenceIs(tags: Tags, s: string)
    requires Proper(tags)
    ensures |TagSequence(tags, s)| == Places(tags, ALL_MARKS, s, 0)
  {
    forall i: nat ensures SeesAt(tags, ALL_MARKS, s, i, TagStep(tags, s)(i)) {
      TagAtIs(tags, s, i);
    }
    ScanFindsAll(tags, ALL_MARKS, s, TagStep(tags, s), 0);
  }

  // ----------------------------------------------------------------- renderings

  lemma AtBehind(a: string, b: string, pat: string, j: nat)
    ensures At(a + b, |a| + j, pat) <==> At(b, j, pat)
  {
    assert forall y | 0 <= y < |b| :: (a + b)[|a| + y] == b[y];
  }

  /** No tag stretches into a text that is empty or starts with a bracket. */
  lemma AtFront(a: string, b: string, pat: string, i: nat)
    requires pat != "" && NoLaterBracket(pat) && i < |a| && (b == "" || b[0] == '<')
    ensures At(a + b, i, pat) <==> At(a, i, pat)
  {
    if At(a + b, i, pat) && i + |pat| > |a| {
      Shows(a + b, i, pat, |a| - i);
    }
    assert forall y | 0 <= y < |a| :: (a + b)[y] == a[y];
  }

  lemma HereBehind(tags: Tags, marks: set<TagMark>, a: string, b: string, j: nat)
    ensures Here(tags, marks, a + b, |a| + j) <==> Here(tags, marks, b, j)
  {
    forall m | m in marks ensures At(a + b, |a| + j, TagText(tags, m)) <==> At(b, j, TagText(tags, m)) {
      AtBehind(a, b, TagText(tags, m), j);
    }
  }

  lemma HereFront(tags: Tags, marks: set<TagMark>, a: string, b: string, i: nat)
    requires Proper(tags) && i < |a| && (b == "" || b[0] == '<')
    ensures Here(tags, marks, a + b, i) <==> Here(tags, marks, a, i)
  {
    forall m | m in marks ensures At(a + b, i, TagText(tags, m)) <==> At(a, i, TagText(tags, m)) {
      TagTextShape(tags, m);
      AtFront(a, b, TagText(tags, m), i);
    }
  }

  lemma {:induction false} PlacesBehind(tags: Tags, marks: set<TagMark>, a: string, b: string, j: nat)
    requires j <= |b|
    ensures Places(tags, marks, a + b, |a| + j) == Places(tags, marks, b, j)
    decreases |b| - j
  {
    if j < |b| {
      HereBehind(tags, marks, a, b, j);
      PlacesBehind(tags, marks, a, b, j + 1);
    }
  }

  lemma {:induction false} PlacesApart(tags: Tags, marks: set<TagMark>, a: string, b: string, i: nat)
    requires Proper(tags) && i <= |a| && (b == "" || b[0] == '<')
    ensures Places(tags, marks, a + b, i) == Places(tags, marks, a, i) + Places(tags, marks, b, 0)
    decreases |a| - i
  {
    if i == |a| {
      PlacesBehind(tags, marks, a, b, 0);
    } else {
      HereFront(tags, marks, a, b, i);
      PlacesApart(tags, marks, a, b, i + 1);
    }
  }

  /** A text that starts with one tag does not start with another. */
  lemma StartsWithTag(tags: Tags, a: TagMark, rest: string, b: TagMark)
    requires Proper(tags)
    ensures At(TagText(tags, a) + rest, 0, TagText(tags, b)) <==> a == b
  {
    var s, p, q := TagText(tags, a) + rest, TagText(tags, a), TagText(tags, b);
    assert OpenShape(a.name, tags.open(a.name)) && CloseShape(a.name, tags.close(a.name));
    assert OpenShape(b.name, tags.open(b.name)) && CloseShape(b.name, tags.close(b.name));
    assert forall x | 0 <= x < |p| :: s[x] == p[x];
    if At(s, 0, q) {
      Shows(s, 0, q, 1);
      if a.closing && b.closing { Shows(s, 0, q, 2); }
    }
  }

  lemma PlacesAfterTag(tags: Tags, marks: set<TagMark>, a: TagMark, rest: string)
    requires Proper(tags)
    ensures Places(tags, marks, TagText(tags, a) + rest, 0) == One(a in marks) + Places(tags, marks, rest, 0)
  {
    var p := TagText(tags, a);
    TagTextShape(tags, a);
    forall m | m in marks ensures At(p + rest, 0, TagText(tags, m)) <==> a == m {
      StartsWithTag(tags, a, rest, m);
    }
    assert Here(tags, marks, p + rest, 0) <==> a in marks;
    StartsWithTag(tags, a, rest, a);
    TagsApart(tags, marks, p + rest, 0, a);
    NoneBetween(tags, marks, p + rest, 1, |p|);
    PlacesBehind(tags, marks, p, rest, 0);
  }

  function OwnTags(marks: set<TagMark>, n: Name): nat {
    One(TagMark(n, false) in marks) + One(TagMark(n, true) in marks)
  }

  /** Besides its own two tags a block holds those of its body. */
  lemma BlockPlaces(tags: Tags, marks: set<TagMark>, b: Block)
    requires Proper(tags)
    ensures Places(tags, marks, Text(tags, b), 0) == OwnTags(marks, b.name) + Places(tags, marks, b.body, 0)
  {
    var open, close := TagMark(b.name, false), TagMark(b.name, true);
    TagTextShape(tags, close);
    PlacesApart(tags, marks, tags.open(b.name) + b.body, tags.close(b.name), 0);
    PlacesAfterTag(tags, marks, open, b.body);
    PlacesAfterTag(tags, marks, close, "");
    assert TagText(tags, close) + "" == tags.close(b.name);
  }

  function TagsOfBlocks(marks: set<TagMark>, bs: seq<Block>): nat {
    if bs == [] then 0 else OwnTags(marks, bs[0].name) + TagsOfBlocks(marks, bs[1..])
  }

  function InBodies(tags: Tags, marks: set<TagMark>, bs: seq<Block>): nat {
    if bs == [] then 0 else Places(tags, marks, bs[0].body, 0) + InBodies(tags, marks, bs[1..])
  }

  lemma RenderStarts(tags: Tags, bs: seq<Block>)
    requires Proper(tags)
    ensures Render(tags, bs) == "" || Render(tags, bs)[0] == '<'
  {
    if bs != [] { assert OpenShape(bs[0].name, tags.open(bs[0].name)); }
  }

  /** MAIN RESULT: the tags that stand in a rendering are those of its blocks and those
      inside the bodies, whatever text these are. */
  lemma {:induction false} TagsInRendering(tags: Tags, marks: set<TagMark>, bs: seq<Block>)
    requires Proper(tags)
    ensures Places(tags, marks, Render(tags, bs), 0) == TagsOfBlocks(marks, bs) + InBodies(tags, marks, bs)
  {
    if bs != [] {
      RenderStarts(tags, bs[1..]);
      PlacesApart(tags, marks, Text(tags, bs[0]), Render(tags, bs[1..]), 0);
      BlockPlaces(tags, marks, bs[0]);
      TagsInRendering(tags, marks, bs[1..]);
    }
  }

  ghost predicate BodiesFree(tags: Tags, marks: set<TagMark>, bs: seq<Block>) {
    forall b | b in bs :: Free(tags, marks, b.body)
  }

  lemma {:induction false} NothingInBodies(tags: Tags, marks: set<TagMark>, bs: seq<Block>)
    requires Proper(tags)
    ensures InBodies(tags, marks, bs) == 0 <==> BodiesFree(tags, marks, bs)
  {
    if bs != [] {
      NothingInBodies(tags, marks, bs[1..]);
      FreeIff(tags, marks, bs[0].body, 0);
      assert bs == [bs[0]] + bs[1..];
    }
  }

  lemma {:induction false} AllTagsOfBlocks(bs: seq<Block>)
    ensures TagsOfBlocks(ALL_MARKS, bs) == 2 * |bs|
  {
    if bs != [] {
      EveryMark(TagMark(bs[0].name, false));
      EveryMark(TagMark(bs[0].name, true));
      AllTagsOfBlocks(bs[1..]);
    }
  }

  lemma TagFreeIs(tags: Tags, s: string)
    requires Proper(tags)
    ensures TagFree(tags, s) <==> Free(tags, ALL_MARKS, s)
  {
    forall k: nat ensures TagAt(tags, s, k).Some? <==> Here(tags, ALL_MARKS, s, k) {
      TagAtIs(tags, s, k);
    }
  }

  /** MAIN RESULT: a rendering shows two tags a block exactly when no body holds a tag. */
  lemma TwoTagsABlock(tags: Tags, bs: seq<Block>)
    requires Proper(tags)
    ensures |TagSequence(tags, Render(tags, bs))| == 2 * |bs| <==> AllTagFree(tags, bs)
  {
    TagSequenceIs(tags, Render(tags, bs));
    TagsInRendering(tags, ALL_MARKS, bs);
    AllTagsOfBlocks(bs);
    NothingInBodies(tags, ALL_MARKS, bs);
    forall b | b in bs ensures TagFree(tags, b.body) <==> Free(tags, ALL_MARKS, b.body) {
      TagFreeIs(tags, b.body);
    }
  }
}
