/** Selecting the literal search block that a model wrote, without repairing it, and why the
    selected block is canonical: selecting from it again gives it back. */
module SearchExtraction {
  import opened Outcome
  import opened Markup
  import F = TrajectoryFormat
  import ChatHistory

  const MAX_VALUE := 16000

  /** Where a literal think-and-search block that starts at `i` ends. */
  function BlockEnd(tags: Tags, s: string, i: nat): Option<nat> {
    var th := F.PlainBlockAt(tags, Think, s, i);
    if th.None? then None else
    var q := F.PlainBlockAt(tags, Search, s, th.value.1);
    if q.None? || !F.QueryBody(q.value.0) then None else Some(q.value.1)
  }

  /** The block at `i`, as a piece of text. */
  function PieceAt(tags: Tags, s: string, i: nat): Option<(string, nat)> {
    var e := BlockEnd(tags, s, i);
    if e.None? || !(i <= e.value <= |s|) then None else Some((s[i..e.value], e.value))
  }

  function PieceStep(tags: Tags, s: string): nat -> Option<(string, nat)> {
    (i: nat) => PieceAt(tags, s, i)
  }

  function Pieces(tags: Tags, s: string): seq<string> { Scan(PieceStep(tags, s), |s|, 0) }

  /** The one block in `value`, possibly repeated literally; `actionOk` stands for the
      checks on an action besides its shape. */
  function Extract(tags: Tags, actionOk: string -> bool, value: string): Option<string> {
    var pieces := Pieces(tags, value);
    if |value| > MAX_VALUE then None
    else if Find(value, 0, tags.open(Answer)).Some? || Find(value, 0, tags.close(Answer)).Some? then None
    else if pieces == [] || (exists p :: p in pieces && p != pieces[0]) || !actionOk(pieces[0]) then None
    else Some(pieces[0])
  }

  lemma {:induction false} FirstPiece(tags: Tags, s: string, i: nat) returns (k: nat, e: nat)
    requires Scan(PieceStep(tags, s), |s|, i) != []
    ensures i <= k < |s| && PieceAt(tags, s, k) == Some((Scan(PieceStep(tags, s), |s|, i)[0], e))
    decreases |s| - i
  {
    var found := PieceAt(tags, s, i);
    if found.Some? && found.value.1 > i {
      k, e := i, found.value.1;
    } else {
      k, e := FirstPiece(tags, s, i + 1);
    }
  }

  lemma AtSub(s: string, i: nat, e: nat, k: nat, pat: string)
    requires i <= e <= |s| && i + k + |pat| <= e
    ensures At(s[i..e], k, pat) <==> At(s, i + k, pat)
  {
    var w := s[i..e];
    assert forall x | 0 <= x < |w| :: w[x] == s[i + x];
    if At(w, k, pat) {
      forall x | 0 <= x < |pat| ensures s[i + k + x] == pat[x] {
        Shows(w, k, pat, x);
      }
    }
    if At(s, i + k, pat) {
      forall x | 0 <= x < |pat| ensures w[k + x] == pat[x] {
        Shows(s, i + k, pat, x);
      }
    }
  }

  lemma BlockMoves(tags: Tags, s: string, i: nat, e: nat, k: nat, b: Block)
    requires i <= e <= |s| && BlockHere(tags, s, i + k, b) && After(tags, i + k, b) <= e
    ensures BlockHere(tags, s[i..e], k, b) && After(tags, k, b) == After(tags, i + k, b) - i
  {
    AtSub(s, i, e, k, tags.open(b.name));
    AtSub(s, i, e, k + |tags.open(b.name)|, b.body);
    AtSub(s, i, e, CloseOf(tags, k, b), tags.close(b.name));
  }

  /** The two blocks of a piece. */
  lemma PieceBlocks(tags: Tags, s: string, i: nat, p: string, e: nat) returns (a: Block, b: Block)
    requires Proper(tags) && PieceAt(tags, s, i) == Some((p, e))
    ensures a.name == Think && F.ActionBody(a.body) && b.name == Search && F.QueryBody(b.body)
    ensures BlockHere(tags, s, i, a) && BlockHere(tags, s, After(tags, i, a), b)
    ensures e == After(tags, After(tags, i, a), b) <= |s| && p == s[i..e]
  {
    var th := F.PlainBlockAt(tags, Think, s, i).value;
    var q := F.PlainBlockAt(tags, Search, s, th.1).value;
    a, b := Block(Think, th.0), Block(Search, q.0);
    F.PlainBlockAtIs(tags, Think, s, i, th.0, th.1);
    F.PlainBlockAtIs(tags, Search, s, th.1, q.0, q.1);
  }

  lemma BlocksArePiece(tags: Tags, p: string, a: Block, b: Block)
    requires Proper(tags) && a.name == Think && F.ActionBody(a.body) && b.name == Search && F.QueryBody(b.body)
    requires BlockHere(tags, p, 0, a) && BlockHere(tags, p, After(tags, 0, a), b)
    requires |p| == After(tags, After(tags, 0, a), b)
    ensures PieceAt(tags, p, 0) == Some((p, |p|))
  {
    F.PlainBlockAtIs(tags, Think, p, 0, a.body, After(tags, 0, a));
    F.PlainBlockAtIs(tags, Search, p, After(tags, 0, a), b.body, |p|);
    assert p[0..|p|] == p;
  }

  /** A block cut out of a text is a block from its first character to its last. */
  lemma PieceIsWhole(tags: Tags, s: string, i: nat, p: string, e: nat)
    requires Proper(tags) && PieceAt(tags, s, i) == Some((p, e))
    ensures p == s[i..e] && i < e <= |s| && PieceAt(tags, p, 0) == Some((p, |p|))
  {
    var a, b := PieceBlocks(tags, s, i, p, e);
    BlockMoves(tags, s, i, e, 0, a);
    BlockMoves(tags, s, i, e, After(tags, 0, a), b);
    BlocksArePiece(tags, p, a, b);
    assert OpenShape(Think, tags.open(Think));
  }

  lemma OnePiece(tags: Tags, p: string)
    requires PieceAt(tags, p, 0) == Some((p, |p|)) && |p| > 0
    ensures Pieces(tags, p) == [p]
  {
    ScanLast(PieceStep(tags, p), |p|, p);
  }

  lemma ScanLast(step: nat -> Option<(string, nat)>, limit: nat, p: string)
    requires limit > 0 && step(0) == Some((p, limit))
    ensures Scan(step, limit, 0) == [p]
  {
    assert Scan(step, limit, limit) == [];
  }

  lemma NoTagInPiece(s: string, i: nat, e: nat, pat: string)
    requires i <= e <= |s| && Find(s, 0, pat).None?
    ensures Find(s[i..e], 0, pat).None?
  {
    var r := Find(s[i..e], 0, pat);
    if r.Some? { AtSub(s, i, e, r.value, pat); }
  }

  /** The extractor is idempotent: what it selects is canonical. */
  lemma ExtractIsIdempotent(tags: Tags, actionOk: string -> bool, value: string)
    requires Proper(tags) && Extract(tags, actionOk, value).Some?
    ensures var a := Extract(tags, actionOk, value).value;
      Extract(tags, actionOk, a) == Some(a)
  {
    var k, e := FirstPiece(tags, value, 0);
    var p := Pieces(tags, value)[0];
    PieceIsWhole(tags, value, k, p, e);
    OnePiece(tags, p);
    NoTagInPiece(value, k, e, tags.open(Answer));
    NoTagInPiece(value, k, e, tags.close(Answer));
  }

  /** So the extractor meets what the continuation protocol asks of its rules. */
  lemma ExtractorIsCanonical(tags: Tags, actionOk: string -> bool, rules: ChatHistory.Rules)
    requires Proper(tags) && forall value :: rules.extract(value) == Extract(tags, actionOk, value)
    ensures ChatHistory.Idempotent(rules)
  {
    forall raw, action | rules.extract(raw) == Some(action) ensures rules.extract(action) == Some(action) {
      ExtractIsIdempotent(tags, actionOk, raw);
    }
  }
}
