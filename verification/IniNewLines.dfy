/** Whichever way the lines of a buffer end, multi-line text comes out the same. */
module IniNewLines {
  import opened IniText

  /** CR, LF and CR LF all become LF. */
  function Unix(s: string): string {
    if s == [] then []
    else if s[0] == '\r' && |s| > 1 && s[1] == '\n' then "\n" + Unix(s[2..])
    else (if IsNewLine(s[0]) then "\n" else [s[0]]) + Unix(s[1..])
  }

  lemma {:induction false} UnixLine(b: string, p: nat, e: nat)
    requires p <= e <= |b| && forall i | p <= i < e :: !IsNewLine(b[i])
    ensures Unix(b[p..]) == b[p..e] + Unix(b[e..])
    decreases e - p
  {
    if p < e {
      UnixLine(b, p + 1, e);
      assert b[p..][1..] == b[p + 1..];
      assert b[p..e] == [b[p]] + b[p + 1..e];
    } else {
      assert b[p..e] == [];
    }
  }

  lemma {:induction false} UnixNewLine(b: string, e: nat)
    requires IsBuffer(b) && e < |b| && IsNewLine(b[e])
    ensures Unix(b[e..]) == "\n" + Unix(b[AfterNewLine(b, e)..])
  {
    assert b[e..][1..] == b[e + 1..];
    assert e + 2 <= |b| ==> b[e..][2..] == b[e + 2..];
  }

  lemma {:induction false} UnixEnd(b: string, e: nat)
    requires e < |b| && b[e] == NUL
    ensures Unix(b[e..]) != [] && Unix(b[e..])[0] == NUL
  {
  }

  /** The line at `q` is the line at `p`. */
  lemma {:induction false} SameLine(b: string, p: nat, c: string, q: nat)
    requires IsBuffer(b) && p < |b| && IsBuffer(c) && q < |c| && c[q..] == Unix(b[p..])
    ensures var e := LineEnd(b, p);
      var f := q + (e - p);
      && f < |c| && LineEnd(c, q) == f && c[q..f] == b[p..e]
      && (b[e] == NUL ==> c[f] == NUL)
      && (b[e] != NUL ==> c[f] == '\n' && c[f + 1..] == Unix(b[AfterNewLine(b, e)..]))
  {
    var e := LineEnd(b, p);
    var line, rest := b[p..e], Unix(b[e..]);
    UnixParts(b, p, e);
    LineIn(c, q, line, rest);
    hide Unix, LineEnd, AfterNewLine, IsBuffer;
    assert q + |line| == q + (e - p);
  }

  lemma {:induction false} UnixParts(b: string, p: nat, e: nat)
    requires IsBuffer(b) && p < |b| && e == LineEnd(b, p)
    ensures var rest := Unix(b[e..]);
      && Unix(b[p..]) == b[p..e] + rest && rest != []
      && (forall i | 0 <= i < |b[p..e]| :: b[p..e][i] != NUL && !IsNewLine(b[p..e][i]))
      && (b[e] == NUL ==> rest[0] == NUL)
      && (b[e] != NUL ==> rest[0] == '\n' && rest[1..] == Unix(b[AfterNewLine(b, e)..]))
  {
    UnixLine(b, p, e);
    if b[e] == NUL {
      UnixEnd(b, e);
    } else {
      UnixNewLine(b, e);
    }
    hide Unix, LineEnd, AfterNewLine;
  }

  lemma {:induction false} LineIn(c: string, q: nat, line: string, rest: string)
    requires IsBuffer(c) && q < |c| && c[q..] == line + rest && rest != [] && (rest[0] == NUL || rest[0] == '\n')
    requires forall i | 0 <= i < |line| :: line[i] != NUL && !IsNewLine(line[i])
    ensures var f := q + |line|;
      f < |c| && LineEnd(c, q) == f && c[q..f] == line && c[f] == rest[0] && c[f + 1..] == rest[1..]
  {
    var f := q + |line|;
    Suffix(c, q, line, rest);
    forall i | q <= i < f
      ensures c[i] != NUL && !IsNewLine(c[i])
    {
      assert c[i] == c[q..f][i - q] == line[i - q];
    }
    hide LineEnd;
    FindStopIs(c, q, '\n', f);
    StopIsLineEnd(c, q);
  }

  lemma {:induction false} Suffix(c: string, q: nat, x: string, y: string)
    requires q <= |c| && c[q..] == x + y && y != []
    ensures var f := q + |x|; f < |c| && c[q..f] == x && c[f..] == y && c[f] == y[0] && c[f + 1..] == y[1..]
  {
    var f := q + |x|;
    assert |c| - q == |x| + |y|;
    assert c[q..f] == c[q..][..|x|];
    assert c[f..] == c[q..][|x|..];
    assert c[f + 1..] == c[f..][1..];
  }

  lemma {:induction false} TaggedUnfolds(b: string, p: nat, tag: string)
    requires IsBuffer(b) && p < |b|
    ensures var e := LineEnd(b, p);
      TaggedLines(b, p, tag) ==
        if Fold(b[p..e]) == Fold(tag) then Lines("", p, false)
        else if b[e] == NUL then Lines(b[p..e], e, true)
        else var r := TaggedLines(b, AfterNewLine(b, e), tag); r.(text := b[p..e] + "\n" + r.text)
  {
    hide LineEnd, AfterNewLine, Fold;
  }

  /** The lines up to the tag are joined by single LFs, whatever they ended with. */
  lemma {:induction false} NewLinesAlike(b: string, p: nat, c: string, q: nat, tag: string)
    requires IsBuffer(b) && p < |b| && IsBuffer(c) && q < |c| && c[q..] == Unix(b[p..])
    ensures TaggedLines(b, p, tag).text == TaggedLines(c, q, tag).text
    ensures TaggedLines(b, p, tag).atEnd == TaggedLines(c, q, tag).atEnd
    decreases |b| - p
  {
    hide Unix, LineEnd, Fold, TaggedLines;
    SameLine(b, p, c, q);
    TaggedUnfolds(b, p, tag);
    TaggedUnfolds(c, q, tag);
    var e := LineEnd(b, p);
    if Fold(b[p..e]) != Fold(tag) && b[e] != NUL {
      NewLinesAlike(b, AfterNewLine(b, e), c, q + (e - p) + 1, tag);
    }
  }

  // ----- comment lines -----

  /** The same kind of character comes first. */
  lemma {:induction false} SameFirst(b: string, p: nat, c: string, q: nat)
    requires IsBuffer(b) && p < |b| && IsBuffer(c) && q < |c| && c[q..] == Unix(b[p..])
    ensures c[q] == if IsNewLine(b[p]) then '\n' else b[p]
    ensures !IsNewLine(b[p]) && p + 1 < |b| ==> q + 1 < |c| && c[q + 1..] == Unix(b[p + 1..])
    ensures IsNewLine(b[p]) ==> q + 1 < |c| && c[q + 1..] == Unix(b[AfterNewLine(b, p)..])
  {
    assert c[q] == c[q..][0];
    assert c[q + 1..] == c[q..][1..];
    if IsNewLine(b[p]) {
      UnixNewLine(b, p);
      NotOver(b, AfterNewLine(b, p));
    } else if p + 1 < |b| {
      assert b[p..][1..] == b[p + 1..];
      NotOver(b, p + 1);
    }
  }

  lemma {:induction false} NotOver(b: string, p: nat)
    requires p < |b|
    ensures Unix(b[p..]) != []
  {
  }

  lemma {:induction false} BlankLinesAlike(b: string, p: nat, c: string, q: nat)
    requires IsBuffer(b) && p < |b| && IsBuffer(c) && q < |c| && c[q..] == Unix(b[p..])
    ensures var r, s := BlankLines(b, p), BlankLines(c, q); s.1 == r.1 && c[s.0..] == Unix(b[r.0..])
    decreases |b| - p
  {
    hide Unix;
    SameFirst(b, p, c, q);
    if IsNewLine(b[p]) {
      assert AfterNewLine(c, q) == q + 1;
      BlankLinesAlike(b, AfterNewLine(b, p), c, q + 1);
    } else if IsSpace(b[p]) {
      BlankLinesAlike(b, p + 1, c, q + 1);
    }
  }

  lemma {:induction false} CommentUnfolds(b: string, p: nat, blanks: bool)
    requires IsBuffer(b) && p < |b|
    ensures IsComment(b[p]) ==>
      var e := LineEnd(b, p);
      CommentLines(b, p, blanks) == if b[e] == NUL then Lines(b[p..e], e, true)
        else var r := CommentLines(b, AfterNewLine(b, e), blanks); r.(text := b[p..e] + "\n" + r.text)
    ensures !IsComment(b[p]) ==>
      var (q, n) := BlankLines(b, p);
      CommentLines(b, p, blanks) == if blanks
          && IsComment(b[q]) then var r := CommentLines(b, q, blanks); r.(text := NewLines(n) + r.text)
        else Lines("", p, false)
  {
    hide LineEnd, BlankLines, AfterNewLine, IsComment;
  }

  /** The line of a comment, and what the rest then has to be. */
  lemma {:induction false} OneLineAlike(b: string, p: nat, c: string, q: nat, blanks: bool, x: Lines, y: Lines)
    requires IsBuffer(b) && p < |b| && IsBuffer(c) && q < |c| && c[q..] == Unix(b[p..]) && IsComment(b[p])
    requires c[q] == b[p]
    requires var e := LineEnd(b, p); var f := q + (e - p);
      b[e] != NUL ==>
          f + 1 < |c| && x == CommentLines(b, AfterNewLine(b, e), blanks) && y == CommentLines(c, f + 1, blanks)
    requires x.text == y.text && x.atEnd == y.atEnd
    ensures CommentLines(b, p, blanks).text == CommentLines(c, q, blanks).text
    ensures CommentLines(b, p, blanks).atEnd == CommentLines(c, q, blanks).atEnd
  {
    hide Unix, LineEnd, BlankLines, CommentLines, IsComment;
    SameLine(b, p, c, q);
    CommentUnfolds(b, p, blanks);
    CommentUnfolds(c, q, blanks);
  }

  /** So are comment lines, with the blank lines between them. */
  lemma {:induction false} CommentsAlike(b: string, p: nat, c: string, q: nat, blanks: bool)
    requires IsBuffer(b) && p < |b| && IsBuffer(c) && q < |c| && c[q..] == Unix(b[p..])
    ensures CommentLines(b, p, blanks).text == CommentLines(c, q, blanks).text
    ensures CommentLines(b, p, blanks).atEnd == CommentLines(c, q, blanks).atEnd
    decreases |b| - p, if IsComment(b[p]) then 0 else 1
  {
    hide Unix, LineEnd, BlankLines, CommentLines, NewLines, IsSpace;
    SameFirst(b, p, c, q);
    if IsComment(b[p]) {
      SameLine(b, p, c, q);
      var e := LineEnd(b, p);
      if b[e] != NUL {
        var f := q + (e - p);
        CommentsAlike(b, AfterNewLine(b, e), c, f + 1, blanks);
        OneLineAlike(b, p, c, q, blanks, CommentLines(b, AfterNewLine(b, e), blanks), CommentLines(c, f + 1, blanks));
      } else {
        OneLineAlike(b, p, c, q, blanks, Lines("", 0, false), Lines("", 0, false));
      }
    } else {
      CommentUnfolds(b, p, blanks);
      CommentUnfolds(c, q, blanks);
      BlankLinesAlike(b, p, c, q);
      var r, s := BlankLines(b, p).0, BlankLines(c, q).0;
      SameFirst(b, r, c, s);
      if blanks && IsComment(b[r]) {
        CommentsAlike(b, r, c, s, blanks);
      }
    }
  }
}
