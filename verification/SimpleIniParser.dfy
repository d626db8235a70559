/**
 The in-place parser of conf/simpleini.h: scanning loops that write NULs into the loaded buffer and
 move the lines of multi-line text down in it, proved against the functions of module IniText.
 */
module SimpleIniParser {
  import opened Options
  import opened IniText
  import opened IniStore
  import opened NoCase

  // ----- scanning loops -----

  method SkipSpacesFrom(data: array<char>, start: nat) returns (p: nat)
    requires IsBuffer(data[..]) && start < data.Length
    ensures p == SkipSpaces(data[..], start)
  {
    p := start;
    while data[p] != NUL && IsSpace(data[p])
      invariant start <= p < data.Length && SkipSpaces(data[..], p) == SkipSpaces(data[..], start)
      decreases data.Length - p
    {
      p := p + 1;
    }
  }

  method SkipBlanksFrom(data: array<char>, start: nat) returns (p: nat)
    requires IsBuffer(data[..]) && start < data.Length
    ensures p == SkipBlanks(data[..], start)
  {
    p := start;
    while data[p] != NUL && !IsNewLine(data[p]) && IsSpace(data[p])
      invariant start <= p < data.Length && SkipBlanks(data[..], p) == SkipBlanks(data[..], start)
      decreases data.Length - p
    {
      p := p + 1;
    }
  }

  method FindStopFrom(data: array<char>, start: nat, c: char) returns (p: nat)
    requires IsBuffer(data[..]) && start < data.Length
    ensures p == FindStop(data[..], start, c)
  {
    p := start;
    while data[p] != NUL && data[p] != c && !IsNewLine(data[p])
      invariant start <= p < data.Length && FindStop(data[..], p, c) == FindStop(data[..], start, c)
      decreases data.Length - p
    {
      p := p + 1;
    }
  }

  /** `pTrail` runs back over trailing spaces from the end of the text, and a NUL ends it there. */
  method RemoveTrailing(data: array<char>, start: nat, end: nat)
    requires start <= end < data.Length
    modifies data
    ensures data[..] == Chop(old(data[..]), start, end)
  {
    var trail: int := end - 1;
    while trail >= start && IsSpace(data[trail])
      invariant start - 1 <= trail < end
      invariant TrimEnd(data[..], start, trail + 1) == TrimEnd(data[..], start, end)
    {
      trail := trail - 1;
    }
    trail := trail + 1;
    data[trail] := NUL;
  }

  method SkipNewLine(data: array<char>, p: nat) returns (q: nat)
    requires IsBuffer(data[..]) && p < data.Length && IsNewLine(data[p])
    ensures q == AfterNewLine(data[..], p)
  {
    q := p + if data[p] == '\r' && data[p + 1] == '\n' then 2 else 1;
  }

  method TagAt(data: array<char>, p: nat) returns (r: bool)
    requires IsBuffer(data[..]) && p < data.Length
    ensures r == IsMultiLineTag(data[..], p)
  {
    if data[p] != '<' { return false; }
    if data[p + 1] != '<' { return false; }
    if data[p + 2] != '<' { return false; }
    return true;
  }

  // ----- multi-line text -----

  ghost function LinesFrom(b: string, p: nat, tag: Option<string>, blanks: bool): (r: Lines)
    requires IsBuffer(b) && p < |b|
    ensures p + |r.text| <= r.at < |b|
  {
    match tag
    case None => CommentLines(b, p, blanks)
    case Some(t) => TaggedLines(b, p, t)
  }

  ghost function LoadLines(b: string, p: nat, tag: Option<string>, blanks: bool): Loaded
    requires IsBuffer(b) && p < |b| && (tag.Some? ==> 0 < p)
  {
    match tag
    case None => LoadComment(b, p, blanks)
    case Some(t) => LoadTagged(b, p, t)
  }

  ghost function Behind(out: string, r: Lines): Lines {
    r.(text := out + r.text)
  }

  lemma {:induction false} BehindBehind(s: string, t: string, r: Lines)
    ensures Behind(s, Behind(t, r)) == Behind(s + t, r)
  {
    assert s + (t + r.text) == (s + t) + r.text;
  }

  lemma {:induction false} OverwriteAt(b: string, at: nat, s: string, i: nat)
    requires at + |s| <= |b| && i < |b|
    ensures Overwrite(b, at, s)[i] == if at <= i < at + |s| then s[i - at] else b[i]
  {
  }

  lemma {:induction false} LineRead(b: string, p: nat, e: nat, tag: Option<string>, blanks: bool)
    requires IsBuffer(b) && p < |b| && e == LineEnd(b, p) && b[e] != NUL
    requires if tag.None? then IsComment(b[p]) else Fold(b[p..e]) != Fold(tag.value)
    ensures LinesFrom(b, p, tag, blanks) == Behind(b[p..e] + "\n", LinesFrom(b, AfterNewLine(b, e), tag, blanks))
  {
  }

  lemma {:induction false} BlanksRead(b: string, p: nat)
    requires IsBuffer(b) && p < |b| && !IsComment(b[p])
    ensures var (q, n) := BlankLines(b, p);
      if IsComment(b[q]) then LinesFrom(b, p, None, true) == Behind(NewLines(n), LinesFrom(b, q, None, true))
      else LinesFrom(b, p, None, true) == Lines("", p, false)
  {
  }

  /** The lines read so far stand at `start`, each ended by one '\n', and the rest is as it was. */
  ghost predicate Compacted(b0: string, b: string, start: nat, out: string, p: nat) {
    && IsBuffer(b0) && |b| == |b0| && start + |out| <= p < |b|
    && forall i | 0 <= i < |b| :: b[i] == if start <= i < start + |out| then out[i - start] else b0[i]
  }

  lemma {:induction false} CompactedIs(b0: string, b: string, start: nat, out: string, p: nat)
    requires Compacted(b0, b, start, out, p)
    ensures b == Overwrite(b0, start, out) && IsBuffer(b)
  {
    forall i | 0 <= i < |b|
      ensures b[i] == Overwrite(b0, start, out)[i]
    {
      OverwriteAt(b0, start, out, i);
    }
  }

  lemma {:induction false} LineEndKept(b0: string, b: string, start: nat, out: string, p: nat)
    requires Compacted(b0, b, start, out, p)
    ensures IsBuffer(b) && LineEnd(b, p) == LineEnd(b0, p)
  {
    var e := LineEnd(b0, p);
    assert forall i | p <= i < |b| :: b[i] == b0[i];
    FindStopIs(b, p, '\n', e);
  }

  /** The buffer once the line from `p` to `e` has been moved down to `d` and ended by a NUL in both places. */
  function Moved(b: string, d: nat, p: nat, e: nat): (r: string)
    requires d <= p <= e < |b|
    ensures |r| == |b|
  {
    (if d < p then Overwrite(b, d, b[p..e] + [NUL]) else b)[e := NUL]
  }

  lemma {:induction false} MovedAt(b: string, d: nat, p: nat, e: nat, i: nat)
    requires d <= p <= e < |b| && i < |b|
    ensures Moved(b, d, p, e)[i] ==
      (if i == e || i == d + (e - p) then NUL
       else if d <= i < d + (e - p) then b[p + (i - d)]
       else b[i])
  {
    if d < p {
      OverwriteAt(b, d, b[p..e] + [NUL], i);
    }
  }

  method MoveLine(data: array<char>, d: nat, p: nat, e: nat)
    requires d <= p <= e < data.Length
    modifies data
    ensures data[..] == Moved(old(data[..]), d, p, e)
  {
    if d < p {
      var len := e - p;
      forall i | 0 <= i < len {
        data[d + i] := data[p + i];
      }
      data[d + len] := NUL;
    }
    data[e] := NUL;
    forall i | 0 <= i < data.Length
      ensures data[i] == Moved(old(data[..]), d, p, e)[i]
    {
      MovedAt(old(data[..]), d, p, e, i);
    }
  }

  /** Once the newline is back and the line ends in '\n', one more line is in place. */
  lemma {:induction false} LineMoved(b0: string, b: string, start: nat, out: string, d: nat, p: nat, e: nat)
    requires d == start + |out| && Compacted(b0, b, start, out, p) && e == LineEnd(b0, p) && b0[e] != NUL
    ensures Compacted(b0, Moved(b, d, p, e)[e := b0[e]][d + (e - p) := '\n'], start,
              out + b0[p..e] + "\n", AfterNewLine(b0, e))
  {
    hide LineEnd, Moved, AfterNewLine;
    var line := b0[p..e];
    var out' := out + line + "\n";
    assert forall i | 0 <= i < |out'| ::
        out'[i] == if i < |out| then out[i] else if i < |out| + |line| then b0[p + (i - |out|)] else '\n';
    var moved := Moved(b, d, p, e);
    var b' := moved[e := b0[e]][d + (e - p) := '\n'];
    forall i | 0 <= i < |b|
      ensures b'[i] == if start <= i < start + |out'| then out'[i - start] else b0[i]
    {
      MovedAt(b, d, p, e, i);
      assert d <= i < d + (e - p) ==> b[p + (i - d)] == b0[p + (i - d)];
    }
  }

  lemma {:induction false} MovedLine(b: string, d: nat, p: nat, e: nat, line: string)
    requires d <= p <= e < |b| && line == b[p..e]
    ensures forall i | 0 <= i < |line| :: Moved(b, d, p, e)[d + i] == line[i]
    ensures Moved(b, d, p, e)[d + |line|] == NUL
  {
    hide Moved;
    MovedAt(b, d, p, e, d + (e - p));
    forall i | 0 <= i < |line|
      ensures Moved(b, d, p, e)[d + i] == line[i]
    {
      MovedAt(b, d, p, e, d + i);
    }
  }

  lemma {:induction false} LineIsCStr(b0: string, b: string, start: nat, out: string, d: nat, p: nat, e: nat)
    requires d == start + |out| && Compacted(b0, b, start, out, p) && e == LineEnd(b0, p)
    ensures CStr(Moved(b, d, p, e), d) == b0[p..e]
  {
    assert NUL !in b0[p..e];
    SameBehind(b0, b, start, out, p);
    assert b[p..e] == b0[p..e];
    hide Moved, LineEnd, CStr, Compacted;
    MovedLine(b, d, p, e, b0[p..e]);
    CStrIs(Moved(b, d, p, e), d, b0[p..e]);
  }

  lemma {:induction false} SameBehind(b0: string, b: string, start: nat, out: string, p: nat)
    requires Compacted(b0, b, start, out, p)
    ensures |b| == |b0| && forall i | p <= i < |b| :: b[i] == b0[i]
  {
  }

  /** A tag's name ends before the text starts, unless the data ends with the name. */
  ghost predicate TagBefore(b: string, tag: nat, start: nat)
    requires start < |b|
  {
    0 < start && tag <= start && (tag + |CStr(b, tag)| < start || b[start] == NUL)
  }

  lemma {:induction false} CStrBelow(b: string, b': string, p: nat, start: nat)
    requires |b| == |b'| && start < |b| && TagBefore(b, p, start)
    requires forall i | 0 <= i < start :: b[i] == b'[i]
    requires b[start] == NUL ==> b'[start] == NUL
    ensures CStr(b', p) == CStr(b, p)
    decreases |b| - p
  {
    if b[p] != NUL && p + 1 < |b| {
      CStrBelow(b, b', p + 1, start);
    }
  }

  /** Looks ahead over blank lines. */
  method LookAhead(data: array<char>, start: nat) returns (p: nat, newLines: nat)
    requires IsBuffer(data[..]) && start < data.Length
    ensures (p, newLines) == BlankLines(data[..], start)
  {
    p, newLines := start, 0;
    while IsSpace(data[p])
      invariant start <= p < data.Length
      invariant var r := BlankLines(data[..], p); BlankLines(data[..], start) == (r.0, newLines + r.1)
      decreases data.Length - p
    {
      if IsNewLine(data[p]) {
        newLines := newLines + 1;
        p := SkipNewLine(data, p);
      } else {
        p := p + 1;
      }
    }
  }

  lemma {:induction false} CommentEnds(b0: string, b: string, start: nat, out: string, p: nat, blanks: bool)
    requires Compacted(b0, b, start, out, p)
    requires CommentLines(b0, start, blanks) == Behind(out, Lines("", p, false))
    ensures p == start ==> b == b0 && LoadComment(b0, start, blanks) == Loaded(false, b0, p)
    ensures p > start ==> out != [] && LoadComment(b0, start, blanks) == Loaded(true, b[start + |out| - 1 := NUL], p)
  {
    hide CommentLines, Overwrite;
    CompactedIs(b0, b, start, out, p);
    assert out + "" == out;
    if p > start {
      LastReplaced(b0, start, out);
    } else {
      NothingWritten(b0, start);
    }
  }

  lemma {:induction false} LastReplaced(b: string, at: nat, s: string)
    requires s != "" && at + |s| <= |b|
    ensures Overwrite(b, at, s[..|s| - 1] + [NUL]) == Overwrite(b, at, s)[at + |s| - 1 := NUL]
  {
    var t := s[..|s| - 1] + [NUL];
    forall i | 0 <= i < |b|
      ensures Overwrite(b, at, t)[i] == Overwrite(b, at, s)[at + |s| - 1 := NUL][i]
    {
      OverwriteAt(b, at, t, i);
      OverwriteAt(b, at, s, i);
    }
    hide Overwrite;
  }

  lemma {:induction false} NothingWritten(b: string, at: nat)
    requires at <= |b|
    ensures Overwrite(b, at, "") == b
  {
  }

  lemma {:induction false} LinesEnd(b0: string, b: string, start: nat, out: string, d: nat, p: nat, e: nat,
      tag: Option<string>, blanks: bool)
    requires d == start + |out| && Compacted(b0, b, start, out, p) && e == LineEnd(b0, p) && b0[e] == NUL
    requires if tag.None? then IsComment(b0[p]) else start > 0 && Fold(b0[p..e]) != Fold(tag.value)
    requires LinesFrom(b0, start, tag, blanks) == Behind(out, LinesFrom(b0, p, tag, blanks))
    ensures LoadLines(b0, start, tag, blanks) == Loaded(true, Moved(b, d, p, e), e)
  {
    var line := b0[p..e];
    assert LinesFrom(b0, p, tag, blanks) == Lines(line, e, true);
    EndMoved(b0, b, start, out, d, p, e);
    MovedAt(b, d, p, e, e);
    assert Moved(b, d, p, e)[e := NUL] == Moved(b, d, p, e);
    hide CommentLines, TaggedLines, LineEnd, Moved, Overwrite;
    if tag.None? {
      CommentAtEnd(b0, start, out + line, e, blanks);
    } else {
      TaggedAtEnd(b0, start, out + line, e, tag.value);
    }
  }

  lemma {:induction false} CommentAtEnd(b: string, p: nat, text: string, e: nat, blanks: bool)
    requires IsBuffer(b) && p < e < |b| && CommentLines(b, p, blanks) == Lines(text, e, true)
    ensures LoadComment(b, p, blanks) == Loaded(true, Overwrite(b, p, text + [NUL]), e)
  {
  }

  lemma {:induction false} TaggedAtEnd(b: string, p: nat, text: string, e: nat, tag: string)
    requires IsBuffer(b) && 0 < p <= e < |b| && TaggedLines(b, p, tag) == Lines(text, e, true)
    ensures LoadTagged(b, p, tag) == Loaded(true, Overwrite(b, p, text + [NUL]), e)
  {
  }

  lemma {:induction false} EndMoved(b0: string, b: string, start: nat, out: string, d: nat, p: nat, e: nat)
    requires d == start + |out| && Compacted(b0, b, start, out, p) && p <= e < |b0| && (d < p || b0[e] == NUL)
    ensures Moved(b, d, p, e)[e := b0[e]] == Overwrite(b0, start, out + b0[p..e] + [NUL])
  {
    hide Moved, Overwrite;
    var line := b0[p..e];
    var moved, whole := Moved(b, d, p, e), Overwrite(b0, start, out + line + [NUL]);
    forall i | 0 <= i < |b|
      ensures moved[e := b0[e]][i] == whole[i]
    {
      MovedAt(b, d, p, e, i);
      OverwriteAt(b0, start, out + line + [NUL], i);
      WithLine(b0, b, start, out, d, p, e, i);
    }
  }

  /** What the moved line holds at `i`. */
  lemma {:induction false} WithLine(b0: string, b: string, start: nat, out: string, d: nat, p: nat, e: nat, i: nat)
    requires d == start + |out| && Compacted(b0, b, start, out, p) && p <= e < |b0| && i < |b0|
    ensures var text := out + b0[p..e] + [NUL];
      && |text| == |out| + (e - p) + 1
      && (i < start ==> b[i] == b0[i])
      && (start <= i < d ==> b[i] == text[i - start])
      && (d <= i < d + (e - p) ==> b[p + (i - d)] == text[i - start])
      && (i == d + (e - p) ==> text[i - start] == NUL)
      && (i > d + (e - p) ==> b[i] == b0[i])
  {
    var line := b0[p..e];
    if d <= i < d + (e - p) {
      assert line[i - d] == b0[p + (i - d)];
      assert b[p + (i - d)] == b0[p + (i - d)];
    }
  }

  lemma {:induction false} TagEnds(b0: string, b: string, start: nat, out: string, d: nat, p: nat, e: nat, tag: string)
    requires d == start + |out| && Compacted(b0, b, start, out, p) && e == LineEnd(b0, p) && start > 0
    requires TaggedLines(b0, start, tag) == Behind(out, Lines("", p, false))
    ensures var moved := Moved(b, d, p, e);
      LoadTagged(b0, start, tag) ==
      if e == start then Loaded(false, moved, e)
      else Loaded(true, moved[d - 1 := NUL][e := b0[e]], if b0[e] == NUL then e else AfterNewLine(b0, e))
  {
    hide TaggedLines, LineEnd, AfterNewLine;
    assert out + "" == out;
    if e == start {
      assert out == "";
      assert b == b0;
    } else {
      hide Moved, Overwrite;
      TagMoved(b0, b, start, out, d, p, e);
    }
  }

  lemma {:induction false} TagMoved(b0: string, b: string, start: nat, out: string, d: nat, p: nat, e: nat)
    requires d == start + |out| && Compacted(b0, b, start, out, p) && p <= e < |b0| && 0 < start < e
    ensures Moved(b, d, p, e)[d - 1 := NUL][e := b0[e]] ==
      Overwrite(b0, start, out + if d < p then b0[p..e] + [NUL] else "")[d - 1 := NUL]
  {
    if d == p {
      assert out + "" == out;
      CompactedIs(b0, b, start, out, p);
    } else {
      hide Moved, Overwrite;
      EndMoved(b0, b, start, out, d, p, e);
      assert out + b0[p..e] + [NUL] == out + (b0[p..e] + [NUL]);
      Swap(Moved(b, d, p, e), d - 1, NUL, e, b0[e]);
    }
  }

  lemma {:induction false} Swap(s: string, i: nat, c: char, j: nat, d: char)
    requires i < |s| && j < |s| && i != j
    ensures s[i := c][j := d] == s[j := d][i := c]
  {
  }

  lemma {:induction false} BlankLinesKept(b0: string, b: string, p: nat)
    requires IsBuffer(b0) && IsBuffer(b) && |b0| == |b| && p < |b|
    requires forall i | p <= i < |b| :: b[i] == b0[i]
    ensures BlankLines(b, p) == BlankLines(b0, p)
    decreases |b| - p
  {
    if IsNewLine(b[p]) {
      BlankLinesKept(b0, b, AfterNewLine(b, p));
    } else if IsSpace(b[p]) {
      BlankLinesKept(b0, b, p + 1);
    }
  }

  lemma {:induction false} BehindLine(s: string, line: string, r: Lines)
    ensures Behind(s, Behind(line + "\n", r)) == Behind(s + line + "\n", r)
  {
    BehindBehind(s, line + "\n", r);
    assert s + (line + "\n") == s + line + "\n";
  }

  lemma {:induction false} BehindNothing(r: Lines)
    ensures Behind("", r) == r
  {
    assert "" + r.text == r.text;
  }

  /** Blank lines that a comment line follows become part of the comment. */
  method KeepBlankLines(ghost b0: string, data: array<char>, ghost start: nat, ghost out: string, d: nat, p: nat)
    returns (more: bool, d': nat, p': nat, ghost out': string)
    requires Compacted(b0, data[..], start, out, p) && d == start + |out| && !IsComment(data[p])
    modifies data
    ensures Compacted(b0, data[..], start, out', p') && d' == start + |out'|
    ensures Behind(out, LinesFrom(b0, p, None, true))
          == Behind(out', if more then LinesFrom(b0, p', None, true) else Lines("", p', false))
    ensures if more then p' > p else p' == p
  {
    hide LinesFrom, CStr, BlankLines;
    ghost var b := data[..];
    var cur, newLines := LookAhead(data, p);
    BlankLinesKept(b0, b, p);
    BlanksRead(b0, p);
    more := IsComment(data[cur]);
    if more {
      BehindBehind(out, NewLines(newLines), LinesFrom(b0, cur, None, true));
      forall i | 0 <= i < newLines {
        data[d + i] := '\n';
      }
      return true, d + newLines, cur, out + NewLines(newLines);
    }
    return false, d, p, out;
  }

  /** The next line, moved down behind the others. */
  method NextLine(ghost b0: string, data: array<char>, ghost start: nat, ghost out: string, d: nat, p: nat)
    returns (e: nat, eol: char)
    requires Compacted(b0, data[..], start, out, p) && d == start + |out|
    modifies data
    ensures e == LineEnd(b0, p) && eol == b0[e] && (b0[p] == NUL ==> e == p)
    ensures data[..] == Moved(old(data[..]), d, p, e)
  {
    CompactedIs(b0, data[..], start, out, p);
    LineEndKept(b0, data[..], start, out, p);
    e := FindStopFrom(data, p, '\n');
    eol := data[e];
    MoveLine(data, d, p, e);
  }

  /** A moved line gets its '\n'. */
  method EndLine(ghost b0: string, ghost b: string, data: array<char>, ghost start: nat, ghost out: string, d: nat,
      line: nat, e: nat, eol: char)
    returns (d': nat, p: nat)
    requires Compacted(b0, b, start, out, line) && d == start + |out|
    requires e == LineEnd(b0, line) && eol == b0[e] != NUL && data[..] == Moved(b, d, line, e)
    modifies data
    ensures p == AfterNewLine(b0, e) && d' == start + |out + b0[line..e] + "\n"|
    ensures Compacted(b0, data[..], start, out + b0[line..e] + "\n", p)
  {
    hide Moved, LineEnd;
    LineMoved(b0, b, start, out, d, line, e);
    MovedAt(b, d, line, e, e + 1);
    MovedAt(b, d, line, e, |b| - 1);
    d' := d + (e - line);
    data[e] := eol;
    p := SkipNewLine(data, e);
    data[d'] := '\n';
    d' := d' + 1;
  }

  /** Neither string is less than the other. */
  method SameName(data: array<char>, left: nat, right: nat) returns (same: bool)
    requires IsBuffer(data[..]) && left < data.Length && right < data.Length
    ensures same == (Fold(CStr(data[..], left)) == Fold(CStr(data[..], right)))
  {
    hide Fold, CStr, Before;
    SameEntry(CStr(data[..], left), CStr(data[..], right));
    var less := IsLess(data, left, right);
    var greater := IsLess(data, right, left);
    same := !less && !greater;
  }

  /** Whether the line that was just moved is the tag. */
  method IsTag(ghost b0: string, ghost b: string, data: array<char>, ghost start: nat, ghost out: string, d: nat,
      ghost line: nat, ghost e: nat, tag: nat)
    returns (same: bool)
    requires Compacted(b0, b, start, out, line) && d == start + |out|
    requires e == LineEnd(b0, line) && data[..] == Moved(b, d, line, e)
    requires TagBefore(b0, tag, start) && (b0[start] == NUL ==> line == start)
    ensures same == (Fold(b0[line..e]) == Fold(CStr(b0, tag)))
  {
    hide Moved, LineEnd, CStr, Fold;
    LineIsCStr(b0, b, start, out, d, line, e);
    ghost var now := data[..];
    forall i | 0 <= i < start
      ensures b0[i] == now[i]
    {
      MovedAt(b, d, line, e, i);
    }
    MovedAt(b, d, line, e, start);
    CStrBelow(b0, now, tag, start);
    MovedAt(b, d, line, e, |b| - 1);
    same := SameName(data, d, tag);
  }

  lemma {:induction false} NoComment(b: string, p: nat)
    requires IsBuffer(b) && p < |b| && !IsComment(b[p])
    ensures LinesFrom(b, p, None, false) == Lines("", p, false)
  {
  }

  lemma {:induction false} TagFound(b: string, p: nat, e: nat, tag: string, blanks: bool)
    requires IsBuffer(b) && p < |b| && e == LineEnd(b, p) && Fold(b[p..e]) == Fold(tag)
    ensures LinesFrom(b, p, Some(tag), blanks) == Lines("", p, false)
  {
  }

  /** Where the loop over the lines stops short of the end of the data: `out` is all the text there is. */
  ghost predicate TextRead(b0: string, b: string, now: string, start: nat, out: string, line: nat, p: nat,
      tag: Option<string>, blanks: bool) {
    && Compacted(b0, b, start, out, line)
    && LinesFrom(b0, start, tag, blanks) == Behind(out, Lines("", line, false))
    && match tag
       case None => now == b && p == line
       case Some(_) => 0 < start && p == LineEnd(b0, line) && now == Moved(b, start + |out|, line, p)
  }

  /** The last newline gives way to a NUL, and the tag line, if any, is skipped. */
  method EndText(ghost b0: string, ghost b: string, data: array<char>, start: nat, ghost out: string, d: nat,
      ghost line: nat, e: nat, eol: char, hasTag: bool, ghost tag: Option<string>, ghost blanks: bool)
    returns (ok: bool, p: nat, val: Option<nat>)
    requires TextRead(b0, b, data[..], start, out, line, e, tag, blanks) && d == start + |out|
    requires hasTag == tag.Some? && (hasTag ==> eol == b0[e])
    modifies data
    ensures Loaded(ok, data[..], p) == LoadLines(b0, start, tag, blanks)
    ensures val == if ok then Some(start) else None
  {
    hide Moved, LineEnd, CommentLines, TaggedLines, LoadComment, LoadTagged, Overwrite;
    if hasTag {
      TagEnds(b0, b, start, out, d, line, e, tag.value);
      MovedAt(b, d, line, e, e);
      MovedAt(b, d, line, e, |b| - 1);
    } else {
      CommentEnds(b0, b, start, out, e, blanks);
    }
    if start == e {
      return false, e, None;
    }
    data[d - 1] := NUL;
    p := e;
    if hasTag && eol != NUL {
      MovedAt(b, d, line, e, e + 1);
      data[p] := eol;
      p := SkipNewLine(data, p);
    }
    return true, p, Some(start);
  }

  /** In the midst of the lines: `out` is the text up to `p`. */
  ghost predicate Reading(b0: string, b: string, start: nat, out: string, p: nat, tag: Option<string>, blanks: bool) {
    && Compacted(b0, b, start, out, p)
    && LinesFrom(b0, start, tag, blanks) == Behind(out, LinesFrom(b0, p, tag, blanks))
    && (tag.Some? && b0[start] == NUL ==> p == start)
  }

  lemma {:induction false} ReadingBounds(b0: string, b: string, start: nat, out: string, p: nat, tag: Option<string>,
      blanks: bool)
    requires Reading(b0, b, start, out, p, tag, blanks)
    ensures IsBuffer(b0) && IsBuffer(b) && |b| == |b0| && start + |out| <= p < |b0| && b[p] == b0[p]
  {
    CompactedIs(b0, b, start, out, p);
  }

  datatype Progress = More | AtTag | AtEnd

  ghost predicate LineTaken(b0: string, b: string, now: string, start: nat, line: nat, out: string, p: nat,
      eol: char, tag: Option<string>, blanks: bool, progress: Progress) {
    match progress
    case More => line < p && Reading(b0, now, start, out, p, tag, blanks)
    case AtTag => TextRead(b0, b, now, start, out, line, p, tag, blanks) && p < |b0| && eol == b0[p]
    case AtEnd =>
      && start < |b0| && IsBuffer(b0) && (tag.Some? ==> 0 < start)
      && Loaded(true, now, p) == LoadLines(b0, start, tag, blanks)
  }

  /** A line that is the tag ends the text. */
  lemma {:induction false} TagTaken(b0: string, b: string, start: nat, out: string, d: nat, line: nat, p: nat,
      tag: string, blanks: bool)
    requires d == start + |out| && Reading(b0, b, start, out, line, Some(tag), blanks) && 0 < start
    requires p == LineEnd(b0, line) && Fold(b0[line..p]) == Fold(tag)
    ensures LineTaken(b0, b, Moved(b, d, line, p), start, line, out, p, b0[p], Some(tag), blanks, AtTag)
  {
    hide LinesFrom, LineEnd, Moved, Fold;
    TagFound(b0, line, p, tag, blanks);
  }

  /** The last line of the data ends the text too. */
  lemma {:induction false} EndTaken(b0: string, b: string, start: nat, out: string, d: nat, line: nat, p: nat,
      tag: Option<string>, blanks: bool)
    requires d == start + |out| && Reading(b0, b, start, out, line, tag, blanks) && p == LineEnd(b0, line)
    requires b0[p] == NUL
    requires if tag.None? then IsComment(b0[line]) else 0 < start && Fold(b0[line..p]) != Fold(tag.value)
    ensures LineTaken(b0, b, Moved(b, d, line, p), start, line, out, p, NUL, tag, blanks, AtEnd)
  {
    hide LinesFrom, LoadLines, LineEnd, Moved, Fold;
    LinesEnd(b0, b, start, out, d, line, p, tag, blanks);
  }

  /** Any other line is added to it. */
  lemma {:induction false} MoreTaken(b0: string, b: string, now: string, start: nat, out: string, line: nat, e: nat,
      tag: Option<string>, blanks: bool)
    requires Reading(b0, b, start, out, line, tag, blanks) && e == LineEnd(b0, line) && b0[e] != NUL
    requires if tag.None? then IsComment(b0[line]) else Fold(b0[line..e]) != Fold(tag.value)
    requires Compacted(b0, now, start, out + b0[line..e] + "\n", AfterNewLine(b0, e))
    ensures LineTaken(b0, b, now, start, line, out + b0[line..e] + "\n", AfterNewLine(b0, e), b0[e], tag, blanks, More)
  {
    hide LinesFrom, LineEnd, Moved, AfterNewLine, Fold;
    LineRead(b0, line, e, tag, blanks);
    BehindLine(out, b0[line..e], LinesFrom(b0, AfterNewLine(b0, e), tag, blanks));
  }

  /** Takes one line; `p` is the end of the line if that is the tag or the last, and otherwise behind it. */
  method TakeLine(ghost b0: string, ghost b: string, data: array<char>, ghost start: nat, ghost out: string, d: nat,
      line: nat, tag: Option<nat>, ghost text: Option<string>, ghost blanks: bool)
    returns (progress: Progress, d': nat, p: nat, eol: char, ghost out': string)
    requires data[..] == b && Reading(b0, b, start, out, line, text, blanks) && d == start + |out|
    requires if tag.None? then IsComment(b0[line]) else TagBefore(b0, tag.value, start)
    requires text == TextAt(b0, tag)
    modifies data
    ensures LineTaken(b0, b, data[..], start, line, out', p, eol, text, blanks, progress)
    ensures progress != AtEnd ==> d' == start + |out'|
  {
    assert tag.Some? ==> 0 < start;
    ReadingBounds(b0, data[..], start, out, line, text, blanks);
    hide *;
    d', out' := d, out;
    p, eol := NextLine(b0, data, start, out, d, line);
    if tag.Some? {
      var same := IsTag(b0, b, data, start, out, d, line, p, tag.value);
      if same {
        TagTaken(b0, b, start, out, d, line, p, text.value, blanks);
        return AtTag, d', p, eol, out';
      }
    }
    if eol == NUL {
      EndTaken(b0, b, start, out, d, line, p, text, blanks);
      return AtEnd, d', p, eol, out';
    }
    ghost var e := p;
    d', p := EndLine(b0, b, data, start, out, d, line, p, eol);
    MoreTaken(b0, b, data[..], start, out, line, e, text, blanks);
    return More, d', p, eol, out + b0[line..e] + "\n";
  }

  /**
   Multi-line text, compacted in place: comment lines, or the lines before a tag whose name stands in
   front of them in the buffer. On failure the pointer to the text is null.
   */
  method LoadMultiLineText(data: array<char>, start: nat, tag: Option<nat>, blanks: bool)
    returns (ok: bool, p: nat, val: Option<nat>)
    requires IsBuffer(data[..]) && start < data.Length
    requires tag.Some? ==> TagBefore(data[..], tag.value, start)
    modifies data
    ensures Loaded(ok, data[..], p) == LoadLines(old(data[..]), start, TextAt(old(data[..]), tag), blanks)
    ensures val == if ok then Some(start) else None
  {
    assert tag.Some? ==> tag.value <= start;
    hide LinesFrom, LoadLines, TextRead, CStr, TagBefore;
    ghost var b0 := data[..];
    ghost var text := TextAt(b0, tag);
    ghost var out := "";
    var d, eol := start, data[start];
    p := start;
    ghost var b := b0;
    ghost var line := start;
    BehindNothing(LinesFrom(b0, p, text, blanks));
    while true
      invariant Reading(b0, data[..], start, out, p, text, blanks) && d == start + |out|
      decreases data.Length - p
    {
      if tag.None? && !IsComment(data[p]) {
        var more := false;
        if blanks {
          more, d, p, out := KeepBlankLines(b0, data, start, out, d, p);
        } else {
          NoComment(b0, p);
        }
        if more {
          continue;
        }
        b, line := data[..], p;
        CommentRead(b0, b, start, out, p, blanks);
        break;
      }
      b, line := data[..], p;
      var progress;
      progress, d, p, eol, out := TakeLine(b0, b, data, start, out, d, p, tag, text, blanks);
      match progress {
        case AtTag => break;
        case AtEnd => return true, p, Some(start);
        case More =>
      }
    }
    ok, p, val := EndText(b0, b, data, start, out, d, line, p, eol, tag.Some?, text, blanks);
  }

  lemma {:induction false} CommentRead(b0: string, b: string, start: nat, out: string, p: nat, blanks: bool)
    requires Compacted(b0, b, start, out, p) && LinesFrom(b0, start, None, blanks) == Behind(out, Lines("", p, false))
    ensures TextRead(b0, b, b, start, out, p, p, None, blanks)
  {
  }

  // ----- entries -----

  lemma {:induction false} LineEndBehind(b: string, start: nat, end: nat, p: nat)
    requires IsBuffer(b) && start <= end < p < |b|
    ensures IsBuffer(Chop(b, start, end)) && LineEnd(Chop(b, start, end), p) == LineEnd(b, p)
  {
    FindStopIs(Chop(b, start, end), p, '\n', LineEnd(b, p));
  }

  /** A section line from its '['. The start of the name is set even if the line turns out to be invalid. */
  method ReadSection(data: array<char>, q: nat, ghost comment: Option<nat>) returns (found: bool, p: nat, section: nat)
    requires IsBuffer(data[..]) && q < data.Length && data[q] == '[' && Inside(comment, data.Length)
    modifies data
    ensures SectionLine(old(data[..]), q, comment) ==
      if found then Done(Found(true, data[..], p, Some(section), None, None, comment)) else Pass(data[..], p,
          Some(section), comment)
  {
    hide TrimEnd, FindStop, SkipSpaces, Chop, IsSpace, IsNewLine;
    section := SkipSpacesFrom(data, q + 1);
    p := FindStopFrom(data, section, ']');
    if data[p] != ']' {
      return false, p, section;
    }
    ghost var b := data[..];
    RemoveTrailing(data, section, p);
    LineEndBehind(b, section, p, p + 1);
    p := FindStopFrom(data, p + 1, '\n');
    return true, p, section;
  }

  lemma {:induction false} CStrEnds(b: string, p: nat, t: nat)
    requires p <= t < |b| && b[t] == NUL
    ensures p + |CStr(b, p)| <= t
    decreases t - p
  {
    if p < t {
      CStrEnds(b, p + 1, t);
    }
  }

  /** The tag of a multi-line value ends before the next line starts. */
  lemma {:induction false} TagOnItsLine(b: string, v: nat, e: nat, next: nat)
    requires IsBuffer(b) && v <= e < |b| && IsBuffer(Chop(b, v, e)) && IsMultiLineTag(Chop(b, v, e), v)
    requires if b[e] == NUL then next == e else e < next < |b|
    ensures v + 3 < |b| && TagBefore(Chop(b, v, e), v + 3, next)
  {
    var t := TrimEnd(b, v, e);
    var b' := Chop(b, v, e);
    assert b'[t] == NUL && b'[v] == b'[v + 1] == b'[v + 2] == '<';
    CStrEnds(b', v + 3, t);
  }

  /** From behind the '=', to the next line. */
  method ReadValueLine(data: array<char>, p0: nat) returns (p: nat, val: nat)
    requires IsBuffer(data[..]) && p0 < data.Length
    modifies data
    ensures val == SkipBlanks(old(data[..]), p0)
    ensures var b := old(data[..]); var e := LineEnd(b, val);
      && data[..] == Chop(b, val, e)
      && p == if b[e] == NUL then e else AfterNewLine(b, e)
  {
    val := SkipBlanksFrom(data, p0);
    p := FindStopFrom(data, val, '\n');
    var end := p;
    if data[p] != NUL {
      p := SkipNewLine(data, p);
    }
    RemoveTrailing(data, val, end);
  }

  method ReadValue(data: array<char>, p0: nat, multiLine: bool, ghost key: nat, ghost section: Option<nat>,
      ghost comment: Option<nat>)
    returns (found: bool, p: nat, val: Option<nat>)
    requires IsBuffer(data[..]) && key < p0 < data.Length && Inside(section, data.Length)
    requires Inside(comment, data.Length)
    modifies data
    ensures Found(found, data[..], p, section, Some(key), val, comment)
          == FindValue(old(data[..]), key, p0, section, comment, multiLine)
  {
    hide Chop, LineEnd, SkipBlanks, CStr, LoadTagged, TagBefore, IsMultiLineTag, AfterNewLine;
    ghost var b := data[..];
    var v;
    p, v := ReadValueLine(data, p0);
    ghost var e := LineEnd(b, v);
    ChopIsBuffer(b, v, e);
    if multiLine {
      var hasTag := TagAt(data, v);
      if hasTag {
        TagOnItsLine(b, v, e, p);
        found, p, val := LoadMultiLineText(data, p, Some(v + 3), false);
        return;
      }
    }
    return true, p, Some(v);
  }

  /**
   A line that is neither a comment nor a section. It is passed over if it has no key; otherwise the search is over.
   */
  method ReadKeyLine(data: array<char>, q: nat, multiLine: bool, ghost section: Option<nat>, ghost comment: Option<nat>)
    returns (over: bool, found: bool, p: nat, val: Option<nat>)
    requires IsBuffer(data[..]) && q < data.Length && data[q] != NUL && !IsSpace(data[q])
    requires Inside(section, data.Length) && Inside(comment, data.Length)
    modifies data
    ensures over || val == None
    ensures KeyLine(old(data[..]), q, section, comment, multiLine) ==
      if over then Done(Found(found, data[..], p, section, Some(q), val, comment)) else Pass(data[..], p, section,
          comment)
  {
    hide FindStop, LineEnd, FindValue, Chop;
    p := FindStopFrom(data, q, '=');
    if data[p] != '=' {
      return false, false, p, None;
    }
    if p == q {
      p := FindStopFrom(data, p, '\n');
      StopIsLineEnd(data[..], q);
      return false, false, p, None;
    }
    ChopIsBuffer(data[..], q, p);
    RemoveTrailing(data, q, p);
    over := true;
    found, p, val := ReadValue(data, p + 1, multiLine, q, section, comment);
  }

  lemma {:induction false} ChopIsBuffer(b: string, start: nat, end: nat)
    requires IsBuffer(b) && start <= end < |b|
    ensures IsBuffer(Chop(b, start, end))
  {
  }

  lemma {:induction false} CommentPassed(b: string, q: nat, r: Loaded, section: Option<nat>, comment: Option<nat>,
      multiLine: bool)
    requires IsBuffer(b) && q < |b| && IsComment(b[q]) && Inside(section, |b|) && Inside(comment, |b|)
    requires r == LoadLines(b, q, TextAt(b, None), true)
    ensures r.ok && OneLine(b, q, section, comment, multiLine) == Pass(r.b, r.next, section, Some(q))
  {
    hide CommentLines, Overwrite;
  }

  lemma {:induction false} EntryFrom(b: string, p: nat, q: nat, section: Option<nat>, comment: Option<nat>,
      multiLine: bool)
    requires IsBuffer(b) && p < |b| && Inside(section, |b|) && Inside(comment, |b|) && q == SkipSpaces(b, p)
    ensures b[q] == NUL ==>
          IniText.FindEntry(b, p, section, comment, multiLine) == Found(false, b, q, section, None, None, comment)
    ensures b[q] != NUL ==>
      var l := OneLine(b, q, section, comment, multiLine);
      IniText.FindEntry(b, p, section, comment, multiLine) ==
        if l.Pass? then IniText.FindEntry(l.b, l.next, l.section, l.comment, multiLine) else l.r
  {
  }

  lemma {:induction false} NothingMore(b: string, p: nat, section: Option<nat>, comment: Option<nat>, multiLine: bool)
    requires IsBuffer(b) && p < |b| && b[p] == NUL && Inside(section, |b|) && Inside(comment, |b|)
    ensures IniText.FindEntry(b, p, section, comment, multiLine) == Found(false, b, p, section, None, None, comment)
  {
  }

  /**
   The next section or key. `comment` is the last comment passed on the way. What a failed search leaves
   in the pointer to the key is never read.
   */
  method FindEntry(data: array<char>, p0: nat, section0: Option<nat>, multiLine: bool)
    returns (found: bool, p: nat, section: Option<nat>, key: Option<nat>, val: Option<nat>, comment: Option<nat>)
    requires IsBuffer(data[..]) && p0 < data.Length && Inside(section0, data.Length)
    modifies data
    ensures Found(found, data[..], p, section, key, val, comment)
          == IniText.FindEntry(old(data[..]), p0, section0, None, multiLine)
  {
    hide SkipSpaces, SectionLine, KeyLine, LoadLines, TextAt, IniText.FindEntry;
    p, section, key, val, comment := p0, section0, None, None, None;
    while data[p] != NUL
      invariant IsBuffer(data[..]) && p < data.Length && Inside(section, data.Length) && Inside(comment, data.Length)
      invariant IniText.FindEntry(data[..], p, section, comment, multiLine)
            == IniText.FindEntry(old(data[..]), p0, section0, None, multiLine)
      invariant key == None == val
      decreases data.Length - p
    {
      ghost var from := p;
      p := SkipSpacesFrom(data, p);
      EntryFrom(data[..], from, p, section, comment, multiLine);
      if data[p] == NUL {
        return false, p, section, key, val, comment;
      }
      ghost var b := data[..];
      if IsComment(data[p]) {
        var q := p;
        found, p, comment := LoadMultiLineText(data, p, None, true);
        CommentPassed(b, q, Loaded(found, data[..], p), section, comment, multiLine);
        continue;
      }
      if data[p] == '[' {
        var name;
        found, p, name := ReadSection(data, p, comment);
        section := Some(name);
        if found {
          return;
        }
        continue;
      }
      var start := p;
      var over;
      over, found, p, val := ReadKeyLine(data, p, multiLine, section, comment);
      if over {
        key := Some(start);
        return;
      }
    }
    NothingMore(data[..], p, section, comment, multiLine);
    return false, p, section, key, val, comment;
  }
}
