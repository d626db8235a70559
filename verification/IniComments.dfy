/** How conf/simpleini.h reads back the comments that it prints. */
module IniComments {
  import opened Options
  import opened IniText
  import opened IniStore
  import opened IniLines
  import opened SimpleIniParser

  // ----- comments -----

  /** Every line starts like a comment; with `blanks`, empty lines may stand between them. */
  predicate CommentText(t: string, blanks: bool)
    decreases |t|
  {
    && t != ""
    && if IsComment(t[0]) then var k := FirstLine(t); k == |t| || CommentText(t[k + 1..], blanks)
       else blanks && t[0] == '\n' && CommentText(t[1..], blanks)
  }

  predicate CommentOk(t: string, blanks: bool) {
    t != "" && IsComment(t[0]) && CommentText(t, blanks) && NUL !in t && '\r' !in t
  }

  /** The text and its newline stand at `p`, and what follows does not go on with the comment. */
  ghost predicate CommentHere(b: string, p: nat, t: string, blanks: bool) {
    && IsBuffer(b) && Here(b, p, t + "\n") && p + |t| + 1 < |b| && NUL !in t && '\r' !in t
    && !IsComment(b[p + |t| + 1]) && (blanks ==> !IsSpace(b[p + |t| + 1]))
  }

  lemma {:induction false} RestHere(b: string, p: nat, t: string, k: nat, blanks: bool)
    requires CommentHere(b, p, t, blanks) && k < |t| && t[k] == '\n'
    ensures p + k + 1 < |b| && CommentHere(b, p + k + 1, t[k + 1..], blanks) && p + k + 1 + |t[k + 1..]| == p + |t|
  {
    HereRest(b, p, t, k);
  }

  /** The line of a comment, and the lines behind it. */
  lemma {:induction false} OneCommentLine(b: string, p: nat, t: string, k: nat, blanks: bool)
    requires CommentHere(b, p, t, blanks) && t != "" && IsComment(t[0]) && k == FirstLine(t)
    ensures p + k + 1 < |b|
    ensures var r := CommentLines(b, p + k + 1, blanks);
          CommentLines(b, p, blanks) == r.(text := t[..k] + "\n" + r.text)
  {
    HereAll(b, p, t + "\n");
    TextLineEnd(b, p, t, k);
    hide FindStop, Here, IsNewLine, IsComment, IsSpace;
    assert b[p] == t[0] && LineEnd(b, p) == p + k && AfterNewLine(b, p + k) == p + k + 1;
  }

  /** Behind a newline, a comment reads the same with the newline in front. */
  lemma {:induction false} NewLineInFront(b: string, p: nat)
    requires IsBuffer(b) && p + 1 < |b| && b[p] == '\n' && IsComment(b[BlankLines(b, p + 1).0])
    ensures var r := CommentLines(b, p + 1, true); CommentLines(b, p, true) == r.(text := "\n" + r.text)
  {
    var (q, n) := BlankLines(b, p + 1);
    assert BlankLines(b, p) == (q, n + 1);
    hide BlankLines;
    if !IsComment(b[p + 1]) {
      assert NewLines(n + 1) == "\n" + NewLines(n);
      var r := CommentLines(b, q, true);
      assert NewLines(n + 1) + r.text == "\n" + (NewLines(n) + r.text);
    } else {
      NoBlanks(b, p + 1);
      assert NewLines(1) == "\n";
    }
  }

  lemma {:induction false} NoBlanks(b: string, p: nat)
    requires IsBuffer(b) && p < |b| && !IsSpace(b[p])
    ensures BlankLines(b, p) == (p, 0)
  {
  }

  /** Empty lines lead up to the next comment line. */
  lemma {:induction false} CommentAhead(b: string, p: nat, t: string)
    requires CommentHere(b, p, t, true) && CommentText(t, true)
    ensures IsComment(b[BlankLines(b, p).0])
    decreases |t|
  {
    HereAll(b, p, t + "\n");
    assert b[p] == t[0];
    hide Here;
    if IsComment(t[0]) {
      NoBlanks(b, p);
    } else {
      RestHere(b, p, t, 0, true);
      CommentAhead(b, p + 1, t[1..]);
    }
  }

  lemma {:induction false} NothingFollows(b: string, p: nat, blanks: bool)
    requires IsBuffer(b) && p < |b| && !IsComment(b[p]) && (blanks ==> !IsSpace(b[p]))
    ensures CommentLines(b, p, blanks) == Lines("", p, false)
  {
  }

  lemma {:induction false} LinesJoin(t: string, k: nat)
    requires k <= |t| && (k < |t| ==> t[k] == '\n')
    ensures k == |t| ==> t[..k] + "\n" + "" == t + "\n"
    ensures k < |t| ==> t[..k] + "\n" + (t[k + 1..] + "\n") == t + "\n"
    ensures k == 0 && k < |t| ==> "\n" + (t[1..] + "\n") == t + "\n"
  {
  }

  /** Comment lines that were printed are read back as they stand. */
  lemma {:induction false} CommentIs(b: string, p: nat, t: string, blanks: bool)
    requires CommentHere(b, p, t, blanks) && CommentText(t, blanks)
    ensures CommentLines(b, p, blanks) == Lines(t + "\n", p + |t| + 1, false)
    decreases |t|
  {
    hide CommentHere, CommentLines, IsComment, IsSpace;
    if IsComment(t[0]) {
      var k := FirstLine(t);
      OneCommentLine(b, p, t, k, blanks);
      LinesJoin(t, k);
      if k == |t| {
        LastCommentLine(b, p, t, blanks);
      } else {
        RestHere(b, p, t, k, blanks);
        CommentIs(b, p + k + 1, t[k + 1..], blanks);
      }
    } else {
      RestHere(b, p, t, 0, true);
      OneBlankLine(b, p, t);
      LinesJoin(t, 0);
      CommentIs(b, p + 1, t[1..], true);
    }
  }

  lemma {:induction false} LastCommentLine(b: string, p: nat, t: string, blanks: bool)
    requires CommentHere(b, p, t, blanks)
    ensures CommentLines(b, p + |t| + 1, blanks) == Lines("", p + |t| + 1, false)
  {
    NothingFollows(b, p + |t| + 1, blanks);
  }

  /** An empty line of a comment, and the lines behind it. */
  lemma {:induction false} OneBlankLine(b: string, p: nat, t: string)
    requires CommentHere(b, p, t, true) && t != "" && t[0] == '\n' && CommentText(t[1..], true)
    ensures p + 1 < |b|
    ensures var r := CommentLines(b, p + 1, true); CommentLines(b, p, true) == r.(text := "\n" + r.text)
  {
    hide CommentText, CommentLines, IsComment, IsSpace, BlankLines;
    HereAll(b, p, t + "\n");
    RestHere(b, p, t, 0, true);
    CommentAhead(b, p + 1, t[1..]);
    NewLineInFront(b, p);
  }

  lemma {:induction false} WrittenOver(b: string, p: nat, t: string)
    requires Here(b, p, t) && p + |t| < |b|
    ensures Overwrite(b, p, t + [NUL]) == b[p + |t| := NUL]
  {
    HereAll(b, p, t);
    forall i | 0 <= i < |b|
      ensures Overwrite(b, p, t + [NUL])[i] == b[p + |t| := NUL][i]
    {
      OverwriteAt(b, p, t + [NUL], i);
    }
    hide Overwrite;
  }

  /** So loading it puts a NUL in the place of its last newline. */
  lemma {:induction false} LoadCommentIs(b: string, p: nat, t: string, blanks: bool)
    requires CommentHere(b, p, t, blanks) && CommentText(t, blanks)
    ensures LoadComment(b, p, blanks) == Loaded(true, b[p + |t| := NUL], p + |t| + 1)
    ensures CStr(b[p + |t| := NUL], p) == t
  {
    hide CommentLines, CommentText, CStr, IsComment, IsSpace, Here, Overwrite;
    CommentIs(b, p, t, blanks);
    HereParts(b, p, t, "\n");
    WrittenOver(b, p, t);
    HereUpTo(b, p, t);
    CStrKept(b, b[p + |t| := NUL], p, t);
    assert (t + "\n")[..|t + "\n"| - 1] == t;
  }

  lemma {:induction false} HereUpTo(b: string, p: nat, t: string)
    requires p + |t| < |b|
    ensures forall i | p <= i < p + |t| :: b[p + |t| := NUL][i] == b[i]
  {
  }

  lemma {:induction false} StartsComment(b: string, p: nat, t: string, blanks: bool)
    requires CommentHere(b, p, t, blanks) && t != "" && IsComment(t[0])
    ensures p < |b| && IsComment(b[p]) && b[p] != NUL && !IsSpace(b[p])
  {
    HereAll(b, p, t + "\n");
  }

  lemma {:induction false} SpacesTo(b: string, p0: nat, p: nat)
    requires IsBuffer(b) && Blank(b, p0, p) && p < |b| && !IsSpace(b[p])
    ensures p0 < |b| && SkipSpaces(b, p0) == p
  {
  }

  /** The comment in front of an entry: the search goes on behind it, with the comment at hand. */
  lemma {:induction false} CommentFound(b: string, p0: nat, p: nat, section: Option<nat>, multiLine: bool, t: string)
    requires CommentHere(b, p, t, true) && CommentOk(t, true) && Blank(b, p0, p) && Inside(section, |b|)
    ensures p0 < |b| && p + |t| + 1 < |b| && IsBuffer(b[p + |t| := NUL]) && CStr(b[p + |t| := NUL], p) == t
    ensures IniText.FindEntry(b, p0, section, None, multiLine)
            == IniText.FindEntry(b[p + |t| := NUL], p + |t| + 1, section, Some(p), multiLine)
  {
    hide SkipSpaces, LoadComment, CommentText, CStr, IniText.FindEntry, Here, Blank, IsComment, IsSpace;
    LoadCommentIs(b, p, t, true);
    StartsComment(b, p, t, true);
    SpacesTo(b, p0, p);
    EntryFrom(b, p0, p, section, None, multiLine);
  }
}
