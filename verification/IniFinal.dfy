/**
 When a value found on a first load, to which the maps keep a pointer, is still the same when loading is
 over: the exact condition, on the text.
 */
module IniFinal {
  import opened Options
  import opened IniText
  import opened IniStore
  import opened SimpleIniParser
  import opened IniPointers

  // ----- what depends on the rest of the text only -----

  /** The same from `p` on. */
  ghost predicate Tail(b: string, b': string, p: nat) {
    |b| == |b'| && p < |b| && forall i | p <= i < |b| :: b'[i] == b[i]
  }

  lemma {:induction false} TailSpaces(b: string, b': string, p: nat)
    requires IsBuffer(b) && IsBuffer(b') && Tail(b, b', p)
    ensures SkipSpaces(b', p) == SkipSpaces(b, p)
    decreases |b| - p
  {
    if IsSpace(b[p]) {
      TailSpaces(b, b', p + 1);
    }
  }

  lemma {:induction false} TailBlanks(b: string, b': string, p: nat)
    requires IsBuffer(b) && IsBuffer(b') && Tail(b, b', p)
    ensures SkipBlanks(b', p) == SkipBlanks(b, p)
    decreases |b| - p
  {
    if IsSpace(b[p]) && !IsNewLine(b[p]) {
      TailBlanks(b, b', p + 1);
    }
  }

  lemma {:induction false} TailStop(b: string, b': string, p: nat, c: char)
    requires IsBuffer(b) && IsBuffer(b') && Tail(b, b', p)
    ensures FindStop(b', p, c) == FindStop(b, p, c)
    decreases |b| - p
  {
    if b[p] != NUL && b[p] != c && !IsNewLine(b[p]) {
      TailStop(b, b', p + 1, c);
    }
  }

  lemma {:induction false} TailBlankLines(b: string, b': string, p: nat)
    requires IsBuffer(b) && IsBuffer(b') && Tail(b, b', p)
    ensures BlankLines(b', p) == BlankLines(b, p)
    decreases |b| - p
  {
    if IsNewLine(b[p]) {
      TailBlankLines(b, b', AfterNewLine(b, p));
    } else if IsSpace(b[p]) {
      TailBlankLines(b, b', p + 1);
    }
  }

  lemma {:induction false} TailComments(b: string, b': string, p: nat, blanks: bool)
    requires IsBuffer(b) && IsBuffer(b') && Tail(b, b', p)
    ensures CommentLines(b', p, blanks) == CommentLines(b, p, blanks)
    decreases |b| - p, if IsComment(b[p]) then 0 else 1
  {
    if IsComment(b[p]) {
      TailStop(b, b', p, '\n');
      var e := LineEnd(b, p);
      assert b'[p..e] == b[p..e];
      if b[e] != NUL {
        TailComments(b, b', AfterNewLine(b, e), blanks);
      }
    } else {
      TailBlankLines(b, b', p);
      var q := BlankLines(b, p).0;
      if blanks && IsComment(b[q]) {
        TailComments(b, b', q, blanks);
      }
    }
  }

  lemma {:induction false} TailTrim(b: string, b': string, p: nat, start: nat, end: nat)
    requires Tail(b, b', p) && p <= start <= end <= |b|
    ensures TrimEnd(b', start, end) == TrimEnd(b, start, end)
    decreases end
  {
    if start < end && IsSpace(b[end - 1]) {
      TailTrim(b, b', p, start, end - 1);
    }
  }

  lemma {:induction false} TailCStr(b: string, b': string, p: nat)
    requires Tail(b, b', p)
    ensures CStr(b', p) == CStr(b, p)
    decreases |b| - p
  {
    if b[p] != NUL && p + 1 < |b| {
      TailCStr(b, b', p + 1);
    }
  }

  lemma {:induction false} TailChop(b: string, b': string, p: nat, start: nat, end: nat)
    requires Tail(b, b', p) && p <= start <= end < |b|
    ensures Tail(Chop(b, start, end), Chop(b', start, end), p)
  {
    TailTrim(b, b', p, start, end);
    hide TrimEnd;
  }

  // ----- what a search for an entry leaves alone -----

  lemma {:induction false} ChopTail(b: string, start: nat, end: nat, p: nat)
    requires start <= end < |b| && p < |b| && (end < p || (end == p && b[p] == NUL))
    ensures Tail(b, Chop(b, start, end), p)
  {
  }

  lemma {:induction false} OverwriteTail(b: string, at: nat, s: string, p: nat)
    requires at + |s| <= |b| && p < |b|
    requires at + |s| <= p || (at + |s| == p + 1 && |s| > 0 && s[|s| - 1] == b[p])
    ensures Tail(b, Overwrite(b, at, s), p)
  {
    hide Overwrite;
    forall i | p <= i < |b|
      ensures Overwrite(b, at, s)[i] == b[i]
    {
      OverwriteAt(b, at, s, i);
    }
  }

  lemma {:induction false} CommentTail(b: string, q: nat, blanks: bool)
    requires IsBuffer(b) && q < |b|
    ensures var r := LoadComment(b, q, blanks); Tail(b, r.b, r.next)
  {
    hide CommentLines, Overwrite;
    var r := CommentLines(b, q, blanks);
    if r.at != q {
      OverwriteTail(b, q, if r.atEnd then r.text + [NUL] else r.text[..|r.text| - 1] + [NUL], r.at);
    }
  }

  lemma {:induction false} TaggedTail(b: string, p: nat, tag: string)
    requires IsBuffer(b) && 0 < p < |b|
    ensures var r := LoadTagged(b, p, tag); r.ok ==> Tail(b, r.b, r.next)
  {
    hide TaggedLines, Overwrite, LineEnd;
    var r := TaggedLines(b, p, tag);
    if r.atEnd {
      OverwriteTail(b, p, r.text + [NUL], r.at);
    } else {
      var e := LineEnd(b, r.at);
      if e != p {
        var d := p + |r.text|;
        var s := r.text + if d < r.at then b[r.at..e] + [NUL] else "";
        OverwriteTail(b, p, s, e);
        UpdateTail(b, Overwrite(b, p, s), e, d - 1, LoadTagged(b, p, tag).next);
      }
    }
  }

  lemma {:induction false} UpdateTail(b: string, b': string, e: nat, i: nat, next: nat)
    requires Tail(b, b', e) && i < e <= next < |b|
    ensures Tail(b, b'[i := NUL], next)
  {
  }

  /** No search gets past a NUL. */
  lemma {:induction false} StopsAt(b: string, p: nat, c: char, z: nat)
    requires IsBuffer(b) && p <= z < |b| && b[z] == NUL
    ensures SkipSpaces(b, p) <= z && SkipBlanks(b, p) <= z && FindStop(b, p, c) <= z && LineEnd(b, p) <= z
  {
  }

  lemma {:induction false} NewLineWithin(b: string, p: nat, z: nat)
    requires IsBuffer(b) && p <= z < |b| && b[z] == NUL && IsNewLine(b[p])
    ensures AfterNewLine(b, p) <= z
  {
  }

  lemma {:induction false} BlankLinesWithin(b: string, p: nat, z: nat)
    requires IsBuffer(b) && p <= z < |b| && b[z] == NUL
    ensures BlankLines(b, p).0 <= z
    decreases |b| - p
  {
    if IsNewLine(b[p]) {
      BlankLinesWithin(b, AfterNewLine(b, p), z);
    } else if IsSpace(b[p]) {
      BlankLinesWithin(b, p + 1, z);
    }
  }

  lemma {:induction false} CommentsWithin(b: string, p: nat, blanks: bool, z: nat)
    requires IsBuffer(b) && p <= z < |b| && b[z] == NUL
    ensures CommentLines(b, p, blanks).at <= z
    decreases |b| - p, if IsComment(b[p]) then 0 else 1
  {
    hide LineEnd, BlankLines;
    if IsComment(b[p]) {
      StopsAt(b, p, '\n', z);
      var e := LineEnd(b, p);
      if b[e] != NUL {
        NewLineWithin(b, e, z);
        CommentsWithin(b, AfterNewLine(b, e), blanks, z);
      }
    } else {
      BlankLinesWithin(b, p, z);
      var q := BlankLines(b, p).0;
      if blanks && IsComment(b[q]) {
        CommentsWithin(b, q, blanks, z);
      }
    }
  }

  lemma {:induction false} TaggedWithin(b: string, p: nat, tag: string, z: nat)
    requires IsBuffer(b) && p <= z < |b| && b[z] == NUL
    ensures TaggedLines(b, p, tag).at <= z
    decreases |b| - p
  {
    hide LineEnd, Fold;
    StopsAt(b, p, '\n', z);
    var e := LineEnd(b, p);
    if Fold(b[p..e]) != Fold(tag) && b[e] != NUL {
      NewLineWithin(b, e, z);
      TaggedWithin(b, AfterNewLine(b, e), tag, z);
    }
  }

  lemma {:induction false} LoadTaggedWithin(b: string, p: nat, tag: string, z: nat)
    requires IsBuffer(b) && 0 < p <= z < |b| && b[z] == NUL
    ensures var r := LoadTagged(b, p, tag); r.next <= z && Tail(b, r.b, z)
  {
    TaggedWithin(b, p, tag, z);
    TaggedTail(b, p, tag);
    var r := TaggedLines(b, p, tag);
    StopsAt(b, r.at, '\n', z);
    var e := LineEnd(b, r.at);
    if b[e] != NUL {
      NewLineWithin(b, e, z);
    }
    hide TaggedLines, LineEnd, AfterNewLine, Overwrite;
  }

  /** A search changes nothing from where the next one starts, and ends before any NUL. */
  ghost predicate Within(b: string, ok: bool, b': string, next: nat, z: nat) {
    next <= z && (ok ==> Tail(b, b', next)) && Tail(b, b', z)
  }

  lemma {:induction false} TailTwice(b: string, b': string, b'': string, p: nat, p': nat)
    requires Tail(b, b', p) && Tail(b', b'', p') && p <= p'
    ensures Tail(b, b'', p')
  {
  }

  lemma {:induction false} WithinTwice(b: string, b': string, b'': string, p: nat, ok: bool, next: nat, z: nat)
    requires Tail(b, b', p) && Within(b', ok, b'', next, z) && p <= next
    ensures Within(b, ok, b'', next, z)
  {
  }

  lemma {:induction false} ValueWithin(b: string, key: nat, p: nat, section: Option<nat>, comment: Option<nat>,
      multiLine: bool, z: nat)
    requires IsBuffer(b) && key < p <= z < |b| && b[z] == NUL && Inside(section, |b|) && Inside(comment, |b|)
    ensures var r := FindValue(b, key, p, section, comment, multiLine); Within(b, r.found, r.b, r.next, z)
  {
    hide LoadTagged, CStr, SkipBlanks, LineEnd, AfterNewLine, Chop, IsMultiLineTag;
    StopsAt(b, p, '\n', z);
    var v := SkipBlanks(b, p);
    StopsAt(b, v, '\n', z);
    var e := LineEnd(b, v);
    if b[e] != NUL {
      NewLineWithin(b, e, z);
    }
    var next := if b[e] == NUL then e else AfterNewLine(b, e);
    var b' := Chop(b, v, e);
    ChopTail(b, v, e, next);
    if multiLine && IsMultiLineTag(b', v) {
      TextWithin(b, b', v, next, z);
    }
  }

  lemma {:induction false} TextWithin(b: string, b': string, v: nat, next: nat, z: nat)
    requires IsBuffer(b') && v < |b| && 0 < next <= z < |b| && Tail(b, b', next) && b[z] == NUL && IsMultiLineTag(b', v)
    ensures v + 3 < |b| && var r := LoadTagged(b', next, CStr(b', v + 3)); Within(b, r.ok, r.b, r.next, z)
  {
    assert b'[v + 2] == '<';
    var tag := CStr(b', v + 3);
    LoadTaggedWithin(b', next, tag, z);
    TaggedTail(b', next, tag);
    var r := LoadTagged(b', next, tag);
    hide LoadTagged, CStr;
    WithinTwice(b, b', r.b, next, r.ok, r.next, z);
  }

  lemma {:induction false} LineWithin(b: string, q: nat, section: Option<nat>, comment: Option<nat>, multiLine: bool,
      z: nat)
    requires IsBuffer(b) && q <= z < |b| && b[z] == NUL && b[q] != NUL && !IsSpace(b[q]) && Inside(section, |b|)
    requires Inside(comment, |b|)
    ensures match OneLine(b, q, section, comment, multiLine)
      case Pass(b', next, section', comment') => Within(b, true, b', next, z)
      case Done(r) => Within(b, r.found, r.b, r.next, z)
  {
    hide FindValue, CommentLines, LoadComment, SkipSpaces, FindStop, Chop;
    if IsComment(b[q]) {
      CommentsWithin(b, q, true, z);
      CommentTail(b, q, true);
      CommentNext(b, q);
      WithinAt(b, LoadComment(b, q, true).b, LoadComment(b, q, true).next, z);
    } else if b[q] == '[' {
      SectionWithin(b, q, comment, z);
    } else {
      KeyWithin(b, q, section, comment, multiLine, z);
    }
  }

  lemma {:induction false} CommentNext(b: string, q: nat)
    requires IsBuffer(b) && q < |b|
    ensures LoadComment(b, q, true).next == CommentLines(b, q, true).at
  {
    hide CommentLines, Overwrite;
  }

  lemma {:induction false} WithinAt(b: string, b': string, next: nat, z: nat)
    requires Tail(b, b', next) && next <= z < |b|
    ensures Within(b, true, b', next, z)
  {
  }

  lemma {:induction false} SectionWithin(b: string, q: nat, comment: Option<nat>, z: nat)
    requires IsBuffer(b) && q < z < |b| && b[z] == NUL && b[q] == '[' && Inside(comment, |b|)
    ensures match SectionLine(b, q, comment)
      case Pass(b', next, section', comment') => Within(b, true, b', next, z)
      case Done(r) => Within(b, r.found, r.b, r.next, z)
  {
    hide SkipSpaces, FindStop, LineEnd, Chop, Within;
    StopsAt(b, q + 1, '\n', z);
    var s := SkipSpaces(b, q + 1);
    StopsAt(b, s, ']', z);
    var e := FindStop(b, s, ']');
    UnchangedWithin(b, e, z);
    if b[e] == ']' {
      ChoppedWithin(b, s, e, z);
    }
  }

  lemma {:induction false} UnchangedWithin(b: string, next: nat, z: nat)
    requires next <= z < |b|
    ensures Within(b, true, b, next, z)
  {
  }

  lemma {:induction false} ChoppedWithin(b: string, s: nat, e: nat, z: nat)
    requires IsBuffer(b) && s <= e < e + 1 <= z < |b| && b[z] == NUL
    ensures Within(b, true, Chop(b, s, e), LineEnd(b, e + 1), z)
  {
    hide Chop, LineEnd;
    StopsAt(b, e + 1, '\n', z);
    ChopTail(b, s, e, LineEnd(b, e + 1));
    WithinAt(b, Chop(b, s, e), LineEnd(b, e + 1), z);
  }

  lemma {:induction false} KeyWithin(b: string, q: nat, section: Option<nat>, comment: Option<nat>, multiLine: bool,
      z: nat)
    requires IsBuffer(b) && q <= z < |b| && b[z] == NUL && b[q] != NUL && !IsSpace(b[q]) && Inside(section, |b|)
    requires Inside(comment, |b|)
    ensures match KeyLine(b, q, section, comment, multiLine)
      case Pass(b', next, section', comment') => Within(b, true, b', next, z)
      case Done(r) => Within(b, r.found, r.b, r.next, z)
  {
    hide FindValue, FindStop, Chop;
    StopsAt(b, q, '=', z);
    var e := FindStop(b, q, '=');
    WithinAt(b, b, e, z);
    if b[e] == '=' {
      StopsAt(b, e, '\n', z);
      WithinAt(b, b, LineEnd(b, e), z);
      hide LineEnd;
      var b' := Chop(b, q, e);
      ChopTail(b, q, e, e + 1);
      ValueWithin(b', q, e + 1, section, comment, multiLine, z);
      var r := FindValue(b', q, e + 1, section, comment, multiLine);
      WithinTwice(b, b', r.b, e + 1, r.found, r.next, z);
    }
  }

  lemma {:induction false} EntryWithin(b: string, p: nat, section: Option<nat>, comment: Option<nat>, multiLine: bool,
      z: nat)
    requires IsBuffer(b) && p <= z < |b| && b[z] == NUL && Inside(section, |b|) && Inside(comment, |b|)
    ensures var r := IniText.FindEntry(b, p, section, comment, multiLine); Within(b, r.found, r.b, r.next, z)
    decreases |b| - p
  {
    StopsAt(b, p, '\n', z);
    var q := SkipSpaces(b, p);
    EntryFrom(b, p, q, section, comment, multiLine);
    hide SkipSpaces, OneLine, IniText.FindEntry;
    WithinAt(b, b, q, z);
    if b[q] != NUL {
      LineWithin(b, q, section, comment, multiLine, z);
      var l := OneLine(b, q, section, comment, multiLine);
      if l.Pass? {
        EntryWithin(l.b, l.next, l.section, l.comment, multiLine, z);
        var r := IniText.FindEntry(l.b, l.next, l.section, l.comment, multiLine);
        WithinTwice(b, l.b, r.b, l.next, r.found, r.next, z);
      }
    }
  }

  /** Loading never gets past a NUL. */
  lemma {:induction false} RunWithin(b: string, p: nat, section: Option<nat>, multiLine: bool, z: nat)
    requires IsBuffer(b) && p <= z < |b| && b[z] == NUL && Inside(section, |b|)
    ensures Tail(b, BufferAfter(b, p, section, multiLine), z)
    decreases |b| - p
  {
    hide IniText.FindEntry;
    EntryWithin(b, p, section, None, multiLine, z);
    var r := IniText.FindEntry(b, p, section, None, multiLine);
    if r.found {
      RunWithin(r.b, r.next, r.section, multiLine, z);
      TailTwice(b, r.b, BufferAfter(r.b, r.next, r.section, multiLine), z, z);
    }
  }

  // ----- text that loading leaves as it is -----

  /** What stands next: a line that is passed over, a comment, a section line, or a key with where its '=' stands. */
  datatype Next = NothingLeft | Passed(next: nat) | CommentAt(at: nat) | SectionAt(at: nat) | KeyAt(at: nat, sign: nat)

  ghost predicate ValidNext(l: Next, b: string, p: nat) {
    match l
    case NothingLeft => true
    case Passed(n) => p < n < |b|
    case CommentAt(q) => p <= q < |b| && IsComment(b[q])
    case SectionAt(q) => p <= q < |b| && b[q] == '['
    case KeyAt(q, e) => p <= q < e < e + 1 < |b| && b[e] == '='
  }

  function ThisLine(b: string, p: nat): (l: Next)
    requires IsBuffer(b) && p < |b|
    ensures ValidNext(l, b, p)
  {
    var q := SkipSpaces(b, p);
    if b[q] == NUL then NothingLeft
    else if IsComment(b[q]) then CommentAt(q)
    else if b[q] == '[' then
      var e := FindStop(b, SkipSpaces(b, q + 1), ']');
      if b[e] != ']' then Passed(e) else SectionAt(q)
    else
      var e := FindStop(b, q, '=');
      if b[e] != '=' then Passed(e)
      else if e == q then Passed(LineEnd(b, e))
      else KeyAt(q, e)
  }

  /** The next line that is not passed over. */
  function NextLine(b: string, p: nat): (l: Next)
    requires IsBuffer(b) && p < |b|
    ensures ValidNext(l, b, p) && !l.Passed?
    decreases |b| - p
  {
    var l := ThisLine(b, p);
    if l.Passed? then NextLine(b, l.next) else l
  }

  lemma {:induction false} TailThis(b: string, b': string, p: nat)
    requires IsBuffer(b) && IsBuffer(b') && Tail(b, b', p)
    ensures ThisLine(b', p) == ThisLine(b, p)
  {
    hide SkipSpaces, FindStop, LineEnd, Tail, IsSpace, IsNewLine, IsComment;
    TailAt(b, b', p, p);
    TailSpaces(b, b', p);
    var q := SkipSpaces(b, p);
    TailAt(b, b', p, q);
    if b[q] == '[' {
      TailSpaces(b, b', q + 1);
      var s := SkipSpaces(b, q + 1);
      TailAt(b, b', p, s);
      TailStop(b, b', s, ']');
      TailAt(b, b', p, FindStop(b, s, ']'));
    } else if b[q] != NUL && !IsComment(b[q]) {
      TailStop(b, b', q, '=');
      var e := FindStop(b, q, '=');
      TailAt(b, b', p, e);
      TailLineEnd(b, b', e);
    }
  }

  lemma {:induction false} TailAt(b: string, b': string, p: nat, q: nat)
    requires Tail(b, b', p) && p <= q && (q == p || q < |b|)
    ensures q < |b| == |b'| && b'[q] == b[q] && Tail(b, b', q) && (q + 1 < |b| ==> Tail(b, b', q + 1))
  {
  }

  lemma {:induction false} TailNext(b: string, b': string, p: nat)
    requires IsBuffer(b) && IsBuffer(b') && Tail(b, b', p)
    ensures NextLine(b', p) == NextLine(b, p)
    decreases |b| - p
  {
    hide ThisLine;
    TailThis(b, b', p);
    if ThisLine(b, p).Passed? {
      TailNext(b, b', ThisLine(b, p).next);
    }
  }

  lemma {:induction false} TailLineEnd(b: string, b': string, p: nat)
    requires IsBuffer(b) && IsBuffer(b') && Tail(b, b', p)
    ensures LineEnd(b', p) == LineEnd(b, p)
  {
    TailStop(b, b', p, '\n');
  }

  /** What the search for an entry comes to from a line on; one that is passed over may leave another section behind. */
  ghost predicate Comes(b: string, p: nat, l: Next, section: Option<nat>, comment: Option<nat>, multiLine: bool,
      r: Found)
    requires IsBuffer(b) && p < |b| && Inside(section, |b|) && Inside(comment, |b|) && ValidNext(l, b, p)
  {
    match l
    case NothingLeft => !r.found && r.b == b
    case Passed(n) => r == IniText.FindEntry(b, n, section, comment, multiLine)
    case CommentAt(q) => var c := LoadComment(b, q, true);
        r == IniText.FindEntry(c.b, c.next, section, Some(q), multiLine)
    case SectionAt(q) => SectionLine(b, q, comment) == Done(r)
    case KeyAt(q, e) => r == FindValue(Chop(b, q, e), q, e + 1, section, comment, multiLine)
  }

  /** The section behind the line, and it is no later than the line, or what follows it. */
  ghost predicate Leaves(l: Next, section: Option<nat>) {
    match l
    case NothingLeft => true
    case Passed(n) => UpTo(section, n)
    case CommentAt(q) => UpTo(section, q)
    case SectionAt(q) => UpTo(section, q)
    case KeyAt(q, e) => UpTo(section, q)
  }

  lemma {:induction false} EntryThis(b: string, p: nat, section: Option<nat>, comment: Option<nat>, multiLine: bool,
      r: Found) returns (section': Option<nat>)
    requires IsBuffer(b) && p < |b| && Inside(section, |b|) && Inside(comment, |b|)
    requires r == IniText.FindEntry(b, p, section, comment, multiLine)
    ensures Inside(section', |b|) && Comes(b, p, ThisLine(b, p), section', comment, multiLine, r)
    ensures UpTo(section, p) ==> Leaves(ThisLine(b, p), section')
  {
    var q := SkipSpaces(b, p);
    EntryFrom(b, p, q, section, comment, multiLine);
    hide IniText.FindEntry, LoadComment, SkipSpaces, FindStop, LineEnd, KeyLine, SectionLine, Chop, FindValue, Comes,
        ThisLine, IsSpace, IsComment;
    section' := section;
    if b[q] == NUL {
      NothingComes(b, p, q, section, comment, multiLine, r);
    } else if IsComment(b[q]) {
      CommentComes(b, p, q, section, comment, multiLine, r);
    } else if b[q] == '[' {
      section' := SectionComes(b, p, q, section, comment, multiLine, r);
    } else {
      KeyComes(b, p, q, section, comment, multiLine, r);
    }
  }

  lemma {:induction false} NothingComes(b: string, p: nat, q: nat, section: Option<nat>, comment: Option<nat>,
      multiLine: bool, r: Found)
    requires IsBuffer(b) && p < |b| && Inside(section, |b|) && Inside(comment, |b|)
    requires q == SkipSpaces(b, p) && b[q] == NUL && !r.found && r.b == b
    ensures ThisLine(b, p) == NothingLeft && Comes(b, p, NothingLeft, section, comment, multiLine, r)
  {
    hide SkipSpaces;
  }

  lemma {:induction false} CommentComes(b: string, p: nat, q: nat, section: Option<nat>, comment: Option<nat>,
      multiLine: bool, r: Found)
    requires IsBuffer(b) && p < |b| && Inside(section, |b|) && Inside(comment, |b|)
    requires q == SkipSpaces(b, p) && b[q] != NUL && !IsSpace(b[q]) && IsComment(b[q])
    requires var l := OneLine(b, q, section, comment, multiLine);
          l.Pass? && r == IniText.FindEntry(l.b, l.next, l.section, l.comment, multiLine)
    ensures ThisLine(b, p) == CommentAt(q) && Comes(b, p, CommentAt(q), section, comment, multiLine, r)
  {
    hide SkipSpaces, LoadComment, IniText.FindEntry;
  }

  lemma {:induction false} SectionComes(b: string, p: nat, q: nat, section: Option<nat>, comment: Option<nat>,
      multiLine: bool, r: Found) returns (section': Option<nat>)
    requires IsBuffer(b) && p < |b| && Inside(section, |b|) && Inside(comment, |b|)
    requires q == SkipSpaces(b, p) && b[q] == '['
    requires var l := SectionLine(b, q, comment);
      r == if l.Pass? then IniText.FindEntry(l.b, l.next, l.section, l.comment, multiLine) else l.r
    ensures Inside(section', |b|) && Comes(b, p, ThisLine(b, p), section', comment, multiLine, r)
    ensures UpTo(section, p) ==> Leaves(ThisLine(b, p), section')
  {
    hide SkipSpaces, FindStop, SectionLine, IniText.FindEntry;
    section' := SectionThis(b, q, section, comment);
  }

  lemma {:induction false} KeyComes(b: string, p: nat, q: nat, section: Option<nat>, comment: Option<nat>,
      multiLine: bool, r: Found)
    requires IsBuffer(b) && p < |b| && Inside(section, |b|) && Inside(comment, |b|)
    requires q == SkipSpaces(b, p) && b[q] != NUL && !IsSpace(b[q]) && !IsComment(b[q]) && b[q] != '['
    requires var l := KeyLine(b, q, section, comment, multiLine);
      r == if l.Pass? then IniText.FindEntry(l.b, l.next, l.section, l.comment, multiLine) else l.r
    ensures Comes(b, p, ThisLine(b, p), section, comment, multiLine, r)
    ensures UpTo(section, p) ==> Leaves(ThisLine(b, p), section)
  {
    hide SkipSpaces, FindStop, LineEnd, KeyLine, FindValue, Chop, IniText.FindEntry, IsSpace, IsComment;
    KeyThis(b, q, section, comment, multiLine);
  }

  lemma {:induction false} SectionThis(b: string, q: nat, section: Option<nat>, comment: Option<nat>)
    returns (section': Option<nat>)
    requires IsBuffer(b) && q < |b| && b[q] == '[' && Inside(section, |b|) && Inside(comment, |b|)
    ensures Inside(section', |b|)
    ensures var e := FindStop(b, SkipSpaces(b, q + 1), ']');
      if b[e] != ']' then SectionLine(b, q, comment) == Pass(b, e, section', comment) && UpTo(section', e)
      else SectionLine(b, q, comment).Done? && section' == section
  {
    var s := SkipSpaces(b, q + 1);
    hide FindStop, LineEnd, Chop, SkipSpaces;
    section' := if b[FindStop(b, s, ']')] != ']' then Some(s) else section;
  }

  lemma {:induction false} KeyThis(b: string, q: nat, section: Option<nat>, comment: Option<nat>, multiLine: bool)
    requires IsBuffer(b) && q < |b| && b[q] != NUL && !IsSpace(b[q]) && Inside(section, |b|) && Inside(comment, |b|)
    ensures var l, e := KeyLine(b, q, section, comment, multiLine), FindStop(b, q, '=');
      if b[e] != '=' then l == Pass(b, e, section, comment)
      else if e == q then l == Pass(b, LineEnd(b, e), section, comment)
      else l == Done(FindValue(Chop(b, q, e), q, e + 1, section, comment, multiLine))
  {
    hide FindStop, LineEnd, Chop, FindValue;
  }

  lemma {:induction false} EntryNext(b: string, p: nat, section: Option<nat>, comment: Option<nat>, multiLine: bool,
      r: Found) returns (section': Option<nat>)
    requires IsBuffer(b) && p < |b| && Inside(section, |b|) && Inside(comment, |b|)
    requires r == IniText.FindEntry(b, p, section, comment, multiLine)
    ensures Inside(section', |b|) && Comes(b, p, NextLine(b, p), section', comment, multiLine, r)
    ensures UpTo(section, p) ==> Leaves(NextLine(b, p), section')
    decreases |b| - p
  {
    hide ThisLine, IniText.FindEntry, LoadComment, SectionLine, FindValue, Chop;
    section' := EntryThis(b, p, section, comment, multiLine, r);
    var l := ThisLine(b, p);
    if l.Passed? {
      section' := EntryNext(b, l.next, section', comment, multiLine, r);
    }
  }

  /**
   No line opens a section or sets a key, and a comment, if there is one, goes on to the end of the data and
   reads just as it stands.
   */
  ghost predicate Quiet(b: string, p: nat)
    requires IsBuffer(b) && p < |b|
  {
    match NextLine(b, p)
    case NothingLeft => true
    case CommentAt(q) => var r := CommentLines(b, q, true); r.atEnd && r.text == b[q..r.at]
    case _ => false
  }

  lemma {:induction false} QuietComment(b: string, q: nat)
    requires IsBuffer(b) && q < |b| && IsComment(b[q])
    ensures var c, r := CommentLines(b, q, true), LoadComment(b, q, true);
      c.atEnd && c.text == b[q..c.at] ==> r.b == b && b[r.next] == NUL
  {
    hide CommentLines, Overwrite;
    var c := CommentLines(b, q, true);
    if c.atEnd && c.text == b[q..c.at] {
      var s := c.text + [NUL];
      forall i | 0 <= i < |b|
        ensures Overwrite(b, q, s)[i] == b[i]
      {
        OverwriteAt(b, q, s, i);
      }
    }
  }

  lemma {:induction false} QuietStays(b: string, p: nat, section: Option<nat>, comment: Option<nat>, multiLine: bool,
      r: Found)
    requires IsBuffer(b) && p < |b| && Inside(section, |b|) && Inside(comment, |b|) && Quiet(b, p)
    requires r == IniText.FindEntry(b, p, section, comment, multiLine)
    ensures !r.found && r.b == b
  {
    hide NextLine, IniText.FindEntry, CommentLines, LoadComment;
    var section' := EntryNext(b, p, section, comment, multiLine, r);
    var l := NextLine(b, p);
    if l.CommentAt? {
      QuietComment(b, l.at);
      NothingMore(b, LoadComment(b, l.at, true).next, section', Some(l.at), multiLine);
    }
  }

  // ----- text that loading changes -----

  ghost predicate ChangedBefore(b: string, b': string, n: nat) {
    |b| == |b'| && n <= |b| && exists t :: 0 <= t < n && b'[t] != b[t]
  }

  lemma {:induction false} ChangeStays(b: string, b': string, b'': string, n: nat, n': nat)
    requires ChangedBefore(b, b', n) && n <= n' <= |b| && |b''| == |b| && forall i | 0 <= i < n :: b''[i] == b'[i]
    ensures ChangedBefore(b, b'', n')
  {
    var t :| 0 <= t < n && b'[t] != b[t];
    assert b''[t] != b[t];
  }

  lemma {:induction false} ChangeAt(b: string, b': string, t: nat, n: nat)
    requires |b| == |b'| && t < n <= |b| && b'[t] != b[t]
    ensures ChangedBefore(b, b', n)
  {
  }

  lemma {:induction false} NoNulInComments(b: string, p: nat, blanks: bool)
    requires IsBuffer(b) && p < |b|
    ensures forall i | p <= i < CommentLines(b, p, blanks).at :: b[i] != NUL
    decreases |b| - p, if IsComment(b[p]) then 0 else 1
  {
    hide LineEnd;
    if IsComment(b[p]) {
      var e := LineEnd(b, p);
      assert forall i | p <= i < e :: b[i] != NUL;
      if b[e] != NUL {
        NoNulInComments(b, AfterNewLine(b, e), blanks);
        assert forall i | e <= i < AfterNewLine(b, e) :: b[i] != NUL;
      }
    } else {
      NoNulInBlanks(b, p);
      var q := BlankLines(b, p).0;
      if blanks && IsComment(b[q]) {
        NoNulInComments(b, q, blanks);
      }
    }
  }

  lemma {:induction false} NoNulInBlanks(b: string, p: nat)
    requires IsBuffer(b) && p < |b|
    ensures forall i | p <= i < BlankLines(b, p).0 :: b[i] != NUL
    decreases |b| - p
  {
    if IsNewLine(b[p]) {
      NoNulInBlanks(b, AfterNewLine(b, p));
    } else if IsSpace(b[p]) {
      NoNulInBlanks(b, p + 1);
    }
  }

  lemma {:induction false} OverwriteChanges(b: string, q: nat, s: string, i: nat, n: nat)
    requires q + |s| <= |b| && i < |s| && q + i < n <= |b| && s[i] != b[q + i]
    ensures ChangedBefore(b, Overwrite(b, q, s), n)
  {
    OverwriteAt(b, q, s, q + i);
    hide Overwrite;
    ChangeAt(b, Overwrite(b, q, s), q + i, n);
  }

  lemma {:induction false} CommentChanges(b: string, q: nat)
    requires IsBuffer(b) && q < |b| && IsComment(b[q])
    ensures var c, r := CommentLines(b, q, true), LoadComment(b, q, true);
      !(c.atEnd && c.text == b[q..c.at]) ==> ChangedBefore(b, r.b, r.next)
  {
    hide CommentLines, Overwrite, ChangedBefore;
    NoNulInComments(b, q, true);
    var c := CommentLines(b, q, true);
    if !c.atEnd {
      OverwriteChanges(b, q, c.text[..|c.text| - 1] + [NUL], |c.text| - 1, c.at);
    } else if q + |c.text| < c.at {
      OverwriteChanges(b, q, c.text + [NUL], |c.text|, c.at);
    } else if c.text != b[q..c.at] {
      var i :| 0 <= i < |c.text| && c.text[i] != b[q..c.at][i];
      OverwriteChanges(b, q, c.text + [NUL], i, c.at);
    }
  }

  lemma {:induction false} SectionChanges(b: string, q: nat, comment: Option<nat>, r: Found)
    requires IsBuffer(b) && q < |b| && b[q] == '[' && Inside(comment, |b|) && SectionLine(b, q, comment) == Done(r)
    ensures r.found && ChangedBefore(b, r.b, r.next)
  {
    var s := SkipSpaces(b, q + 1);
    var e := FindStop(b, s, ']');
    hide SkipSpaces, FindStop;
    var t := TrimEnd(b, s, e);
    hide LineEnd;
    ChangeAt(b, Chop(b, s, e), t, LineEnd(b, e + 1));
  }

  lemma {:induction false} KeyChanges(b: string, q: nat, e: nat, section: Option<nat>, comment: Option<nat>,
      multiLine: bool, r: Found)
    requires IsBuffer(b) && q < e < |b| && b[e] == '=' && Inside(section, |b|) && Inside(comment, |b|)
    requires r == FindValue(Chop(b, q, e), q, e + 1, section, comment, multiLine)
    ensures ChangedBefore(b, r.b, r.next)
  {
    hide FindValue;
    var t := TrimEnd(b, q, e);
    ValueKeeps(Chop(b, q, e), q, e + 1, section, comment, multiLine, t);
    ChangeAt(b, r.b, t, r.next);
  }

  /** The search changes something in front of where it ends, if it finds something, and something anyway. */
  lemma {:induction false} EntryChanges(b: string, p: nat, section: Option<nat>, comment: Option<nat>,
      multiLine: bool, r: Found, n: nat)
    requires IsBuffer(b) && p < |b| && UpTo(section, p) && UpTo(comment, p) && !Quiet(b, p)
    requires r == IniText.FindEntry(b, p, section, comment, multiLine) && n == if r.found then r.next else |b|
    ensures ChangedBefore(b, r.b, n)
  {
    hide NextLine, IniText.FindEntry, CommentLines, LoadComment, SectionLine, FindValue, Chop, ChangedBefore;
    var section' := EntryNext(b, p, section, comment, multiLine, r);
    match NextLine(b, p)
    case CommentAt(q) =>
      CommentChanges(b, q);
      var c := LoadComment(b, q, true);
      EntrySettles(c.b, c.next, section', Some(q), multiLine);
      ChangeStays(b, c.b, r.b, c.next, n);
    case SectionAt(q) =>
      SectionChanges(b, q, comment, r);
    case KeyAt(q, e) =>
      KeyChanges(b, q, e, section', comment, multiLine, r);
      ChangeStays(b, r.b, r.b, r.next, n);
  }

  lemma {:induction false} RunChanges(b: string, p: nat, section: Option<nat>, multiLine: bool)
    requires IsBuffer(b) && p < |b| && UpTo(section, p) && !Quiet(b, p)
    ensures BufferAfter(b, p, section, multiLine) != b
  {
    var r := IniText.FindEntry(b, p, section, None, multiLine);
    EntryChanges(b, p, section, None, multiLine, r, if r.found then r.next else |b|);
    EntrySettles(b, p, section, None, multiLine);
    hide IniText.FindEntry, Quiet;
    if r.found {
      RunKeeps(r.b, r.next, r.section, multiLine);
    }
  }

  /** Loading changes the rest of the text just when the text is not of that kind. */
  lemma {:induction false} QuietExactly(b: string, p: nat, section: Option<nat>, multiLine: bool)
    requires IsBuffer(b) && p < |b| && UpTo(section, p)
    ensures Quiet(b, p) <==> BufferAfter(b, p, section, multiLine) == b
  {
    hide IniText.FindEntry, Quiet;
    if Quiet(b, p) {
      QuietStays(b, p, section, None, multiLine, IniText.FindEntry(b, p, section, None, multiLine));
    } else {
      RunChanges(b, p, section, multiLine);
    }
  }

  // ----- when a value is final -----

  /** A string that runs on into the rest of the data is the same at the end just when nothing of the rest changes. */
  lemma {:induction false} UnsettledIsFinal(b: string, x: nat, p: nat, section: Option<nat>, multiLine: bool)
    requires IsBuffer(b) && x <= p < |b| && UpTo(section, p) && !Settled(b, x, p)
    ensures CStr(BufferAfter(b, p, section, multiLine), x) == CStr(b, x) <==> Quiet(b, p)
  {
    hide Quiet, BufferAfter, CStr, Kept, Tail;
    QuietExactly(b, p, section, multiLine);
    var end := BufferAfter(b, p, section, multiLine);
    var z := x + |CStr(b, x)|;
    CStrAt(b, x);
    if CStr(end, x) == CStr(b, x) {
      RunKeeps(b, p, section, multiLine);
      RunWithin(b, p, section, multiLine, z);
      SameAllOver(b, end, x, p, z);
    }
  }

  lemma {:induction false} SameAllOver(b: string, b': string, x: nat, p: nat, z: nat)
    requires x <= p <= z && Kept(b, b', p) && Tail(b, b', z) && z == x + |CStr(b, x)| && CStr(b', x) == CStr(b, x)
    ensures b' == b
  {
    CStrAt(b, x);
    CStrAt(b', x);
    hide CStr;
    forall i | 0 <= i < |b|
      ensures b'[i] == b[i]
    {
      if x <= i < z {
        assert b'[x + (i - x)] == CStr(b', x)[i - x];
        assert b[x + (i - x)] == CStr(b, x)[i - x];
      }
    }
  }

  lemma {:induction false} CStrAt(b: string, x: nat)
    requires x < |b|
    ensures x + |CStr(b, x)| <= |b| && forall i | 0 <= i < |CStr(b, x)| :: CStr(b, x)[i] == b[x + i]
    ensures IsBuffer(b) ==> x + |CStr(b, x)| < |b| && b[x + |CStr(b, x)|] == NUL
    decreases |b| - x
  {
    if b[x] != NUL && x + 1 < |b| {
      var s, t := CStr(b, x), CStr(b, x + 1);
      assert s == [b[x]] + t;
      CStrAt(b, x + 1);
      hide CStr;
      forall i | 0 <= i < |s|
        ensures s[i] == b[x + i]
      {
        if i > 0 {
          assert s[i] == t[i - 1];
        }
      }
    }
  }

  lemma {:induction false} TailQuiet(b: string, b': string, p: nat)
    requires IsBuffer(b) && IsBuffer(b') && Tail(b, b', p)
    ensures Quiet(b', p) <==> Quiet(b, p)
  {
    hide NextLine, CommentLines, Tail, IsComment, IsBuffer;
    TailAt(b, b', p, p);
    TailNext(b, b', p);
    var l := NextLine(b, p);
    if l.CommentAt? {
      TailAt(b, b', p, l.at);
      TailComments(b, b', l.at, true);
      TailSlice(b, b', l.at, CommentLines(b, l.at, true).at);
    }
  }

  lemma {:induction false} TailSlice(b: string, b': string, p: nat, e: nat)
    requires Tail(b, b', p) && p <= e <= |b|
    ensures b'[p..e] == b[p..e]
  {
  }

  /** The next entry is a key that opens multi-line text whose first line ends it. */
  ghost predicate EndsAtOnce(b: string, p: nat, multiLine: bool)
    requires IsBuffer(b) && p < |b|
    decreases |b| - p
  {
    match NextLine(b, p)
    case CommentAt(q) => EndsAtOnce(b, CommentLines(b, q, true).at, multiLine)
    case KeyAt(q, e) => EmptyText(b, e + 1, multiLine)
    case _ => false
  }

  lemma {:induction false} TailEmptyText(b: string, b': string, p: nat, multiLine: bool)
    requires IsBuffer(b) && IsBuffer(b') && Tail(b, b', p)
    ensures EmptyText(b', p, multiLine) <==> EmptyText(b, p, multiLine)
  {
    TailBlanks(b, b', p);
    var v := SkipBlanks(b, p);
    TailLineEnd(b, b', v);
    var e := LineEnd(b, v);
    TailChop(b, b', p, v, e);
    ChopIsBuffer(b, v, e);
    ChopIsBuffer(b', v, e);
    var next := if b[e] == NUL then e else AfterNewLine(b, e);
    hide SkipBlanks, LineEnd, Chop, TagBehind;
    TailTag(Chop(b, v, e), Chop(b', v, e), p, v, next);
  }

  lemma {:induction false} TailTag(b: string, b': string, p: nat, v: nat, next: nat)
    requires IsBuffer(b) && IsBuffer(b') && Tail(b, b', p) && p <= v < |b| && p <= next < |b|
    ensures TagBehind(b', v, next) <==> TagBehind(b, v, next)
  {
    TailLineEnd(b, b', next);
    hide LineEnd, CStr, Fold;
    assert b'[next..LineEnd(b, next)] == b[next..LineEnd(b, next)];
    if IsMultiLineTag(b, v) {
      assert b[v + 2] == '<';
      TailCStr(b, b', v + 3);
    }
  }

  lemma {:induction false} ChopIsBuffer(b: string, start: nat, end: nat)
    requires IsBuffer(b) && start <= end < |b|
    ensures IsBuffer(Chop(b, start, end))
  {
  }

  lemma {:induction false} TailEndsAtOnce(b: string, b': string, p: nat, multiLine: bool)
    requires IsBuffer(b) && IsBuffer(b') && Tail(b, b', p)
    ensures EndsAtOnce(b', p, multiLine) <==> EndsAtOnce(b, p, multiLine)
    decreases |b| - p
  {
    hide NextLine, CommentLines, EmptyText, Tail, IsComment, IsBuffer;
    TailAt(b, b', p, p);
    TailNext(b, b', p);
    match NextLine(b, p)
    case CommentAt(q) =>
      var c := CommentLines(b, q, true).at;
      TailAt(b, b', p, q);
      TailComments(b, b', q, true);
      TailAt(b, b', q, c);
      TailEndsAtOnce(b, b', c, multiLine);
    case KeyAt(q, e) =>
      TailAt(b, b', p, e);
      TailEmptyText(b, b', e + 1, multiLine);
    case _ =>
  }

  /**
   What a search that found something found at `val` ends before `next`, unless it is such text with more behind it.
   */
  ghost predicate EndsAsItShould(b: string, p: nat, multiLine: bool, r: Found)
    requires IsBuffer(b) && p < |b| && ValidFound(r, |b|)
  {
    r.found ==>
      if r.val.None? then !EndsAtOnce(b, p, multiLine)
      else
        && r.val.value <= r.next
        && (Settled(r.b, r.val.value, r.next) <==> !EndsAtOnce(b, p, multiLine) || r.b[r.next] == NUL)
  }

  lemma {:induction false} ValueAt(b: string, key: nat, p: nat, section: Option<nat>, comment: Option<nat>,
      multiLine: bool)
    requires IsBuffer(b) && key < p < |b| && Inside(section, |b|) && Inside(comment, |b|)
    ensures var r := FindValue(b, key, p, section, comment, multiLine); r.found ==> r.val.Some? && r.val.value <= r.next
  {
    hide LoadTagged, CStr, Chop;
  }

  lemma {:induction false} KeyEnds(b: string, b': string, q: nat, p: nat, section: Option<nat>, comment: Option<nat>,
      multiLine: bool, r: Found)
    requires IsBuffer(b) && IsBuffer(b') && q < p < |b| && Tail(b, b', p) && Inside(section, |b|)
    requires Inside(comment, |b|) && |b| == |b'|
    requires r == FindValue(b', q, p, section, comment, multiLine) && r.found
    ensures r.val.Some? && r.val.value <= r.next
    ensures Settled(r.b, r.val.value, r.next) <==> !EmptyText(b, p, multiLine) || r.b[r.next] == NUL
  {
    hide *;
    TailEmptyText(b, b', p, multiLine);
    ValueAt(b', q, p, section, comment, multiLine);
    ValueSettles(b', q, p, section, comment, multiLine);
  }

  lemma {:induction false} EntryEnds(b: string, p: nat, section: Option<nat>, comment: Option<nat>, multiLine: bool,
      r: Found)
    requires IsBuffer(b) && p < |b| && Inside(section, |b|) && Inside(comment, |b|)
    requires r == IniText.FindEntry(b, p, section, comment, multiLine)
    ensures EndsAsItShould(b, p, multiLine, r)
    decreases |b| - p
  {
    hide NextLine, IniText.FindEntry, CommentLines, LoadComment, SectionLine, FindValue, Chop, EmptyText, Settled;
    var section' := EntryNext(b, p, section, comment, multiLine, r);
    match NextLine(b, p)
    case NothingLeft =>
    case CommentAt(q) =>
      CommentTail(b, q, true);
      CommentNext(b, q);
      var c := LoadComment(b, q, true);
      TailEndsAtOnce(b, c.b, c.next, multiLine);
      EntryEnds(c.b, c.next, section', Some(q), multiLine, r);
    case SectionAt(q) =>
      SectionEnds(b, q, comment);
    case KeyAt(q, e) =>
      if r.found {
        ChopIsBuffer(b, q, e);
        ChopTail(b, q, e, e + 1);
        KeyEnds(b, Chop(b, q, e), q, e + 1, section', comment, multiLine, r);
      }
  }

  lemma {:induction false} SectionEnds(b: string, q: nat, comment: Option<nat>)
    requires IsBuffer(b) && q < |b| && b[q] == '[' && Inside(comment, |b|)
    ensures var l := SectionLine(b, q, comment); l.Done? ==> l.r.val == None
  {
    hide SkipSpaces, FindStop, LineEnd, Chop;
  }

  /**
   The value a key is added with is the one its pointer shows at the end of loading just when it is not
   such text, or loading leaves the rest of the data as it is.
   */
  lemma {:induction false} ValueIsFinal(b: string, p: nat, section: Option<nat>, multiLine: bool, r: Found)
    requires IsBuffer(b) && p < |b| && UpTo(section, p) && r == IniText.FindEntry(b, p, section, None, multiLine)
    requires r.found && r.val.Some?
    ensures TextAt(BufferAfter(b, p, section, multiLine), r.val) == TextAt(r.b, r.val) <==>
          (EndsAtOnce(b, p, multiLine) ==> Quiet(b, r.next))
  {
    hide IniText.FindEntry, Quiet, EndsAtOnce, CStr, Tail, Settled, AllSettled;
    EntryEnds(b, p, section, None, multiLine, r);
    EntryWithin(b, p, section, None, multiLine, |b| - 1);
    TailQuiet(b, r.b, r.next);
    AtEndQuiet(r.b, r.next);
    if Settled(r.b, r.val.value, r.next) {
      NamesAreFinal(b, p, section, multiLine);
    } else {
      SectionUpTo(b, p, section, multiLine);
      assert BufferAfter(b, p, section, multiLine) == BufferAfter(r.b, r.next, r.section, multiLine);
      hide BufferAfter;
      UnsettledIsFinal(r.b, r.val.value, r.next, r.section, multiLine);
    }
  }

  lemma {:induction false} SectionUpTo(b: string, p: nat, section: Option<nat>, multiLine: bool)
    requires IsBuffer(b) && p < |b| && UpTo(section, p)
    ensures var r := IniText.FindEntry(b, p, section, None, multiLine); r.found ==> UpTo(r.section, r.next)
  {
    hide IniText.FindEntry;
    EntrySettles(b, p, section, None, multiLine);
    hide CStr;
  }

  lemma {:induction false} AtEndQuiet(b: string, p: nat)
    requires IsBuffer(b) && p < |b|
    ensures b[p] == NUL ==> Quiet(b, p)
  {
  }
}
