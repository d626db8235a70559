/**
 The first data loaded is not copied: the maps keep pointers into the buffer that the parser goes on
 rewriting. Which of the strings found stay as they were when they were added?
 */
module IniPointers {
  import opened Options
  import opened IniText
  import opened IniStore
  import opened SimpleIniParser

  /** The string at `x` ends before `next`, or with the data. */
  ghost predicate Settled(b: string, x: nat, next: nat) {
    next < |b| && x <= next && (x + |CStr(b, x)| < next || b[next] == NUL)
  }

  /** Nothing before `p` has changed, nor an end of the data at `p`. */
  ghost predicate Kept(b: string, b': string, p: nat) {
    |b| == |b'| && p < |b| && (forall i | 0 <= i < p :: b'[i] == b[i]) && (b[p] == NUL ==> b'[p] == NUL)
  }

  lemma {:induction false} SettledStays(b: string, b': string, x: nat, next: nat)
    requires Settled(b, x, next) && Kept(b, b', next)
    ensures CStr(b', x) == CStr(b, x)
  {
    if next > 0 {
      CStrBelow(b, b', x, next);
    }
  }

  lemma {:induction false} EndsBefore(b: string, x: nat, t: nat, next: nat)
    requires x <= t < next < |b| && b[t] == NUL
    ensures Settled(b, x, next)
  {
    CStrEnds(b, x, t);
  }

  lemma {:induction false} ChopKeeps(b: string, start: nat, end: nat, p: nat)
    requires p <= start <= end < |b|
    ensures Kept(b, Chop(b, start, end), p)
  {
  }

  lemma {:induction false} CommentKeeps(b: string, q: nat, p: nat)
    requires IsBuffer(b) && p <= q < |b| && IsComment(b[q])
    ensures Kept(b, LoadComment(b, q, true).b, p)
  {
    hide CommentLines, Overwrite;
    var r := CommentLines(b, q, true);
    var s := if r.atEnd then r.text + [NUL] else r.text[..|r.text| - 1] + [NUL];
    forall i | 0 <= i < p
      ensures LoadComment(b, q, true).b[i] == b[i]
    {
      OverwriteAt(b, q, s, i);
    }
    OverwriteAt(b, q, s, p);
  }

  lemma {:induction false} TaggedKeeps(b: string, start: nat, tag: string, i: nat)
    requires IsBuffer(b) && 0 < start < |b| && i < start - 1
    ensures LoadTagged(b, start, tag).b[i] == b[i]
  {
    hide TaggedLines, Overwrite, AfterNewLine;
    var r := TaggedLines(b, start, tag);
    if r.atEnd {
      OverwriteAt(b, start, r.text + [NUL], i);
    } else {
      var e := LineEnd(b, r.at);
      var s := r.text + if start + |r.text| < r.at then b[r.at..e] + [NUL] else "";
      OverwriteAt(b, start, s, i);
    }
  }

  lemma {:induction false} ValueKeeps(b: string, key: nat, p: nat, section: Option<nat>, comment: Option<nat>,
      multiLine: bool, i: nat)
    requires IsBuffer(b) && key < p < |b| && Inside(section, |b|) && Inside(comment, |b|) && i < p
    ensures FindValue(b, key, p, section, comment, multiLine).b[i] == b[i]
  {
    hide LoadTagged, CStr;
    var v := SkipBlanks(b, p);
    var e := LineEnd(b, v);
    var next := if b[e] == NUL then e else AfterNewLine(b, e);
    var b' := Chop(b, v, e);
    assert b'[i] == b[i];
    if multiLine && IsMultiLineTag(b', v) {
      TagOnItsLine(b, v, e, next);
      TaggedKeeps(b', next, CStr(b', v + 3), i);
    }
  }

  /** A pointer at or before `p`. */
  predicate UpTo(x: Option<nat>, p: nat) {
    x.Some? ==> x.value <= p
  }

  ghost predicate AllSettled(r: Found) {
    && (r.section.Some? ==> Settled(r.b, r.section.value, r.next))
    && (r.key.Some? ==> Settled(r.b, r.key.value, r.next))
    && (r.comment.Some? ==> Settled(r.b, r.comment.value, r.next))
  }

  lemma {:induction false} KeySettles(b: string, q: nat, section: Option<nat>, comment: Option<nat>, multiLine: bool)
    requires IsBuffer(b) && q < |b| && b[q] != NUL && !IsSpace(b[q]) && UpTo(section, q) && UpTo(comment, q)
    ensures match KeyLine(b, q, section, comment, multiLine)
      case Pass(b', next, section', comment') => b' == b && section' == section && comment' == comment && q < next
      case Done(r) => Kept(b, r.b, q) && AllSettled(r)
  {
    hide FindValue, CStr;
    var e := FindStop(b, q, '=');
    if b[e] == '=' && e != q {
      var t := TrimEnd(b, q, e);
      var b' := Chop(b, q, e);
      var r := FindValue(b', q, e + 1, section, comment, multiLine);
      FindValuePointers(b', q, e + 1, section, comment, multiLine);
      forall i | 0 <= i <= e
        ensures r.b[i] == b'[i]
      {
        ValueKeeps(b', q, e + 1, section, comment, multiLine, i);
      }
      EndsBefore(r.b, q, t, r.next);
      if section.Some? {
        EndsBefore(r.b, section.value, t, r.next);
      }
      if comment.Some? {
        EndsBefore(r.b, comment.value, t, r.next);
      }
    }
  }

  lemma {:induction false} FindValuePointers(b: string, key: nat, p: nat, section: Option<nat>, comment: Option<nat>,
      multiLine: bool)
    requires IsBuffer(b) && key < p < |b| && Inside(section, |b|) && Inside(comment, |b|)
    ensures var r := FindValue(b, key, p, section, comment, multiLine);
      r.section == section && r.key == Some(key) && r.comment == comment
  {
    hide LoadTagged, Chop, CStr;
  }

  lemma {:induction false} SectionSettles(b: string, q: nat, comment: Option<nat>)
    requires IsBuffer(b) && q < |b| && b[q] == '[' && UpTo(comment, q)
    ensures match SectionLine(b, q, comment)
      case Pass(b', next, section, comment') => b' == b && UpTo(section, next) && comment' == comment
      case Done(r) => Kept(b, r.b, q) && AllSettled(r)
  {
    hide CStr;
    var s := SkipSpaces(b, q + 1);
    var e := FindStop(b, s, ']');
    if b[e] == ']' {
      var t := TrimEnd(b, s, e);
      ChopKeeps(b, s, e, q);
      var r := SectionLine(b, q, comment).r;
      EndsBefore(r.b, s, t, r.next);
      if comment.Some? {
        EndsBefore(r.b, comment.value, t, r.next);
      }
    }
  }

  lemma {:induction false} KeptTwice(b: string, b': string, b'': string, p: nat, p': nat)
    requires Kept(b, b', p) && Kept(b', b'', p') && p <= p'
    ensures Kept(b, b'', p)
  {
  }

  lemma {:induction false} EntrySettles(b: string, p: nat, section: Option<nat>, comment: Option<nat>, multiLine: bool)
    requires IsBuffer(b) && p < |b| && UpTo(section, p) && UpTo(comment, p)
    ensures var r := IniText.FindEntry(b, p, section, comment, multiLine);
      Kept(b, r.b, p) && (r.found ==> AllSettled(r))
    decreases |b| - p
  {
    var q := SkipSpaces(b, p);
    EntryFrom(b, p, q, section, comment, multiLine);
    assert Kept(b, b, p);
    hide SkipSpaces, SectionLine, KeyLine, LoadComment, IniText.FindEntry, Kept, AllSettled;
    if b[q] != NUL {
      var l := OneLine(b, q, section, comment, multiLine);
      if IsComment(b[q]) {
        CommentKeeps(b, q, p);
      } else if b[q] == '[' {
        SectionSettles(b, q, comment);
      } else {
        KeySettles(b, q, section, comment, multiLine);
      }
      if l.Pass? {
        EntrySettles(l.b, l.next, l.section, l.comment, multiLine);
        KeptTwice(b, l.b, IniText.FindEntry(l.b, l.next, l.section, l.comment, multiLine).b, p, l.next);
      } else {
        KeptBefore(b, l.r.b, p, q);
      }
    }
  }

  lemma {:induction false} KeptBefore(b: string, b': string, p: nat, q: nat)
    requires Kept(b, b', q) && p <= q
    ensures Kept(b, b', p)
  {
  }

  // ----- values -----

  lemma {:induction false} NoNulYet(b: string, x: nat, n: nat)
    requires x + n < |b| && forall i | x <= i < x + n :: b[i] != NUL
    ensures |CStr(b, x)| >= n
    decreases n
  {
    if n > 0 {
      NoNulYet(b, x + 1, n - 1);
    }
  }

  /** The first line is the tag, and more data follows: the text has no end of its own. */
  lemma {:induction false} TagFirst(b: string, start: nat, tag: string)
    requires IsBuffer(b) && 0 < start < |b| && TaggedLines(b, start, tag) == Lines("", start, false)
    ensures var r := LoadTagged(b, start, tag);
      r.ok ==> (Settled(r.b, start, r.next) <==> r.b[r.next] == NUL)
  {
    hide TaggedLines;
    var r := LoadTagged(b, start, tag);
    var e := LineEnd(b, start);
    if r.ok {
      assert start + |""| == start;
      assert r.b == b[start - 1 := NUL];
      assert forall i | start <= i < r.next :: r.b[i] == b[i] != NUL;
      NoNulYet(r.b, start, r.next - start);
    }
  }

  lemma {:induction false} TextEnds(b: string, start: nat, tag: string)
    requires IsBuffer(b) && 0 < start < |b| && TaggedLines(b, start, tag) != Lines("", start, false)
    ensures var r := LoadTagged(b, start, tag); r.ok && Settled(r.b, start, r.next)
  {
    var t := TaggedLines(b, start, tag);
    var r := LoadTagged(b, start, tag);
    if t.atEnd {
      AtEndEnds(b, start, t);
    } else {
      assert t.text != "" && start + |t.text| <= t.at;
      hide TaggedLines;
      EndsBefore(r.b, start, start + |t.text| - 1, r.next);
    }
  }

  lemma {:induction false} AtEndEnds(b: string, start: nat, t: Lines)
    requires IsBuffer(b) && start + |t.text| <= t.at < |b| && b[t.at] == NUL
    ensures Settled(Overwrite(b, start, t.text + [NUL]), start, t.at)
  {
    hide Overwrite;
    var s := t.text + [NUL];
    var n := start + |t.text|;
    OverwriteAt(b, start, s, n);
    OverwriteAt(b, start, s, t.at);
    if n < t.at {
      EndsBefore(Overwrite(b, start, s), start, n, t.at);
    } else {
      CStrEnds(Overwrite(b, start, s), start, n);
    }
  }

  /** The value opens multi-line text that ends at once. */
  ghost predicate EmptyText(b: string, p: nat, multiLine: bool)
    requires IsBuffer(b) && p < |b|
  {
    var v := SkipBlanks(b, p);
    var e := LineEnd(b, v);
    var next := if b[e] == NUL then e else AfterNewLine(b, e);
    multiLine && TagBehind(Chop(b, v, e), v, next)
  }

  /** A tag opens at `v`, and the line at `p` is the tag, in any case. */
  ghost predicate TagBehind(b: string, v: nat, p: nat)
    requires IsBuffer(b) && v < |b| && p < |b|
  {
    IsMultiLineTag(b, v) && Fold(b[p..LineEnd(b, p)]) == Fold(CStr(b, v + 3))
  }

  /**
   A value that is found ends before the rest of the data, except where it is an empty multi-line text with more data
   behind it.
   */
  lemma {:induction false} ValueSettles(b: string, key: nat, p: nat, section: Option<nat>, comment: Option<nat>,
      multiLine: bool)
    requires IsBuffer(b) && key < p < |b| && Inside(section, |b|) && Inside(comment, |b|)
    requires FindValue(b, key, p, section, comment, multiLine).found
    ensures var r := FindValue(b, key, p, section, comment, multiLine);
      Settled(r.b, r.val.value, r.next) <==> !EmptyText(b, p, multiLine) || r.b[r.next] == NUL
  {
    hide LoadTagged, Settled, CStr, Fold;
    var v := SkipBlanks(b, p);
    var e := LineEnd(b, v);
    var next := if b[e] == NUL then e else AfterNewLine(b, e);
    var b' := Chop(b, v, e);
    if multiLine && IsMultiLineTag(b', v) {
      var tag := CStr(b', v + 3);
      FirstLine(b', next, tag);
      if EmptyText(b, p, multiLine) {
        TagFirst(b', next, tag);
      } else {
        TextEnds(b', next, tag);
      }
    } else {
      LineSettles(b, v, e, next);
    }
  }

  lemma {:induction false} FirstLine(b: string, p: nat, tag: string)
    requires IsBuffer(b) && p < |b|
    ensures TaggedLines(b, p, tag) == Lines("", p, false) <==> Fold(b[p..LineEnd(b, p)]) == Fold(tag)
  {
  }

  lemma {:induction false} LineSettles(b: string, v: nat, e: nat, next: nat)
    requires IsBuffer(b) && v <= e < |b| && (if b[e] == NUL then next == e else e < next < |b|)
    ensures Settled(Chop(b, v, e), v, next)
  {
    var t := TrimEnd(b, v, e);
    if t < next {
      EndsBefore(Chop(b, v, e), v, t, next);
    } else {
      CStrEnds(Chop(b, v, e), v, t);
    }
  }

  // ----- the whole run -----

  lemma {:induction false} RunKeeps(b: string, p: nat, section: Option<nat>, multiLine: bool)
    requires IsBuffer(b) && p < |b| && UpTo(section, p)
    ensures Kept(b, BufferAfter(b, p, section, multiLine), p)
    decreases |b| - p
  {
    hide IniText.FindEntry, CStr;
    var r := IniText.FindEntry(b, p, section, None, multiLine);
    EntrySettles(b, p, section, None, multiLine);
    if r.found {
      RunKeeps(r.b, r.next, r.section, multiLine);
    }
  }

  /**
   The names and the comment an entry is added with are those its pointers show at the end of loading; so is a settled
   value.
   */
  lemma {:induction false} NamesAreFinal(b: string, p: nat, section: Option<nat>, multiLine: bool)
    requires IsBuffer(b) && p < |b| && UpTo(section, p)
    requires IniText.FindEntry(b, p, section, None, multiLine).found
    ensures var r := IniText.FindEntry(b, p, section, None, multiLine);
      var end := BufferAfter(b, p, section, multiLine);
      && NameAt(end, r.section) == NameAt(r.b, r.section)
      && TextAt(end, r.key) == TextAt(r.b, r.key)
      && TextAt(end, r.comment) == TextAt(r.b, r.comment)
      && (r.val.Some? && Settled(r.b, r.val.value, r.next) ==> TextAt(end, r.val) == TextAt(r.b, r.val))
  {
    hide IniText.FindEntry, CStr;
    var r := IniText.FindEntry(b, p, section, None, multiLine);
    var end := BufferAfter(b, p, section, multiLine);
    EntrySettles(b, p, section, None, multiLine);
    RunKeeps(r.b, r.next, r.section, multiLine);
    forall x | 0 <= x && Settled(r.b, x, r.next)
      ensures CStr(end, x) == CStr(r.b, x)
    {
      SettledStays(r.b, end, x, r.next);
    }
  }

  // ----- a value that changes -----

  const EMPTY_TEXT: string := ['k', '=', '<', '<', '<', 'E', '\n', 'E', '\n', 'j', '=', '1', '\n', NUL]
  const AFTER_FIRST: string := ['k', NUL, '<', '<', '<', 'E', NUL, 'E', '\n', 'j', '=', '1', '\n', NUL]
  const AFTER_SECOND: string := ['k', NUL, '<', '<', '<', 'E', NUL, 'E', '\n', 'j', NUL, '1', NUL, NUL]

  const FIRST_KEY_CHOPPED: string := ['k', NUL, '<', '<', '<', 'E', '\n', 'E', '\n', 'j', '=', '1', '\n', NUL]
  const SECOND_KEY_CHOPPED: string := ['k', NUL, '<', '<', '<', 'E', NUL, 'E', '\n', 'j', NUL, '1', '\n', NUL]

  lemma {:induction false} FirstKey()
    ensures KeyLine(EMPTY_TEXT, 0, None, None, true) == Done(FindValue(FIRST_KEY_CHOPPED, 0, 2, None, None, true))
  {
    hide FindValue, FindStop, LineEnd;
    FindStopIs(EMPTY_TEXT, 0, '=', 1);
    assert Chop(EMPTY_TEXT, 0, 1) == FIRST_KEY_CHOPPED;
  }

  lemma {:induction false} FirstLook()
    ensures IsBuffer(FIRST_KEY_CHOPPED) && |FIRST_KEY_CHOPPED| == 14 && FIRST_KEY_CHOPPED[6] == '\n'
    ensures SkipBlanks(FIRST_KEY_CHOPPED, 2) == 2 && LineEnd(FIRST_KEY_CHOPPED, 2) == 6
    ensures AfterNewLine(FIRST_KEY_CHOPPED, 6) == 7
    ensures Chop(FIRST_KEY_CHOPPED, 2, 6) == AFTER_FIRST
  {
    hide LineEnd;
    FindStopIs(FIRST_KEY_CHOPPED, 2, '\n', 6);
    StopIsLineEnd(FIRST_KEY_CHOPPED, 2);
  }

  lemma {:induction false} FirstTag()
    ensures IsBuffer(AFTER_FIRST) && |AFTER_FIRST| == 14 && IsMultiLineTag(AFTER_FIRST, 2)
    ensures CStr(AFTER_FIRST, 5) == "E"
  {
    CStrIs(AFTER_FIRST, 5, "E");
  }

  lemma {:induction false} FirstValue()
    ensures FindValue(FIRST_KEY_CHOPPED, 0, 2, None, None, true)
          == Found(true, AFTER_FIRST, 9, None, Some(0), Some(7), None)
  {
    FirstLook();
    FirstTag();
    FirstText();
    hide LoadTagged, CStr, Chop, SkipBlanks, LineEnd, AfterNewLine, IsMultiLineTag, FIRST_KEY_CHOPPED, AFTER_FIRST;
  }

  lemma {:induction false} FirstEntry()
    ensures IniText.FindEntry(EMPTY_TEXT, 0, None, None, true)
          == Found(true, AFTER_FIRST, 9, None, Some(0), Some(7), None)
  {
    FirstKey();
    FirstValue();
    hide KeyLine, FindValue;
    EntryFrom(EMPTY_TEXT, 0, 0, None, None, true);
  }

  lemma {:induction false} FirstText()
    ensures LoadTagged(AFTER_FIRST, 7, "E") == Loaded(true, AFTER_FIRST, 9)
  {
    FindStopIs(AFTER_FIRST, 7, '\n', 8);
    FirstLine(AFTER_FIRST, 7, "E");
    assert AFTER_FIRST[7..8] == "E";
    hide TaggedLines, LineEnd;
    assert 7 + |""| == 7;
    assert Overwrite(AFTER_FIRST, 7, "") == AFTER_FIRST;
  }

  lemma {:induction false} SecondKey()
    ensures KeyLine(AFTER_FIRST, 9, None, None, true) == Done(FindValue(SECOND_KEY_CHOPPED, 9, 11, None, None, true))
  {
    hide FindValue, FindStop, LineEnd;
    FindStopIs(AFTER_FIRST, 9, '=', 10);
    assert Chop(AFTER_FIRST, 9, 10) == SECOND_KEY_CHOPPED;
  }

  lemma {:induction false} SecondLook()
    ensures IsBuffer(SECOND_KEY_CHOPPED) && |SECOND_KEY_CHOPPED| == 14 && SECOND_KEY_CHOPPED[12] == '\n'
    ensures SkipBlanks(SECOND_KEY_CHOPPED, 11) == 11 && LineEnd(SECOND_KEY_CHOPPED, 11) == 12
    ensures AfterNewLine(SECOND_KEY_CHOPPED, 12) == 13
    ensures Chop(SECOND_KEY_CHOPPED, 11, 12) == AFTER_SECOND && IsBuffer(AFTER_SECOND) && |AFTER_SECOND| == 14
    ensures !IsMultiLineTag(AFTER_SECOND, 11)
  {
    hide LineEnd;
    FindStopIs(SECOND_KEY_CHOPPED, 11, '\n', 12);
    StopIsLineEnd(SECOND_KEY_CHOPPED, 11);
  }

  lemma {:induction false} SecondValue()
    ensures FindValue(SECOND_KEY_CHOPPED, 9, 11, None, None, true)
          == Found(true, AFTER_SECOND, 13, None, Some(9), Some(11), None)
  {
    SecondLook();
    hide LoadTagged, CStr, Chop, SkipBlanks, LineEnd, AfterNewLine, IsMultiLineTag, SECOND_KEY_CHOPPED, AFTER_SECOND;
  }

  lemma {:induction false} SecondEntry()
    ensures IniText.FindEntry(AFTER_FIRST, 9, None, None, true)
          == Found(true, AFTER_SECOND, 13, None, Some(9), Some(11), None)
  {
    SecondKey();
    SecondValue();
    hide KeyLine, FindValue;
    EntryFrom(AFTER_FIRST, 9, 9, None, None, true);
  }

  lemma {:induction false} TwoEntries()
    ensures BufferAfter(EMPTY_TEXT, 0, None, true) == AFTER_SECOND
  {
    FirstEntry();
    SecondEntry();
    NothingMore(AFTER_SECOND, 13, None, None, true);
    assert IsBuffer(AFTER_SECOND) && IsBuffer(AFTER_FIRST) && IsBuffer(EMPTY_TEXT);
    hide IniText.FindEntry, EMPTY_TEXT, AFTER_FIRST, AFTER_SECOND;
    assert BufferAfter(AFTER_SECOND, 13, None, true) == AFTER_SECOND;
    assert BufferAfter(AFTER_FIRST, 9, None, true) == AFTER_SECOND;
  }

  /**
   An empty multi-line text, with an entry behind it: the value added is not the value that is there when loading is
   over.
   */
  lemma {:induction false} ValueIsNotFinal()
    ensures var r := IniText.FindEntry(EMPTY_TEXT, 0, None, None, true);
      && r.found && TextAt(r.b, r.val) == Some("E\nj=1\n")
      && TextAt(BufferAfter(EMPTY_TEXT, 0, None, true), r.val) == Some("E\nj")
  {
    FirstEntry();
    TwoEntries();
    TwoValues();
    hide IniText.FindEntry, CStr, BufferAfter, EMPTY_TEXT, AFTER_FIRST, AFTER_SECOND;
  }

  lemma {:induction false} TwoValues()
    ensures CStr(AFTER_FIRST, 7) == "E\nj=1\n" && CStr(AFTER_SECOND, 7) == "E\nj"
  {
    CStrIs(AFTER_FIRST, 7, "E\nj=1\n");
    CStrIs(AFTER_SECOND, 7, "E\nj");
    hide CStr;
  }
}
