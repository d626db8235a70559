/** How conf/simpleini.h reads back the single lines that it prints. */
module IniLines {
  import opened Options
  import opened IniText
  import opened IniStore

  // ----- what can be printed unambiguously -----

  predicate Trimmed(s: string) {
    && NUL !in s && '\n' !in s && '\r' !in s
    && (s != "" ==> !IsSpace(s[0]) && !IsSpace(s[|s| - 1]))
  }

  predicate KeyOk(k: string) {
    Trimmed(k) && k != "" && '=' !in k && k[0] != '[' && !IsComment(k[0])
  }

  predicate NameOk(n: string) {
    Trimmed(n) && ']' !in n
  }

  /** No line of the text is the tag, in any case. */
  predicate NoTagLine(v: string) {
    forall i, j | 0 <= i <= j <= |v| && (i == 0 || v[i - 1] == '\n') && (j == |v| || v[j] == '\n') ::
      Fold(v[i..j]) != Fold(TAG)
  }

  /**
   With multi-line values on, anything without CR goes that the tag does not cut short; otherwise one trimmed line.
   */
  predicate ValueOk(v: string, multiLine: bool) {
    if multiLine && IsMultiLineData(v) then NUL !in v && '\r' !in v && NoTagLine(v)
    else Trimmed(v) && (multiLine ==> !("<<<" <= v))
  }

  // ----- strings in buffers -----

  ghost predicate Here(b: string, p: nat, s: string) {
    p + |s| <= |b| && b[p..p + |s|] == s
  }

  lemma {:induction false} HereAt(b: string, p: nat, s: string, i: nat)
    requires Here(b, p, s) && i < |s|
    ensures b[p + i] == s[i]
  {
    assert b[p..p + |s|][i] == b[p + i];
  }

  lemma {:induction false} HereParts(b: string, p: nat, x: string, y: string)
    requires Here(b, p, x + y)
    ensures Here(b, p, x) && Here(b, p + |x|, y)
  {
    assert b[p..p + |x|] == b[p..p + |x + y|][..|x|];
    assert b[p + |x|..p + |x| + |y|] == b[p..p + |x + y|][|x|..];
  }

  /** Changes elsewhere do not matter. */
  lemma {:induction false} CStrHere(b: string, p: nat, s: string)
    requires Here(b, p, s) && p + |s| < |b| && NUL !in s && b[p + |s|] == NUL
    ensures CStr(b, p) == s
  {
    forall i | 0 <= i < |s|
      ensures b[p + i] == s[i]
    {
      HereAt(b, p, s, i);
    }
    CStrIs(b, p, s);
  }

  lemma {:induction false} CStrKept(b: string, b': string, p: nat, s: string)
    requires Here(b, p, s) && p + |s| < |b'| == |b| && NUL !in s && b'[p + |s|] == NUL
    requires forall i | p <= i < p + |s| :: b'[i] == b[i]
    ensures CStr(b', p) == s
  {
    assert b'[p..p + |s|] == b[p..p + |s|];
    CStrHere(b', p, s);
  }

  lemma {:induction false} CStrSame(b: string, b': string, p: nat, end: nat)
    requires p <= end < |b| == |b'| && b[end] == NUL && b[p..end + 1] == b'[p..end + 1]
    ensures CStr(b, p) == CStr(b', p)
    decreases end - p
  {
    assert b[p] == b[p..end + 1][0] == b'[p..end + 1][0] == b'[p];
    if p < end {
      assert b[p + 1..end + 1] == b[p..end + 1][1..] == b'[p..end + 1][1..] == b'[p + 1..end + 1];
      CStrSame(b, b', p + 1, end);
    }
  }

  // ----- single lines -----

  /** The key and what separates it from the value. */
  lemma {:induction false} KeyPart(b: string, p: nat, k: string, sep: string, e: nat)
    requires IsBuffer(b) && KeyOk(k) && p < |b| && Here(b, p, k) && Here(b, p + |k|, sep)
    requires (sep == "=" && e == p + |k|) || (sep == " = " && e == p + |k| + 1)
    ensures p < e < |b| && b[e] == '='
    ensures !IsSpace(b[p]) && b[p] != NUL && !IsComment(b[p]) && b[p] != '['
    ensures FindStop(b, p, '=') == e && Chop(b, p, e) == b[p + |k| := NUL]
    ensures forall i | e + 1 <= i < p + |k| + |sep| :: b[i] == ' '
  {
    hide KeyOk, IsSpace, IsComment, Here;
    KeyChars(k);
    HereAll(b, p, k);
    SepPart(b, p + |k|, sep, e);
    FindStopIs(b, p, '=', e);
    TrimIs(b, p, e, p + |k|);
  }

  lemma {:induction false} HereAll(b: string, p: nat, s: string)
    requires Here(b, p, s)
    ensures p + |s| <= |b| && forall i | p <= i < p + |s| :: b[i] == s[i - p]
  {
    forall i | p <= i < p + |s| ensures b[i] == s[i - p] {
      HereAt(b, p, s, i - p);
    }
  }

  lemma {:induction false} SepPart(b: string, at: nat, sep: string, e: nat)
    requires Here(b, at, sep) && ((sep == "=" && e == at) || (sep == " = " && e == at + 1))
    ensures at <= e <= at + 1 && e < |b| && b[e] == '='
    ensures forall i | at <= i < at + |sep| && i != e :: b[i] == ' '
    ensures IsSpace(' ')
  {
    HereAll(b, at, sep);
  }

  lemma {:induction false} KeyChars(k: string)
    requires KeyOk(k)
    ensures |k| > 0 && !IsSpace(k[0]) && !IsComment(k[0]) && k[0] != '[' && !IsSpace(k[|k| - 1])
    ensures forall i | 0 <= i < |k| :: k[i] != NUL && k[i] != '=' && !IsNewLine(k[i])
    ensures IsSpace(' ')
  {
  }

  lemma {:induction false} TrimIs(b: string, start: nat, end: nat, t: nat)
    requires start <= t <= end <= |b| && (t == start || !IsSpace(b[t - 1]))
    requires forall i | t <= i < end :: IsSpace(b[i])
    ensures TrimEnd(b, start, end) == t
  {
  }

  /** A trimmed value up to the end of its line. */
  lemma {:induction false} ValueScan(b: string, p: nat, at: nat, v: string)
    requires IsBuffer(b) && p <= at < |b| && Trimmed(v)
    requires Here(b, at, v) && Here(b, at + |v|, "\n")
    requires forall i | p <= i < at :: b[i] == ' '
    ensures at + |v| + 1 < |b|
    ensures SkipBlanks(b, p) == at && LineEnd(b, at) == at + |v| && Chop(b, at, at + |v|) == b[at + |v| := NUL]
    ensures b[at + |v|] == '\n'
  {
    var le := at + |v|;
    HereAt(b, le, "\n", 0);
    forall i | at <= i < le ensures b[i] == v[i - at] {
      HereAt(b, at, v, i - at);
    }
    assert SkipBlanks(b, p) == at;
    assert LineEnd(b, at) == le;
    assert TrimEnd(b, at, le) == le;
  }

  lemma {:induction false} NoTag(b: string, at: nat, v: string)
    requires IsBuffer(b) && Here(b, at, v) && at + |v| < |b| && b[at + |v|] == NUL && !("<<<" <= v)
    ensures !IsMultiLineTag(b, at)
  {
    forall i | 0 <= i < |v| ensures b[at + i] == v[i] {
      HereAt(b, at, v, i);
    }
    assert "<<<" <= v <==> |v| >= 3 && v[0] == '<' && v[1] == '<' && v[2] == '<';
  }

  lemma {:induction false} PlainValue(b: string, key: nat, p: nat, at: nat, section: Option<nat>, multiLine: bool,
      v: string)
    requires IsBuffer(b) && key < p <= at < |b| && Inside(section, |b|) && Trimmed(v) && (multiLine ==> !("<<<" <= v))
    requires Here(b, at, v) && Here(b, at + |v|, "\n")
    requires forall i | p <= i < at :: b[i] == ' '
    ensures at + |v| + 1 < |b|
    ensures var b' := b[at + |v| := NUL];
            && FindValue(b, key, p, section, None, multiLine)
               == Found(true, b', at + |v| + 1, section, Some(key), Some(at), None)
            && CStr(b', at) == v
  {
    hide Chop, SkipBlanks, LineEnd, IsMultiLineTag;
    ValueScan(b, p, at, v);
    var b' := b[at + |v| := NUL];
    assert b'[at..at + |v|] == b[at..at + |v|];
    CStrHere(b', at, v);
    if multiLine {
      NoTag(b', at, v);
    }
  }

  /** With the key scanned, the line is its value. */
  lemma {:induction false} KeyLineIs(b: string, p: nat, section: Option<nat>, multiLine: bool, e: nat, t: nat)
    requires IsBuffer(b) && p < e < |b| && t < |b| && Inside(section, |b|) && b[p] != NUL && !IsSpace(b[p])
    requires b[e] == '='
    requires FindStop(b, p, '=') == e && Chop(b, p, e) == b[t := NUL] && IsBuffer(b[t := NUL])
    ensures KeyLine(b, p, section, None, multiLine) == Done(FindValue(b[t := NUL], p, e + 1, section, None, multiLine))
  {
    hide FindStop, Chop, FindValue, IsSpace;
  }

  /** The line up to the value. */
  lemma {:induction false} KeyStart(b: string, p: nat, section: Option<nat>, multiLine: bool, k: string, sep: string,
      rest: string)
    returns (e: nat)
    requires IsBuffer(b) && Inside(section, |b|) && (sep == "=" || sep == " = ")
    requires KeyOk(k) && p < |b| && Here(b, p, k + (sep + rest)) && p + |k| + |sep| + |rest| < |b|
    ensures !IsSpace(b[p]) && b[p] != NUL && !IsComment(b[p]) && b[p] != '[' && NUL !in k
    ensures Here(b, p, k) && Here(b, p + |k| + |sep|, rest)
    ensures p < p + |k| < e + 1 <= p + |k| + |sep| < |b| && IsBuffer(b[p + |k| := NUL])
    ensures forall i | e + 1 <= i < p + |k| + |sep| :: b[i] == ' '
    ensures KeyLine(b, p, section, None, multiLine)
            == Done(FindValue(b[p + |k| := NUL], p, e + 1, section, None, multiLine))
  {
    hide Chop, FindStop, FindValue, IsComment, IsSpace, KeyLine, Here, KeyOk;
    KeyChars(k);
    HereParts(b, p, k, sep + rest);
    HereParts(b, p + |k|, sep, rest);
    e := if sep == "=" then p + |k| else p + |k| + 1;
    KeyPart(b, p, k, sep, e);
    KeyLineIs(b, p, section, multiLine, e, p + |k|);
  }

  /** A key line whose value stays on the line. */
  lemma {:induction false} PlainLine(b: string, p: nat, section: Option<nat>, multiLine: bool, k: string, sep: string,
      v: string)
    returns (r: Found)
    requires IsBuffer(b) && Inside(section, |b|) && (sep == "=" || sep == " = ")
    requires KeyOk(k) && Trimmed(v) && (multiLine ==> !("<<<" <= v))
    requires p < |b| && Here(b, p, k + (sep + (v + "\n"))) && p + |k| + |sep| + |v| + 1 < |b|
    ensures !IsSpace(b[p]) && b[p] != NUL && !IsComment(b[p]) && b[p] != '['
    ensures KeyLine(b, p, section, None, multiLine) == Done(r)
    ensures var at := p + |k| + |sep|;
            && at + |v| + 1 < |b|
            && r == Found(true, b[p + |k| := NUL][at + |v| := NUL], at + |v| + 1, section, Some(p), Some(at), None)
            && CStr(r.b, p) == k && CStr(r.b, at) == v
  {
    hide FindValue, CStr, IsComment, IsSpace, KeyLine, Here, Trimmed, KeyOk;
    var at := p + |k| + |sep|;
    var e := KeyStart(b, p, section, multiLine, k, sep, v + "\n");
    HereParts(b, at, v, "\n");
    var b1 := b[p + |k| := NUL];
    HereBehind(b, b1, p + |k|, at, v);
    HereBehind(b, b1, p + |k|, at + |v|, "\n");
    PlainValue(b1, p, e + 1, at, section, multiLine, v);
    r := FindValue(b1, p, e + 1, section, None, multiLine);
    CStrKept(b, r.b, p, k);
  }

  /** A value printed over several lines, from the line behind the opening tag. */
  lemma {:induction false} TaggedIs(b: string, p: nat, v: string)
    requires IsBuffer(b) && p < |b| && Here(b, p, v + "\n") && Here(b, p + |v| + 1, TAG + "\n")
    requires NUL !in v && '\r' !in v && NoTagLine(v)
    ensures TaggedLines(b, p, TAG) == Lines(v + "\n", p + |v| + 1, false)
    decreases |v|
  {
    hide NoTagLine, Fold, TaggedLines, LineEnd, IsNewLine;
    var k := FirstLine(v);
    FirstNotTag(v, k);
    OneTextLine(b, p, v, k);
    if k == |v| {
      ClosingTag(b, p + |v| + 1);
      assert v[..k] + "\n" + "" == v + "\n";
    } else {
      var rest := v[k + 1..];
      HereRest(b, p, v, k);
      RestNotTag(v, k);
      assert p + k + 1 + |rest| + 1 == p + |v| + 1;
      TaggedIs(b, p + k + 1, rest);
      assert v[..k] + "\n" + (rest + "\n") == v + "\n";
    }
  }

  /** One line of the value, and the lines after it. */
  lemma {:induction false} OneTextLine(b: string, p: nat, v: string, k: nat)
    requires IsBuffer(b) && p < |b| && Here(b, p, v + "\n") && p + k + 1 < |b| && k <= |v|
    requires NUL !in v && '\r' !in v && k == FirstLine(v) && Fold(v[..k]) != Fold(TAG)
    ensures var r := TaggedLines(b, p + k + 1, TAG);
            TaggedLines(b, p, TAG) == r.(text := v[..k] + "\n" + r.text)
  {
    hide Fold, FindStop, IsNewLine;
    TextLineEnd(b, p, v, k);
    assert LineEnd(b, p) == p + k && AfterNewLine(b, p + k) == p + k + 1;
  }

  lemma {:induction false} TextLineEnd(b: string, p: nat, v: string, k: nat)
    requires IsBuffer(b) && p < |b| && Here(b, p, v + "\n")
    requires NUL !in v && '\r' !in v && k == FirstLine(v)
    ensures p + k < |b| && b[p + k] == '\n' && IsNewLine('\n') && FindStop(b, p, '\n') == p + k
    ensures b[p..p + k] == v[..k]
  {
    HereAll(b, p, v + "\n");
    FindStopIs(b, p, '\n', p + k);
  }

  function FirstLine(v: string): (k: nat)
    ensures k <= |v| && (k == |v| || v[k] == '\n') && forall i | 0 <= i < k :: v[i] != '\n'
  {
    if v == "" || v[0] == '\n' then 0 else 1 + FirstLine(v[1..])
  }

  lemma {:induction false} FirstNotTag(v: string, k: nat)
    requires NoTagLine(v) && k <= |v| && (k == |v| || v[k] == '\n')
    ensures Fold(v[..k]) != Fold(TAG)
  {
    assert v[0..k] == v[..k];
  }

  lemma {:induction false} RestNotTag(v: string, k: nat)
    requires NoTagLine(v) && k < |v| && v[k] == '\n'
    ensures NoTagLine(v[k + 1..])
  {
    var rest := v[k + 1..];
    forall i, j | 0 <= i <= j <= |rest| && (i == 0 || rest[i - 1] == '\n') && (j == |rest| || rest[j] == '\n')
      ensures Fold(rest[i..j]) != Fold(TAG)
    {
      assert v[k + 1 + i..k + 1 + j] == rest[i..j];
    }
  }

  lemma {:induction false} HereRest(b: string, p: nat, v: string, k: nat)
    requires Here(b, p, v + "\n") && k < |v|
    ensures Here(b, p + k + 1, v[k + 1..] + "\n")
  {
    assert v + "\n" == v[..k + 1] + (v[k + 1..] + "\n");
    HereParts(b, p, v[..k + 1], v[k + 1..] + "\n");
  }

  lemma {:induction false} ClosingTag(b: string, p: nat)
    requires IsBuffer(b) && p < |b| && Here(b, p, TAG + "\n")
    ensures LineEnd(b, p) == p + |TAG| && b[p + |TAG|] == '\n' && p + |TAG| + 1 < |b|
    ensures TaggedLines(b, p, TAG) == Lines("", p, false)
  {
    hide Fold;
    HereAll(b, p, TAG + "\n");
    FindStopIs(b, p, '\n', p + |TAG|);
    assert b[p..p + |TAG|] == TAG;
  }

  lemma {:induction false} LoadTaggedIs(b: string, p: nat, v: string)
    requires IsBuffer(b) && 0 < p < |b| && Here(b, p, v + "\n") && Here(b, p + |v| + 1, TAG + "\n")
    requires NUL !in v && '\r' !in v && NoTagLine(v)
    ensures p + |v| + 1 + |TAG| + 1 < |b|
    ensures var b' := b[p + |v| := NUL];
            LoadTagged(b, p, TAG) == Loaded(true, b', p + |v| + 1 + |TAG| + 1) && CStr(b', p) == v
  {
    hide TaggedLines, NoTagLine, CStr;
    TaggedIs(b, p, v);
    ClosingTag(b, p + |v| + 1);
    HereParts(b, p, v, "\n");
    CStrKept(b, b[p + |v| := NUL], p, v);
  }

  lemma {:induction false} TaggedValue(b: string, key: nat, p: nat, at: nat, section: Option<nat>, v: string)
    requires IsBuffer(b) && key < p <= at < |b| && Inside(section, |b|)
    requires NUL !in v && '\r' !in v && NoTagLine(v)
    requires Here(b, at, "<<<" + TAG) && Here(b, at + 14, "\n")
    requires Here(b, at + 15, v + "\n") && Here(b, at + 15 + |v| + 1, TAG + "\n")
    requires forall i | p <= i < at :: b[i] == ' '
    ensures at + 15 + |v| + 13 < |b|
    ensures var b' := b[at + 14 := NUL][at + 15 + |v| := NUL];
            && FindValue(b, key, p, section, None, true)
               == Found(true, b', at + 15 + |v| + 13, section, Some(key), Some(at + 15), None)
            && CStr(b', at + 15) == v
  {
    hide Chop, SkipBlanks, LineEnd, LoadTagged, NoTagLine, Here, CStr, IsMultiLineTag;
    TagIsTrimmed();
    ValueScan(b, p, at, "<<<" + TAG);
    var b1 := b[at + 14 := NUL];
    TagPointer(b, at);
    HereBehind(b, b1, at + 14, at + 15, v + "\n");
    HereBehind(b, b1, at + 14, at + 15 + |v| + 1, TAG + "\n");
    LoadTaggedIs(b1, at + 15, v);
  }

  lemma {:induction false} TagIsTrimmed()
    ensures Trimmed("<<<" + TAG) && |"<<<" + TAG| == 14
  {
  }

  lemma {:induction false} TagPointer(b: string, at: nat)
    requires IsBuffer(b) && at + 15 < |b| && Here(b, at, "<<<" + TAG)
    ensures var b' := b[at + 14 := NUL]; IsMultiLineTag(b', at) && CStr(b', at + 3) == TAG
  {
    hide CStr;
    HereAll(b, at, "<<<" + TAG);
    HereParts(b, at, "<<<", TAG);
    CStrKept(b, b[at + 14 := NUL], at + 3, TAG);
  }

  /** A key line with its value on the lines below. */
  lemma {:induction false} TaggedLine(b: string, p: nat, section: Option<nat>, k: string, sep: string, v: string)
    returns (r: Found)
    requires IsBuffer(b) && Inside(section, |b|) && (sep == "=" || sep == " = ")
    requires KeyOk(k) && NUL !in v && '\r' !in v && NoTagLine(v)
    requires p < |b| && Here(b, p, k + (sep + ("<<<" + TAG + ("\n" + (v + "\n" + (TAG + "\n"))))))
    requires p + |k| + |sep| + 15 + |v| + 13 < |b|
    ensures !IsSpace(b[p]) && b[p] != NUL && !IsComment(b[p]) && b[p] != '['
    ensures KeyLine(b, p, section, None, true) == Done(r)
    ensures var at := p + |k| + |sep|;
            && at + 15 + |v| + 13 < |b|
            && r == Found(true, b[p + |k| := NUL][at + 14 := NUL][at + 15 + |v| := NUL], at + 15 + |v| + 13,
                          section, Some(p), Some(at + 15), None)
            && CStr(r.b, p) == k && CStr(r.b, at + 15) == v
  {
    hide FindValue, CStr, IsComment, IsSpace, NoTagLine, KeyLine, Here, KeyOk;
    var at := p + |k| + |sep|;
    var rest := "<<<" + TAG + ("\n" + (v + "\n" + (TAG + "\n")));
    var e := KeyStart(b, p, section, true, k, sep, rest);
    TaggedParts(b, at, v);
    TaggedBehind(b, p + |k|, p, e + 1, at, section, v);
    r := FindValue(b[p + |k| := NUL], p, e + 1, section, None, true);
    CStrKept(b, r.b, p, k);
  }

  lemma {:induction false} TaggedParts(b: string, at: nat, v: string)
    requires Here(b, at, "<<<" + TAG + ("\n" + (v + "\n" + (TAG + "\n"))))
    ensures at + 15 + |v| + 13 <= |b|
    ensures Here(b, at, "<<<" + TAG) && Here(b, at + 14, "\n")
    ensures Here(b, at + 15, v + "\n") && Here(b, at + 15 + |v| + 1, TAG + "\n")
  {
    HereParts(b, at, "<<<" + TAG, "\n" + (v + "\n" + (TAG + "\n")));
    HereParts(b, at + 14, "\n", v + "\n" + (TAG + "\n"));
    HereParts(b, at + 15, v + "\n", TAG + "\n");
  }

  lemma {:induction false} TaggedBehind(b: string, t: nat, key: nat, p: nat, at: nat, section: Option<nat>, v: string)
    requires IsBuffer(b) && key < t < p <= at < |b| && Inside(section, |b|)
    requires at + 15 + |v| + 13 < |b|
    requires NUL !in v && '\r' !in v && NoTagLine(v)
    requires Here(b, at, "<<<" + TAG) && Here(b, at + 14, "\n")
    requires Here(b, at + 15, v + "\n") && Here(b, at + 15 + |v| + 1, TAG + "\n")
    requires forall i | p <= i < at :: b[i] == ' '
    ensures at + 15 + |v| + 13 < |b| && IsBuffer(b[t := NUL])
    ensures var b' := b[t := NUL][at + 14 := NUL][at + 15 + |v| := NUL];
            && FindValue(b[t := NUL], key, p, section, None, true)
               == Found(true, b', at + 15 + |v| + 13, section, Some(key), Some(at + 15), None)
            && CStr(b', at + 15) == v
  {
    hide FindValue, NoTagLine, Here, CStr;
    var b1 := b[t := NUL];
    HereBehind(b, b1, t, at, "<<<" + TAG);
    HereBehind(b, b1, t, at + 14, "\n");
    HereBehind(b, b1, t, at + 15, v + "\n");
    HereBehind(b, b1, t, at + 15 + |v| + 1, TAG + "\n");
    TaggedValue(b1, key, p, at, section, v);
  }

  /** A NUL written at `e` leaves what stands behind it. */
  lemma {:induction false} HereBehind(b: string, b': string, e: nat, at: nat, s: string)
    requires e < at && e < |b| && Here(b, at, s) && b' == b[e := NUL]
    ensures Here(b', at, s)
  {
    assert b'[at..at + |s|] == b[at..at + |s|];
  }

  /** A section line. */
  lemma {:induction false} HeaderLine(b: string, p: nat, n: string)
    returns (r: Found)
    requires IsBuffer(b) && NameOk(n) && p < |b| && Here(b, p, "[" + (n + "]\n"))
    ensures b[p] == '['
    ensures SectionLine(b, p, None) == Done(r) && r.found
    ensures r.next == p + |n| + 2 < |b| && r.key == None && r.val == None && r.comment == None
    ensures r.section == Some(p + 1) && Here(r.b, p + 1, n) && NUL !in n
    ensures r.b == b[p + 1 + |n| := NUL] && b[r.next] == '\n'
  {
    hide Trimmed, IsSpace;
    HereParts(b, p, "[", n + "]\n");
    HereParts(b, p + 1, n, "]\n");
    HereAll(b, p, "[");
    var s, e := p + 1, p + 1 + |n|;
    HereAll(b, e, "]\n");
    HereAll(b, s, n);
    NameChars(n);
    assert SkipSpaces(b, s) == s;
    FindStopIs(b, s, ']', e);
    TrimIs(b, s, e, e);
    var b' := b[e := NUL];
    FindStopIs(b, e + 1, '\n', e + 1);
    assert b'[s..e] == b[s..e];
    r := Found(true, b', e + 1, Some(s), None, None, None);
  }

  lemma {:induction false} NameChars(n: string)
    requires NameOk(n)
    ensures n != "" ==> !IsSpace(n[0]) && !IsSpace(n[|n| - 1])
    ensures !IsSpace(']') && NUL !in n
    ensures forall i | 0 <= i < |n| :: n[i] != NUL && n[i] != ']' && !IsNewLine(n[i])
  {
  }

  // ----- stretches of a buffer -----

  ghost predicate Blank(b: string, from: nat, to: nat) {
    from <= to <= |b| && forall i | from <= i < to :: IsSpace(b[i])
  }

  /** The same buffer outside the stretch that was worked on. */
  ghost predicate SameOutside(b: string, b': string, from: nat, to: nat) {
    |b'| == |b| && forall i | 0 <= i < |b| && !(from <= i < to) :: b'[i] == b[i]
  }

  lemma {:induction false} HereOutside(b: string, b': string, from: nat, to: nat, p: nat, s: string)
    requires SameOutside(b, b', from, to) && Here(b, p, s) && (to <= p || p + |s| <= from)
    ensures Here(b', p, s)
  {
    assert b'[p..p + |s|] == b[p..p + |s|];
  }
}
