/**
 How conf/simpleini.h reads its buffer, as functions of the buffer's contents: a sequence of
 characters that ends in NUL, positions in it, and the NULs the parser writes into it.
 */
module IniText {
  import opened Options

  const NUL: char := '\0'

  // ----- characters -----

  predicate IsSpace(c: char) {
    c == ' ' || c == '\t' || c == '\r' || c == '\n'
  }

  predicate IsComment(c: char) {
    c == ';' || c == '#'
  }

  predicate IsNewLine(c: char) {
    c == '\n' || c == '\r'
  }

  function LoCase(c: char): char {
    if 'A' <= c <= 'Z' then (c as int + 32) as char else c
  }

  /** Names that differ only in ASCII case fold to the same string. */
  function Fold(s: string): string {
    seq(|s|, i requires 0 <= i < |s| => LoCase(s[i]))
  }

  // ----- buffers -----

  ghost predicate IsBuffer(b: string) {
    b != [] && b[|b| - 1] == NUL
  }

  /** The NUL-terminated string at `p`. */
  function CStr(b: string, p: nat): string
    requires p < |b|
    decreases |b| - p
  {
    if b[p] == NUL || p + 1 == |b| then [] else [b[p]] + CStr(b, p + 1)
  }

  function Overwrite(b: string, at: nat, s: string): (r: string)
    requires at + |s| <= |b|
    ensures |r| == |b|
  {
    b[..at] + s + b[at + |s|..]
  }

  // ----- scanning -----

  /** Past blanks and newlines. */
  function SkipSpaces(b: string, p: nat): (q: nat)
    requires IsBuffer(b) && p < |b|
    ensures p <= q < |b| && !IsSpace(b[q])
    ensures forall i | p <= i < q :: IsSpace(b[i])
    decreases |b| - p
  {
    if IsSpace(b[p]) then SkipSpaces(b, p + 1) else p
  }

  /** Past blanks, staying on the line. */
  function SkipBlanks(b: string, p: nat): (q: nat)
    requires IsBuffer(b) && p < |b|
    ensures p <= q < |b| && (!IsSpace(b[q]) || IsNewLine(b[q]))
    ensures forall i | p <= i < q :: IsSpace(b[i]) && !IsNewLine(b[i])
    decreases |b| - p
  {
    if IsSpace(b[p]) && !IsNewLine(b[p]) then SkipBlanks(b, p + 1) else p
  }

  /** The next `c`, newline or NUL. */
  function FindStop(b: string, p: nat, c: char): (q: nat)
    requires IsBuffer(b) && p < |b|
    ensures p <= q < |b| && (b[q] == NUL || b[q] == c || IsNewLine(b[q]))
    ensures forall i | p <= i < q :: b[i] != NUL && b[i] != c && !IsNewLine(b[i])
    decreases |b| - p
  {
    if b[p] != NUL && b[p] != c && !IsNewLine(b[p]) then FindStop(b, p + 1, c) else p
  }

  function LineEnd(b: string, p: nat): (q: nat)
    requires IsBuffer(b) && p < |b|
    ensures p <= q < |b| && (b[q] == NUL || IsNewLine(b[q]))
    ensures forall i | p <= i < q :: b[i] != NUL && !IsNewLine(b[i])
  {
    FindStop(b, p, '\n')
  }

  /** One CR, one LF, or one CR LF. */
  function AfterNewLine(b: string, p: nat): (q: nat)
    requires IsBuffer(b) && p < |b| && IsNewLine(b[p])
    ensures p < q < |b| && q <= p + 2
  {
    if b[p] == '\r' && b[p + 1] == '\n' then p + 2 else p + 1
  }

  /** Where the text from `start` to `end` ends once its trailing blanks are cut off. */
  function TrimEnd(b: string, start: nat, end: nat): (t: nat)
    requires start <= end <= |b|
    ensures start <= t <= end && (t == start || !IsSpace(b[t - 1]))
    ensures forall i | t <= i < end :: IsSpace(b[i])
    decreases end
  {
    if start < end && IsSpace(b[end - 1]) then TrimEnd(b, start, end - 1) else end
  }

  /** The NUL that ends the trimmed text. */
  function Chop(b: string, start: nat, end: nat): (r: string)
    requires start <= end < |b|
    ensures |r| == |b|
  {
    b[TrimEnd(b, start, end) := NUL]
  }

  // ----- multi-line text -----

  /** Lookahead over blank lines: where it ends, and how many newlines it passed. */
  function BlankLines(b: string, p: nat): (r: (nat, nat))
    requires IsBuffer(b) && p < |b|
    ensures p <= r.0 < |b| && !IsSpace(b[r.0]) && p + r.1 <= r.0
    decreases |b| - p
  {
    if !IsSpace(b[p]) then (p, 0)
    else if IsNewLine(b[p]) then
      var r := BlankLines(b, AfterNewLine(b, p));
      (r.0, r.1 + 1)
    else BlankLines(b, p + 1)
  }

  function NewLines(n: nat): (s: string)
    ensures |s| == n
  {
    seq(n, _ => '\n')
  }

  /** What reading lines found: the lines, each ended by '\n', where it stopped, and whether at the end of the data. */
  datatype Lines = Lines(text: string, at: nat, atEnd: bool)

  /** Comment lines, with the blank lines between them if wanted. At the end of the data the last line has no '\n'. */
  function CommentLines(b: string, p: nat, blanks: bool): (r: Lines)
    requires IsBuffer(b) && p < |b|
    ensures p + |r.text| <= r.at < |b|
    ensures r.atEnd ==> b[r.at] == NUL
    ensures IsComment(b[p]) ==> r.at > p
    ensures r.at > p ==> r.text != [] && (r.atEnd || r.text[|r.text| - 1] == '\n')
    decreases |b| - p, if IsComment(b[p]) then 0 else 1
  {
    if IsComment(b[p]) then
      var e := LineEnd(b, p);
      if b[e] == NUL then Lines(b[p..e], e, true)
      else
        var r := CommentLines(b, AfterNewLine(b, e), blanks);
        r.(text := b[p..e] + "\n" + r.text)
    else
      var (q, n) := BlankLines(b, p);
      if blanks && IsComment(b[q]) then
        var r := CommentLines(b, q, blanks);
        r.(text := NewLines(n) + r.text)
      else Lines("", p, false)
  }

  /** Lines up to the one that is the tag, in any case; `at` is then the start of the tag line. */
  function TaggedLines(b: string, p: nat, tag: string): (r: Lines)
    requires IsBuffer(b) && p < |b|
    ensures p + |r.text| <= r.at < |b|
    ensures r.atEnd ==> b[r.at] == NUL
    decreases |b| - p
  {
    var e := LineEnd(b, p);
    if Fold(b[p..e]) == Fold(tag) then Lines("", p, false)
    else if b[e] == NUL then Lines(b[p..e], e, true)
    else
      var r := TaggedLines(b, AfterNewLine(b, e), tag);
      r.(text := b[p..e] + "\n" + r.text)
  }

  /** What loading multi-line text leaves behind. */
  datatype Loaded = Loaded(ok: bool, b: string, next: nat)

  /** The lines are moved down to where the text starts; its last '\n' gives way to the NUL. */
  function LoadComment(b: string, p: nat, blanks: bool): (r: Loaded)
    requires IsBuffer(b) && p < |b|
    ensures IsBuffer(r.b) && |r.b| == |b| && p <= r.next < |b|
    ensures IsComment(b[p]) ==> p < r.next
  {
    var r := CommentLines(b, p, blanks);
    if r.at == p then Loaded(false, b, p)
    else if r.atEnd then
      Loaded(true, Overwrite(b, p, r.text + [NUL]), r.at)
    else
      Loaded(true, Overwrite(b, p, r.text[..|r.text| - 1] + [NUL]), r.at)
  }

  /**
   The text up to the tag, whose line is skipped. The tag line is moved down like the others. Where it
   is the first line, the NUL goes in front of the text, and the value runs on from the tag to the next NUL.
   */
  function LoadTagged(b: string, p: nat, tag: string): (r: Loaded)
    requires IsBuffer(b) && 0 < p < |b|
    ensures IsBuffer(r.b) && |r.b| == |b| && p <= r.next < |b|
  {
    var r := TaggedLines(b, p, tag);
    if r.atEnd then
      Loaded(true, Overwrite(b, p, r.text + [NUL]), r.at)
    else
      var e := LineEnd(b, r.at);
      if e == p then Loaded(false, b[e := NUL], e)
      else
        var d := p + |r.text|;
        var moved := Overwrite(b, p, r.text + if d < r.at then b[r.at..e] + [NUL] else "");
        Loaded(true, moved[d - 1 := NUL], if b[e] == NUL then e else AfterNewLine(b, e))
  }

  // ----- entries -----

  /**
   The pointers FindEntry hands back, into a buffer that now holds `b`. A section on its own has no key;
   before the first section line the section is the empty string outside the buffer.
   */
  datatype Found = Found(found: bool, b: string, next: nat, section: Option<nat>, key: Option<nat>, val: Option<nat>,
      comment: Option<nat>)

  predicate IsMultiLineTag(b: string, p: nat)
    requires IsBuffer(b) && p < |b|
  {
    b[p] == '<' && b[p + 1] == '<' && b[p + 2] == '<'
  }

  predicate Inside(pointer: Option<nat>, size: nat) {
    pointer.Some? ==> pointer.value < size
  }

  ghost predicate ValidFound(r: Found, size: nat) {
    && IsBuffer(r.b) && |r.b| == size && r.next < size
    && Inside(r.section, size) && Inside(r.key, size) && Inside(r.val, size) && Inside(r.comment, size)
    && (r.found ==> (r.key.Some? <==> r.val.Some?))
  }

  /** A line is passed over, leaving these behind, or ends the search. */
  datatype Line =
    | Pass(b: string, next: nat, section: Option<nat>, comment: Option<nat>)
    | Done(r: Found)

  ghost predicate ValidLine(l: Line, size: nat, p: nat) {
    match l
    case Pass(b, next, section, comment) =>
      IsBuffer(b) && |b| == size && p < next < size && Inside(section, size) && Inside(comment, size)
    case Done(r) => ValidFound(r, size) && p < r.next
  }

  function FindEntry(b: string, p: nat, section: Option<nat>, comment: Option<nat>, multiLine: bool): (r: Found)
    requires IsBuffer(b) && p < |b| && Inside(section, |b|) && Inside(comment, |b|)
    ensures ValidFound(r, |b|) && p <= r.next && (r.found ==> p < r.next)
    decreases |b| - p
  {
    var q := SkipSpaces(b, p);
    if b[q] == NUL then Found(false, b, q, section, None, None, comment)
    else
      match OneLine(b, q, section, comment, multiLine)
      case Pass(b', next, section', comment') => FindEntry(b', next, section', comment', multiLine)
      case Done(r) => r
  }

  function OneLine(b: string, q: nat, section: Option<nat>, comment: Option<nat>, multiLine: bool): (l: Line)
    requires IsBuffer(b) && q < |b| && b[q] != NUL && !IsSpace(b[q]) && Inside(section, |b|) && Inside(comment, |b|)
    ensures ValidLine(l, |b|, q)
  {
    if IsComment(b[q]) then
      var r := LoadComment(b, q, true);
      Pass(r.b, r.next, section, Some(q))
    else if b[q] == '[' then SectionLine(b, q, comment)
    else KeyLine(b, q, section, comment, multiLine)
  }

  /** A section line without ']' is passed over, but its start stays behind as the section. */
  function SectionLine(b: string, q: nat, comment: Option<nat>): (l: Line)
    requires IsBuffer(b) && q < |b| && b[q] == '[' && Inside(comment, |b|)
    ensures ValidLine(l, |b|, q)
  {
    var s := SkipSpaces(b, q + 1);
    var e := FindStop(b, s, ']');
    if b[e] != ']' then Pass(b, e, Some(s), comment)
    else Done(Found(true, Chop(b, s, e), LineEnd(b, e + 1), Some(s), None, None, comment))
  }

  /** A line without '=', or with nothing in front of it, is passed over. */
  function KeyLine(b: string, q: nat, section: Option<nat>, comment: Option<nat>, multiLine: bool): (l: Line)
    requires IsBuffer(b) && q < |b| && b[q] != NUL && !IsSpace(b[q]) && Inside(section, |b|) && Inside(comment, |b|)
    ensures ValidLine(l, |b|, q)
  {
    var e := FindStop(b, q, '=');
    if b[e] != '=' then Pass(b, e, section, comment)
    else if e == q then Pass(b, LineEnd(b, e), section, comment)
    else Done(FindValue(Chop(b, q, e), q, e + 1, section, comment, multiLine))
  }

  /** Behind the '=' of the key at `key`. */
  function FindValue(b: string, key: nat, p: nat, section: Option<nat>, comment: Option<nat>,
      multiLine: bool): (r: Found)
    requires IsBuffer(b) && key < p < |b| && Inside(section, |b|) && Inside(comment, |b|)
    ensures ValidFound(r, |b|) && p <= r.next
  {
    var v := SkipBlanks(b, p);
    var e := LineEnd(b, v);
    var next := if b[e] == NUL then e else AfterNewLine(b, e);
    var b' := Chop(b, v, e);
    if multiLine && IsMultiLineTag(b', v) then
      var r := LoadTagged(b', next, CStr(b', v + 3));
      Found(r.ok, r.b, r.next, section, Some(key), if r.ok then Some(next) else None, comment)
    else
      Found(true, b', next, section, Some(key), Some(v), comment)
  }

  // ----- what determines the results -----

  lemma {:induction false} FindStopIs(b: string, p: nat, c: char, q: nat)
    requires IsBuffer(b) && p <= q < |b| && (b[q] == NUL || b[q] == c || IsNewLine(b[q]))
    requires forall i | p <= i < q :: b[i] != NUL && b[i] != c && !IsNewLine(b[i])
    ensures FindStop(b, p, c) == q
  {
  }

  lemma {:induction false} StopIsLineEnd(b: string, p: nat)
    requires IsBuffer(b) && p < |b|
    ensures FindStop(b, p, '\n') == LineEnd(b, p)
  {
  }

  lemma {:induction false} CStrIs(b: string, p: nat, s: string)
    requires p + |s| < |b| && NUL !in s && b[p + |s|] == NUL
    requires forall i | 0 <= i < |s| :: b[p + i] == s[i]
    ensures CStr(b, p) == s
    decreases |s|
  {
    if s != "" {
      assert b[p] == s[0];
      forall i | 0 <= i < |s[1..]|
        ensures b[p + 1 + i] == s[1..][i]
      {
        assert b[p + (i + 1)] == s[i + 1];
      }
      CStrIs(b, p + 1, s[1..]);
      assert s == [s[0]] + s[1..];
    }
  }
}
