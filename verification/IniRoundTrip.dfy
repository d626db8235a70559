/** What conf/simpleini.h prints, it loads back. */
module IniRoundTrip {
  import opened Options
  import opened Sequences
  import opened IniText
  import opened IniStore
  import opened IniLines
  import opened IniComments
  import opened IniPointers
  import opened IniFinal
  import opened IniKept

  // ----- what can be printed and loaded back -----

  predicate EntryOk(e: Entry<string>, multiLine: bool) {
    KeyOk(e.key) && ValueOk(e.value, multiLine) && (e.comment.Some? ==> CommentOk(e.comment.value, true))
  }

  predicate EntriesOk(es: seq<Entry<string>>, multiLine: bool) {
    forall i | 0 <= i < |es| :: EntryOk(es[i], multiLine)
  }

  predicate SectionOk(s: Section<string>, multiLine: bool) {
    NameOk(s.name) && EntriesOk(s.entries, multiLine)
        && (s.comment.Some? ==> s.name != "" && CommentOk(s.comment.value, true))
  }

  /** The unnamed section, if any, comes first and is not empty. */
  ghost predicate Printable(c: seq<Section<string>>, multiLine: bool) {
    && Distinct(c)
    && (forall i | 0 <= i < |c| :: SectionOk(c[i], multiLine))
    && (forall i | 0 <= i < |c| && c[i].name == "" :: i == 0 && c[i].entries != [])
  }

  ghost predicate FileOk(f: File, multiLine: bool) {
    Printable(f.sections, multiLine) && (f.comment.Some? ==> CommentOk(f.comment.value, false))
  }

  /** What the text starts with, if it is a comment, is that of the file. */
  predicate OwnComment(f: File) {
    f.comment.Some? || f.sections == [] || f.sections[0].comment.None?
  }

  // ----- finding what was printed -----

  function Sep(fmt: Format): string {
    if fmt.spaces then " = " else "="
  }

  lemma {:induction false} PlainText(e: Entry<string>, fmt: Format)
    requires e.comment.None? && !(fmt.multiLine && IsMultiLineData(e.value))
    ensures PrintEntry(e, fmt) == e.key + (Sep(fmt) + (e.value + "\n"))
  {
  }

  lemma {:induction false} TaggedText(e: Entry<string>, fmt: Format)
    requires e.comment.None? && fmt.multiLine && IsMultiLineData(e.value)
    ensures PrintEntry(e, fmt) == e.key + (Sep(fmt) + ("<<<" + TAG + ("\n" + (e.value + "\n" + (TAG + "\n")))))
  {
    var head, lines := "<<<" + TAG, e.value + "\n";
    assert PrintValue(e.value, fmt) == head + "\n" + lines + TAG;
    Assoc(head + "\n" + lines, TAG, "\n");
    Assoc(head + "\n", lines, TAG + "\n");
    Assoc(head, "\n", lines + (TAG + "\n"));
    Assoc(e.key, Sep(fmt), PrintValue(e.value, fmt));
    Assoc(e.key, Sep(fmt) + PrintValue(e.value, fmt), "\n");
    Assoc(Sep(fmt), PrintValue(e.value, fmt), "\n");
  }

  /** The comment is handed through. */
  lemma {:induction false} CommentPasses(b: string, p: nat, section: Option<nat>, comment: Option<nat>,
      multiLine: bool, r: Found)
    requires IsBuffer(b) && p < |b| && b[p] != NUL && !IsSpace(b[p]) && Inside(section, |b|) && Inside(comment, |b|)
    ensures b[p] == '[' && SectionLine(b, p, None) == Done(r) ==>
          SectionLine(b, p, comment) == Done(r.(comment := comment))
    ensures KeyLine(b, p, section, None, multiLine) == Done(r) ==>
      KeyLine(b, p, section, comment, multiLine) == Done(r.(comment := comment))
  {
    hide FindStop, SkipSpaces, LineEnd, SkipBlanks, Chop, LoadTagged, CStr;
  }

  lemma {:induction false} LineFound(b: string, p0: nat, p: nat, section: Option<nat>, comment: Option<nat>,
      multiLine: bool, r: Found)
    requires IsBuffer(b) && Blank(b, p0, p) && p < |b| && Inside(section, |b|) && Inside(comment, |b|)
    requires !IsSpace(b[p]) && b[p] != NUL && !IsComment(b[p])
    requires b[p] == '[' ==> SectionLine(b, p, None) == Done(r)
    requires b[p] != '[' ==> KeyLine(b, p, section, None, multiLine) == Done(r)
    ensures p0 < |b| && r.(comment := comment) == FindEntry(b, p0, section, comment, multiLine)
  {
    CommentPasses(b, p, section, comment, multiLine, r);
    hide KeyLine, SectionLine;
    assert SkipSpaces(b, p0) == p;
  }

  /** The line of an entry without comment. */
  lemma {:induction false} BodyLine(b: string, p: nat, section: Option<nat>, fmt: Format, e: Entry<string>)
    returns (r: Found)
    requires IsBuffer(b) && Inside(section, |b|) && EntryOk(e, fmt.multiLine) && e.comment.None?
    requires Here(b, p, PrintEntry(e, fmt)) && p + |PrintEntry(e, fmt)| < |b|
    ensures b[p] != NUL && !IsSpace(b[p]) && !IsComment(b[p]) && b[p] != '['
    ensures KeyLine(b, p, section, None, fmt.multiLine) == Done(r) && ValidFound(r, |b|)
    ensures r.found && r.section == section && r.next == p + |PrintEntry(e, fmt)|
    ensures r.key.Some? && r.val.Some? && CStr(r.b, r.key.value) == e.key && CStr(r.b, r.val.value) == e.value
    ensures r.val.value + |e.value| < r.next && SameOutside(b, r.b, p, r.next)
  {
    hide KeyLine, CStr, NoTagLine, Here, KeyOk, PrintEntry, CommentOk, IsSpace, IsComment;
    if fmt.multiLine && IsMultiLineData(e.value) {
      TaggedText(e, fmt);
      r := TaggedLine(b, p, section, e.key, Sep(fmt), e.value);
    } else {
      PlainText(e, fmt);
      r := PlainLine(b, p, section, fmt.multiLine, e.key, Sep(fmt), e.value);
    }
  }

  /** The entry without its comment, whatever comment is at hand. */
  lemma {:induction false} BodyFound(
    b: string, p0: nat, p: nat, section: Option<nat>, comment: Option<nat>, fmt: Format,
        e: Entry<string>) returns (r: Found)
    requires IsBuffer(b) && Blank(b, p0, p) && Inside(section, |b|) && Inside(comment, |b|) && EntryOk(e, fmt.multiLine)
    requires e.comment.None?
    requires Here(b, p, PrintEntry(e, fmt)) && p + |PrintEntry(e, fmt)| < |b|
    ensures p0 < |b| && r == FindEntry(b, p0, section, comment, fmt.multiLine) && ValidFound(r, |b|)
    ensures r.found && r.section == section && r.comment == comment && r.next == p + |PrintEntry(e, fmt)|
    ensures r.key.Some? && r.val.Some? && CStr(r.b, r.key.value) == e.key && CStr(r.b, r.val.value) == e.value
    ensures r.val.value + |e.value| < r.next && SameOutside(b, r.b, p, r.next)
  {
    hide KeyLine, SectionLine, FindEntry, CStr, Here, EntryOk, PrintEntry, Blank, SameOutside, IsSpace, IsComment;
    var r0 := BodyLine(b, p, section, fmt, e);
    LineFound(b, p0, p, section, comment, fmt.multiLine, r0);
    r := r0.(comment := comment);
  }

  lemma {:induction false} CommentedText(e: Entry<string>, fmt: Format)
    requires e.comment.Some? && e.comment.value != ""
    ensures PrintEntry(e, fmt) == "\n" + ((e.comment.value + "\n") + PrintEntry(e.(comment := None), fmt))
  {
    hide PrintValue;
    var c, k, m := e.comment.value + "\n", e.key, if fmt.spaces then " = " else "=";
    var v := PrintValue(e.value, fmt);
    assert PrintEntry(e, fmt) == "\n" + c + k + m + v + "\n";
    assert PrintEntry(e.(comment := None), fmt) == k + m + v + "\n";
    assert "\n" + c + k + m + v + "\n" == "\n" + (c + (k + m + v + "\n"));
  }

  /** The first character of an entry without comment is none of these. */
  lemma {:induction false} BodyStarts(b: string, p: nat, fmt: Format, e: Entry<string>)
    requires EntryOk(e, fmt.multiLine) && e.comment.None? && Here(b, p, PrintEntry(e, fmt))
    ensures p < |b| && !IsSpace(b[p]) && !IsComment(b[p])
  {
    KeyChars(e.key);
    FirstOfEntry(e, fmt);
    HereAt(b, p, PrintEntry(e, fmt), 0);
    hide PrintEntry, IsSpace, IsComment;
  }

  /** The printed entry, found by the search for the next entry. */
  lemma {:induction false} EntryFound(b: string, p0: nat, p: nat, section: Option<nat>, fmt: Format, e: Entry<string>)
    returns (r: Found)
    requires IsBuffer(b) && Blank(b, p0, p) && Inside(section, |b|) && EntryOk(e, fmt.multiLine)
    requires Here(b, p, PrintEntry(e, fmt)) && p + |PrintEntry(e, fmt)| < |b|
    ensures p0 < |b| && r == FindEntry(b, p0, section, None, fmt.multiLine) && ValidFound(r, |b|)
    ensures r.found && r.section == section && TextAt(r.b, r.comment) == e.comment && r.next == p + |PrintEntry(e, fmt)|
    ensures r.key.Some? && r.val.Some? && CStr(r.b, r.key.value) == e.key && CStr(r.b, r.val.value) == e.value
    ensures r.val.value + |e.value| < r.next && SameOutside(b, r.b, p, r.next)
  {
    hide CStr, Here, KeyOk, ValueOk, PrintEntry, CommentOk, FindEntry;
    if e.comment.None? {
      r := BodyFound(b, p0, p, section, None, fmt, e);
    } else {
      r := CommentedFound(b, p0, p, section, fmt, e, e.comment.value);
    }
  }

  lemma {:induction false} CommentedFound(
    b: string, p0: nat, p: nat, section: Option<nat>, fmt: Format, e: Entry<string>, t: string) returns (r: Found)
    requires IsBuffer(b) && Blank(b, p0, p) && Inside(section, |b|) && EntryOk(e, fmt.multiLine) && e.comment == Some(t)
    requires Here(b, p, PrintEntry(e, fmt)) && p + |PrintEntry(e, fmt)| < |b|
    ensures p0 < |b| && r == FindEntry(b, p0, section, None, fmt.multiLine) && ValidFound(r, |b|)
    ensures r.found && r.section == section && TextAt(r.b, r.comment) == e.comment && r.next == p + |PrintEntry(e, fmt)|
    ensures r.key.Some? && r.val.Some? && CStr(r.b, r.key.value) == e.key && CStr(r.b, r.val.value) == e.value
    ensures r.val.value + |e.value| < r.next && SameOutside(b, r.b, p, r.next)
  {
    hide CStr, Here, KeyOk, ValueOk, PrintEntry, FindEntry, CommentText;
    var body := e.(comment := None);
    CommentedText(e, fmt);
    HereParts(b, p, "\n", (t + "\n") + PrintEntry(body, fmt));
    HereParts(b, p + 1, t + "\n", PrintEntry(body, fmt));
    var q, p' := p + 1, p + 1 + |t| + 1;
    BlankOn(b, p0, p, "\n");
    BodyStarts(b, p', fmt, body);
    CommentFound(b, p0, q, section, fmt.multiLine, t);
    var b' := b[q + |t| := NUL];
    HereBehind(b, b', q + |t|, p', PrintEntry(body, fmt));
    NothingBlank(b', p');
    r := BodyFound(b', p', p', section, Some(q), fmt, body);
    CommentStays(b, b', r.b, p, q, t, p', r.next);
  }

  lemma {:induction false} NothingBlank(b: string, p: nat)
    requires p <= |b|
    ensures Blank(b, p, p)
  {
  }

  lemma {:induction false} CommentStays(b: string, b': string, b'': string, p: nat, q: nat, t: string, p': nat,
      next: nat)
    requires p <= q && q + |t| + 1 == p' <= next && p' < |b| && b' == b[q + |t| := NUL]
    requires SameOutside(b', b'', p', next)
    requires Here(b, q, t + "\n") && NUL !in t
    ensures SameOutside(b, b'', p, next) && CStr(b'', q) == t
  {
    HereParts(b, q, t, "\n");
    CStrKept(b, b'', q, t);
    hide Here, CStr;
  }

  lemma {:induction false} HeaderBodyFound(b: string, p0: nat, p: nat, section: Option<nat>, comment: Option<nat>,
      multiLine: bool, n: string) returns (r: Found)
    requires IsBuffer(b) && Blank(b, p0, p) && Inside(section, |b|) && Inside(comment, |b|) && NameOk(n)
    requires Here(b, p, "[" + (n + "]\n")) && p < |b|
    ensures p0 < |b| && r == FindEntry(b, p0, section, comment, multiLine) && ValidFound(r, |b|)
    ensures r.found && r.comment == comment && r.key == None && r.val == None
    ensures r.next == p + |n| + 2 < |b| && b[r.next] == '\n'
    ensures SameOutside(b, r.b, p, r.next)
    ensures Stays(r.b, r.section, n, r.next)
  {
    hide SectionLine, CStr, NameOk;
    var r0 := HeaderLine(b, p, n);
    LineFound(b, p0, p, section, comment, multiLine, r0);
    r := r0.(comment := comment);
  }

  lemma {:induction false} HeaderFound(b: string, p0: nat, p: nat, section: Option<nat>, multiLine: bool,
      comment: Option<string>, n: string) returns (r: Found)
    requires IsBuffer(b) && Blank(b, p0, p) && Inside(section, |b|) && NameOk(n)
    requires (comment.Some? ==> CommentOk(comment.value, true))
    requires Here(b, p, PrintComment(comment) + ("[" + (n + "]\n"))) && p < |b|
    ensures p0 < |b| && r == FindEntry(b, p0, section, None, multiLine) && ValidFound(r, |b|)
    ensures r.found && TextAt(r.b, r.comment) == comment && r.key == None && r.val == None
    ensures r.next == p + |PrintComment(comment)| + |n| + 2 < |b| && b[r.next] == '\n'
    ensures SameOutside(b, r.b, p, r.next)
    ensures Stays(r.b, r.section, n, r.next)
  {
    hide CStr, NameOk, FindEntry, CommentOk, Here, Stays;
    var line := "[" + (n + "]\n");
    if comment.None? {
      assert "" + line == line;
      r := HeaderBodyFound(b, p0, p, section, None, multiLine, n);
    } else {
      r := CommentedHeader(b, p0, p, section, multiLine, comment.value, n);
    }
  }

  lemma {:induction false} CommentedHeader(b: string, p0: nat, p: nat, section: Option<nat>, multiLine: bool,
      t: string, n: string) returns (r: Found)
    requires IsBuffer(b) && Blank(b, p0, p) && Inside(section, |b|) && NameOk(n) && CommentOk(t, true)
    requires Here(b, p, PrintComment(Some(t)) + ("[" + (n + "]\n"))) && p < |b|
    ensures p0 < |b| && r == FindEntry(b, p0, section, None, multiLine) && ValidFound(r, |b|)
    ensures r.found && TextAt(r.b, r.comment) == Some(t) && r.key == None && r.val == None
    ensures r.next == p + |PrintComment(Some(t))| + |n| + 2 < |b| && b[r.next] == '\n'
    ensures SameOutside(b, r.b, p, r.next)
    ensures Stays(r.b, r.section, n, r.next)
  {
    hide CStr, NameOk, FindEntry, Here, CommentText, Stays, Blank, SameOutside;
    var line := "[" + (n + "]\n");
    HereParts(b, p, t + "\n", line);
    var p' := p + |t| + 1;
    HereAt(b, p', line, 0);
    CommentFound(b, p0, p, section, multiLine, t);
    var b' := b[p + |t| := NUL];
    HereBehind(b, b', p + |t|, p', line);
    NothingBlank(b', p');
    r := HeaderBodyFound(b', p', p', section, Some(p), multiLine, n);
    CommentStays(b, b', r.b, p, p, t, p', r.next);
  }

  /** The name of the current section stands behind `p`, where no later search will write. */
  ghost predicate Stays(b: string, section: Option<nat>, name: string, p: nat) {
    if section.None? then name == ""
    else
      && section.value + |name| < p && p <= |b| && b[section.value + |name|] == NUL
      && NUL !in name && Here(b, section.value, name)
  }

  lemma {:induction false} StaysOn(b: string, b': string, section: Option<nat>, name: string, p: nat, from: nat,
      to: nat)
    requires Stays(b, section, name, p) && p <= from <= to <= |b| && SameOutside(b, b', from, to)
    ensures Stays(b', section, name, to) && Inside(section, |b|) && NameAt(b', section) == name
    ensures NameAt(b, section) == name
  {
    if section.Some? {
      HereOutside(b, b', from, to, section.value, name);
      CStrHere(b', section.value, name);
      CStrHere(b, section.value, name);
    }
  }

  // ----- what adding the found entries amounts to -----

  ghost predicate NewName(c: seq<Section<string>>, name: string) {
    forall i | 0 <= i < |c| :: Fold(c[i].name) != Fold(name)
  }

  lemma {:induction false} AddsEntry(c: seq<Section<string>>, s: Section<string>, e: Entry<string>)
    requires NewName(c, s.name)
    requires forall i | 0 <= i < |s.entries| :: Fold(s.entries[i].key) != Fold(e.key)
    ensures Add(c + [s], s.name, Some(KeyValue(e.key, e.value)), e.comment) == c + [s.(entries := s.entries + [e])]
  {
    hide Fold;
    var i := FindSection(c + [s], s.name);
    assert (c + [s])[|c|] == s;
    assert i == |c|;
  }

  lemma {:induction false} OpensWithEntry(c: seq<Section<string>>, name: string, e: Entry<string>)
    requires NewName(c, name)
    ensures Add(c, name, Some(KeyValue(e.key, e.value)), e.comment) == c + [Section(name, None, [e])]
  {
    hide Fold;
    assert FindSection(c, name) == |c|;
    assert Put([], KeyValue(e.key, e.value), e.comment) == [e];
  }

  lemma {:induction false} OpensSection(c: seq<Section<string>>, name: string, comment: Option<string>)
    requires NewName(c, name)
    ensures Add(c, name, None, comment) == c + [Section(name, comment, [])]
  {
    hide Fold;
    assert FindSection(c, name) == |c|;
  }

  /** Loading goes on from one place to the other, and if all values from there on are final, so are all. */
  ghost predicate Continues(b: string, p: nat, section: Option<nat>, c: seq<Section<string>>, b': string, p': nat,
      section': Option<nat>, c': seq<Section<string>>, multiLine: bool)
    requires IsBuffer(b) && p < |b| && Inside(section, |b|) && IsBuffer(b') && p' < |b'| && Inside(section', |b'|)
  {
    && LoadEntries(b, p, section, multiLine, c) == LoadEntries(b', p', section', multiLine, c')
    && (AllFinal(b', p', section', multiLine) ==> AllFinal(b, p, section, multiLine))
  }

  lemma {:induction false} TakesEntry(
    b: string, p: nat, section: Option<nat>, multiLine: bool, c: seq<Section<string>>, name: string, e: Entry<string>,
        r: Found)
    requires IsBuffer(b) && p < |b| && Inside(section, |b|) && r == FindEntry(b, p, section, None, multiLine) && r.found
    requires ValidFound(r, |b|) && r.section == section && NameAt(r.b, section) == name
    requires TextAt(r.b, r.comment) == e.comment
    requires r.key.Some? && r.val.Some? && CStr(r.b, r.key.value) == e.key && CStr(r.b, r.val.value) == e.value
    requires r.val.value + |e.value| < r.next
    ensures Continues(b, p, section, c, r.b, r.next, section, Add(c, name, Some(KeyValue(e.key, e.value)), e.comment),
          multiLine)
  {
    hide FindEntry, Add, CStr;
    SettledIsFinal(b, p, section, multiLine, r);
  }

  lemma {:induction false} TakesSection(
    b: string, p: nat, section: Option<nat>, multiLine: bool, c: seq<Section<string>>, name: string,
        comment: Option<string>, r: Found)
    requires IsBuffer(b) && p < |b| && Inside(section, |b|) && r == FindEntry(b, p, section, None, multiLine) && r.found
    requires ValidFound(r, |b|) && NameAt(r.b, r.section) == name && TextAt(r.b, r.comment) == comment && r.key == None
    requires r.val == None
    ensures Continues(b, p, section, c, r.b, r.next, r.section, Add(c, name, None, comment), multiLine)
  {
    hide FindEntry, Add, CStr;
  }

  // ----- whole sections -----

  /** A printed entry is added to the last section. */
  lemma {:induction false} LoadsEntry(
    b: string, p0: nat, p: nat, section: Option<nat>, fmt: Format, c: seq<Section<string>>, s: Section<string>,
        e: Entry<string>)
    returns (r: Found)
    requires IsBuffer(b) && p < |b| && Blank(b, p0, p) && Inside(section, |b|) && Stays(b, section, s.name, p)
    requires NewName(c, s.name) && EntryOk(e, fmt.multiLine)
          && forall i | 0 <= i < |s.entries| :: Fold(s.entries[i].key) != Fold(e.key)
    requires Here(b, p, PrintEntry(e, fmt)) && p + |PrintEntry(e, fmt)| < |b|
    ensures IsBuffer(r.b) && SameOutside(b, r.b, p, r.next) && r.next == p + |PrintEntry(e, fmt)|
    ensures Stays(r.b, section, s.name, r.next)
    ensures Continues(b, p0, section, c + [s], r.b, r.next, section, c
          + [s.(entries := s.entries + [e])], fmt.multiLine)
  {
    hide FindEntry, CStr, Here, PrintEntry, Fold, Add, KeyOk, ValueOk, NameAt, Stays, NewName, Continues;
    r := EntryFound(b, p0, p, section, fmt, e);
    StaysOn(b, r.b, section, s.name, p, p, r.next);
    TakesEntry(b, p0, section, fmt.multiLine, c + [s], s.name, e, r);
    AddsEntry(c, s, e);
  }

  /** Entries printed one after the other are added to the last section one after the other. */
  lemma {:induction false} LoadsEntries(
    b: string, p0: nat, p: nat, section: Option<nat>, fmt: Format, c: seq<Section<string>>, s: Section<string>,
        es: seq<Entry<string>>)
    returns (b': string, p': nat)
    requires IsBuffer(b) && p < |b| && Blank(b, p0, p) && Inside(section, |b|) && Stays(b, section, s.name, p)
    requires NewName(c, s.name) && DistinctKeys(s.entries + es) && EntriesOk(es, fmt.multiLine)
    requires Here(b, p, PrintEntries(es, fmt)) && p + |PrintEntries(es, fmt)| < |b|
    ensures var end := p + |PrintEntries(es, fmt)|;
            && IsBuffer(b') && p' < |b| == |b'| && SameOutside(b, b', p, end) && p' <= end && Blank(b', p', end)
            && Stays(b', section, s.name, end)
            && Continues(b, p0, section, c + [s], b', p', section, c + [s.(entries := s.entries + es)], fmt.multiLine)
    decreases |es|
  {
    hide Here, PrintEntry, Fold, EntryOk, LoadEntries, AllFinal, Stays, DistinctKeys, NewName;
    if es == [] {
      b', p' := b, p0;
      assert s.(entries := s.entries + []) == s;
    } else {
      var e := es[0];
      FirstOk(es, fmt.multiLine);
      HereParts(b, p, PrintEntry(e, fmt), PrintEntries(es[1..], fmt));
      KeyIsNew(s.entries, es);
      var r := LoadsEntry(b, p0, p, section, fmt, c, s, e);
      HereOutside(b, r.b, p, r.next, r.next, PrintEntries(es[1..], fmt));
      var s' := s.(entries := s.entries + [e]);
      assert s'.entries + es[1..] == s.entries + es;
      b', p' := LoadsEntries(r.b, r.next, r.next, section, fmt, c, s', es[1..]);
    }
  }

  lemma {:induction false} FirstOk(es: seq<Entry<string>>, multiLine: bool)
    requires EntriesOk(es, multiLine) && es != []
    ensures EntryOk(es[0], multiLine)
  {
  }

  lemma {:induction false} KeyIsNew(before: seq<Entry<string>>, es: seq<Entry<string>>)
    requires es != [] && DistinctKeys(before + es)
    ensures forall i | 0 <= i < |before| :: Fold(before[i].key) != Fold(es[0].key)
  {
    hide Fold;
    forall i | 0 <= i < |before| ensures Fold(before[i].key) != Fold(es[0].key) {
      assert (before + es)[i] == before[i] && (before + es)[|before|] == es[0];
    }
  }

  /** All that is left of a section once its name is known. */
  lemma {:induction false} SectionEntries(
    b: string, p0: nat, p: nat, section: Option<nat>, fmt: Format, c: seq<Section<string>>, s: Section<string>)
    returns (b': string, p': nat)
    requires IsBuffer(b) && p < |b| && Blank(b, p0, p) && Inside(section, |b|) && Stays(b, section, s.name, p)
    requires NewName(c, s.name) && DistinctKeys(s.entries) && SectionOk(s, fmt.multiLine)
    requires Here(b, p, PrintEntries(s.entries, fmt)) && p + |PrintEntries(s.entries, fmt)| < |b|
    ensures var end := p + |PrintEntries(s.entries, fmt)|;
            && IsBuffer(b') && p' < |b| == |b'| && SameOutside(b, b', p, end) && p' <= end && Blank(b', p', end)
            && Stays(b', section, s.name, end)
            && Continues(b, p0, section, c + [Section(s.name, s.comment, [])], b', p', section, c + [s], fmt.multiLine)
  {
    hide LoadEntries, AllFinal, Here, Blank, Stays, Fold, DistinctKeys, NewName, EntriesOk, NameOk, CommentOk,
        SameOutside, PrintEntries, Continues;
    var empty := Section(s.name, s.comment, []);
    assert empty.entries + s.entries == s.entries;
    b', p' := LoadsEntries(b, p0, p, section, fmt, c, empty, s.entries);
  }

  function Header(s: Section<string>): string {
    PrintComment(s.comment) + PrintHeader(s)
  }

  /** The line of a named section, with its comment. */
  lemma {:induction false} LoadsHeader(b: string, p0: nat, p: nat, section: Option<nat>, fmt: Format,
      c: seq<Section<string>>, s: Section<string>)
    returns (r: Found)
    requires IsBuffer(b) && p < |b| && Blank(b, p0, p) && Inside(section, |b|)
    requires NewName(c, s.name) && NameOk(s.name) && s.name != ""
    requires (s.comment.Some? ==> CommentOk(s.comment.value, true))
    requires Here(b, p, Header(s)) && p + |Header(s)| < |b|
    ensures ValidFound(r, |b|) && r.next + 1 == p + |Header(s)| && SameOutside(b, r.b, p, r.next)
    ensures Blank(r.b, r.next, r.next + 1) && Stays(r.b, r.section, s.name, r.next + 1) && p0 < |b|
    ensures Continues(b, p0, section, c, r.b, r.next, r.section, c + [Section(s.name, s.comment, [])], fmt.multiLine)
  {
    hide LoadEntries, AllFinal, FindEntry, Here, NameOk, Add, CStr, NameAt, TextAt, Continues, CommentOk, NewName,
        PrintComment;
    assert PrintHeader(s) == "[" + (s.name + "]\n");
    r := HeaderFound(b, p0, p, section, fmt.multiLine, s.comment, s.name);
    HeaderNamed(r, s.name);
    TakesSection(b, p0, section, fmt.multiLine, c, s.name, s.comment, r);
    OpensSection(c, s.name, s.comment);
    BlankNewLine(b, r.b, p, r.next);
  }

  /** A named section. */
  lemma {:induction false} LoadsNamed(
    b: string, p0: nat, p: nat, start: nat, end: nat, section: Option<nat>, fmt: Format, c: seq<Section<string>>,
        s: Section<string>)
    returns (b': string, p': nat, section': Option<nat>)
    requires IsBuffer(b) && p < |b| && Blank(b, p0, p) && Inside(section, |b|)
    requires NewName(c, s.name) && DistinctKeys(s.entries) && SectionOk(s, fmt.multiLine) && s.name != ""
    requires Here(b, p, Header(s)) && Here(b, start, PrintEntries(s.entries, fmt)) && end < |b|
    requires start == p + |Header(s)| && end == start + |PrintEntries(s.entries, fmt)|
    ensures IsBuffer(b') && p' < |b| == |b'| && SameOutside(b, b', p, end) && p' <= end && Blank(b', p', end)
    ensures Inside(section', |b|) && p0 < |b|
    ensures Continues(b, p0, section, c, b', p', section', c + [s], fmt.multiLine)
  {
    hide LoadEntries, AllFinal, Here, NameOk, EntriesOk, Stays, Blank, NewName, DistinctKeys, PrintEntries, CommentOk,
        Header;
    var r := LoadsHeader(b, p0, p, section, fmt, c, s);
    HereOutside(b, r.b, p, r.next, start, PrintEntries(s.entries, fmt));
    section' := r.section;
    b', p' := SectionEntries(r.b, r.next, start, section', fmt, c, s);
  }

  lemma {:induction false} BlankNewLine(b: string, b': string, p: nat, at: nat)
    requires SameOutside(b, b', p, at) && at < |b| && b[at] == '\n'
    ensures b'[at] == '\n' && Blank(b', at, at + 1)
  {
  }

  lemma {:induction false} HeaderNamed(r: Found, name: string)
    requires ValidFound(r, |r.b|) && Stays(r.b, r.section, name, r.next)
    ensures NameAt(r.b, r.section) == name
  {
    StaysOn(r.b, r.b, r.section, name, r.next, r.next, r.next);
  }

  lemma {:induction false} OpensUnnamed(b: string, p0: nat, p: nat, fmt: Format, e: Entry<string>) returns (r: Found)
    requires IsBuffer(b) && Blank(b, p0, p) && EntryOk(e, fmt.multiLine)
    requires Here(b, p, PrintEntry(e, fmt)) && p + |PrintEntry(e, fmt)| < |b|
    ensures p0 < |b| && ValidFound(r, |b|) && r.next == p + |PrintEntry(e, fmt)| && SameOutside(b, r.b, p, r.next)
    ensures Continues(b, p0, None, [], r.b, r.next, None, [Section("", None, [e])], fmt.multiLine)
  {
    hide LoadEntries, AllFinal, FindEntry, Here, EntryOk, PrintEntry, Add, CStr;
    r := EntryFound(b, p0, p, None, fmt, e);
    TakesEntry(b, p0, None, fmt.multiLine, [], "", e, r);
    OpensWithEntry([], "", e);
    assert [] + [Section("", None, [e])] == [Section("", None, [e])];
  }

  /** The unnamed section, which opens with its first entry. */
  lemma {:induction false} LoadsUnnamed(b: string, p0: nat, p: nat, fmt: Format, s: Section<string>)
    returns (b': string, p': nat)
    requires IsBuffer(b) && p < |b| && Blank(b, p0, p)
    requires DistinctKeys(s.entries) && SectionOk(s, fmt.multiLine) && s.name == "" && s.entries != []
    requires Here(b, p, PrintEntries(s.entries, fmt)) && p + |PrintEntries(s.entries, fmt)| < |b|
    ensures var end := p + |PrintEntries(s.entries, fmt)|;
            && IsBuffer(b') && p' < |b| == |b'| && SameOutside(b, b', p, end) && p' <= end
            && Blank(b', p', end) && p0 < |b|
            && Continues(b, p0, None, [], b', p', None, [s], fmt.multiLine)
  {
    hide LoadEntries, AllFinal, Here, EntryOk, PrintEntry;
    var e, rest := s.entries[0], s.entries[1..];
    FirstOk(s.entries, fmt.multiLine);
    HereParts(b, p, PrintEntry(e, fmt), PrintEntries(rest, fmt));
    var r := OpensUnnamed(b, p0, p, fmt, e);
    HereOutside(b, r.b, p, r.next, r.next, PrintEntries(rest, fmt));
    var first := Section("", None, [e]);
    assert first.entries + rest == s.entries && [] + [first] == [first];
    hide EntriesOk, DistinctKeys, SameOutside, Blank;
    b', p' := LoadsEntries(r.b, r.next, r.next, None, fmt, [], first, rest);
    assert [] + [first.(entries := first.entries + rest)] == [s];
  }

  lemma {:induction false} NothingLeft(b: string, p0: nat, p: nat, section: Option<nat>, multiLine: bool,
      c: seq<Section<string>>)
    requires IsBuffer(b) && p < |b| && Blank(b, p0, p) && b[p] == NUL && Inside(section, |b|)
    ensures LoadEntries(b, p0, section, multiLine, c) == c && AllFinal(b, p0, section, multiLine)
  {
    assert SkipSpaces(b, p0) == p;
  }

  // ----- whole files -----

  /** The first of the sections left. */
  lemma {:induction false} LoadsNext(
    b: string, p0: nat, p: nat, section: Option<nat>, fmt: Format, c: seq<Section<string>>,
        rest: seq<Section<string>>, gap: bool)
    returns (b': string, p': nat, end: nat, section': Option<nat>)
    requires IsBuffer(b) && p < |b| && Blank(b, p0, p) && Inside(section, |b|)
    requires rest != [] && Printable(c + rest, fmt.multiLine) && rest[0].name != ""
    requires Here(b, p, PrintSections(rest, fmt, gap))
    requires p + |PrintSections(rest, fmt, gap)| == |b| - 1
    ensures IsBuffer(b') && p' < |b'| == |b| && end < |b| && Blank(b', p', end) && Inside(section', |b|)
    ensures Here(b', end, PrintSections(rest[1..], fmt, true)) && end + |PrintSections(rest[1..], fmt, true)| == |b| - 1
    ensures Continues(b, p0, section, c, b', p', section', c + [rest[0]], fmt.multiLine)
  {
    hide Continues, Here, PrintEntries, PrintSections, SectionOk, Fold, Blank, DistinctKeys, NewName, Printable;
    var s := rest[0];
    NextSection(c, rest, fmt.multiLine);
    assert rest == [s] + rest[1..];
    var start;
    start, end := SectionParts(b, p0, p, s, rest[1..], fmt, gap);
    b', p', section' := LoadsNamed(b, p0, start, start + |Header(s)|, end, section, fmt, c, s);
    HereOutside(b, b', start, end, end, PrintSections(rest[1..], fmt, true));
  }

  /** Named sections one after the other, up to the end of the data. */
  lemma {:induction false} LoadsSections(
    b: string, p0: nat, p: nat, section: Option<nat>, fmt: Format, c: seq<Section<string>>,
        rest: seq<Section<string>>, gap: bool)
    requires IsBuffer(b) && p < |b| && Blank(b, p0, p) && Inside(section, |b|)
    requires Printable(c + rest, fmt.multiLine) && forall i | 0 <= i < |rest| :: rest[i].name != ""
    requires Here(b, p, PrintSections(rest, fmt, gap))
    requires p + |PrintSections(rest, fmt, gap)| == |b| - 1
    ensures LoadEntries(b, p0, section, fmt.multiLine, c) == c + rest && AllFinal(b, p0, section, fmt.multiLine)
    decreases |rest|
  {
    hide LoadEntries, AllFinal, Here, PrintSection, Blank, Printable;
    if rest == [] {
      NothingLeft(b, p0, p, section, fmt.multiLine, c);
      assert c + rest == c;
    } else {
      hide PrintSections;
      var b', p', end, section' := LoadsNext(b, p0, p, section, fmt, c, rest, gap);
      assert c + [rest[0]] + rest[1..] == c + rest;
      LoadsSections(b', p', end, section', fmt, c + [rest[0]], rest[1..], true);
    }
  }

  lemma {:induction false} NextSection(c: seq<Section<string>>, rest: seq<Section<string>>, multiLine: bool)
    requires rest != [] && Printable(c + rest, multiLine)
    ensures NewName(c, rest[0].name) && DistinctKeys(rest[0].entries) && SectionOk(rest[0], multiLine)
  {
    hide Fold, SectionOk;
    var all := c + rest;
    assert all[|c|] == rest[0];
    forall i | 0 <= i < |c| ensures Fold(c[i].name) != Fold(rest[0].name) {
      assert all[i] == c[i];
    }
  }

  /** Where the parts of a printed section stand. */
  lemma {:induction false} SectionParts(
    b: string, p0: nat, p: nat, s: Section<string>, rest: seq<Section<string>>, fmt: Format, gap: bool)
    returns (start: nat, end: nat)
    requires Blank(b, p0, p)
    requires Here(b, p, PrintSections([s] + rest, fmt, gap))
    ensures Blank(b, p0, start) && end == start + |Header(s)| + |PrintEntries(s.entries, fmt)|
    ensures Here(b, start, Header(s)) && Here(b, start + |Header(s)|, PrintEntries(s.entries, fmt))
    ensures Here(b, end, PrintSections(rest, fmt, true))
    ensures end + |PrintSections(rest, fmt, true)| == p + |PrintSections([s] + rest, fmt, gap)|
  {
    hide PrintEntries, PrintSections, Here, Blank, Header;
    SectionText(s, rest, fmt, gap);
    var newLines := if gap then "\n\n" else "";
    FourParts(b, p, newLines, Header(s), PrintEntries(s.entries, fmt), PrintSections(rest, fmt, true));
    start := p + |newLines|;
    BlankOn(b, p0, p, newLines);
    end := start + |Header(s)| + |PrintEntries(s.entries, fmt)|;
  }

  lemma {:induction false} FourParts(b: string, p: nat, w: string, x: string, y: string, z: string)
    requires Here(b, p, w + (x + (y + z)))
    ensures Here(b, p, w) && Here(b, p + |w|, x) && Here(b, p + |w| + |x|, y) && Here(b, p + |w| + |x| + |y|, z)
    ensures |w + (x + (y + z))| == |w| + |x| + |y| + |z|
  {
    hide Here;
    HereParts(b, p, w, x + (y + z));
    HereParts(b, p + |w|, x, y + z);
    HereParts(b, p + |w| + |x|, y, z);
  }

  lemma {:induction false} BlankOn(b: string, p0: nat, p: nat, s: string)
    requires Blank(b, p0, p) && Here(b, p, s) && forall i | 0 <= i < |s| :: s[i] == '\n'
    ensures Blank(b, p0, p + |s|)
  {
    HereAll(b, p, s);
  }

  lemma {:induction false} SectionText(s: Section<string>, rest: seq<Section<string>>, fmt: Format, gap: bool)
    ensures var newLines := if gap then "\n\n" else "";
      PrintSections([s] + rest, fmt, gap) == newLines
          + (Header(s) + (PrintEntries(s.entries, fmt) + PrintSections(rest, fmt, true)))
  {
    hide PrintEntries, PrintHeader, PrintComment;
    var newLines := if gap then "\n\n" else "";
    var comment, header, body, more := PrintComment(s.comment), PrintHeader(s), PrintEntries(s.entries, fmt),
        PrintSections(rest, fmt, true);
    assert ([s] + rest)[1..] == rest;
    assert PrintSections([s] + rest, fmt, gap) == (newLines + comment + header + body) + more;
    hide PrintSections;
    Assoc(newLines, comment, header);
    Assoc(newLines + (comment + header), body, more);
    Assoc(newLines, comment + header, body + more);
  }

  lemma {:induction false} TextOf(text: string)
    ensures var b := text + [NUL]; IsBuffer(b) && Here(b, 0, text)
  {
  }

  lemma {:induction false} NoFileComment(b: string)
    requires IsBuffer(b) && !IsComment(b[0])
    ensures LoadComment(b, 0, false) == Loaded(false, b, 0)
  {
  }

  /** Without a comment for the first section, a printed file does not start with one. */
  lemma {:induction false} StartsPlain(c: seq<Section<string>>, fmt: Format)
    requires Printable(c, fmt.multiLine) && c != [] && c[0].comment.None?
    ensures var text := PrintSections(c, fmt, false); text != "" && !IsComment(text[0])
  {
    hide Fold, NoTagLine, Distinct, SectionOk;
    var s := c[0];
    assert SectionOk(s, fmt.multiLine);
    SectionStarts(s, fmt);
  }

  lemma {:induction false} SectionStarts(s: Section<string>, fmt: Format)
    requires SectionOk(s, fmt.multiLine) && s.comment.None? && (s.name == "" ==> s.entries != [])
    ensures var text := PrintSection(s, fmt, false); text != "" && !IsComment(text[0])
  {
    hide Fold, NameOk, EntriesOk, PrintEntry, KeyOk, CommentOk;
    if s.name == "" {
      var e := s.entries[0];
      FirstOk(s.entries, fmt.multiLine);
      KeyChars(e.key);
      FirstOfEntry(e, fmt);
    } else {
      assert PrintHeader(s)[0] == '[';
    }
  }

  lemma {:induction false} FirstOfEntry(e: Entry<string>, fmt: Format)
    requires e.key != ""
    ensures PrintEntry(e, fmt) != "" && PrintEntry(e, fmt)[0] == if e.comment.None? then e.key[0] else '\n'
  {
    hide PrintValue, PrintComment;
  }

  /** Sections from anywhere in the buffer to the end of the data. */
  lemma {:induction false} LoadsText(b: string, p: nat, c: seq<Section<string>>, fmt: Format, gap: bool)
    requires IsBuffer(b) && p < |b| && Printable(c, fmt.multiLine)
    requires Here(b, p, PrintSections(c, fmt, gap)) && p + |PrintSections(c, fmt, gap)| == |b| - 1
    ensures LoadEntries(b, p, None, fmt.multiLine, []) == c && AllFinal(b, p, None, fmt.multiLine)
  {
    hide LoadEntries, AllFinal, Here, SectionOk, Fold, PrintEntries, Distinct, PrintSections;
    NothingBlank(b, p);
    assert [] + c == c;
    if c != [] && c[0].name == "" {
      LoadsWithUnnamed(b, p, c, fmt, gap);
    } else {
      LoadsSections(b, p, p, None, fmt, [], c, gap);
    }
  }

  lemma {:induction false} UnnamedText(c: seq<Section<string>>, fmt: Format, gap: bool)
    requires c != [] && c[0].name == "" && c[0].comment.None?
    ensures PrintSections(c, fmt, gap)
            == (if gap then "\n\n" else "") + (PrintEntries(c[0].entries, fmt) + PrintSections(c[1..], fmt, true))
  {
    hide PrintEntries;
    var newLines := if gap then "\n\n" else "";
    assert PrintSection(c[0], fmt, gap) == newLines + PrintEntries(c[0].entries, fmt);
    hide PrintSection;
    Assoc(newLines, PrintEntries(c[0].entries, fmt), PrintSections(c[1..], fmt, true));
  }

  lemma {:induction false} LoadsWithUnnamed(b: string, p: nat, c: seq<Section<string>>, fmt: Format, gap: bool)
    requires IsBuffer(b) && p < |b| && Printable(c, fmt.multiLine) && c != [] && c[0].name == ""
    requires Here(b, p, PrintSections(c, fmt, gap)) && p + |PrintSections(c, fmt, gap)| == |b| - 1
    ensures LoadEntries(b, p, None, fmt.multiLine, []) == c && AllFinal(b, p, None, fmt.multiLine)
  {
    hide LoadEntries, AllFinal, Here, EntriesOk, Fold, PrintEntries, Distinct, DistinctKeys, PrintSections, Stays,
        CommentOk;
    var newLines, body, more := if gap then "\n\n" else "", PrintEntries(c[0].entries, fmt),
        PrintSections(c[1..], fmt, true);
    assert [] + c == c;
    NextSection([], c, fmt.multiLine);
    UnnamedText(c, fmt, gap);
    HereParts(b, p, newLines, body + more);
    HereParts(b, p + |newLines|, body, more);
    NothingBlank(b, p);
    BlankOn(b, p, p, newLines);
    var start := p + |newLines|;
    var b', p' := LoadsUnnamed(b, p, start, fmt, c[0]);
    var end := start + |body|;
    HereOutside(b, b', start, end, end, more);
    assert [c[0]] + c[1..] == c;
    LoadsSections(b', p', end, None, fmt, [c[0]], c[1..], true);
  }

  /** The file's own comment is read in front of everything, and the sections behind it. */
  lemma {:induction false} LoadsFile(f: File, fmt: Format)
    requires FileOk(f, fmt.multiLine) && OwnComment(f)
    ensures var text := Print(f, fmt, false);
      text != "" ==>
        var r := FileComment(text + [NUL], false);
        && (if r.ok then Some(CStr(r.b, 0)) else None) == f.comment
        && LoadEntries(r.b, r.next, None, fmt.multiLine, []) == f.sections && AllFinal(r.b, r.next, None, fmt.multiLine)
  {
    hide LoadEntries, AllFinal, Printable, LoadComment, PrintSections, CommentOk, CStr;
    var text := PrintSections(f.sections, fmt, f.comment.Some?);
    if f.comment.Some? {
      LoadsCommented(f.sections, fmt, f.comment.value);
    } else {
      assert Print(f, fmt, false) == text;
      if f.sections != [] {
        StartsPlain(f.sections, fmt);
        NoFileComment(text + [NUL]);
        TextOf(text);
        LoadsText(text + [NUL], 0, f.sections, fmt, false);
      } else {
        EmptyText(fmt);
      }
    }
  }

  lemma {:induction false} CommentedFile(c: seq<Section<string>>, fmt: Format, t: string)
    requires t != ""
    ensures Print(File(Some(t), c), fmt, false) == (t + "\n") + PrintSections(c, fmt, true)
  {
    hide PrintSections;
    assert "" + (t + "\n") == t + "\n";
  }

  lemma {:induction false} LoadsCommented(c: seq<Section<string>>, fmt: Format, t: string)
    requires Printable(c, fmt.multiLine) && CommentOk(t, false)
    ensures var b := Print(File(Some(t), c), fmt, false) + [NUL];
      && IsBuffer(b)
      && var r := LoadComment(b, 0, false);
         r.ok && CStr(r.b, 0) == t && LoadEntries(r.b, r.next, None, fmt.multiLine, []) == c
             && AllFinal(r.b, r.next, None, fmt.multiLine)
  {
    CommentedFile(c, fmt, t);
    TextOf((t + "\n") + PrintSections(c, fmt, true));
    hide LoadEntries, AllFinal, Printable, LoadComment, PrintSections, CStr, Here, Print;
    BehindComment((t + "\n") + PrintSections(c, fmt, true) + [NUL], c, fmt, t);
  }

  lemma {:induction false} BehindComment(b: string, c: seq<Section<string>>, fmt: Format, t: string)
    requires Printable(c, fmt.multiLine) && CommentOk(t, false)
    requires IsBuffer(b) && Here(b, 0, (t + "\n") + PrintSections(c, fmt, true))
    requires |t| + 1 + |PrintSections(c, fmt, true)| == |b| - 1
    ensures var r := LoadComment(b, 0, false);
      r.ok && CStr(r.b, 0) == t && LoadEntries(r.b, r.next, None, fmt.multiLine, []) == c
          && AllFinal(r.b, r.next, None, fmt.multiLine)
  {
    hide LoadEntries, AllFinal, Printable, LoadComment, PrintSections, CStr, Here, CommentText;
    var text, p := PrintSections(c, fmt, true), |t| + 1;
    HereParts(b, 0, t + "\n", text);
    GapFollows(b, p, c, fmt);
    LoadCommentIs(b, 0, t, false);
    HereBehind(b, b[|t| := NUL], |t|, p, text);
    LoadsText(b[|t| := NUL], p, c, fmt, true);
  }

  lemma {:induction false} GapFollows(b: string, p: nat, c: seq<Section<string>>, fmt: Format)
    requires IsBuffer(b) && Here(b, p, PrintSections(c, fmt, true)) && p + |PrintSections(c, fmt, true)| == |b| - 1
    ensures p < |b| && !IsComment(b[p])
  {
    hide PrintComment, PrintHeader, PrintEntries;
    if c != [] {
      assert PrintSection(c[0], fmt, true)[0] == '\n';
      hide PrintSection;
      HereAt(b, p, PrintSections(c, fmt, true), 0);
    }
  }

  /**
   Loading what was printed gives back the same comments, sections, keys and values in the same order, unless a
   file without a comment takes that of its first section. Without a signature of its own, the text must not happen
   to start like one.
   */
  lemma {:induction false} RoundTrip(f: File, fmt: Format, utf8: bool, signature: bool)
    requires FileOk(f, fmt.multiLine)
    requires signature ==> utf8
    requires utf8 && !signature ==> !(BOM <= Print(f, fmt, false))
    ensures var text := Print(f, fmt, signature);
      && (Load(text, utf8, fmt.multiLine, File(None, [])) == f <==> OwnComment(f))
      && (OwnComment(f) ==> FinalText(text, utf8, fmt.multiLine, false))
  {
    hide LoadEntries, AllFinal, FileOk, FileComment, PrintSections, CStr, OwnComment;
    PlainText8(f, fmt, utf8, signature);
    if !OwnComment(f) {
      CommentTaken(f, fmt);
    } else {
      LoadsFile(f, fmt);
      if Print(f, fmt, false) == "" {
        NothingPrinted(f, fmt);
      }
    }
    hide Print;
  }

  lemma {:induction false} CommentTaken(f: File, fmt: Format)
    requires FileOk(f, fmt.multiLine) && !OwnComment(f)
    ensures var text := Print(f, fmt, false);
      f.comment.None? && text != "" && FileComment(text + [NUL], false).ok
  {
    hide Printable, PrintSections, LoadComment, CommentOk;
    var s, text := f.sections[0], Print(f, fmt, false);
    FirstSectionOk(f.sections, fmt.multiLine);
    CommentFirst(f.sections, fmt);
    assert text == PrintSections(f.sections, fmt, false);
    TextOf(text);
    CommentRead(text + [NUL]);
  }

  lemma {:induction false} FirstSectionOk(c: seq<Section<string>>, multiLine: bool)
    requires Printable(c, multiLine) && c != []
    ensures SectionOk(c[0], multiLine)
  {
    hide SectionOk, Distinct;
  }

  lemma {:induction false} CommentFirst(c: seq<Section<string>>, fmt: Format)
    requires c != [] && c[0].comment.Some? && CommentOk(c[0].comment.value, true)
    ensures var text := PrintSections(c, fmt, false); text != "" && IsComment(text[0])
  {
    hide PrintHeader, PrintEntries, CommentText;
    var t := c[0].comment.value;
    assert PrintSection(c[0], fmt, false)[0] == t[0];
    hide PrintSection;
  }

  lemma {:induction false} CommentRead(b: string)
    requires IsBuffer(b) && IsComment(b[0])
    ensures LoadComment(b, 0, false).ok
  {
    hide Overwrite;
  }

  lemma {:induction false} NothingPrinted(f: File, fmt: Format)
    requires FileOk(f, fmt.multiLine) && OwnComment(f) && Print(f, fmt, false) == ""
    ensures f == File(None, [])
  {
    hide Printable, PrintSections, CommentText;
    if f.comment.None? && f.sections != [] {
      StartsPlain(f.sections, fmt);
    }
  }

  /** The pointers that a first load keeps show the same when it is over. */
  lemma {:induction false} RoundTripKept(f: File, fmt: Format)
    requires FileOk(f, fmt.multiLine) && OwnComment(f) && f != File(None, [])
    ensures Print(f, fmt, false) != ""
    ensures var r := FileComment(Print(f, fmt, false) + [NUL], false);
      var end := BufferAfter(r.b, r.next, None, fmt.multiLine);
      && ReadComment(LoadedComment(None, r, false), end) == f.comment
      && ReadSections(LoadStored(r.b, r.next, None, fmt.multiLine, false, []), end) == f.sections
  {
    hide LoadEntries, AllFinal, FileOk, Print, LoadStored, BufferAfter, LoadComment, CStr;
    if Print(f, fmt, false) == "" {
      NothingPrinted(f, fmt);
    } else {
      LoadsFile(f, fmt);
      var b := Print(f, fmt, false) + [NUL];
      Loads(b, None, fmt.multiLine, false, [], "",
          BufferAfter(FileComment(b, false).b, FileComment(b, false).next, None, fmt.multiLine));
      assert ReadSections([], "") == [];
    }
  }

  lemma {:induction false} EmptyText(fmt: Format)
    ensures PrintSections([], fmt, false) == ""
  {
  }

  lemma {:induction false} PlainText8(f: File, fmt: Format, utf8: bool, signature: bool)
    requires signature ==> utf8
    requires utf8 && !signature ==> !(BOM <= Print(f, fmt, false))
    ensures WithoutBom(Print(f, fmt, signature), utf8) == Print(f, fmt, false)
  {
    hide PrintSections, PrintComment;
    var text := Print(f, fmt, false);
    var data := Print(f, fmt, signature);
    if signature {
      assert data == BOM + text;
    } else {
      assert data == text;
    }
  }
}
