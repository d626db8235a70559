/**
 A first load keeps pointers to the values it finds. Read when loading is over, they are the values as
 they were found, unless one of them is an empty multi-line text with more behind it.
 */
module IniKept {
  import opened Options
  import opened IniText
  import opened IniStore
  import opened IniPointers
  import opened IniFinal

  // ----- adding and reading -----

  lemma {:induction false} SameKey(es: seq<Entry<Stored>>, b: string, key: string)
    ensures FindKey(ReadEntries(es, b), key) == FindKey(es, key)
    decreases |es|
  {
    hide Fold;
    if es != [] && Fold(es[0].key) != Fold(key) {
      assert ReadEntries(es, b)[1..] == ReadEntries(es[1..], b);
      SameKey(es[1..], b, key);
    }
  }

  lemma {:induction false} SameSection(c: seq<Section<Stored>>, b: string, name: string)
    ensures FindSection(ReadSections(c, b), name) == FindSection(c, name)
    decreases |c|
  {
    hide Fold, ReadEntries;
    if c != [] && Fold(c[0].name) != Fold(name) {
      assert ReadSections(c, b)[1..] == ReadSections(c[1..], b);
      SameSection(c[1..], b, name);
    }
  }

  function ReadKeyValue(kv: KeyValue<Stored>, b: string): KeyValue<string> {
    KeyValue(kv.key, Read(kv.value, b))
  }

  lemma {:induction false} ReadPut(es: seq<Entry<Stored>>, kv: KeyValue<Stored>, comment: Option<string>, b: string)
    ensures ReadEntries(Put(es, kv, comment), b) == Put(ReadEntries(es, b), ReadKeyValue(kv, b), comment)
  {
    SameKey(es, b, kv.key);
    hide FindKey, Read;
  }

  lemma {:induction false} ReadOpened(c: seq<Section<Stored>>, name: string, kv: Option<KeyValue<Stored>>,
      kv': Option<KeyValue<string>>, comment: Option<string>, b: string)
    requires kv.None? <==> kv'.None?
    ensures ReadSections(Opened(c, name, kv, comment), b) == Opened(ReadSections(c, b), name, kv', comment)
  {
    SameSection(c, b, name);
    assert ReadEntries([], b) == [];
    hide FindSection, ReadEntries;
  }

  /** Reading what was added to is adding to what was read. */
  lemma {:induction false} ReadAdd(c: seq<Section<Stored>>, name: string, kv: Option<KeyValue<Stored>>,
      comment: Option<string>, b: string)
    ensures ReadSections(Add(c, name, kv, comment), b)
            == Add(ReadSections(c, b), name, if kv.None? then None else Some(ReadKeyValue(kv.value, b)), comment)
  {
    var kv' := if kv.None? then None else Some(ReadKeyValue(kv.value, b));
    SameSection(c, b, name);
    ReadOpened(c, name, kv, kv', comment, b);
    var i := FindSection(c, name);
    var c' := Opened(c, name, kv, comment);
    if kv.Some? {
      ReadPut(c'[i].entries, kv.value, comment, b);
      ReadChanged(c', i, Put(c'[i].entries, kv.value, comment), b);
    }
    hide FindSection, Opened, ReadEntries, ReadSections, Put;
  }

  lemma {:induction false} ReadChanged(c: seq<Section<Stored>>, i: nat, es: seq<Entry<Stored>>, b: string)
    requires i < |c|
    ensures ReadSections(c[i := c[i].(entries := es)], b)
          == ReadSections(c, b)[i := ReadSections(c, b)[i].(entries := ReadEntries(es, b))]
  {
    hide ReadEntries;
  }

  lemma {:induction false} ReadLookup(c: seq<Section<Stored>>, name: string, key: string, b: string)
    ensures var v := Lookup(c, name, key);
          Lookup(ReadSections(c, b), name, key) == if v.None? then None else Some(Read(v.value, b))
  {
    SameSection(c, b, name);
    var i := FindSection(c, name);
    if i < |c| {
      SameKey(c[i].entries, b, key);
    }
    hide FindSection, FindKey, Read;
  }

  // ----- where pointers point -----

  predicate EntriesPoint(es: seq<Entry<Stored>>, size: nat) {
    forall i | 0 <= i < |es| :: Points(es[i].value, size)
  }

  predicate AllPoint(c: seq<Section<Stored>>, size: nat) {
    forall i | 0 <= i < |c| :: EntriesPoint(c[i].entries, size)
  }

  lemma {:induction false} PutPoints(es: seq<Entry<Stored>>, kv: KeyValue<Stored>, comment: Option<string>, size: nat)
    requires EntriesPoint(es, size) && Points(kv.value, size)
    ensures EntriesPoint(Put(es, kv, comment), size)
  {
    hide FindKey;
  }

  lemma {:induction false} AddPoints(c: seq<Section<Stored>>, name: string, kv: Option<KeyValue<Stored>>,
      comment: Option<string>, size: nat)
    requires AllPoint(c, size) && (kv.Some? ==> Points(kv.value.value, size))
    ensures AllPoint(Add(c, name, kv, comment), size)
  {
    hide FindSection, Put;
    var i, c' := FindSection(c, name), Opened(c, name, kv, comment);
    assert EntriesPoint([], size);
    assert AllPoint(c', size);
    if kv.Some? {
      PutPoints(c'[i].entries, kv.value, comment, size);
    }
    hide EntriesPoint, Opened;
  }

  lemma {:induction false} LoadPoints(b: string, p: nat, section: Option<nat>, multiLine: bool, copy: bool,
      c: seq<Section<Stored>>, size: nat)
    requires IsBuffer(b) && p < |b| && Inside(section, |b|) && AllPoint(c, size) && (copy || size == |b|)
    ensures AllPoint(LoadStored(b, p, section, multiLine, copy, c), size)
    decreases |b| - p
  {
    hide FindEntry, Add, AllPoint, CStr;
    var r := FindEntry(b, p, section, None, multiLine);
    if r.found {
      var kv := if r.key.None? then None
        else Some(KeyValue(CStr(r.b, r.key.value),
            if copy then Copied(CStr(r.b, r.val.value)) else Pointer(r.val.value)));
      AddPoints(c, NameAt(r.b, r.section), kv, TextAt(r.b, r.comment), size);
      LoadPoints(r.b, r.next, r.section, multiLine, copy, AddStored(c, r, copy), size);
    }
  }

  lemma {:induction false} PointsWider(c: seq<Section<Stored>>, size: nat, size': nat)
    requires AllPoint(c, size) && size <= size'
    ensures AllPoint(c, size')
  {
  }

  /** Where there are no pointers, the buffer does not matter. */
  lemma {:induction false} AllCopied(c: seq<Section<Stored>>, b: string, b': string)
    requires AllPoint(c, 0)
    ensures ReadSections(c, b) == ReadSections(c, b')
  {
    forall i | 0 <= i < |c|
      ensures ReadEntries(c[i].entries, b) == ReadEntries(c[i].entries, b')
    {
      assert EntriesPoint(c[i].entries, 0);
      hide EntriesPoint;
      CopiedEntries(c[i].entries, b, b');
    }
    hide ReadEntries;
  }

  lemma {:induction false} CopiedEntries(es: seq<Entry<Stored>>, b: string, b': string)
    requires EntriesPoint(es, 0)
    ensures ReadEntries(es, b) == ReadEntries(es, b')
  {
    hide CStr;
  }

  // ----- the whole run -----

  /** No value is such a text, unless loading leaves the rest of the data as it is. */
  ghost predicate AllFinal(b: string, p: nat, section: Option<nat>, multiLine: bool)
    requires IsBuffer(b) && p < |b| && Inside(section, |b|)
    decreases |b| - p
  {
    var r := FindEntry(b, p, section, None, multiLine);
    r.found ==>
      && (r.val.Some? && EndsAtOnce(b, p, multiLine) ==> Quiet(b, r.next))
      && AllFinal(r.b, r.next, r.section, multiLine)
  }

  /** Copied values do not depend on the buffer. */
  lemma {:induction false} CopiesRead(b: string, p: nat, section: Option<nat>, multiLine: bool,
      c: seq<Section<Stored>>, d: string)
    requires IsBuffer(b) && p < |b| && Inside(section, |b|)
    ensures ReadSections(LoadStored(b, p, section, multiLine, true, c), d)
          == LoadEntries(b, p, section, multiLine, ReadSections(c, d))
    decreases |b| - p
  {
    hide FindEntry, Add, ReadSections, CStr;
    var r := FindEntry(b, p, section, None, multiLine);
    if r.found {
      ReadAdded(c, r, true, d);
      CopiesRead(r.b, r.next, r.section, multiLine, AddStored(c, r, true), d);
    }
  }

  lemma {:induction false} ReadAdded(c: seq<Section<Stored>>, r: Found, copy: bool, d: string)
    requires ValidFound(r, |r.b|) && r.found
    requires copy || (|d| == |r.b| && (r.val.Some? ==> CStr(d, r.val.value) == CStr(r.b, r.val.value)))
    ensures ReadSections(AddStored(c, r, copy), d) == AddFound(ReadSections(c, d), r)
  {
    hide Add, ReadSections, CStr;
    var kv := if r.key.None? then None
      else Some(KeyValue(CStr(r.b, r.key.value),
          if copy then Copied(CStr(r.b, r.val.value)) else Pointer(r.val.value)));
    ReadAdd(c, NameAt(r.b, r.section), kv, TextAt(r.b, r.comment), d);
  }

  /** The sections that the pointers show at the end are those of a load that copies every value as it is found. */
  lemma {:induction false} PointersRead(b: string, p: nat, section: Option<nat>, multiLine: bool,
      c: seq<Section<Stored>>)
    requires IsBuffer(b) && p < |b| && UpTo(section, p) && AllFinal(b, p, section, multiLine)
    ensures var end := BufferAfter(b, p, section, multiLine);
      ReadSections(LoadStored(b, p, section, multiLine, false, c), end)
          == LoadEntries(b, p, section, multiLine, ReadSections(c, end))
    decreases |b| - p
  {
    hide FindEntry, Add, ReadSections, CStr, EndsAtOnce, Quiet;
    var r := FindEntry(b, p, section, None, multiLine);
    if r.found {
      if r.val.Some? {
        ValueIsFinal(b, p, section, multiLine, r);
      }
      SectionUpTo(b, p, section, multiLine);
      ReadAdded(c, r, false, BufferAfter(b, p, section, multiLine));
      PointersRead(r.b, r.next, r.section, multiLine, AddStored(c, r, false));
    }
  }

  /** Every value is at the end what it was when it was found. */
  ghost predicate ValuesStay(b: string, p: nat, section: Option<nat>, multiLine: bool)
    requires IsBuffer(b) && p < |b| && Inside(section, |b|)
    decreases |b| - p
  {
    var r := FindEntry(b, p, section, None, multiLine);
    r.found ==>
      && TextAt(BufferAfter(b, p, section, multiLine), r.val) == TextAt(r.b, r.val)
      && ValuesStay(r.b, r.next, r.section, multiLine)
  }

  /** So the condition is exact. */
  lemma {:induction false} AllFinalExactly(b: string, p: nat, section: Option<nat>, multiLine: bool)
    requires IsBuffer(b) && p < |b| && UpTo(section, p)
    ensures ValuesStay(b, p, section, multiLine) <==> AllFinal(b, p, section, multiLine)
    decreases |b| - p
  {
    hide FindEntry, CStr, EndsAtOnce, Quiet;
    var r := FindEntry(b, p, section, None, multiLine);
    if r.found {
      if r.val.Some? {
        ValueIsFinal(b, p, section, multiLine, r);
      }
      SectionUpTo(b, p, section, multiLine);
      AllFinalExactly(r.b, r.next, r.section, multiLine);
    }
  }

  /** A value that ends before the rest of the data is no exception. */
  lemma {:induction false} SettledIsFinal(b: string, p: nat, section: Option<nat>, multiLine: bool, r: Found)
    requires IsBuffer(b) && p < |b| && Inside(section, |b|) && r == FindEntry(b, p, section, None, multiLine) && r.found
    requires r.val.Some?
    requires Settled(r.b, r.val.value, r.next)
    ensures EndsAtOnce(b, p, multiLine) ==> Quiet(b, r.next)
  {
    hide FindEntry, EndsAtOnce, Quiet, CStr, Tail;
    EntryEnds(b, p, section, None, multiLine, r);
    EntryWithin(b, p, section, None, multiLine, |b| - 1);
    TailQuiet(b, r.b, r.next);
    AtEndQuiet(r.b, r.next);
  }

  /** The comment of the file is final. */
  lemma {:induction false} FileCommentIsFinal(b: string, multiLine: bool)
    requires IsBuffer(b)
    ensures var r := LoadComment(b, 0, false);
      r.ok ==> CStr(BufferAfter(r.b, r.next, None, multiLine), 0) == CStr(r.b, 0)
  {
    var r := LoadComment(b, 0, false);
    if r.ok {
      CommentSettles(b, 0, false);
      hide LoadComment, BufferAfter, CStr;
      RunKeeps(r.b, r.next, None, multiLine);
      SettledStays(r.b, BufferAfter(r.b, r.next, None, multiLine), 0, r.next);
    }
  }

  lemma {:induction false} CommentSettles(b: string, p: nat, blanks: bool)
    requires IsBuffer(b) && p < |b| && LoadComment(b, p, blanks).ok
    ensures var r := LoadComment(b, p, blanks); Settled(r.b, p, r.next)
  {
    hide CommentLines, Overwrite;
    var c := CommentLines(b, p, blanks);
    if c.atEnd {
      AtEndEnds(b, p, c);
    } else {
      var s := c.text[..|c.text| - 1] + [NUL];
      OverwriteEnds(b, p, s);
      EndsBefore(Overwrite(b, p, s), p, p + |s| - 1, c.at);
    }
  }

  lemma {:induction false} OverwriteEnds(b: string, at: nat, s: string)
    requires at + |s| <= |b| && s != ""
    ensures Overwrite(b, at, s)[at + |s| - 1] == s[|s| - 1]
  {
  }

  // ----- loading -----

  function LoadedComment(f: Option<Stored>, r: Loaded, copy: bool): Option<Stored>
    requires r.b != ""
  {
    if r.ok then Some(if copy then Copied(CStr(r.b, 0)) else Pointer(0)) else f
  }

  /** All values of the text are final. */
  ghost predicate FinalText(text: string, utf8: bool, multiLine: bool, known: bool) {
    var rest := WithoutBom(text, utf8);
    rest != "" ==> var r := FileComment(rest + [NUL], known); AllFinal(r.b, r.next, None, multiLine)
  }

  function ReadComment(f: Option<Stored>, b: string): Option<string> {
    if f.Some? then Some(Read(f.value, b)) else None
  }

  /** What is shown after a load: `d` is the buffer that pointers point into before, `e` the one after. */
  lemma {:induction false} Loads(b: string, f: Option<Stored>, multiLine: bool, copy: bool, c: seq<Section<Stored>>,
      d: string, e: string)
    requires IsBuffer(b) && AllPoint(c, |d|) && (f.Some? ==> Points(f.value, |d|))
    requires var r := FileComment(b, f.Some?);
          if copy then e == d else d == "" && e == BufferAfter(r.b, r.next, None, multiLine)
    ensures var r := FileComment(b, f.Some?); var f', c' := LoadedComment(f, r, copy),
          LoadStored(r.b, r.next, None, multiLine, copy, c);
      && AllPoint(c', |e|) && (f'.Some? ==> Points(f'.value, |e|))
      && (copy || AllFinal(r.b, r.next, None, multiLine) ==>
          ReadComment(f', e) == (if r.ok then Some(CStr(r.b, 0)) else ReadComment(f, d))
          && ReadSections(c', e) == LoadEntries(r.b, r.next, None, multiLine, ReadSections(c, d)))
  {
    var r := FileComment(b, f.Some?);
    if !copy && f.None? {
      FileCommentIsFinal(b, multiLine);
    }
    hide LoadStored, LoadEntries, BufferAfter, ReadSections, CStr, AllFinal, AllPoint, LoadComment;
    PointsWider(c, |d|, |e|);
    LoadPoints(r.b, r.next, None, multiLine, copy, c, |e|);
    if copy {
      CopiesRead(r.b, r.next, None, multiLine, c, d);
    } else {
      AllCopied(c, d, e);
      if AllFinal(r.b, r.next, None, multiLine) {
        PointersRead(r.b, r.next, None, multiLine, c);
      }
    }
  }

  /** The same for a text that holds something. */
  lemma {:induction false} LoadsShown(text: string, utf8: bool, f: Option<Stored>, multiLine: bool, copy: bool,
      c: seq<Section<Stored>>, d: string, e: string)
    requires WithoutBom(text, utf8) != "" && AllPoint(c, |d|) && (f.Some? ==> Points(f.value, |d|))
    requires var r := FileComment(WithoutBom(text, utf8) + [NUL], f.Some?);
          if copy then e == d else d == "" && e == BufferAfter(r.b, r.next, None, multiLine)
    ensures var r := FileComment(WithoutBom(text, utf8) + [NUL], f.Some?); var f', c' := LoadedComment(f, r, copy),
          LoadStored(r.b, r.next, None, multiLine, copy, c);
      && AllPoint(c', |e|) && (f'.Some? ==> Points(f'.value, |e|))
      && (copy || FinalText(text, utf8, multiLine, f.Some?) ==>
          File(ReadComment(f', e), ReadSections(c', e))
              == Load(text, utf8, multiLine, File(ReadComment(f, d), ReadSections(c, d))))
  {
    hide LoadStored, LoadEntries, BufferAfter, ReadSections, CStr, AllFinal, AllPoint, LoadComment;
    Loads(WithoutBom(text, utf8) + [NUL], f, multiLine, copy, c, d, e);
  }

  lemma {:induction false} LoadsNothing(text: string, utf8: bool, multiLine: bool, f: File)
    ensures WithoutBom(text, utf8) == "" ==> Load(text, utf8, multiLine, f) == f
  {
  }
}
