/**
 What conf/simpleini.h keeps and prints: sections and keys in the order in which they were first
 loaded, found without regard to case. Multi-key mode is off.
 */
module IniStore {
  import opened Options
  import opened IniText

  datatype Entry<V> = Entry(key: string, value: V, comment: Option<string>)
  datatype Section<V> = Section(name: string, comment: Option<string>, entries: seq<Entry<V>>)

  // ----- finding and adding -----

  /** The index of the section, or the number of sections. */
  function FindSection<V>(c: seq<Section<V>>, name: string): (i: nat)
    ensures i <= |c| && (i < |c| ==> Fold(c[i].name) == Fold(name))
    ensures forall j | 0 <= j < i :: Fold(c[j].name) != Fold(name)
  {
    if c == [] then 0
    else if Fold(c[0].name) == Fold(name) then 0
    else 1 + FindSection(c[1..], name)
  }

  function FindKey<V>(es: seq<Entry<V>>, key: string): (i: nat)
    ensures i <= |es| && (i < |es| ==> Fold(es[i].key) == Fold(key))
    ensures forall j | 0 <= j < i :: Fold(es[j].key) != Fold(key)
  {
    if es == [] then 0
    else if Fold(es[0].key) == Fold(key) then 0
    else 1 + FindKey(es[1..], key)
  }

  datatype KeyValue<V> = KeyValue(key: string, value: V)

  /** A known section keeps its comment; a new one takes the comment unless a key comes with it. */
  function Opened<V>(c: seq<Section<V>>, name: string, kv: Option<KeyValue<V>>,
      comment: Option<string>): (r: seq<Section<V>>)
    ensures FindSection(c, name) < |r|
  {
    if FindSection(c, name) < |c| then c
    else c + [Section(name, if kv.None? then comment else None, [])]
  }

  /** A known key keeps its name, place and comment, and takes the value. */
  function Put<V>(es: seq<Entry<V>>, kv: KeyValue<V>, comment: Option<string>): seq<Entry<V>> {
    var i := FindKey(es, kv.key);
    if i < |es| then es[i := es[i].(value := kv.value)] else es + [Entry(kv.key, kv.value, comment)]
  }

  function Add<V>(c: seq<Section<V>>, name: string, kv: Option<KeyValue<V>>, comment: Option<string>): seq<Section<V>> {
    var i := FindSection(c, name);
    var c' := Opened(c, name, kv, comment);
    match kv
    case None => c'
    case Some(kv) => c'[i := c'[i].(entries := Put(c'[i].entries, kv, comment))]
  }

  function Lookup<V>(c: seq<Section<V>>, name: string, key: string): Option<V> {
    var i := FindSection(c, name);
    if i == |c| then None
    else
      var j := FindKey(c[i].entries, key);
      if j == |c[i].entries| then None else Some(c[i].entries[j].value)
  }

  ghost predicate DistinctKeys<V>(es: seq<Entry<V>>) {
    forall i, j | 0 <= i < j < |es| :: Fold(es[i].key) != Fold(es[j].key)
  }

  ghost predicate Distinct<V>(c: seq<Section<V>>) {
    && (forall i, j | 0 <= i < j < |c| :: Fold(c[i].name) != Fold(c[j].name))
    && (forall i | 0 <= i < |c| :: DistinctKeys(c[i].entries))
  }

  // ----- loading -----

  function NameAt(b: string, section: Option<nat>): string
    requires Inside(section, |b|)
  {
    if section.None? then "" else CStr(b, section.value)
  }

  function TextAt(b: string, p: Option<nat>): Option<string>
    requires Inside(p, |b|)
  {
    if p.None? then None else Some(CStr(b, p.value))
  }

  /** One round of LoadData's loop. */
  function AddFound(c: seq<Section<string>>, r: Found): seq<Section<string>>
    requires ValidFound(r, |r.b|) && r.found
  {
    Add(c, NameAt(r.b, r.section),
        if r.key.None? then None else Some(KeyValue(CStr(r.b, r.key.value), CStr(r.b, r.val.value))),
        TextAt(r.b, r.comment))
  }

  function LoadEntries(b: string, p: nat, section: Option<nat>, multiLine: bool,
      c: seq<Section<string>>): seq<Section<string>>
    requires IsBuffer(b) && p < |b| && Inside(section, |b|)
    decreases |b| - p
  {
    var r := FindEntry(b, p, section, None, multiLine);
    if !r.found then c else LoadEntries(r.b, r.next, r.section, multiLine, AddFound(c, r))
  }

  // ----- values kept as pointers -----

  /** A copy, or a pointer into the buffer of the first load. */
  datatype Stored = Copied(text: string) | Pointer(at: nat)

  predicate Points(v: Stored, size: nat) {
    v.Pointer? ==> v.at < size
  }

  /** The string as it is while the buffer holds `b`. */
  function Read(v: Stored, b: string): string {
    match v
    case Copied(text) => text
    case Pointer(at) => if at < |b| then CStr(b, at) else ""
  }

  function ReadEntries(es: seq<Entry<Stored>>, b: string): (r: seq<Entry<string>>)
    ensures |r| == |es| && forall i | 0 <= i < |es| :: r[i] == Entry(es[i].key, Read(es[i].value, b), es[i].comment)
  {
    seq(|es|, i requires 0 <= i < |es| => Entry(es[i].key, Read(es[i].value, b), es[i].comment))
  }

  function ReadSections(c: seq<Section<Stored>>, b: string): (r: seq<Section<string>>)
    ensures |r| == |c| && forall i | 0 <= i < |c| ::
          r[i] == Section(c[i].name, c[i].comment, ReadEntries(c[i].entries, b))
  {
    seq(|c|, i requires 0 <= i < |c| => Section(c[i].name, c[i].comment, ReadEntries(c[i].entries, b)))
  }

  /** One round of LoadData's loop, with the value copied or kept as a pointer. */
  function AddStored(c: seq<Section<Stored>>, r: Found, copy: bool): seq<Section<Stored>>
    requires ValidFound(r, |r.b|) && r.found
  {
    Add(c, NameAt(r.b, r.section),
        if r.key.None? then None
        else Some(KeyValue(CStr(r.b, r.key.value),
            if copy then Copied(CStr(r.b, r.val.value)) else Pointer(r.val.value))),
        TextAt(r.b, r.comment))
  }

  function LoadStored(b: string, p: nat, section: Option<nat>, multiLine: bool, copy: bool,
      c: seq<Section<Stored>>): seq<Section<Stored>>
    requires IsBuffer(b) && p < |b| && Inside(section, |b|)
    decreases |b| - p
  {
    var r := FindEntry(b, p, section, None, multiLine);
    if !r.found then c else LoadStored(r.b, r.next, r.section, multiLine, copy, AddStored(c, r, copy))
  }

  /** The buffer when loading is over. */
  ghost function BufferAfter(b: string, p: nat, section: Option<nat>, multiLine: bool): (r: string)
    requires IsBuffer(b) && p < |b| && Inside(section, |b|)
    ensures |r| == |b|
    decreases |b| - p
  {
    var r := FindEntry(b, p, section, None, multiLine);
    if r.found then BufferAfter(r.b, r.next, r.section, multiLine) else r.b
  }

  const BOM: string := [0xEF as char, 0xBB as char, 0xBF as char]

  function WithoutBom(data: string, utf8: bool): string {
    if utf8 && BOM <= data then data[3..] else data
  }

  /** Everything a file holds: its comment, and its sections. */
  datatype File = File(comment: Option<string>, sections: seq<Section<string>>)

  /** The search for the comment of the file, if it has none yet. */
  function FileComment(b: string, known: bool): (r: Loaded)
    requires IsBuffer(b)
    ensures IsBuffer(r.b) && |r.b| == |b| && r.next < |b|
  {
    if known then Loaded(false, b, 0) else LoadComment(b, 0, false)
  }

  function Load(data: string, utf8: bool, multiLine: bool, f: File): File {
    var text := WithoutBom(data, utf8);
    if text == "" then f
    else
      var r := FileComment(text + [NUL], f.comment.Some?);
      File(if r.ok then Some(CStr(r.b, 0)) else f.comment, LoadEntries(r.b, r.next, None, multiLine, f.sections))
  }

  // ----- printing -----

  /** Every line of the text, each ended by a newline; nothing at all for the empty text. */
  function OutLines(text: string): string {
    if text == "" then "" else text + "\n"
  }

  predicate IsMultiLineData(v: string) {
    v != "" && (IsSpace(v[0]) || (exists i | 0 <= i < |v| :: IsNewLine(v[i])) || IsSpace(v[|v| - 1]))
  }

  const TAG: string := "END_OF_TEXT"

  datatype Format = Format(spaces: bool, multiLine: bool)

  function PrintValue(v: string, fmt: Format): string {
    if fmt.multiLine && IsMultiLineData(v) then "<<<" + TAG + "\n" + OutLines(v) + TAG else v
  }

  function PrintComment(comment: Option<string>): string {
    if comment.None? then "" else OutLines(comment.value)
  }

  function PrintEntry(e: Entry<string>, fmt: Format): string {
    (if e.comment.None? then "" else "\n" + PrintComment(e.comment))
    + e.key + (if fmt.spaces then " = " else "=") + PrintValue(e.value, fmt) + "\n"
  }

  function PrintEntries(es: seq<Entry<string>>, fmt: Format): string {
    if es == [] then "" else PrintEntry(es[0], fmt) + PrintEntries(es[1..], fmt)
  }

  function PrintHeader(s: Section<string>): string {
    if s.name == "" then "" else "[" + s.name + "]\n"
  }

  /** `gap`: something has been printed before, to be set off by two newlines. */
  function PrintSection(s: Section<string>, fmt: Format, gap: bool): string {
    (if gap then "\n\n" else "") + PrintComment(s.comment) + PrintHeader(s) + PrintEntries(s.entries, fmt)
  }

  function PrintSections(c: seq<Section<string>>, fmt: Format, gap: bool): string {
    if c == [] then "" else PrintSection(c[0], fmt, gap) + PrintSections(c[1..], fmt, true)
  }

  function Print(f: File, fmt: Format, signature: bool): string {
    (if signature then BOM else "") + PrintComment(f.comment) + PrintSections(f.sections, fmt, f.comment.Some?)
  }
}
