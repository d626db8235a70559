/**
 CSimpleIniTempl of conf/simpleini.h over plain characters: the maps of sections and keys it keeps,
 what is added to them, and what is loaded into and printed from them. Multi-key mode is off.
 */
module SimpleIni {
  import opened Options
  import opened Sequences
  import opened IniText
  import opened IniStore
  import opened NoCase
  import opened SimpleIniParser
  import opened IniKept

  /** A name with its comment and load order. */
  datatype Item = Item(name: string, comment: Option<string>, order: int)
  datatype KeyData = KeyData(item: Item, value: Stored)
  datatype SectionData = SectionData(item: Item, keys: map<string, KeyData>)

  // ----- what the maps stand for -----

  // The maps are keyed by folded names, which is what makes two names one entry for the comparison (NoCase.SameEntry).

  predicate KeyMatches(k: KeyData, e: Entry<Stored>, top: int) {
    k.item.name == e.key && k.item.comment == e.comment && k.value == e.value && k.item.order <= top
  }

  ghost predicate KeysMatch(keys: map<string, KeyData>, es: seq<Entry<Stored>>, top: int) {
    && (forall i | 0 <= i < |es| :: Fold(es[i].key) in keys && KeyMatches(keys[Fold(es[i].key)], es[i], top))
    && (forall f | f in keys :: exists i :: 0 <= i < |es| && Fold(es[i].key) == f)
    && (forall i, j | 0 <= i < j < |es| :: keys[Fold(es[i].key)].item.order < keys[Fold(es[j].key)].item.order)
  }

  ghost predicate SectionMatches(s: SectionData, c: Section<Stored>, top: int) {
    s.item.name == c.name && s.item.comment == c.comment && s.item.order <= top && KeysMatch(s.keys, c.entries, top)
  }

  ghost predicate DataMatches(data: map<string, SectionData>, c: seq<Section<Stored>>, top: int) {
    && (forall i | 0 <= i < |c| :: Fold(c[i].name) in data && SectionMatches(data[Fold(c[i].name)], c[i], top))
    && (forall f | f in data :: exists i :: 0 <= i < |c| && Fold(c[i].name) == f)
    && (forall i, j | 0 <= i < j < |c| :: data[Fold(c[i].name)].item.order < data[Fold(c[j].name)].item.order)
  }

  lemma {:induction false} KeyFound(keys: map<string, KeyData>, es: seq<Entry<Stored>>, top: int, key: string)
    requires KeysMatch(keys, es, top)
    ensures Fold(key) in keys <==> FindKey(es, key) < |es|
  {
  }

  lemma {:induction false} SectionFound(data: map<string, SectionData>, c: seq<Section<Stored>>, top: int, name: string)
    requires DataMatches(data, c, top)
    ensures Fold(name) in data <==> FindSection(c, name) < |c|
  {
  }

  lemma {:induction false} KeysDistinct(keys: map<string, KeyData>, es: seq<Entry<Stored>>, top: int)
    requires KeysMatch(keys, es, top)
    ensures DistinctKeys(es)
  {
    forall i, j | 0 <= i < j < |es|
      ensures Fold(es[i].key) != Fold(es[j].key)
    {
      assert keys[Fold(es[i].key)].item.order < keys[Fold(es[j].key)].item.order;
    }
  }

  /** The contents never name a section or a key twice. */
  lemma {:induction false} DataDistinct(data: map<string, SectionData>, c: seq<Section<Stored>>, top: int)
    requires DataMatches(data, c, top)
    ensures Distinct(c)
  {
    forall i, j | 0 <= i < j < |c|
      ensures Fold(c[i].name) != Fold(c[j].name)
    {
      assert data[Fold(c[i].name)].item.order < data[Fold(c[j].name)].item.order;
    }
    forall i | 0 <= i < |c|
      ensures DistinctKeys(c[i].entries)
    {
      KeysDistinct(data[Fold(c[i].name)].keys, c[i].entries, top);
    }
  }

  // ----- adding -----

  /** The section's keys with one more load order spent on the key. */
  function PutKey(keys: map<string, KeyData>, kv: KeyValue<Stored>, comment: Option<string>, order: int): map<string,
      KeyData> {
    var f := Fold(kv.key);
    if f in keys then keys[f := keys[f].(value := kv.value)]
    else keys[f := KeyData(Item(kv.key, comment, order), kv.value)]
  }

  lemma {:induction false} KeyPut(keys: map<string, KeyData>, es: seq<Entry<Stored>>, top: int, kv: KeyValue<Stored>,
      comment: Option<string>)
    requires KeysMatch(keys, es, top)
    ensures KeysMatch(PutKey(keys, kv, comment, top + 1), Put(es, kv, comment), top + 1)
  {
    KeyFound(keys, es, top, kv.key);
    KeysLater(keys, es, top, top + 1);
    var i := FindKey(es, kv.key);
    hide FindKey;
    if i < |es| {
      KeyUpdated(keys, es, top + 1, i, kv.value);
    } else {
      KeyAdded(keys, es, top, Entry(kv.key, kv.value, comment));
    }
  }

  lemma {:induction false} KeyUpdated(keys: map<string, KeyData>, es: seq<Entry<Stored>>, top: int, i: nat,
      value: Stored)
    requires KeysMatch(keys, es, top) && i < |es|
    ensures var f := Fold(es[i].key);
      KeysMatch(keys[f := keys[f].(value := value)], es[i := es[i].(value := value)], top)
  {
    KeysDistinct(keys, es, top);
    var f, e := Fold(es[i].key), es[i].(value := value);
    var es', keys' := es[i := e], keys[f := keys[f].(value := value)];
    assert KeyMatches(keys'[f], e, top);
    hide Fold, KeyMatches;
    SameNames(keys, es, keys', es');
    EntriesUpdated(keys, es, top, i, f, keys'[f], e);
  }

  lemma {:induction false} EntriesUpdated(keys: map<string, KeyData>, es: seq<Entry<Stored>>, top: int, i: nat,
      f: string, k: KeyData, e: Entry<Stored>)
    requires i < |es| && f == Fold(es[i].key) && DistinctKeys(es)
    requires forall j | 0 <= j < |es| :: Fold(es[j].key) in keys && KeyMatches(keys[Fold(es[j].key)], es[j], top)
    requires e.key == es[i].key && k.item == keys[f].item && KeyMatches(k, e, top)
    ensures var es', keys' := es[i := e], keys[f := k];
      forall j | 0 <= j < |es'| ::
        && Fold(es'[j].key) in keys' && KeyMatches(keys'[Fold(es'[j].key)], es'[j], top)
        && es'[j].key == es[j].key && keys'[Fold(es[j].key)].item == keys[Fold(es[j].key)].item
  {
    hide Fold, KeyMatches;
    OtherKeys(keys, es, i, f, k);
  }

  lemma {:induction false} OtherKeys(keys: map<string, KeyData>, es: seq<Entry<Stored>>, i: nat, f: string, k: KeyData)
    requires i < |es| && f == Fold(es[i].key) && DistinctKeys(es)
    requires forall j | 0 <= j < |es| :: Fold(es[j].key) in keys
    ensures forall j | 0 <= j < |es| && j != i :: keys[f := k][Fold(es[j].key)] == keys[Fold(es[j].key)]
  {
    hide Fold;
    forall j | 0 <= j < |es| && j != i
      ensures Fold(es[j].key) != f
    {
    }
  }

  lemma {:induction false} SameNames(keys: map<string, KeyData>, es: seq<Entry<Stored>>, keys': map<string, KeyData>,
      es': seq<Entry<Stored>>)
    requires keys.Keys == keys'.Keys && |es| == |es'| && forall i | 0 <= i < |es| :: es'[i].key == es[i].key
    requires forall f | f in keys :: exists i :: 0 <= i < |es| && Fold(es[i].key) == f
    ensures forall f | f in keys' :: exists i :: 0 <= i < |es'| && Fold(es'[i].key) == f
  {
    hide Fold;
    forall f | f in keys'
      ensures exists i :: 0 <= i < |es'| && Fold(es'[i].key) == f
    {
      var i :| 0 <= i < |es| && Fold(es[i].key) == f;
      assert Fold(es'[i].key) == f;
    }
  }

  lemma {:induction false} KeyAdded(keys: map<string, KeyData>, es: seq<Entry<Stored>>, top: int, e: Entry<Stored>)
    requires KeysMatch(keys, es, top) && Fold(e.key) !in keys
    ensures KeysMatch(keys[Fold(e.key) := KeyData(Item(e.key, e.comment, top + 1), e.value)], es + [e], top + 1)
  {
    KeysLater(keys, es, top, top + 1);
    var k := KeyData(Item(e.key, e.comment, top + 1), e.value);
    var es', keys' := es + [e], keys[Fold(e.key) := k];
    assert KeyMatches(k, e, top + 1);
    KeysBelow(keys, es, top);
    hide Fold, KeyMatches;
    OneMoreName(keys, es, keys', e);
    forall j | 0 <= j < |es|
      ensures keys'[Fold(es[j].key)] == keys[Fold(es[j].key)]
    {
    }
    LastEntry(es, keys', e, top + 1);
  }

  lemma {:induction false} LastEntry(es: seq<Entry<Stored>>, keys: map<string, KeyData>, e: Entry<Stored>, top: int)
    requires Fold(e.key) in keys && KeyMatches(keys[Fold(e.key)], e, top)
    requires forall i | 0 <= i < |es| :: Fold(es[i].key) in keys && KeyMatches(keys[Fold(es[i].key)], es[i], top)
    requires forall i | 0 <= i < |es| :: keys[Fold(es[i].key)].item.order < keys[Fold(e.key)].item.order
    requires forall i, j | 0 <= i < j < |es| :: keys[Fold(es[i].key)].item.order < keys[Fold(es[j].key)].item.order
    ensures var es' := es + [e];
      && (forall i | 0 <= i < |es'| :: Fold(es'[i].key) in keys && KeyMatches(keys[Fold(es'[i].key)], es'[i], top))
      && (forall i, j | 0 <= i < j < |es'| :: keys[Fold(es'[i].key)].item.order < keys[Fold(es'[j].key)].item.order)
  {
    hide Fold, KeyMatches;
  }

  lemma {:induction false} KeysBelow(keys: map<string, KeyData>, es: seq<Entry<Stored>>, top: int)
    requires KeysMatch(keys, es, top)
    ensures forall i | 0 <= i < |es| :: keys[Fold(es[i].key)].item.order <= top
  {
    hide Fold;
  }

  lemma {:induction false} OneMoreName(
    keys: map<string, KeyData>, es: seq<Entry<Stored>>, keys': map<string, KeyData>, e: Entry<Stored>)
    requires keys'.Keys == keys.Keys + {Fold(e.key)}
    requires forall f | f in keys :: exists i :: 0 <= i < |es| && Fold(es[i].key) == f
    ensures forall f | f in keys' :: exists i :: 0 <= i < |es + [e]| && Fold((es + [e])[i].key) == f
  {
    hide Fold;
    var es' := es + [e];
    forall f | f in keys'
      ensures exists i :: 0 <= i < |es'| && Fold(es'[i].key) == f
    {
      if f == Fold(e.key) {
        assert Fold(es'[|es|].key) == f;
      } else {
        var i :| 0 <= i < |es| && Fold(es[i].key) == f;
        assert Fold(es'[i].key) == f;
      }
    }
  }

  lemma {:induction false} KeysLater(keys: map<string, KeyData>, es: seq<Entry<Stored>>, top: int, top': int)
    requires KeysMatch(keys, es, top) && top <= top'
    ensures KeysMatch(keys, es, top')
  {
    hide Fold;
  }

  lemma {:induction false} SectionsLater(data: map<string, SectionData>, c: seq<Section<Stored>>, top: int, top': int)
    requires DataMatches(data, c, top) && top <= top'
    ensures DataMatches(data, c, top')
  {
    hide Fold, KeysMatch;
    forall i | 0 <= i < |c|
      ensures SectionMatches(data[Fold(c[i].name)], c[i], top')
    {
      KeysLater(data[Fold(c[i].name)].keys, c[i].entries, top, top');
    }
  }

  lemma {:induction false} SectionAdded(data: map<string, SectionData>, c: seq<Section<Stored>>, top: int,
      s: Section<Stored>)
    requires DataMatches(data, c, top) && Fold(s.name) !in data && s.entries == []
    ensures DataMatches(data[Fold(s.name) := SectionData(Item(s.name, s.comment, top + 1), map[])], c + [s], top + 1)
  {
    SectionsLater(data, c, top, top + 1);
    assert KeysMatch(map[], [], top + 1);
    var added := SectionData(Item(s.name, s.comment, top + 1), map[]);
    assert SectionMatches(added, s, top + 1);
    hide Fold, KeysMatch, SectionMatches;
    OrdersBelow(data, c, top);
    OneMoreSection(data, c, data[Fold(s.name) := added], s);
    OtherSections(data, c, data[Fold(s.name) := added], s);
    LastSection(c, data[Fold(s.name) := added], s, top + 1);
  }

  lemma {:induction false} LastSection(c: seq<Section<Stored>>, data: map<string, SectionData>, s: Section<Stored>,
      top: int)
    requires Fold(s.name) in data && SectionMatches(data[Fold(s.name)], s, top)
    requires forall i | 0 <= i < |c| :: Fold(c[i].name) in data && SectionMatches(data[Fold(c[i].name)], c[i], top)
    requires forall i | 0 <= i < |c| :: data[Fold(c[i].name)].item.order < data[Fold(s.name)].item.order
    requires forall i, j | 0 <= i < j < |c| :: data[Fold(c[i].name)].item.order < data[Fold(c[j].name)].item.order
    ensures var c' := c + [s];
      && (forall i | 0 <= i < |c'| :: Fold(c'[i].name) in data && SectionMatches(data[Fold(c'[i].name)], c'[i], top))
      && (forall i, j | 0 <= i < j < |c'| :: data[Fold(c'[i].name)].item.order < data[Fold(c'[j].name)].item.order)
  {
    hide Fold, SectionMatches;
  }

  lemma {:induction false} OrdersBelow(data: map<string, SectionData>, c: seq<Section<Stored>>, top: int)
    requires DataMatches(data, c, top)
    ensures forall i | 0 <= i < |c| :: data[Fold(c[i].name)].item.order <= top
  {
    hide Fold, KeysMatch;
  }

  lemma {:induction false} OtherSections(
    data: map<string, SectionData>, c: seq<Section<Stored>>, data': map<string, SectionData>, s: Section<Stored>)
    requires Fold(s.name) !in data && Fold(s.name) in data' && data' == data[Fold(s.name) := data'[Fold(s.name)]]
    requires forall i | 0 <= i < |c| :: Fold(c[i].name) in data
    ensures forall i | 0 <= i < |c| :: (c + [s])[i] == c[i]
    ensures forall i | 0 <= i < |c| :: Fold(c[i].name) in data' && data'[Fold(c[i].name)] == data[Fold(c[i].name)]
  {
    hide Fold;
  }

  lemma {:induction false} OneMoreSection(
    data: map<string, SectionData>, c: seq<Section<Stored>>, data': map<string, SectionData>, s: Section<Stored>)
    requires data'.Keys == data.Keys + {Fold(s.name)}
    requires forall f | f in data :: exists i :: 0 <= i < |c| && Fold(c[i].name) == f
    ensures forall f | f in data' :: exists i :: 0 <= i < |c + [s]| && Fold((c + [s])[i].name) == f
  {
    hide Fold;
    var c' := c + [s];
    forall f | f in data'
      ensures exists i :: 0 <= i < |c'| && Fold(c'[i].name) == f
    {
      if f == Fold(s.name) {
        assert Fold(c'[|c|].name) == f;
      } else {
        var i :| 0 <= i < |c| && Fold(c[i].name) == f;
        assert Fold(c'[i].name) == f;
      }
    }
  }

  lemma {:induction false} SectionChanged(data: map<string, SectionData>, c: seq<Section<Stored>>, top: int, i: nat,
      keys: map<string, KeyData>, es: seq<Entry<Stored>>)
    requires DataMatches(data, c, top) && i < |c| && KeysMatch(keys, es, top)
    ensures var f := Fold(c[i].name);
      DataMatches(data[f := data[f].(keys := keys)], c[i := c[i].(entries := es)], top)
  {
    hide Fold, KeysMatch;
    var f := Fold(c[i].name);
    forall j | 0 <= j < |c| && j != i
      ensures Fold(c[j].name) != f
    {
      assert data[Fold(c[j].name)].item.order != data[f].item.order;
    }
    var c' := c[i := c[i].(entries := es)];
    var data' := data[f := data[f].(keys := keys)];
    forall j | 0 <= j < |c'|
      ensures Fold(c'[j].name) in data' && SectionMatches(data'[Fold(c'[j].name)], c'[j], top)
      ensures c'[j].name == c[j].name && data'[Fold(c[j].name)].item == data[Fold(c[j].name)].item
    {
      if j != i {
        assert c'[j] == c[j] && data'[Fold(c[j].name)] == data[Fold(c[j].name)];
      }
    }
    forall g | g in data'
      ensures exists j :: 0 <= j < |c'| && Fold(c'[j].name) == g
    {
      var j :| 0 <= j < |c| && Fold(c[j].name) == g;
      assert Fold(c'[j].name) == g;
    }
  }

  // ----- load order -----

  predicate LoadsBefore(x: Item, y: Item) {
    x.order < y.order || (x.order == y.order && Before(Fold(x.name), Fold(y.name)))
  }

  function Insert(s: seq<Item>, x: Item): seq<Item> {
    if s == [] || LoadsBefore(x, s[0]) then [x] + s else [s[0]] + Insert(s[1..], x)
  }

  /** The items in load order, as the library's sort gives them. */
  function Sorted(s: seq<Item>): seq<Item> {
    if s == [] then [] else Insert(Sorted(s[..|s| - 1]), s[|s| - 1])
  }

  predicate Increasing(s: seq<Item>) {
    forall i, j | 0 <= i < j < |s| :: s[i].order < s[j].order
  }

  predicate DistinctOrders(s: seq<Item>) {
    forall i, j | 0 <= i < j < |s| :: s[i].order != s[j].order
  }

  lemma {:induction false} InsertAdds(s: seq<Item>, x: Item)
    ensures forall y :: y in Insert(s, x) <==> y == x || y in s
  {
    if s != [] && !LoadsBefore(x, s[0]) {
      InsertAdds(s[1..], x);
      assert s == [s[0]] + s[1..];
    }
  }

  lemma {:induction false} InsertKeeps(s: seq<Item>, x: Item)
    requires Increasing(s) && forall y | y in s :: y.order != x.order
    ensures Increasing(Insert(s, x)) && forall y :: y in Insert(s, x) <==> y == x || y in s
  {
    InsertAdds(s, x);
    if s != [] && !LoadsBefore(x, s[0]) {
      var t := Insert(s[1..], x);
      InsertKeeps(s[1..], x);
      forall i | 0 <= i < |t|
        ensures s[0].order < t[i].order
      {
        assert t[i] in t && (t[i] == x || t[i] in s[1..]);
      }
    }
  }

  lemma {:induction false} SortedKeeps(s: seq<Item>)
    requires DistinctOrders(s)
    ensures Increasing(Sorted(s)) && forall y :: y in Sorted(s) <==> y in s
  {
    if s != [] {
      var t := s[..|s| - 1];
      SortedKeeps(t);
      InsertKeeps(Sorted(t), s[|s| - 1]);
      assert s == t + [s[|s| - 1]];
    }
  }

  lemma {:induction false} HeadIn(s: seq<Item>)
    ensures s != [] ==> s[0] in s
  {
  }

  lemma {:induction false} IncreasingUnique(s: seq<Item>, t: seq<Item>)
    requires Increasing(s) && Increasing(t) && forall y :: y in s <==> y in t
    ensures s == t
    decreases |s|
  {
    if s == [] {
      HeadIn(t);
    } else {
      assert s[0] in t && t[0] in s;
      assert s[0] == t[0];
      forall y
        ensures y in s[1..] <==> y in t[1..]
      {
        assert y in s[1..] <==> y in s && y != s[0];
        assert y in t[1..] <==> y in t && y != t[0];
      }
      IncreasingUnique(s[1..], t[1..]);
      assert s == [s[0]] + s[1..] && t == [t[0]] + t[1..];
    }
  }

  /** In whatever order the map gives its items, load order is the order of the contents. */
  lemma {:induction false} LoadOrder(s: seq<Item>, t: seq<Item>)
    requires DistinctOrders(s) && Increasing(t) && forall y :: y in s <==> y in t
    ensures Sorted(s) == t
  {
    SortedKeeps(s);
    IncreasingUnique(Sorted(s), t);
  }

  ghost predicate Ranked(items: map<string, Item>, names: seq<string>) {
    && (forall i | 0 <= i < |names| :: names[i] in items)
    && (forall f | f in items :: f in names)
    && (forall i, j | 0 <= i < j < |names| :: items[names[i]].order < items[names[j]].order)
  }

  ghost function ItemsAt(items: map<string, Item>, names: seq<string>): (t: seq<Item>)
    requires forall i | 0 <= i < |names| :: names[i] in items
    ensures |t| == |names| && forall i | 0 <= i < |t| :: t[i] == items[names[i]]
  {
    seq(|names|, i requires 0 <= i < |names| => items[names[i]])
  }

  /** However a map's items are listed, sorting lists them as they rank. */
  lemma {:induction false} ListedAnyway(items: map<string, Item>, names: seq<string>, listed: seq<string>)
    requires Ranked(items, names)
    requires forall i | 0 <= i < |listed| :: listed[i] in items
    requires forall i, j | 0 <= i < j < |listed| :: listed[i] != listed[j]
    requires forall f | f in items :: f in listed
    ensures Sorted(ItemsAt(items, listed)) == ItemsAt(items, names)
  {
    hide Sorted;
    var s, t := ItemsAt(items, listed), ItemsAt(items, names);
    forall i, j | 0 <= i < j < |s|
      ensures s[i].order != s[j].order
    {
      var a :| 0 <= a < |names| && names[a] == listed[i];
      var b :| 0 <= b < |names| && names[b] == listed[j];
    }
    forall y
      ensures y in s <==> y in t
    {
      SameItems(items, names, listed, y);
    }
    LoadOrder(s, t);
  }

  lemma {:induction false} SameItems(items: map<string, Item>, names: seq<string>, listed: seq<string>, y: Item)
    requires forall f :: f in items <==> f in names
    requires forall f :: f in items <==> f in listed
    ensures y in ItemsAt(items, listed) <==> y in ItemsAt(items, names)
  {
    if y in ItemsAt(items, listed) {
      var i :| 0 <= i < |listed| && ItemsAt(items, listed)[i] == y;
      var a :| 0 <= a < |names| && names[a] == listed[i];
      assert ItemsAt(items, names)[a] == y;
    }
    if y in ItemsAt(items, names) {
      var i :| 0 <= i < |names| && ItemsAt(items, names)[i] == y;
      var a :| 0 <= a < |listed| && listed[a] == names[i];
      assert ItemsAt(items, listed)[a] == y;
    }
  }

  ghost function Names(c: seq<Section<Stored>>): (names: seq<string>)
    ensures |names| == |c| && forall i | 0 <= i < |c| :: names[i] == Fold(c[i].name)
  {
    seq(|c|, i requires 0 <= i < |c| => Fold(c[i].name))
  }

  ghost function Keys(es: seq<Entry<Stored>>): (names: seq<string>)
    ensures |names| == |es| && forall i | 0 <= i < |es| :: names[i] == Fold(es[i].key)
  {
    seq(|es|, i requires 0 <= i < |es| => Fold(es[i].key))
  }

  ghost predicate SectionItems(s: seq<Item>, c: seq<Section<Stored>>) {
    |s| == |c| && forall i | 0 <= i < |c| :: s[i].name == c[i].name && s[i].comment == c[i].comment
  }

  ghost predicate KeyItems(s: seq<Item>, es: seq<Entry<Stored>>) {
    |s| == |es| && forall i | 0 <= i < |es| :: s[i].name == es[i].key && s[i].comment == es[i].comment
  }

  function SectionMap(data: map<string, SectionData>): (m: map<string, Item>)
    ensures m.Keys == data.Keys && forall f | f in m :: m[f] == data[f].item
  {
    map f | f in data :: data[f].item
  }

  function KeyMap(keys: map<string, KeyData>): (m: map<string, Item>)
    ensures m.Keys == keys.Keys && forall f | f in m :: m[f] == keys[f].item
  {
    map f | f in keys :: keys[f].item
  }

  lemma {:induction false} SectionsRank(data: map<string, SectionData>, c: seq<Section<Stored>>, top: int)
    requires DataMatches(data, c, top)
    ensures Ranked(SectionMap(data), Names(c)) && SectionItems(ItemsAt(SectionMap(data), Names(c)), c)
  {
    hide Fold, KeysMatch, SectionMap, Names;
    forall f | f in data
      ensures f in Names(c)
    {
      var i :| 0 <= i < |c| && Fold(c[i].name) == f;
      assert Names(c)[i] == f;
    }
  }

  lemma {:induction false} KeysRank(keys: map<string, KeyData>, es: seq<Entry<Stored>>, top: int)
    requires KeysMatch(keys, es, top)
    ensures Ranked(KeyMap(keys), Keys(es)) && KeyItems(ItemsAt(KeyMap(keys), Keys(es)), es)
  {
    hide Fold, KeyMap, Keys;
    forall f | f in keys
      ensures f in Keys(es)
    {
      var i :| 0 <= i < |es| && Fold(es[i].key) == f;
      assert Keys(es)[i] == f;
    }
  }

  // ----- printing -----

  /** Writes the text line by line. */
  method OutputMultiLineText(out0: string, text: string) returns (out: string)
    ensures out == out0 + OutLines(text)
  {
    out := out0;
    var p := 0;
    var more := text != "";
    while more
      invariant 0 <= p <= |text| + 1 && (more ==> p <= |text|)
      invariant out == out0 + if more then text[..p] else OutLines(text)
      decreases |text| + 1 - p, more
    {
      var end := p;
      while end < |text| && text[end] != '\n'
        invariant p <= end <= |text| && '\n' !in text[p..end]
      {
        end := end + 1;
      }
      more := end < |text|;
      NextLineOut(out0, text, p, end);
      out := out + text[p..end] + "\n";
      p := end + 1;
    }
  }

  lemma {:induction false} NextLineOut(out: string, text: string, p: nat, end: nat)
    requires p <= end <= |text| && text != "" && (end < |text| ==> text[end] == '\n')
    ensures (out + text[..p]) + text[p..end] + "\n" == out + if end < |text| then text[..end + 1] else OutLines(text)
  {
    assert end == |text| ==> text[..end] == text;
  }

  method TestMultiLineData(text: string) returns (r: bool)
    ensures r == IniStore.IsMultiLineData(text)
  {
    if text == "" {
      return false;
    }
    if IsSpace(text[0]) {
      return true;
    }
    var p := 0;
    while p < |text|
      invariant 0 <= p <= |text| && forall i | 0 <= i < p :: !IsNewLine(text[i])
    {
      if IsNewLine(text[p]) {
        return true;
      }
      p := p + 1;
    }
    return IsSpace(text[p - 1]);
  }

  // ----- names in load order -----

  /** Any listing of a map's items without repetition. */
  ghost predicate Lists(items: map<string, Item>, listed: seq<string>) {
    && (forall i | 0 <= i < |listed| :: listed[i] in items)
    && (forall i, j | 0 <= i < j < |listed| :: listed[i] != listed[j])
    && (forall f | f in items :: f in listed)
  }

  /** Visits a map in an order of its own. */
  method ListItems(items: map<string, Item>) returns (r: seq<Item>, ghost listed: seq<string>)
    ensures Lists(items, listed) && r == ItemsAt(items, listed)
  {
    r, listed := [], [];
    var left := items.Keys;
    while left != {}
      invariant left <= items.Keys
      invariant forall i | 0 <= i < |listed| :: listed[i] in items && listed[i] !in left
      invariant forall i, j | 0 <= i < j < |listed| :: listed[i] != listed[j]
      invariant forall f | f in items && f !in left :: f in listed
      invariant r == ItemsAt(items, listed)
    {
      var f :| f in left;
      r, listed := r + [items[f]], listed + [f];
      left := left - {f};
    }
  }

  method GetAllSections(data: map<string, SectionData>, ghost c: seq<Section<Stored>>, ghost top: int)
    returns (r: seq<Item>)
    requires DataMatches(data, c, top)
    ensures SectionItems(Sorted(r), c)
  {
    hide DataMatches, Sorted;
    ghost var listed;
    r, listed := ListItems(SectionMap(data));
    SectionsRank(data, c, top);
    ListedAnyway(SectionMap(data), Names(c), listed);
  }

  method GetAllKeys(keys: map<string, KeyData>, ghost es: seq<Entry<Stored>>, ghost top: int) returns (r: seq<Item>)
    requires KeysMatch(keys, es, top)
    ensures KeyItems(Sorted(r), es)
  {
    hide KeysMatch, Sorted;
    ghost var listed;
    r, listed := ListItems(KeyMap(keys));
    KeysRank(keys, es, top);
    ListedAnyway(KeyMap(keys), Keys(es), listed);
  }

  // ----- saving -----

  method SaveValue(out0: string, value: string, fmt: Format) returns (out: string)
    ensures out == out0 + PrintValue(value, fmt)
  {
    hide OutLines, IniStore.IsMultiLineData;
    var multi := TestMultiLineData(value);
    if fmt.multiLine && multi {
      out := out0 + ("<<<" + TAG + "\n");
      out := OutputMultiLineText(out, value);
      out := out + TAG;
    } else {
      out := out0 + value;
    }
  }

  method SaveComment(out0: string, comment: Option<string>) returns (out: string)
    ensures out == out0 + if comment.None? then "" else "\n" + PrintComment(comment)
  {
    out := out0;
    if comment.Some? {
      hide OutLines;
      out := OutputMultiLineText(out0 + "\n", comment.value);
    }
  }

  method SaveKey(out0: string, e: Entry<string>, fmt: Format) returns (out: string)
    ensures out == out0 + PrintEntry(e, fmt)
  {
    hide OutLines, PrintComment, PrintValue;
    out := SaveComment(out0, e.comment);
    out := out + e.key;
    out := out + if fmt.spaces then " = " else "=";
    out := SaveValue(out, e.value, fmt);
    out := out + "\n";
  }

  method SaveKeys(out0: string, keys: map<string, KeyData>, ghost es: seq<Entry<Stored>>, ghost top: int, b: string,
      fmt: Format) returns (out: string)
    requires KeysMatch(keys, es, top)
    ensures out == out0 + PrintEntries(ReadEntries(es, b), fmt)
  {
    hide PrintEntry, Sorted, Fold, Read;
    var items := GetAllKeys(keys, es, top);
    items := Sorted(items);
    out := out0;
    var i := 0;
    ghost var rs := ReadEntries(es, b);
    assert rs[0..] == rs;
    while i < |items|
      invariant 0 <= i <= |items|
      invariant out + PrintEntries(rs[i..], fmt) == out0 + PrintEntries(rs, fmt)
    {
      var k := keys[Fold(items[i].name)];
      var e := Entry(items[i].name, Read(k.value, b), k.item.comment);
      assert rs[i] == e;
      Assoc(out, PrintEntry(e, fmt), PrintEntries(rs[i + 1..], fmt));
      assert rs[i..][0] == e && rs[i..][1..] == rs[i + 1..];
      out := SaveKey(out, e, fmt);
      i := i + 1;
    }
    assert out + "" == out;
  }

  method SaveSections(out0: string, data: map<string, SectionData>, ghost c: seq<Section<Stored>>, ghost top: int,
      b: string, fmt: Format, gap: bool) returns (out: string)
    requires DataMatches(data, c, top)
    ensures out == out0 + PrintSections(ReadSections(c, b), fmt, gap)
  {
    hide PrintSection, Sorted, Fold, KeysMatch, ReadEntries;
    var items := GetAllSections(data, c, top);
    items := Sorted(items);
    out := out0;
    var needNewLine := gap;
    var i := 0;
    ghost var rs := ReadSections(c, b);
    assert rs[0..] == rs;
    while i < |items|
      invariant 0 <= i <= |items|
      invariant out + PrintSections(rs[i..], fmt, needNewLine) == out0 + PrintSections(rs, fmt, gap)
    {
      Assoc(out, PrintSection(rs[i], fmt, needNewLine), PrintSections(rs[i + 1..], fmt, true));
      assert rs[i..][0] == rs[i] && rs[i..][1..] == rs[i + 1..];
      out := SaveSection(out, data[Fold(items[i].name)], items[i], c[i], top, b, fmt, needNewLine);
      needNewLine := true;
      i := i + 1;
    }
    assert out + "" == out;
  }

  method SaveHeader(out0: string, item: Item, gap: bool) returns (out: string)
    ensures out == out0 + ((if gap then "\n\n" else "") + PrintComment(item.comment)
          + (if item.name == "" then "" else "[" + item.name + "]\n"))
  {
    hide OutLines;
    out := out0;
    var needNewLine := gap;
    if item.comment.Some? {
      if needNewLine {
        out := out + "\n\n";
      }
      out := OutputMultiLineText(out, item.comment.value);
      needNewLine := false;
    }
    if needNewLine {
      out := out + "\n\n";
    }
    assert out == out0 + ((if gap then "\n\n" else "") + PrintComment(item.comment));
    if item.name != "" {
      out := out + ("[" + item.name + "]\n");
    }
  }

  method SaveSection(out0: string, s: SectionData, item: Item, ghost c: Section<Stored>, ghost top: int, b: string,
      fmt: Format, gap: bool) returns (out: string)
    requires SectionMatches(s, c, top) && item.name == c.name && item.comment == c.comment
    ensures out == out0 + PrintSection(Section(c.name, c.comment, ReadEntries(c.entries, b)), fmt, gap)
  {
    hide PrintEntries, PrintComment, KeysMatch, ReadEntries;
    out := SaveHeader(out0, item, gap);
    ghost var header := (if gap then "\n\n" else "") + PrintComment(item.comment)
        + (if item.name == "" then "" else "[" + item.name + "]\n");
    Assoc(out0, header, PrintEntries(ReadEntries(c.entries, b), fmt));
    out := SaveKeys(out, s.keys, c.entries, top, b, fmt);
  }

  // ----- loading -----

  method CString(data: array<char>, p: nat) returns (s: string)
    requires IsBuffer(data[..]) && p < data.Length
    ensures s == CStr(data[..], p)
  {
    s := [];
    var q := p;
    while data[q] != NUL
      invariant p <= q < data.Length
      invariant s + CStr(data[..], q) == CStr(data[..], p)
      decreases data.Length - q
    {
      assert s + ([data[q]] + CStr(data[..], q + 1)) == s + [data[q]] + CStr(data[..], q + 1);
      s := s + [data[q]];
      q := q + 1;
    }
  }

  datatype Rc = Updated | Inserted

  /**
   The maps, and the buffer of the first load as it was left, into which values may point. Names, keys
   and comments are copied: what pointers to them show never changes (IniPointers.NamesAreFinal).
   */
  class Ini {
    const utf8: bool
    const multiLine: bool
    const spaces: bool
    var fileComment: Option<Stored>
    var data: map<string, SectionData>
    var order: int
    var pData: Option<string>
    ghost var contents: seq<Section<Stored>>

    function Buffer(): string
      reads this
    {
      if pData.Some? then pData.value else ""
    }

    function Comment(): Option<string>
      reads this
    {
      if fileComment.Some? then Some(Read(fileComment.value, Buffer())) else None
    }

    /** What a caller sees: the values as they are where they are kept. */
    ghost function Shown(): File
      reads this
    {
      File(Comment(), ReadSections(contents, Buffer()))
    }

    ghost predicate Matches()
      reads this
    {
      DataMatches(data, contents, order)
    }

    ghost predicate Valid()
      reads this
    {
      Matches() && AllPoint(contents, |Buffer()|) && (fileComment.Some? ==> Points(fileComment.value, |Buffer()|))
    }

    constructor (utf8: bool, multiLine: bool, spaces: bool)
      ensures Valid() && Shown() == File(None, []) && pData == None
      ensures this.utf8 == utf8 && this.multiLine == multiLine && this.spaces == spaces
    {
      this.utf8, this.multiLine, this.spaces := utf8, multiLine, spaces;
      fileComment, data, order, pData, contents := None, map[], 0, None, [];
    }

    /** The section entry, if there is none yet. */
    method OpenSection(section: string, kv: Option<KeyValue<Stored>>, comment: Option<string>) returns (inserted: bool)
      requires Matches()
      modifies this`data, this`order, this`contents
      ensures Matches() && contents == Opened(old(contents), section, kv, comment) && Fold(section) in data
      ensures inserted == (FindSection(old(contents), section) == |old(contents)|)
    {
      hide KeysMatch, Fold;
      SectionFound(data, contents, order, section);
      var f := Fold(section);
      inserted := f !in data;
      if inserted {
        var sectionComment := if kv.None? then comment else None;
        SectionAdded(data, contents, order, Section(section, sectionComment, []));
        order := order + 1;
        data := data[f := SectionData(Item(section, sectionComment, order), map[])];
        contents := contents + [Section(section, sectionComment, [])];
      }
    }

    /** The key's value, in a section that exists. */
    method AddKey(section: string, kv: KeyValue<Stored>, comment: Option<string>) returns (inserted: bool)
      requires Matches() && Fold(section) in data && FindSection(contents, section) < |contents|
      modifies this`data, this`order, this`contents
      ensures var c := old(contents); var i := FindSection(c, section);
        && Matches() && contents == c[i := c[i].(entries := Put(c[i].entries, kv, comment))]
        && inserted == (FindKey(c[i].entries, kv.key) == |c[i].entries|)
    {
      var f := Fold(section);
      ghost var i := FindSection(contents, section);
      hide DataMatches, KeysMatch, SectionMatches, Fold, FindSection, FindKey, Put, PutKey;
      var top := order;
      order := order + 1;
      KeyPlaced(data, contents, top, order, i, f, kv, comment);
      inserted := Fold(kv.key) !in data[f].keys;
      data := data[f := data[f].(keys := PutKey(data[f].keys, kv, comment, order))];
      contents := contents[i := contents[i].(entries := Put(contents[i].entries, kv, comment))];
    }

    method AddEntry(section: string, kv: Option<KeyValue<Stored>>, comment: Option<string>) returns (rc: Rc)
      requires Matches()
      modifies this`data, this`order, this`contents
      ensures Matches() && contents == Add(old(contents), section, kv, comment)
      ensures rc == if kv.None? then (if FindSection(old(contents),
            section) < |old(contents)| then Updated else Inserted)
                    else (if Lookup(old(contents), section, kv.value.key).Some? then Updated else Inserted)
    {
      hide Matches, Fold, Put;
      OpenedAt(contents, section, kv, comment);
      var inserted := OpenSection(section, kv, comment);
      if kv.Some? {
        var keyInserted := AddKey(section, kv.value, comment);
        inserted := inserted || keyInserted;
      }
      rc := if inserted then Inserted else Updated;
    }

    /** A value set is always copied. */
    method SetValue(section: string, kv: Option<KeyValue<string>>, comment: Option<string>) returns (rc: Rc)
      requires Valid()
      modifies this`data, this`order, this`contents
      ensures Valid() && Shown() == File(old(Comment()), Add(old(Shown()).sections, section, kv, comment))
    {
      hide Matches, Fold, Add, AllPoint, ReadSections, CStr;
      var stored := if kv.None? then None else Some(KeyValue(kv.value.key, Copied(kv.value.value)));
      AddPoints(contents, section, stored, comment, |Buffer()|);
      ReadAdd(contents, section, stored, comment, Buffer());
      rc := AddEntry(section, stored, comment);
    }

    method GetValue(section: Option<string>, key: Option<string>, default: Option<string>)
      returns (value: Option<string>)
      requires Valid()
      ensures section.None? || key.None? ==> value == default
      ensures section.Some? && key.Some? ==>
        var v := Lookup(Shown().sections, section.value, key.value);
        value == if v.Some? then v else default
    {
      if section.None? || key.None? {
        return default;
      }
      hide Fold, AllPoint, CStr, ReadSections, Read;
      ReadLookup(contents, section.value, key.value, Buffer());
      SectionFound(data, contents, order, section.value);
      var f := Fold(section.value);
      if f !in data {
        return default;
      }
      ghost var i := FindSection(contents, section.value);
      SectionAt(data, contents, order, i);
      var keys := data[f].keys;
      KeyFound(keys, contents[i].entries, order, key.value);
      var g := Fold(key.value);
      if g !in keys {
        return default;
      }
      return Some(Read(keys[g].value, Buffer()));
    }

    method Save(signature: bool) returns (out: string)
      requires Valid()
      ensures out == Print(Shown(), Format(spaces, multiLine), utf8 && signature)
    {
      hide PrintSections, OutLines, ReadSections, AllPoint, Read;
      out := "";
      if utf8 && signature {
        out := out + BOM;
      }
      ghost var start := out;
      assert start == if utf8 && signature then BOM else "";
      if fileComment.Some? {
        out := OutputMultiLineText(out, Read(fileComment.value, Buffer()));
      }
      assert out == start + PrintComment(Comment());
      out := SaveSections(out, data, contents, order, Buffer(), Format(spaces, multiLine), fileComment.Some?);
    }

    /** A file comment is looked for where there is none yet. */
    method FindFileComment(buffer: array<char>, copy: bool) returns (p: nat)
      requires IsBuffer(buffer[..])
      modifies this`fileComment, buffer
      ensures IsBuffer(buffer[..])
      ensures var r := FileComment(old(buffer[..]), old(fileComment).Some?);
        && buffer[..] == r.b && p == r.next && p < buffer.Length
        && fileComment == LoadedComment(old(fileComment), r, copy)
    {
      p := 0;
      if fileComment.None? {
        var found, val;
        found, p, val := LoadMultiLineText(buffer, 0, None, false);
        if found {
          if copy {
            var text := CString(buffer, 0);
            fileComment := Some(Copied(text));
          } else {
            fileComment := Some(Pointer(0));
          }
        }
      }
    }

    method AddEntries(buffer: array<char>, p0: nat, copy: bool)
      requires Matches() && IsBuffer(buffer[..]) && p0 < buffer.Length
      modifies this`data, this`order, this`contents, buffer
      ensures Matches() && contents == LoadStored(old(buffer[..]), p0, None, multiLine, copy, old(contents))
      ensures buffer[..] == BufferAfter(old(buffer[..]), p0, None, multiLine)
    {
      hide Matches, CStr, Add, IniText.FindEntry;
      var p, section := p0, None;
      while true
        invariant Matches() && IsBuffer(buffer[..]) && p < buffer.Length && Inside(section, buffer.Length)
        invariant LoadStored(buffer[..], p, section, multiLine, copy, contents)
              == LoadStored(old(buffer[..]), p0, None, multiLine, copy, old(contents))
        invariant BufferAfter(buffer[..], p, section, multiLine) == BufferAfter(old(buffer[..]), p0, None, multiLine)
        decreases buffer.Length - p
      {
        var found, key, val, comment;
        found, p, section, key, val, comment := SimpleIniParser.FindEntry(buffer, p, section, multiLine);
        if !found {
          return;
        }
        AddNext(buffer, section, key, val, comment, copy);
      }
    }

    method AddNext(buffer: array<char>, section: Option<nat>, key: Option<nat>, val: Option<nat>,
        comment: Option<nat>, copy: bool)
      requires Matches() && IsBuffer(buffer[..]) && Inside(section, buffer.Length) && Inside(comment, buffer.Length)
      requires Inside(key, buffer.Length) && Inside(val, buffer.Length) && (key.Some? <==> val.Some?)
      modifies this`data, this`order, this`contents
      ensures Matches()
      ensures contents == AddStored(old(contents), Found(true, buffer[..], 0, section, key, val, comment), copy)
    {
      hide Matches, CStr, Add;
      var name, kv, text := "", None, None;
      if section.Some? {
        name := CString(buffer, section.value);
      }
      if key.Some? {
        var k := CString(buffer, key.value);
        var v := Pointer(val.value);
        if copy {
          var s := CString(buffer, val.value);
          v := Copied(s);
        }
        kv := Some(KeyValue(k, v));
      }
      if comment.Some? {
        var t := CString(buffer, comment.value);
        text := Some(t);
      }
      var rc := AddEntry(name, kv, text);
    }

    /**
     The first load keeps its buffer and points into it, later ones copy. Either way what is shown is what the
     text holds, in a first load provided no value is an empty multi-line text with more data behind it that
     loading changes.
     */
    method LoadData(text: string)
      requires Valid()
      modifies this`fileComment, this`data, this`order, this`contents, this`pData
      ensures Valid()
      ensures old(pData).Some? || FinalText(text, utf8, multiLine, old(fileComment).Some?) ==>
            Shown() == Load(text, utf8, multiLine, old(Shown()))
      ensures var rest, copy := WithoutBom(text, utf8), old(pData).Some?;
        var r := FileComment(rest + [NUL], old(fileComment).Some?);
        if rest == "" then contents == old(contents) && fileComment == old(fileComment) && pData == old(pData)
        else
          && contents == LoadStored(r.b, r.next, None, multiLine, copy, old(contents))
          && fileComment == LoadedComment(old(fileComment), r, copy)
          && pData == (if copy then old(pData) else Some(BufferAfter(r.b, r.next, None, multiLine)))
    {
      hide DataMatches, LoadStored, LoadComment, CStr, BufferAfter, AllPoint, ReadSections, AllFinal, Load, FinalText;
      LoadsNothing(text, utf8, multiLine, Shown());
      var rest := text;
      if utf8 && |text| >= 3 && text[..3] == BOM {
        rest := text[3..];
      }
      assert rest == WithoutBom(text, utf8);
      if rest == "" {
        return;
      }
      var buffer := new char[|rest| + 1](i => if 0 <= i < |rest| then rest[i] else NUL);
      assert buffer[..] == rest + [NUL];
      var copy := pData.Some?;
      ghost var f, c, before := fileComment, contents, Buffer();
      var p := FindFileComment(buffer, copy);
      AddEntries(buffer, p, copy);
      if !copy {
        pData := Some(buffer[..]);
      }
      LoadsShown(text, utf8, f, multiLine, copy, c, before, Buffer());
    }
  }

  lemma {:induction false} KeyPlaced(data: map<string, SectionData>, c: seq<Section<Stored>>, top: int, next: int,
      i: nat, f: string, kv: KeyValue<Stored>, comment: Option<string>)
    requires DataMatches(data, c, top) && next == top + 1 && i < |c| && f == Fold(c[i].name)
    ensures f in data
    ensures DataMatches(data[f := data[f].(keys := PutKey(data[f].keys, kv, comment, next))],
                        c[i := c[i].(entries := Put(c[i].entries, kv, comment))], next)
    ensures Fold(kv.key) !in data[f].keys <==> FindKey(c[i].entries, kv.key) == |c[i].entries|
  {
    SectionAt(data, c, top, i);
    hide DataMatches, KeysMatch, Fold, FindKey, Put, PutKey;
    KeyFound(data[f].keys, c[i].entries, top, kv.key);
    KeyPut(data[f].keys, c[i].entries, top, kv, comment);
    SectionsLater(data, c, top, next);
    SectionChanged(data, c, next, i, PutKey(data[f].keys, kv, comment, next), Put(c[i].entries, kv, comment));
  }

  lemma {:induction false} OpenedAt(c: seq<Section<Stored>>, name: string, kv: Option<KeyValue<Stored>>,
      comment: Option<string>)
    ensures FindSection(Opened(c, name, kv, comment), name) == FindSection(c, name)
  {
    var c' := Opened(c, name, kv, comment);
    if c' != c {
      var k := FindSection(c', name);
      assert Fold(c'[|c|].name) == Fold(name);
      assert forall j | 0 <= j < |c| :: Fold(c'[j].name) != Fold(name);
    }
  }

  lemma {:induction false} SectionAt(data: map<string, SectionData>, c: seq<Section<Stored>>, top: int, i: nat)
    requires DataMatches(data, c, top) && i < |c|
    ensures Fold(c[i].name) in data && SectionMatches(data[Fold(c[i].name)], c[i], top)
  {
  }
}
