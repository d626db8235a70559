/** The tables that sql/sqlparser.cpp finds in the FROM range of a query. */
module SqlTables {
  import opened SqlTokens
  import opened SqlQueries

  /** A table with its alias, and where its name stands. */
  datatype TableInfo = TableInfo(name: string, alias: string, position: int, query: Query, bigQuery: bool)

  // ----- one table -----

  predicate Qualified(ts: seq<Token>, start: int, pos: int) {
    (pos == start && IdAt(ts, pos) == Literal)
    || (pos == start + 2 && IdAt(ts, start) == Literal && IdAt(ts, start + 1) == Dot && IdAt(ts, pos) == Literal)
    || (pos == start + 4 && IdAt(ts, start) == Literal && IdAt(ts, start + 1) == Dot
        && IdAt(ts, start + 2) == Literal && IdAt(ts, start + 3) == Dot)
  }

  predicate Aliased(ts: seq<Token>, pos: int, end: int, alias: string) {
    (end == pos + 1 && alias == "")
    || (end == pos + 2 && IdAt(ts, pos + 1) == Literal && alias == TextAt(ts, pos + 1))
    || (end == pos + 3 && IdAt(ts, pos + 1) == As && IdAt(ts, pos + 2) == Literal && alias == TextAt(ts, pos + 2))
  }

  /**
   The tokens are a table name at `pos`, behind a schema or a database and a user if it is qualified, and an
   alias with or without AS. A name behind a database and a user need not be a literal.
   */
  predicate Names(ts: seq<Token>, start: int, end: int, pos: int, alias: string) {
    Qualified(ts, start, pos) && Aliased(ts, pos, end, alias)
  }

  lemma {:induction false} NamesOne(ts: seq<Token>, start: int, end: int, pos: int, alias: string, pos': int,
      alias': string)
    requires Names(ts, start, end, pos, alias) && Names(ts, start, end, pos', alias')
    ensures pos == pos' && alias == alias'
  {
  }

  /** Semicolons at the end do not belong to the name. */
  function WithoutSemicolons(ts: seq<Token>, start: int, end: int): (r: int)
    ensures r <= end && (start <= end ==> start <= r)
    ensures r > start ==> IdAt(ts, r - 1) != Semicolon
    ensures forall j | r <= j < end :: IdAt(ts, j) == Semicolon
    decreases end - start
  {
    if end > start && IdAt(ts, end - 1) == Semicolon then WithoutSemicolons(ts, start, end - 1) else end
  }

  /** The table the tokens name, if they do. */
  ghost function Simple(ts: seq<Token>, q: Query, start: int, end: int, big: bool): (r: seq<TableInfo>) {
    var e := WithoutSemicolons(ts, start, end);
    if n, alias :| Names(ts, start, e, n, alias) then [TableInfo(TextAt(ts, n), alias, n, q, big)] else []
  }

  lemma {:induction false} SimpleIs(ts: seq<Token>, q: Query, start: int, end: int, big: bool, pos: int, alias: string)
    requires Names(ts, start, WithoutSemicolons(ts, start, end), pos, alias)
    ensures Simple(ts, q, start, end, big) == [TableInfo(TextAt(ts, pos), alias, pos, q, big)]
  {
    forall n, a | Names(ts, start, WithoutSemicolons(ts, start, end), n, a)
      ensures n == pos && a == alias
    {
      NamesOne(ts, start, WithoutSemicolons(ts, start, end), pos, alias, n, a);
    }
  }

  // ----- lists of tables and joins -----

  const TABLE_END_LIST: seq<Id> := [Inner, Cross, StraightJoin, Left, Right, Natural, Join, Comma]
  const JOIN_LIST: seq<Id> := [Join, StraightJoin, Comma]
  const CONDITION_LIST: seq<Id> := [On, Using, Comma]
  const TABLE_ENDS: set<Id> := Sought(TABLE_END_LIST)
  const JOINS: set<Id> := Sought(JOIN_LIST)
  const CONDITIONS: set<Id> := Sought(CONDITION_LIST)

  ghost function Listed(ts: seq<Token>, q: Query, i: int, end: int, big: bool): seq<TableInfo>
    decreases end - i
  {
    if i >= end then []
    else
      var t := First(ts, i, end, TABLE_ENDS);
      if t >= end then Simple(ts, q, i, end, big)
      else if t - i > 5 then Listed(ts, q, if IdAt(ts, t) == Comma then t + 1 else t, end, big)
      else Simple(ts, q, i, t, big) + Joined(ts, q, t, end, big)
  }

  /** Behind the first table. A stretch of more than five tokens is passed over. */
  ghost function Joined(ts: seq<Token>, q: Query, i: int, end: int, big: bool): seq<TableInfo>
    decreases end - i
  {
    var t := First(ts, i, end, JOINS);
    if t >= end then
      if IdAt(ts, i - 1) == Comma && t - i < 5 then Simple(ts, q, i, t, big) else []
    else if IdAt(ts, t) == Comma then
      (if t - i < 5 then Simple(ts, q, i, t, big) else []) + Joined(ts, q, t + 1, end, big)
    else
      var c := First(ts, t + 1, end, CONDITIONS);
      if c - (t + 1) > 5 then Joined(ts, q, c + 1, end, big)
      else Simple(ts, q, t + 1, c, big) + (if c < end then Joined(ts, q, c + 1, end, big) else [])
  }

  ghost function TablesOf(ts: seq<Token>, q: Query, big: bool): seq<TableInfo> {
    match IdAt(ts, q.tbegin)
    case Select => Listed(ts, q, q.fromstart, q.fromend, big)
    case _ => Simple(ts, q, q.fromstart, q.fromend, big)
  }

  ghost function AllTables(ts: seq<Token>, qs: seq<Query>, big: bool): seq<TableInfo> {
    if qs == [] then [] else AllTables(ts, qs[..|qs| - 1], big) + TablesOf(ts, qs[|qs| - 1], big)
  }

  // ----- what is found -----

  /** An alias is a literal behind the name. */
  ghost predicate AliasWithin(ts: seq<Token>, alias: string, pos: int, hi: int) {
    alias == "" || exists a :: pos < a < hi && IdAt(ts, a) == Literal && alias == TextAt(ts, a)
  }

  ghost predicate TableWithin(ts: seq<Token>, t: TableInfo, q: Query, lo: int, hi: int) {
    && t.query == q && lo <= t.position < hi && t.name == TextAt(ts, t.position)
    && (IdAt(ts, t.position) == Literal || (lo + 4 <= t.position && IdAt(ts, t.position - 1) == Dot))
    && AliasWithin(ts, t.alias, t.position, hi)
  }

  /** Tables of one query, in the order of their positions. */
  ghost predicate InOrder(ts: seq<Token>, tabs: seq<TableInfo>, q: Query, lo: int, hi: int) {
    && (forall i | 0 <= i < |tabs| :: TableWithin(ts, tabs[i], q, lo, hi))
    && (forall i, j | 0 <= i < j < |tabs| :: tabs[i].position < tabs[j].position)
  }

  lemma {:induction false} AliasFound(ts: seq<Token>, pos: int, end: int, alias: string, hi: int)
    requires Aliased(ts, pos, end, alias) && end <= hi
    ensures AliasWithin(ts, alias, pos, hi)
  {
    if end == pos + 2 {
      assert IdAt(ts, pos + 1) == Literal;
    } else if end == pos + 3 {
      assert IdAt(ts, pos + 2) == Literal;
    }
  }

  /** What is found is what the tokens name. */
  lemma {:induction false} SimpleNamed(ts: seq<Token>, q: Query, start: int, end: int, big: bool)
    ensures var r := Simple(ts, q, start, end, big);
      r == [] || (r == [TableInfo(TextAt(ts, r[0].position), r[0].alias, r[0].position, q, big)]
                  && Names(ts, start, WithoutSemicolons(ts, start, end), r[0].position, r[0].alias))
  {
    hide Names;
  }

  lemma {:induction false} NameWithin(ts: seq<Token>, t: TableInfo, q: Query, start: int, end: int, hi: int)
    requires t.query == q && t.name == TextAt(ts, t.position) && Names(ts, start, end, t.position, t.alias) && end <= hi
    ensures TableWithin(ts, t, q, start, hi)
  {
    AliasFound(ts, t.position, end, t.alias, hi);
    hide AliasWithin;
  }

  lemma {:induction false} SimpleInOrder(ts: seq<Token>, q: Query, start: int, end: int, big: bool, lo: int, hi: int)
    requires lo <= start && end <= hi
    ensures InOrder(ts, Simple(ts, q, start, end, big), q, lo, hi)
  {
    var r := Simple(ts, q, start, end, big);
    SimpleNamed(ts, q, start, end, big);
    hide Simple, Names;
    if r != [] {
      NameWithin(ts, r[0], q, start, WithoutSemicolons(ts, start, end), end);
      hide TableWithin;
      InOrderWider(ts, r, q, start, end, lo, hi);
    }
  }

  lemma {:induction false} InOrderWider(ts: seq<Token>, p: seq<TableInfo>, q: Query, lo: int, hi: int, lo': int,
      hi': int)
    requires InOrder(ts, p, q, lo, hi) && lo' <= lo && hi <= hi'
    ensures InOrder(ts, p, q, lo', hi')
  {
  }

  lemma {:induction false} InOrderBoth(ts: seq<Token>, p: seq<TableInfo>, r: seq<TableInfo>, q: Query, lo: int,
      mid: int, mid': int, hi: int)
    requires InOrder(ts, p, q, lo, mid) && InOrder(ts, r, q, mid', hi) && lo <= mid <= mid' <= hi
    ensures InOrder(ts, p + r, q, lo, hi)
  {
    InOrderWider(ts, p, q, lo, mid, lo, hi);
    InOrderWider(ts, r, q, mid', hi, lo, hi);
    assert forall i | 0 <= i < |r| :: TableWithin(ts, r[i], q, mid', hi);
    assert forall i | 0 <= i < |p| :: TableWithin(ts, p[i], q, lo, mid);
  }

  lemma {:induction false} NoneInOrder(ts: seq<Token>, q: Query, lo: int, hi: int)
    ensures InOrder(ts, [], q, lo, hi)
  {
  }

  lemma {:induction false} JoinedInOrder(ts: seq<Token>, q: Query, i: int, end: int, big: bool)
    requires i <= end + 1
    ensures InOrder(ts, Joined(ts, q, i, end, big), q, i, end)
    decreases end - i, 1
  {
    hide Simple, InOrder, Joined, First, Sought, JOINS, CONDITIONS, Hit;
    NoneInOrder(ts, q, i, end);
    var t := First(ts, i, end, JOINS);
    if t >= end {
      LastUnfolds(ts, q, i, end, big);
      SimpleInOrder(ts, q, i, t, big, i, t);
      SimpleNone(ts, q, i, t, big);
    } else if IdAt(ts, t) == Comma {
      CommaUnfolds(ts, q, i, end, big);
      JoinedInOrder(ts, q, t + 1, end, big);
      NoneInOrder(ts, q, i, t);
      SimpleInOrder(ts, q, i, t, big, i, t);
      InOrderBoth(ts, if t - i < 5 then Simple(ts, q, i, t, big) else [], Joined(ts, q, t + 1, end, big), q, i, t, t
          + 1, end);
    } else {
      JoinInOrder(ts, q, i, end, big);
      InOrderWider(ts, Joined(ts, q, i, end, big), q, t + 1, end, i, end);
    }
  }

  /** Nothing in front of a JOIN is found again. */
  lemma {:induction false} JoinInOrder(ts: seq<Token>, q: Query, i: int, end: int, big: bool)
    requires i <= end + 1 && First(ts, i, end, JOINS) < end && IdAt(ts, First(ts, i, end, JOINS)) != Comma
    ensures InOrder(ts, Joined(ts, q, i, end, big), q, First(ts, i, end, JOINS) + 1, end)
    decreases end - i, 0
  {
    hide Simple, InOrder, Joined, First, Sought, JOINS, CONDITIONS, Hit;
    var t := First(ts, i, end, JOINS);
    var c := First(ts, t + 1, end, CONDITIONS);
    if c < end {
      JoinedInOrder(ts, q, c + 1, end, big);
    }
    JoinUnfolds(ts, q, i, end, big);
    OperandInOrder(ts, q, t + 1, c, if c < end then Joined(ts, q, c + 1, end, big) else [], end, big);
  }

  lemma {:induction false} LastUnfolds(ts: seq<Token>, q: Query, i: int, end: int, big: bool)
    requires First(ts, i, end, JOINS) >= end
    ensures var t := First(ts, i, end, JOINS);
      Joined(ts, q, i, end, big) == if IdAt(ts, i - 1) == Comma && t - i < 5 then Simple(ts, q, i, t, big) else []
  {
  }

  lemma {:induction false} CommaUnfolds(ts: seq<Token>, q: Query, i: int, end: int, big: bool)
    requires First(ts, i, end, JOINS) < end && IdAt(ts, First(ts, i, end, JOINS)) == Comma
    ensures var t := First(ts, i, end, JOINS);
      Joined(ts, q, i, end, big) == (if t - i < 5 then Simple(ts, q, i, t, big) else [])
          + Joined(ts, q, t + 1, end, big)
  {
  }

  lemma {:induction false} JoinUnfolds(ts: seq<Token>, q: Query, i: int, end: int, big: bool)
    requires First(ts, i, end, JOINS) < end && IdAt(ts, First(ts, i, end, JOINS)) != Comma
    ensures var t := First(ts, i, end, JOINS);
      var c := First(ts, t + 1, end, CONDITIONS);
      var rest := if c < end then Joined(ts, q, c + 1, end, big) else [];
      Joined(ts, q, i, end, big) == if c - (t + 1) > 5 then rest else Simple(ts, q, t + 1, c, big) + rest
  {
    hide Simple, Sought, JOINS, CONDITIONS;
    JoinedBehind(ts, q, end + 1, end, big);
  }

  lemma {:induction false} OperandInOrder(ts: seq<Token>, q: Query, s: int, c: int, rest: seq<TableInfo>, end: int,
      big: bool)
    requires s <= c <= end && (if c < end then InOrder(ts, rest, q, c + 1, end) else rest == [])
    ensures InOrder(ts, rest, q, s, end) && InOrder(ts, Simple(ts, q, s, c, big) + rest, q, s, end)
  {
    hide Simple, TableWithin;
    SimpleInOrder(ts, q, s, c, big, s, c);
    if c < end {
      InOrderWider(ts, rest, q, c + 1, end, s, end);
      InOrderBoth(ts, Simple(ts, q, s, c, big), rest, q, s, c, c + 1, end);
    } else {
      assert Simple(ts, q, s, c, big) + [] == Simple(ts, q, s, c, big);
    }
  }

  lemma {:induction false} SimpleNone(ts: seq<Token>, q: Query, start: int, end: int, big: bool)
    ensures end <= start ==> Simple(ts, q, start, end, big) == []
  {
  }

  lemma {:induction false} JoinedBehind(ts: seq<Token>, q: Query, i: int, end: int, big: bool)
    requires i >= end
    ensures Joined(ts, q, i, end, big) == []
  {
  }

  lemma {:induction false} ListedInOrder(ts: seq<Token>, q: Query, i: int, end: int, big: bool)
    ensures InOrder(ts, Listed(ts, q, i, end, big), q, i, end)
    decreases end - i
  {
    hide Simple, TableWithin, Joined;
    if i < end {
      var t := First(ts, i, end, TABLE_ENDS);
      SimpleInOrder(ts, q, i, t, big, i, t);
      if t < end && t - i > 5 {
        var next := if IdAt(ts, t) == Comma then t + 1 else t;
        ListedInOrder(ts, q, next, end, big);
        InOrderWider(ts, Listed(ts, q, next, end, big), q, next, end, i, end);
      } else if t < end {
        JoinedInOrder(ts, q, t, end, big);
        InOrderBoth(ts, Simple(ts, q, i, t, big), Joined(ts, q, t, end, big), q, i, t, t, end);
      }
    }
  }

  // ----- all tables -----

  /** A name of more than three tokens ends within the tokens. */
  predicate Bounded(ts: seq<Token>, q: Query) {
    0 <= q.fromstart && (q.fromend <= |ts| || q.fromend <= q.fromstart + 3)
  }

  lemma {:induction false} TablesInOrder(ts: seq<Token>, q: Query, big: bool)
    ensures InOrder(ts, TablesOf(ts, q, big), q, q.fromstart, q.fromend)
  {
    hide Simple, Listed;
    ListedInOrder(ts, q, q.fromstart, q.fromend, big);
    SimpleInOrder(ts, q, q.fromstart, q.fromend, big, q.fromstart, q.fromend);
  }

  lemma {:induction false} TableIsItsToken(ts: seq<Token>, qs: seq<Query>, big: bool, t: TableInfo)
    requires t in AllTables(ts, qs, big) && forall q | q in qs :: Bounded(ts, q)
    ensures t.query in qs && TableWithin(ts, t, t.query, t.query.fromstart, t.query.fromend)
    ensures 0 <= t.position < |ts| && t.name == ts[t.position].text
    decreases |qs|
  {
    hide TablesOf, AliasWithin;
    if qs != [] {
      var q := qs[|qs| - 1];
      assert q in qs;
      if t in TablesOf(ts, q, big) {
        TablesInOrder(ts, q, big);
      } else {
        TableIsItsToken(ts, qs[..|qs| - 1], big, t);
      }
    }
  }

  // ----- lists without joins -----

  /** A name, with any qualifiers and any alias, that is a literal. */
  ghost predicate IsName(ts: seq<Token>, i: int, end: int) {
    exists pos, alias :: Names(ts, i, end, pos, alias) && IdAt(ts, pos) == Literal
  }

  /** Such names separated by commas. */
  ghost predicate NameList(ts: seq<Token>, i: int, end: int)
    decreases end - i
  {
    var c := First(ts, i, end, {Comma});
    IsName(ts, i, c) && c <= end && (c < end ==> NameList(ts, c + 1, end))
  }

  /** The tables that the list names. */
  ghost function Listing(ts: seq<Token>, q: Query, i: int, end: int, big: bool): seq<TableInfo>
    decreases end - i
  {
    var c := First(ts, i, end, {Comma});
    if i >= end then [] else Simple(ts, q, i, c, big) + Listing(ts, q, c + 1, end, big)
  }

  /** Those of less than five tokens. */
  ghost function ShortOnes(ts: seq<Token>, q: Query, i: int, end: int, big: bool): seq<TableInfo>
    decreases end - i
  {
    var c := First(ts, i, end, {Comma});
    if i >= end then [] else (if c - i < 5 then Simple(ts, q, i, c, big) else []) + ShortOnes(ts, q, c + 1, end, big)
  }

  /** Every name has less than five tokens. */
  predicate AllShort(ts: seq<Token>, i: int, end: int)
    decreases end - i
  {
    var c := First(ts, i, end, {Comma});
    i >= end || (c - i < 5 && AllShort(ts, c + 1, end))
  }

  lemma {:induction false} OneName(ts: seq<Token>, q: Query, i: int, big: bool)
    requires IdAt(ts, i) == Literal
    ensures Simple(ts, q, i, i + 1, big) == [TableInfo(TextAt(ts, i), "", i, q, big)]
  {
    assert WithoutSemicolons(ts, i, i + 1) == i + 1;
    assert Names(ts, i, i + 1, i, "");
    SimpleIs(ts, q, i, i + 1, big, i, "");
  }

  lemma {:induction false} QualifiedTokens(ts: seq<Token>, start: int, pos: int)
    requires Qualified(ts, start, pos) && IdAt(ts, pos) == Literal
    ensures start <= pos && forall j | start <= j <= pos :: IdAt(ts, j) in {Literal, Dot, As}
  {
  }

  lemma {:induction false} AliasedTokens(ts: seq<Token>, pos: int, end: int, alias: string)
    requires Aliased(ts, pos, end, alias) && IdAt(ts, pos) == Literal
    ensures pos < end && IdAt(ts, end - 1) == Literal && forall j | pos < j < end :: IdAt(ts, j) in {Literal, Dot, As}
  {
  }

  /** A name is one table, and no token of it ends a search for what separates tables. */
  lemma {:induction false} NameTokens(ts: seq<Token>, q: Query, i: int, c: int, big: bool)
    requires IsName(ts, i, c)
    ensures i < c && |Simple(ts, q, i, c, big)| == 1
    ensures forall j | i <= j < c :: IdAt(ts, j) in {Literal, Dot, As}
  {
    var pos, alias :| Names(ts, i, c, pos, alias) && IdAt(ts, pos) == Literal;
    QualifiedTokens(ts, i, pos);
    AliasedTokens(ts, pos, c, alias);
    hide Simple, Qualified, Aliased, IdAt;
    assert WithoutSemicolons(ts, i, c) == c;
    SimpleIs(ts, q, i, c, big, pos, alias);
  }

  lemma {:induction false} FlatDepth(ts: seq<Token>, i: int, j: int)
    requires i <= j && forall k | i <= k < j :: IdAt(ts, k) in {Literal, Dot, As}
    ensures Depth(ts, i, j) == 0
    decreases j - i
  {
    if i < j {
      FlatDepth(ts, i, j - 1);
    }
  }

  lemma {:induction false} ListEnds()
    ensures Comma in TABLE_ENDS && Comma in JOINS
    ensures forall id | id in {Literal, Dot, As} :: id !in TABLE_ENDS && id !in JOINS
  {
    assert TABLE_END_LIST[7] == Comma && JOIN_LIST[2] == Comma;
  }

  /** So the searches for a comma, for what ends a table, and for what joins one, end at the same comma. */
  lemma {:induction false} SameEnd(ts: seq<Token>, q: Query, i: int, end: int, big: bool)
    requires NameList(ts, i, end)
    ensures var c := First(ts, i, end, {Comma});
      i < c <= end && |Simple(ts, q, i, c, big)| == 1 && First(ts, i, end, TABLE_ENDS) == c == First(ts, i, end, JOINS)
      && (c < end ==> IdAt(ts, c) == Comma && First(ts, c, end, JOINS) == c)
  {
    hide Simple, IsName, TABLE_ENDS, JOINS, Sought;
    ListEnds();
    var c := First(ts, i, end, {Comma});
    NameTokens(ts, q, i, c, big);
    forall j | i <= j <= c
      ensures Depth(ts, i, j) == 0
    {
      FlatDepth(ts, i, j);
    }
    FirstIs(ts, i, end, TABLE_ENDS, c);
    FirstIs(ts, i, end, JOINS, c);
    if c < end {
      FlatDepth(ts, c, c);
      FirstIs(ts, c, end, JOINS, c);
    }
    hide First, Depth;
  }

  /** Behind a comma, names of five tokens or more are dropped. */
  lemma {:induction false} RestOfList(ts: seq<Token>, q: Query, i: int, end: int, big: bool)
    requires NameList(ts, i, end) && IdAt(ts, i - 1) == Comma
    ensures Joined(ts, q, i, end, big) == ShortOnes(ts, q, i, end, big)
    decreases end - i
  {
    hide First, Simple, IsName, Sought, JOINS, TABLE_ENDS, Hit;
    SameEnd(ts, q, i, end, big);
    var c := First(ts, i, end, {Comma});
    if c < end {
      CommaUnfolds(ts, q, i, end, big);
      RestOfList(ts, q, c + 1, end, big);
    } else {
      LastUnfolds(ts, q, i, end, big);
      assert ShortOnes(ts, q, c + 1, end, big) == [];
    }
    hide Joined;
  }

  /**
   Leading names of more than five tokens are dropped, but for a last one; of what follows the first name kept, the
   short ones are kept.
   */
  lemma {:induction false} ListFound(ts: seq<Token>, q: Query, i: int, end: int, big: bool)
    requires NameList(ts, i, end)
    ensures var c := First(ts, i, end, {Comma});
      Listed(ts, q, i, end, big) ==
        if c == end then Simple(ts, q, i, c, big)
        else if c - i > 5 then Listed(ts, q, c + 1, end, big)
        else Simple(ts, q, i, c, big) + ShortOnes(ts, q, c + 1, end, big)
  {
    hide First, Simple, IsName, Sought, JOINS, TABLE_ENDS, Hit, ShortOnes;
    SameEnd(ts, q, i, end, big);
    var c := First(ts, i, end, {Comma});
    if c < end {
      CommaUnfolds(ts, q, c, end, big);
      SimpleNone(ts, q, c, c, big);
      RestOfList(ts, q, c + 1, end, big);
      hide Joined;
    }
  }

  lemma {:induction false} ShortCount(ts: seq<Token>, q: Query, i: int, end: int, big: bool)
    requires NameList(ts, i, end)
    ensures |ShortOnes(ts, q, i, end, big)| <= |Listing(ts, q, i, end, big)|
    ensures ShortOnes(ts, q, i, end, big) == Listing(ts, q, i, end, big) <==> AllShort(ts, i, end)
    ensures !AllShort(ts, i, end) ==> |ShortOnes(ts, q, i, end, big)| < |Listing(ts, q, i, end, big)|
    decreases end - i
  {
    hide First, Simple, IsName, TABLE_ENDS, JOINS;
    SameEnd(ts, q, i, end, big);
    var c := First(ts, i, end, {Comma});
    if c < end {
      ShortCount(ts, q, c + 1, end, big);
    }
  }

  lemma {:induction false} FoundCount(ts: seq<Token>, q: Query, i: int, end: int, big: bool)
    requires NameList(ts, i, end)
    ensures |Listed(ts, q, i, end, big)| <= |Listing(ts, q, i, end, big)|
    decreases end - i
  {
    hide First, Simple, IsName, TABLE_ENDS, JOINS, Listed, ShortOnes, AllShort;
    SameEnd(ts, q, i, end, big);
    ListFound(ts, q, i, end, big);
    var c := First(ts, i, end, {Comma});
    if c < end {
      ShortCount(ts, q, c + 1, end, big);
      FoundCount(ts, q, c + 1, end, big);
    }
  }

  /**
   Of names separated by commas every one is found, just when there is one only, or the first has at most
   five tokens and every other less than five.
   */
  lemma {:induction false} CommaListFound(ts: seq<Token>, q: Query, i: int, end: int, big: bool)
    requires NameList(ts, i, end)
    ensures var c := First(ts, i, end, {Comma});
      Listed(ts, q, i, end, big) == Listing(ts, q, i, end, big) <==>
          c == end || (c - i <= 5 && AllShort(ts, c + 1, end))
  {
    hide First, Simple, IsName, TABLE_ENDS, JOINS, Listed, ShortOnes, AllShort;
    SameEnd(ts, q, i, end, big);
    ListFound(ts, q, i, end, big);
    var c := First(ts, i, end, {Comma});
    if c < end {
      ShortCount(ts, q, c + 1, end, big);
      FoundCount(ts, q, c + 1, end, big);
      SameRest(Simple(ts, q, i, c, big), ShortOnes(ts, q, c + 1, end, big), Listing(ts, q, c + 1, end, big));
    }
  }

  lemma {:induction false} SameRest<T>(a: seq<T>, b: seq<T>, c: seq<T>)
    ensures a + b == a + c <==> b == c
  {
    if a + b == a + c {
      assert b == (a + b)[|a|..] && c == (a + c)[|a|..];
    }
  }
}
