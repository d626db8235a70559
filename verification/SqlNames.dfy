/**
 Table names that the parser of sql/sqlparser.cpp reports and the statement does not mean, and one that it does not
 report.
 */
module SqlNames {
  import opened Options
  import opened SqlTokens
  import opened SqlQueries
  import opened SqlTables
  import opened SqlTheorems

  // ----- CREATE, ALTER and DROP -----

  /** The table is the first token of the name, if that is a literal, whatever follows it. */
  lemma {:induction false} CreateReports(ts: seq<Token>, q: Query, big: bool)
    requires q in Queries(ts, 0, |ts|) && IdAt(ts, q.tbegin) in {Create, Alter, Drop}
    ensures TablesOf(ts, q, big) ==
      if IdAt(ts, q.fromstart) == Literal then [TableInfo(TextAt(ts, q.fromstart), "", q.fromstart, q, big)] else []
  {
    hide Queries, Simple, TablesOf;
    CreateTakesOneToken(ts, q);
    NotListed(ts, q, big);
    OneToken(ts, q, q.fromstart, big);
  }

  lemma {:induction false} NotListed(ts: seq<Token>, q: Query, big: bool)
    requires IdAt(ts, q.tbegin) != Select
    ensures TablesOf(ts, q, big) == Simple(ts, q, q.fromstart, q.fromend, big)
  {
    hide Simple;
  }

  lemma {:induction false} OneToken(ts: seq<Token>, q: Query, f: int, big: bool)
    ensures Simple(ts, q, f, f + 1, big) == if IdAt(ts, f)
          == Literal then [TableInfo(TextAt(ts, f), "", f, q, big)] else []
  {
    var e := WithoutSemicolons(ts, f, f + 1);
    if IdAt(ts, f) == Literal {
      OneName(ts, q, f, big);
    } else if p, a :| Names(ts, f, e, p, a) {
      assert false;
    }
  }

  /** Its range is that of the name, as DESCRIBE and the like take it, just when the name has no schema. */
  lemma {:induction false} CreateIsRight(ts: seq<Token>, b: int, e: int)
    requires CreateQuery(ts, b, e).Some? && IdAt(ts, 0) != Dot
    ensures var q := CreateQuery(ts, b, e).value;
      q == NameAt(ts, b, e, q.fromstart) <==> !(q.fromstart + 2 < e && IdAt(ts, q.fromstart + 1) == Dot)
  {
  }

  /** CREATE TABLE s . t */
  const CREATE_IN_SCHEMA: seq<Token> := [
    Token(Create, "create"), Token(Table, "table"), Token(Literal, "s"), Token(Dot, "."), Token(Literal, "t")]

  lemma {:induction false} CreateIds()
    ensures var ts := CREATE_IN_SCHEMA;
          |ts| == 5 && IdAt(ts, 0) == Create && IdAt(ts, 1) == Table && IdAt(ts, 2) == Literal && TextAt(ts, 2) == "s"
  {
  }

  lemma {:induction false} StatementAlone(ts: seq<Token>, q: Query)
    requires |ts| > 0 && ts[0].id in {Create, Alter, Drop} && CreateQuery(ts, 0, |ts|) == Some(q)
    ensures Queries(ts, 0, |ts|) == [q]
  {
    hide CreateQuery;
    assert SkipHeader(ts, 0, |ts|) == 0;
    assert QueryAt(ts, 0, |ts|) == Some(q);
    hide QueryAt;
    assert Contained(ts, 0, |ts|, 0, q) == [];
    assert [q] + [] == [q];
  }

  lemma {:induction false} TablesOfOne(ts: seq<Token>, q: Query, big: bool)
    ensures AllTables(ts, [q], big) == TablesOf(ts, q, big)
  {
    hide TablesOf;
    assert [q][..0] == [];
    assert AllTables(ts, [q][..0], big) == [];
  }

  /** The schema is reported as the table. */
  lemma {:induction false} SchemaReported(big: bool)
    ensures var ts := CREATE_IN_SCHEMA;
      AllTables(ts, Queries(ts, 0, 5), big) == [TableInfo("s", "", 2, Query(0, 5, 2, 3, 0, 0), big)]
  {
    var ts, q := CREATE_IN_SCHEMA, Query(0, 5, 2, 3, 0, 0);
    CreateIds();
    hide CREATE_IN_SCHEMA;
    assert CreateQuery(ts, 0, 5) == Some(q);
    StatementAlone(ts, q);
    hide Queries, TablesOf, AllTables, CreateQuery;
    assert q in [q];
    CreateReports(ts, q, big);
    TablesOfOne(ts, q, big);
  }

  // ----- a name behind a database and a user -----

  /** Any token does as the third part of a name, and only as the third part. */
  lemma {:induction false} ThirdPartIsAny(ts: seq<Token>, start: int, pos: int)
    requires IdAt(ts, pos) != Literal
    ensures (exists end, alias :: Names(ts, start, end, pos, alias)) <==>
      pos == start + 4 && IdAt(ts, start) == IdAt(ts, start + 2) == Literal
          && IdAt(ts, start + 1) == IdAt(ts, start + 3) == Dot
  {
    if Qualified(ts, start, pos) {
      assert Names(ts, start, pos + 1, pos, "");
    }
  }

  /** DELETE FROM d . u . SELECT */
  const KEYWORD_AS_NAME: seq<Token> := [
    Token(Delete, "delete"), Token(From, "from"), Token(Literal, "d"), Token(Dot, "."), Token(Literal, "u"),
        Token(Dot, "."), Token(Select, "select")]

  lemma {:induction false} KeywordIds()
    ensures |KEYWORD_AS_NAME| == 7 && IdAt(KEYWORD_AS_NAME, 0) == Delete && IdAt(KEYWORD_AS_NAME, 1) == From
    ensures IdAt(KEYWORD_AS_NAME, 2) == IdAt(KEYWORD_AS_NAME, 4) == Literal
    ensures IdAt(KEYWORD_AS_NAME, 3) == IdAt(KEYWORD_AS_NAME, 5) == Dot
    ensures IdAt(KEYWORD_AS_NAME, 6) == Select && TextAt(KEYWORD_AS_NAME, 6) == "select"
  {
  }

  lemma {:induction false} KeywordQuery()
    ensures DeleteQuery(KEYWORD_AS_NAME, 0, 7) == Some(Query(0, 7, 2, 7, 7, 7))
  {
    var ts := KEYWORD_AS_NAME;
    KeywordIds();
    hide KEYWORD_AS_NAME;
    assert Hit(ts, 0, 1, {From});
    FirstIs(ts, 0, 7, {From}, 1);
    FirstIs(ts, 2, 7, {Where}, 7);
    hide First, Depth;
  }

  lemma {:induction false} KeywordAlone()
    ensures Queries(KEYWORD_AS_NAME, 0, 7) == [Query(0, 7, 2, 7, 7, 7)]
  {
    var ts, q := KEYWORD_AS_NAME, Query(0, 7, 2, 7, 7, 7);
    KeywordIds();
    KeywordQuery();
    hide KEYWORD_AS_NAME, DeleteQuery;
    assert SkipHeader(ts, 0, 7) == 0;
    assert QueryAt(ts, 0, 7) == Some(q);
    hide QueryAt;
    NoNested(ts, 7, 7);
    assert Contained(ts, 0, 7, 0, q) == [];
    assert [q] + [] == [q];
    hide Nested;
  }

  /** The keyword is reported as a table. */
  lemma {:induction false} KeywordReported(big: bool)
    ensures var ts := KEYWORD_AS_NAME;
      AllTables(ts, Queries(ts, 0, 7), big) == [TableInfo("select", "", 6, Query(0, 7, 2, 7, 7, 7), big)]
          && IdAt(ts, 6) == Select
  {
    var ts, q := KEYWORD_AS_NAME, Query(0, 7, 2, 7, 7, 7);
    KeywordIds();
    KeywordAlone();
    hide KEYWORD_AS_NAME, Queries, AllTables, TablesOf;
    TablesOfOne(ts, q, big);
    NotListed(ts, q, big);
    assert WithoutSemicolons(ts, 2, 7) == 7;
    SimpleIs(ts, q, 2, 7, big, 6, "");
  }

  // ----- a SELECT without braces -----

  lemma {:induction false} NoneInBraces(ts: seq<Token>, lo: int, hi: int, i: int, start: int)
    requires lo <= i && forall j | i <= j < hi :: Step(IdAt(ts, j)) == 0
    ensures NestedFrom(ts, lo, hi, i, 0, start) == []
    decreases hi - i
  {
    if i < hi {
      NoneInBraces(ts, lo, hi, i + 1, start);
    }
  }

  /** SELECT FROM and, to the end, tokens that are no braces and end no FROM range. */
  predicate FromOnly(ts: seq<Token>) {
    |ts| > 2 && IdAt(ts, 0) == Select && IdAt(ts, 1) == From
    && forall j | 2 <= j < |ts| :: Step(IdAt(ts, j)) == 0 && IdAt(ts, j) !in FROM_ENDS
  }

  lemma {:induction false} FromOnlyQuery(ts: seq<Token>)
    requires FromOnly(ts)
    ensures SelectQuery(ts, 0, |ts|) == Some(Query(0, |ts|, 2, |ts|, |ts|, 0))
  {
    hide FROM_ENDS;
    var n := |ts|;
    UnionEnds();
    assert Hit(ts, 0, 1, {From});
    FirstIs(ts, 0, n, {From}, 1);
    FirstIs(ts, 0, n, {Union}, n);
    FirstIs(ts, 2, n, FROM_ENDS, n);
    FirstIs(ts, n, n, {Where}, n);
    hide First, Depth;
  }

  lemma {:induction false} FromOnlyAlone(ts: seq<Token>)
    requires FromOnly(ts)
    ensures Queries(ts, 0, |ts|) == [Query(0, |ts|, 2, |ts|, |ts|, 0)]
  {
    var q := Query(0, |ts|, 2, |ts|, |ts|, 0);
    FromOnlyQuery(ts);
    NoneInBraces(ts, 0, 2, 0, 0);
    NoneInBraces(ts, 2, |ts|, 2, 2);
    NoNested(ts, |ts|, 0);
    hide FROM_ENDS, SelectQuery, NestedFrom;
    SelectContains(ts, 0, |ts|, q);
    assert [q] + [] + ([] + [] + []) == [q];
    hide Nested, Queries;
  }

  // ----- a name that is dropped -----

  /** SELECT FROM t , s . u AS x */
  const LONG_NAME: seq<Token> := [
    Token(Select, "select"), Token(From, "from"), Token(Literal, "t"), Token(Comma, ","),
    Token(Literal, "s"), Token(Dot, "."), Token(Literal, "u"), Token(As, "as"), Token(Literal, "x")]

  lemma {:induction false} LongNameIds()
    ensures |LONG_NAME| == 9 && IdAt(LONG_NAME, 0) == Select && IdAt(LONG_NAME, 1) == From
    ensures IdAt(LONG_NAME, 2) == Literal && TextAt(LONG_NAME, 2) == "t" && IdAt(LONG_NAME, 3) == Comma
    ensures IdAt(LONG_NAME, 4) == Literal && IdAt(LONG_NAME, 5) == Dot
  {
  }

  lemma {:induction false} LongNameIds'()
    ensures IdAt(LONG_NAME, 6) == Literal && IdAt(LONG_NAME, 7) == As && IdAt(LONG_NAME, 8) == Literal
    ensures TextAt(LONG_NAME, 8) == "x"
  {
  }

  lemma {:induction false} PlainIds()
    ensures forall id | id in {Literal, Comma, Dot, As, Join, On} :: id !in FROM_ENDS
  {
  }

  lemma {:induction false} LongNameList()
    ensures NameList(LONG_NAME, 2, 9) && First(LONG_NAME, 2, 9, {Comma}) == 3 && First(LONG_NAME, 4, 9, {Comma}) == 9
    ensures Names(LONG_NAME, 4, 9, 6, "x") && FromOnly(LONG_NAME)
  {
    var ts := LONG_NAME;
    LongNameIds();
    LongNameIds'();
    PlainIds();
    hide LONG_NAME, FROM_ENDS, IdAt, TextAt;
    FlatDepth(ts, 2, 2);
    FlatDepth(ts, 2, 3);
    FirstIs(ts, 2, 9, {Comma}, 3);
    FirstIs(ts, 4, 9, {Comma}, 9);
    hide First, Depth;
    assert Names(ts, 2, 3, 2, "");
    assert Names(ts, 4, 9, 6, "x");
    assert IsName(ts, 2, 3) && IsName(ts, 4, 9);
    assert NameList(ts, 4, 9);
  }

  /** Behind a comma, a name with schema and alias is not reported. */
  lemma {:induction false} NameDropped(big: bool)
    ensures Names(LONG_NAME, 4, 9, 6, "x")
    ensures AllTables(LONG_NAME, Queries(LONG_NAME, 0, 9), big) == [TableInfo("t", "", 2, Query(0, 9, 2, 9, 9, 0), big)]
  {
    var ts, q := LONG_NAME, Query(0, 9, 2, 9, 9, 0);
    LongNameIds();
    LongNameList();
    hide LONG_NAME, IdAt, TextAt, Queries, AllTables, Simple, NameList, Names, FromOnly, First, Listed, FROM_ENDS;
    FromOnlyAlone(ts);
    TablesOfOne(ts, q, big);
    ListFound(ts, q, 2, 9, big);
    OneName(ts, q, 2, big);
    assert ShortOnes(ts, q, 10, 9, big) == [];
    assert ShortOnes(ts, q, 4, 9, big) == [];
    assert [TableInfo("t", "", 2, q, big)] + [] == [TableInfo("t", "", 2, q, big)];
  }

  // ----- the condition of a join -----

  /**
   What stands behind ON or USING up to the next comma or JOIN is reported as a table just when it is a comma,
   within five tokens, and the condition reads like a name.
   */
  lemma {:induction false} ConditionReported(ts: seq<Token>, q: Query, i: int, end: int, big: bool)
    requires i <= end + 1 && IdAt(ts, i - 1) in {On, Using}
    ensures var t := First(ts, i, end, JOINS);
      (exists x :: x in Joined(ts, q, i, end, big) && x.position < t) <==>
      t < end && IdAt(ts, t) == Comma && t - i < 5
          && exists pos, alias :: Names(ts, i, WithoutSemicolons(ts, i, t), pos, alias)
  {
    hide First, Simple, Joined, JOINS, Names, WithoutSemicolons;
    var t := First(ts, i, end, JOINS);
    if t >= end {
      LastUnfolds(ts, q, i, end, big);
    } else if IdAt(ts, t) == Comma {
      BehindCondition(ts, q, i, end, t, big);
      SimpleReported(ts, q, i, t, big);
    } else {
      JoinInOrder(ts, q, i, end, big);
      NoneBefore(ts, Joined(ts, q, i, end, big), q, t + 1, end);
    }
  }

  lemma {:induction false} BehindCondition(ts: seq<Token>, q: Query, i: int, end: int, t: int, big: bool)
    requires i <= end + 1 && IdAt(ts, i - 1) in {On, Using} && t == First(ts, i, end, JOINS)
    requires t < end && IdAt(ts, t) == Comma
    ensures (exists x :: x in Joined(ts, q, i, end, big) && x.position < t) <==>
      t - i < 5 && exists x :: x in Simple(ts, q, i, t, big) && x.position < t
  {
    hide First, Simple, Joined, JOINS;
    CommaUnfolds(ts, q, i, end, big);
    JoinedInOrder(ts, q, t + 1, end, big);
    NoneBefore(ts, Joined(ts, q, t + 1, end, big), q, t + 1, end);
  }

  lemma {:induction false} NoneBefore(ts: seq<Token>, tabs: seq<TableInfo>, q: Query, lo: int, hi: int)
    requires InOrder(ts, tabs, q, lo, hi)
    ensures forall x | x in tabs :: x.position >= lo
  {
  }

  lemma {:induction false} SimpleReported(ts: seq<Token>, q: Query, i: int, t: int, big: bool)
    ensures (exists x :: x in Simple(ts, q, i, t, big) && x.position < t) <==>
      exists pos, alias :: Names(ts, i, WithoutSemicolons(ts, i, t), pos, alias)
  {
    var e := WithoutSemicolons(ts, i, t);
    SimpleNamed(ts, q, i, t, big);
    if pos, alias :| Names(ts, i, e, pos, alias) {
      NamedReported(ts, q, i, t, e, big, pos, alias);
      assert Names(ts, i, WithoutSemicolons(ts, i, t), pos, alias);
    }
    hide Simple, Names, WithoutSemicolons;
  }

  lemma {:induction false} NamedReported(
    ts: seq<Token>, q: Query, i: int, t: int, e: int, big: bool, pos: int, alias: string)
    requires e == WithoutSemicolons(ts, i, t) && Names(ts, i, e, pos, alias)
    ensures exists x :: x in Simple(ts, q, i, t, big) && x.position < t
  {
    SimpleIs(ts, q, i, t, big, pos, alias);
    assert pos < e <= t;
    hide WithoutSemicolons, Simple, Names;
    assert Simple(ts, q, i, t, big)[0].position == pos;
    assert Simple(ts, q, i, t, big)[0] in Simple(ts, q, i, t, big);
  }

  /** SELECT FROM a JOIN b ON a . f , c */
  const JOIN_AND_COMMA: seq<Token> := [
    Token(Select, "select"), Token(From, "from"), Token(Literal, "a"), Token(Join, "join"), Token(Literal, "b"),
        Token(On, "on"),
    Token(Literal, "a"), Token(Dot, "."), Token(Literal, "f"), Token(Comma, ","), Token(Literal, "c")]

  lemma {:induction false} JoinIds()
    ensures |JOIN_AND_COMMA| == 11 && IdAt(JOIN_AND_COMMA, 0) == Select && IdAt(JOIN_AND_COMMA, 1) == From
    ensures IdAt(JOIN_AND_COMMA, 2) == Literal && IdAt(JOIN_AND_COMMA, 3) == Join && IdAt(JOIN_AND_COMMA, 4) == Literal
  {
  }

  lemma {:induction false} JoinIds'()
    ensures IdAt(JOIN_AND_COMMA, 5) == On && IdAt(JOIN_AND_COMMA, 6) == Literal && IdAt(JOIN_AND_COMMA, 7) == Dot
    ensures IdAt(JOIN_AND_COMMA, 8) == Literal && TextAt(JOIN_AND_COMMA, 8) == "f"
  {
  }

  lemma {:induction false} JoinIds''()
    ensures IdAt(JOIN_AND_COMMA, 9) == Comma && IdAt(JOIN_AND_COMMA, 10) == Literal
  {
  }

  lemma {:induction false} MoreEnds()
    ensures Join in TABLE_ENDS && Join in JOINS && On in CONDITIONS && Comma in CONDITIONS
    ensures forall id | id in {Literal, Dot, On} :: id !in TABLE_ENDS && id !in JOINS
    ensures Literal !in CONDITIONS && Dot !in CONDITIONS
  {
    assert TABLE_END_LIST[6] == Join && JOIN_LIST[0] == Join && CONDITION_LIST[0] == On && CONDITION_LIST[2] == Comma;
  }

  lemma {:induction false} Flat(ts: seq<Token>, lo: int, i: int)
    requires lo <= i && forall j | lo <= j < i :: Step(IdAt(ts, j)) == 0
    ensures Depth(ts, lo, i) == 0
    decreases i - lo
  {
    if lo < i {
      Flat(ts, lo, i - 1);
    }
  }

  lemma {:induction false} FlatFirst(ts: seq<Token>, lo: int, hi: int, ids: set<Id>, r: int)
    requires lo <= r <= hi && forall j | lo <= j < hi :: Step(IdAt(ts, j)) == 0
    requires (forall j | lo <= j < r :: IdAt(ts, j) !in ids) && (r < hi ==> IdAt(ts, r) in ids)
    ensures First(ts, lo, hi, ids) == r
  {
    Flat(ts, lo, r);
    hide Depth;
    FirstIs(ts, lo, hi, ids, r);
  }

  lemma {:induction false} JoinFirsts()
    ensures FromOnly(JOIN_AND_COMMA)
    ensures var ts := JOIN_AND_COMMA;
      First(ts, 2, 11, TABLE_ENDS) == 3 && First(ts, 3, 11, JOINS) == 3 && First(ts, 4, 11, CONDITIONS) == 5
          && First(ts, 6, 11, JOINS) == 9
  {
    var ts := JOIN_AND_COMMA;
    JoinIds();
    JoinIds'();
    JoinIds''();
    PlainIds();
    ListEnds();
    MoreEnds();
    hide JOIN_AND_COMMA, FROM_ENDS, IdAt, JOINS, TABLE_ENDS, CONDITIONS, First;
    FlatFirst(ts, 2, 11, TABLE_ENDS, 3);
    FlatFirst(ts, 3, 11, JOINS, 3);
    FlatFirst(ts, 4, 11, CONDITIONS, 5);
    FlatFirst(ts, 6, 11, JOINS, 9);
  }

  lemma {:induction false} ColumnNamed()
    ensures Names(JOIN_AND_COMMA, 6, 9, 8, "") && WithoutSemicolons(JOIN_AND_COMMA, 6, 9) == 9
  {
    JoinIds'();
    hide JOIN_AND_COMMA;
  }

  /** A column of the condition is reported as a table. */
  lemma {:induction false} ColumnReported(big: bool)
    ensures Queries(JOIN_AND_COMMA, 0, 11) == [Query(0, 11, 2, 11, 11, 0)]
    ensures TableInfo("f", "", 8, Query(0, 11, 2, 11, 11, 0), big) in AllTables(JOIN_AND_COMMA,
          Queries(JOIN_AND_COMMA, 0, 11), big)
  {
    var ts, q := JOIN_AND_COMMA, Query(0, 11, 2, 11, 11, 0);
    JoinIds();
    JoinIds'();
    JoinIds''();
    JoinFirsts();
    ColumnNamed();
    hide JOIN_AND_COMMA, IdAt, TextAt, Queries, AllTables, Simple, FromOnly, First, FROM_ENDS, Joined, JOINS,
        TABLE_ENDS, CONDITIONS, Names, WithoutSemicolons;
    FromOnlyAlone(ts);
    TablesOfOne(ts, q, big);
    SimpleIs(ts, q, 6, 9, big, 8, "");
    JoinUnfolds(ts, q, 3, 11, big);
    CommaUnfolds(ts, q, 6, 11, big);
    assert Simple(ts, q, 6, 9, big)[0] == TableInfo("f", "", 8, q, big);
  }
}
