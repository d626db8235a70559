/**
 SqlParser of sql/sqlparser.cpp, from a list of tokens on: the methods that record queries and tables,
 proved against the functions of modules SqlQueries and SqlTables.
 */
module SqlParser {
  import opened Options
  import opened Sequences
  import opened SqlTokens
  import opened SqlQueries
  import opened SqlTables
  import opened SqlTheorems

  // ----- what is recorded along with the queries -----

  /** A SELECT without WHERE, or with one that another clause than LIMIT and the like ends. */
  predicate Big(ts: seq<Token>, q: Query) {
    IdAt(ts, q.tbegin) == Select && BigWhere(ts, q.fromend, q.tend)
  }

  predicate MakesBig(id: Id) {
    id == Union || id == Group || id == Having || id == Order
  }

  predicate BigWhere(ts: seq<Token>, fe: int, qe: int) {
    var w := First(ts, fe, qe, {Where});
    w < qe ==>
      var we := First(ts, w + 1, qe, WHERE_ENDS);
      we < qe && MakesBig(IdAt(ts, we))
  }

  predicate FromSelect(ts: seq<Token>, q: Query) {
    (IdAt(ts, q.tbegin) == Insert || IdAt(ts, q.tbegin) == Replace) && q.fromend <= q.tend
    && InsertSelect(ts, q.fromend, q.tend).Some?
  }

  datatype State = State(queries: seq<Query>, big: bool, insertSelect: bool)

  ghost predicate AnyBig(ts: seq<Token>, qs: seq<Query>) {
    exists q :: q in qs && Big(ts, q)
  }

  ghost predicate AnyFromSelect(ts: seq<Token>, qs: seq<Query>) {
    exists q :: q in qs && FromSelect(ts, q)
  }

  ghost function After(ts: seq<Token>, s: State, qs: seq<Query>): State {
    State(s.queries + qs, s.big || AnyBig(ts, qs), s.insertSelect || AnyFromSelect(ts, qs))
  }

  lemma {:induction false} AfterNone(ts: seq<Token>, s: State)
    ensures After(ts, s, []) == s
  {
  }

  lemma {:induction false} AfterOne(ts: seq<Token>, s: State, q: Query)
    ensures After(ts, s, [q]) == State(s.queries + [q], s.big || Big(ts, q), s.insertSelect || FromSelect(ts, q))
  {
    assert q in [q];
  }

  lemma {:induction false} AfterBoth(ts: seq<Token>, s: State, p: seq<Query>, q: seq<Query>)
    ensures After(ts, After(ts, s, p), q) == After(ts, s, p + q)
  {
    hide Big, FromSelect;
    assert s.queries + p + q == s.queries + (p + q);
    forall x
      ensures x in p + q <==> x in p || x in q
    {
    }
    assert AnyBig(ts, p + q) <==> AnyBig(ts, p) || AnyBig(ts, q);
    assert AnyFromSelect(ts, p + q) <==> AnyFromSelect(ts, p) || AnyFromSelect(ts, q);
  }

  // ----- the parser -----

  predicate Nests(id: Id) {
    id == Select || id == Update || id == Delete || id == Insert || id == Replace
  }

  class Parser {
    var tokens: seq<Token>
    var querylist: seq<Query>
    var tablelist: seq<TableInfo>
    var isBigQuery: bool
    var isInsertSelect: bool

    ghost function Recorded(): State
      reads this
    {
      State(querylist, isBigQuery, isInsertSelect)
    }

    /** The id of a token, or of the place behind the last one, which is as far as any look-ahead goes. */
    function Token(i: int): (r: Id)
      requires 0 <= i <= |tokens|
      reads this
      ensures r == IdAt(tokens, i)
    {
      if i < |tokens| then tokens[i].id else Other
    }

    method FindToken(start: int, end: int, id: Id) returns (found: bool, i: int)
      requires 0 <= start && end <= |tokens|
      ensures i == First(tokens, start, end, {id}) && found == (i < end)
    {
      var braces := 0;
      i := start;
      assert FirstFrom(tokens, start, start, end, {id}) == First(tokens, start, end, {id});
      while i < end
        invariant start <= i && braces == Depth(tokens, start, i)
        invariant First(tokens, start, end, {id}) == FirstFrom(tokens, start, i, end, {id})
        decreases end - i
      {
        var t := Token(i);
        if braces != 0 || t != id {
          if t == OBrace {
            braces := braces + 1;
          } else if t == CBrace {
            braces := braces - 1;
          }
        } else {
          break;
        }
        i := i + 1;
      }
      found := i < end;
    }

    method IsAmong(ids: seq<Id>, t: Id) returns (among: bool)
      ensures among == (t in ids)
    {
      var k := 0;
      while k < |ids|
        invariant 0 <= k <= |ids| && t !in ids[..k]
      {
        if ids[k] == t {
          return true;
        }
        k := k + 1;
      }
      return false;
    }

    /** Braces are counted, never found. */
    method FindTokens(start: int, end: int, ids: seq<Id>) returns (found: bool, i: int)
      requires 0 <= start && end <= |tokens|
      ensures i == First(tokens, start, end, Sought(ids)) && found == (i < end)
    {
      ghost var wanted := Sought(ids);
      var braces := 0;
      i := start;
      assert FirstFrom(tokens, start, start, end, wanted) == First(tokens, start, end, wanted);
      NoBrace(ids);
      hide First, Sought;
      while i < end
        invariant start <= i && braces == Depth(tokens, start, i)
        invariant First(tokens, start, end, wanted) == FirstFrom(tokens, start, i, end, wanted)
        decreases end - i
      {
        var t := Token(i);
        if t == OBrace {
          braces := braces + 1;
        } else if t == CBrace {
          braces := braces - 1;
        } else if braces == 0 {
          InSought(ids, t);
          var among := IsAmong(ids, t);
          if among {
            return true, i;
          }
        }
        i := i + 1;
      }
      found := false;
    }

    method GetSqlFrom(b: int, e: int) returns (found: bool, start: int, end: int)
      requires 0 <= b && e <= |tokens|
      ensures var from := First(tokens, b, e, {From});
        found == (from < e) && (found ==> start == from + 1 && end == First(tokens, start, e, FROM_ENDS))
    {
      hide First, Sought, Hit;
      end := 0;
      found, start := FindToken(b, e, From);
      if !found {
        return;
      }
      start := start + 1;
      var any;
      any, end := FindTokens(start, e, FROM_END_LIST);
    }

    /** Also notes a big query. */
    method GetSqlWhere(b: int, e: int) returns (start: int, end: int)
      requires 0 <= b && e <= |tokens|
      modifies this`isBigQuery
      ensures (start, end) == WhereRange(tokens, b, e)
      ensures isBigQuery == (old(isBigQuery) || BigWhere(tokens, b, e))
    {
      hide First, Sought, Hit;
      end := 0;
      var found;
      found, start := FindToken(b, e, Where);
      if !found {
        isBigQuery := true;
        return;
      }
      start := start + 1;
      found, end := FindTokens(start, e, WHERE_END_LIST);
      if found {
        var t := Token(end);
        if MakesBig(t) {
          isBigQuery := true;
        }
      }
    }

    method SkipSomeHeaderTokens(start: int, end: int, id: Id) returns (i: int)
      requires 0 <= start && end <= |tokens|
      ensures i == SkipAll(tokens, start, end, id)
    {
      i := start;
      while i < end && Token(i) == id
        invariant start <= i && SkipAll(tokens, i, end, id) == SkipAll(tokens, start, end, id)
        decreases end - i
      {
        i := i + 1;
      }
    }

    method SkipExternTokensInHeader(start: int, end: int) returns (i: int)
      requires 0 <= start && end <= |tokens|
      ensures i == SkipHeader(tokens, start, end)
    {
      i := SkipSomeHeaderTokens(start, end, Comment);
      i := SkipSomeHeaderTokens(i, end, Explain);
    }

    // ----- recording queries -----

    /** Records the queries of a range. Every query inside it is looked for in a smaller range. */
    method ParseSubQuery(b: int, e: int)
      requires 0 <= b <= |tokens| && b <= e + 1 && e <= |tokens|
      modifies this`querylist, this`isBigQuery, this`isInsertSelect
      ensures Recorded() == After(tokens, old(Recorded()), Queries(tokens, b, e))
      decreases Size(b, e), 2, 0
    {
      hide After, Own, Blocks, SkipHeader;
      AfterNone(tokens, Recorded());
      var start := SkipExternTokensInHeader(b, e);
      if start == e {
        return;
      }
      var id := Token(start);
      if id == Begin {
        ParseBlocks(b, start, e);
      } else if id == Select {
        ParseSelect(b, start, e);
      } else if id == Update {
        ParseUpdate(b, start, e);
      } else if id == Delete {
        ParseDelete(b, start, e);
      } else if id == Insert || id == Replace {
        ParseInsert(b, start, e);
      } else {
        ParseOther(b, start, e);
      }
    }

    method RecordSelect(b: int, e: int) returns (found: bool, q: Query)
      requires 0 <= b && e <= |tokens| && IdAt(tokens, b) == Select
      modifies this`querylist, this`isBigQuery
      ensures found == SelectQuery(tokens, b, e).Some? && (found ==> q == SelectQuery(tokens, b, e).value)
      ensures Recorded() == After(tokens, old(Recorded()), if found then [q] else [])
    {
      hide First, WhereRange, BigWhere, After, Hit, Sought, FROM_ENDS, SelectQuery;
      AfterNone(tokens, Recorded());
      SelectMade(tokens, b, e);
      q := Query(0, 0, 0, 0, 0, 0);
      var fs, fe;
      found, fs, fe := GetSqlFrom(b, e);
      if !found {
        return;
      }
      ghost var before := Recorded();
      var union', u := FindToken(b, e, Union);
      var tend := if union' then u else e;
      var ws, we := GetSqlWhere(fe, tend);
      q := Query(b, tend, fs, fe, ws, we);
      querylist := querylist + [q];
      AfterOne(tokens, before, q);
    }

    method ParseSelect(ghost lo: int, b: int, e: int)
      requires 0 <= lo <= b <= |tokens| && e <= |tokens| && IdAt(tokens, b) == Select
      modifies this`querylist, this`isBigQuery, this`isInsertSelect
      ensures Recorded() == After(tokens, old(Recorded()), Own(tokens, lo, e, b))
      decreases Size(lo, e), 1, 1
    {
      ghost var s := Recorded();
      var found, q := RecordSelect(b, e);
      OwnSelect(tokens, lo, e, b);
      if !found {
        return;
      }
      SelectRanges(tokens, b, e, q);
      hide After, Own, SelectQuery, First, Nested, Queries, AfterUnion;
      ParseUnion(lo, q, e);
      AfterBoth(tokens, s, [q], UnionPart(tokens, q, e));
      HandleParts(lo, q, e);
      AfterBoth(tokens, s, [q] + UnionPart(tokens, q, e), Parts(tokens, q));
    }

    /** The SELECT behind a UNION, if the query ends in one. */
    method ParseUnion(ghost lo: int, q: Query, e: int)
      requires 0 <= lo <= q.tbegin < q.tend <= e <= |tokens|
      modifies this`querylist, this`isBigQuery, this`isInsertSelect
      ensures Recorded() == After(tokens, old(Recorded()), UnionPart(tokens, q, e))
      decreases Size(lo, e), 1, 0
    {
      hide After, Queries;
      AfterNone(tokens, Recorded());
      if q.tend < e {
        var u := q.tend + 1;
        if Token(u) == All {
          u := u + 1;
        }
        if Token(u) == Select {
          ParseSubQuery(u, e);
        }
      }
    }

    /** The lists of columns and tables, and the condition. */
    method HandleParts(ghost lo: int, q: Query, ghost e: int)
      requires 0 <= lo <= q.tbegin < q.fromstart <= q.fromend <= e <= |tokens| && q.fromend <= q.wherestart
      requires q.whereend <= e
      modifies this`querylist, this`isBigQuery, this`isInsertSelect
      ensures Recorded() == After(tokens, old(Recorded()), Parts(tokens, q))
      decreases Size(lo, e), 1, 0
    {
      hide After, Nested;
      ghost var s := Recorded();
      var list, from, where := Nested(tokens, q.tbegin, q.fromstart), Nested(tokens, q.fromstart, q.fromend),
          Nested(tokens, q.wherestart, q.whereend);
      HandleSubQuery(q.tbegin, q.fromstart);
      HandleSubQuery(q.fromstart, q.fromend);
      AfterBoth(tokens, s, list, from);
      HandleSubQuery(q.wherestart, q.whereend);
      AfterBoth(tokens, s, list + from, where);
    }

    method HandleSubQuery(lo: int, hi: int)
      requires 0 <= lo && hi <= |tokens|
      modifies this`querylist, this`isBigQuery, this`isInsertSelect
      ensures Recorded() == After(tokens, old(Recorded()), Nested(tokens, lo, hi))
      decreases Size(lo, hi), 0, Size(lo, hi) + 1
    {
      hide After, InBraces;
      NestedStart(tokens, lo, hi);
      hide Nested, NestedFrom;
      ghost var before := Recorded();
      ghost var done := [];
      AfterNone(tokens, before);
      var start, depth := 0, 0;
      var i := lo;
      while i < hi
        invariant lo <= i && (depth >= 1 ==> lo <= start < i && IdAt(tokens, start) == OBrace)
        invariant Recorded() == After(tokens, before, done)
        invariant Nested(tokens, lo, hi) == done + NestedFrom(tokens, lo, hi, i, depth, start)
        decreases hi - i
      {
        NestedStep(tokens, lo, hi, i, depth, start);
        ghost var found := [];
        var id := Token(i);
        if id == OBrace {
          if depth == 0 {
            start := i;
          }
          depth := depth + 1;
        } else if id == CBrace {
          depth := depth - 1;
          if depth == 0 {
            found := InBraces(tokens, lo, hi, start, i);
            HandleBraces(lo, hi, start, i);
          }
        }
        AfterBoth(tokens, before, done, found);
        AfterNone(tokens, After(tokens, before, done));
        Assoc(done, found, NestedFrom(tokens, lo, hi, i + 1, depth, start));
        done := done + found;
        i := i + 1;
      }
      NestedEnd(tokens, lo, hi, i, depth, start);
      Assoc(done, [], []);
    }

    /** Peels the braces at both ends. It stops when the ends have crossed, if not before. */
    method HandleBraces(ghost lo: int, ghost hi: int, start: int, end: int)
      requires 0 <= lo <= start < end < hi <= |tokens|
      modifies this`querylist, this`isBigQuery, this`isInsertSelect
      ensures Recorded() == After(tokens, old(Recorded()), InBraces(tokens, lo, hi, start, end))
      decreases Size(lo, hi), 0, 0
    {
      hide After, Queries;
      AfterNone(tokens, Recorded());
      var s, e := start, end;
      ghost var over := false;
      while Token(s) == OBrace && Token(e) == CBrace
        invariant start <= s <= end && s <= e + 1 && e <= end && (s == e + 1 ==> IdAt(tokens, s) != OBrace)
        invariant over ==>
              IdAt(tokens, s) == Select
                  && Recorded() == After(tokens, old(Recorded()), InBraces(tokens, lo, hi, start, end))
        invariant !over ==> Recorded() == old(Recorded()) && Peel(tokens, s, e) == Peel(tokens, start, end)
        decreases e - s + 1
      {
        s := s + 1;
        e := e - 1;
        if Token(s) == Select {
          over := true;
          ParseSubQuery(s, e + 1);
        }
      }
    }

    method RecordUpdate(b: int, e: int) returns (found: bool, q: Query)
      requires 0 <= b <= |tokens| && e <= |tokens| && IdAt(tokens, b) == Update
      modifies this`querylist
      ensures found == UpdateQuery(tokens, b, e).Some? && querylist == old(querylist) + if found then [q] else []
      ensures found ==> q == UpdateQuery(tokens, b, e).value
    {
      SetBehind(tokens, b, e);
      hide First, Hit;
      q := Query(0, 0, 0, 0, 0, 0);
      var set', name, w;
      found, set' := FindToken(b, e, Set);
      if !found || Token(set' - 1) != Literal {
        found := false;
        return;
      }
      found, name := FindToken(b, set' - 1 + 1, Literal);
      var fs := if found then name else 2;
      found, w := FindToken(set', e, Where);
      q := Query(b, e, fs, set', w, w);
      querylist := querylist + [q];
      found := true;
    }

    method ParseUpdate(ghost lo: int, b: int, e: int)
      requires 0 <= lo <= b <= |tokens| && e <= |tokens| && IdAt(tokens, b) == Update
      modifies this`querylist, this`isBigQuery, this`isInsertSelect
      ensures Recorded() == After(tokens, old(Recorded()), Own(tokens, lo, e, b))
      decreases Size(lo, e), 1, 1
    {
      hide After, Own, Nested, Big, FromSelect;
      ghost var s := Recorded();
      OwnUpdate(tokens, lo, e, b);
      AfterNone(tokens, s);
      var found, q := RecordUpdate(b, e);
      if found {
        AfterOne(tokens, s, q);
        NotFlagged(tokens, q);
        hide UpdateQuery;
        HandleTwo(lo, q.fromstart, q.wherestart, q.tend);
        AfterBoth(tokens, s, [q], Nested(tokens, q.fromstart, q.wherestart) + Nested(tokens, q.wherestart, q.tend));
      }
    }

    method HandleTwo(ghost lo: int, a: int, b: int, c: int)
      requires 0 <= lo <= a <= b <= c <= |tokens|
      modifies this`querylist, this`isBigQuery, this`isInsertSelect
      ensures Recorded() == After(tokens, old(Recorded()), Nested(tokens, a, b) + Nested(tokens, b, c))
      decreases Size(lo, c), 1, 0
    {
      hide After, Nested;
      ghost var s := Recorded();
      HandleSubQuery(a, b);
      HandleSubQuery(b, c);
      AfterBoth(tokens, s, Nested(tokens, a, b), Nested(tokens, b, c));
    }

    method RecordDelete(b: int, e: int) returns (found: bool, q: Query)
      requires 0 <= b <= |tokens| && e <= |tokens| && IdAt(tokens, b) == Delete
      modifies this`querylist
      ensures found == DeleteQuery(tokens, b, e).Some? && querylist == old(querylist) + if found then [q] else []
      ensures found ==> q == DeleteQuery(tokens, b, e).value
    {
      hide First, Hit;
      q := Query(0, 0, 0, 0, 0, 0);
      var from, w;
      found, from := FindToken(b, e, From);
      if !found || from >= e - 1 {
        found := false;
        return;
      }
      found, w := FindToken(from + 1, e, Where);
      q := Query(b, e, from + 1, w, w, e);
      querylist := querylist + [q];
      found := true;
    }

    method ParseDelete(ghost lo: int, b: int, e: int)
      requires 0 <= lo <= b <= |tokens| && e <= |tokens| && IdAt(tokens, b) == Delete
      modifies this`querylist, this`isBigQuery, this`isInsertSelect
      ensures Recorded() == After(tokens, old(Recorded()), Own(tokens, lo, e, b))
      decreases Size(lo, e), 1, 1
    {
      ghost var s := Recorded();
      OwnDelete(tokens, lo, e, b);
      AfterNone(tokens, s);
      var found, q := RecordDelete(b, e);
      if found {
        AfterOne(tokens, s, q);
        NotFlagged(tokens, q);
        NoNested(tokens, q.fromend, q.wherestart);
        AfterNone(tokens, Recorded());
        hide After, Own, Nested, Big, FromSelect, DeleteQuery;
        HandleSubQuery(q.fromend, q.wherestart);
        HandleSubQuery(q.wherestart, q.tend);
        AfterBoth(tokens, s, [q], Nested(tokens, q.wherestart, q.tend));
      }
    }

    method FindNameEnd(start: int, end: int) returns (i: int)
      requires 0 <= start <= end <= |tokens|
      ensures i == NameEnd(tokens, start, end)
    {
      i := start;
      while i < end && !EndsName(Token(i))
        invariant start <= i <= end && NameEnd(tokens, i, end) == NameEnd(tokens, start, end)
        decreases end - i
      {
        i := i + 1;
      }
    }

    method FindValueList(stop: int, end: int) returns (v: int, list: bool)
      requires 0 <= stop <= end <= |tokens|
      ensures (v, list) == ValueList(tokens, stop, end)
    {
      hide First, Hit, Sought;
      if (Token(stop) == Values || Token(stop) == Value) && Token(stop + 1) == OBrace {
        return stop, true;
      } else if Token(stop) == Set {
        return stop, true;
      }
      var values;
      values, v := FindTokens(stop, end, VALUE_ID_LIST);
      list := values && Token(v + 1) == OBrace;
    }

    /** The table name behind INTO, and what follows it. */
    method RecordInsert(b: int, e: int) returns (found: bool, q: Query, v: int)
      requires 0 <= b <= |tokens| && e <= |tokens| && (IdAt(tokens, b) == Insert || IdAt(tokens, b) == Replace)
      modifies this`querylist
      ensures found == InsertQuery(tokens, b, e).Some? && querylist == old(querylist) + if found then [q] else []
      ensures found ==> q == InsertQuery(tokens, b, e).value && q.fromend <= e && v == ValueList(tokens, q.fromend, e).0
    {
      hide First, Hit, NameEnd, ValueList;
      q, v := Query(0, 0, 0, 0, 0, 0), 0;
      var into;
      found, into := FindToken(b, e, Into);
      if !found || into + 1 >= e {
        found := false;
        return;
      }
      var fe := FindNameEnd(into + 2, e);
      var list;
      v, list := FindValueList(fe, e);
      var w := if list then v else 0;
      q := Query(b, e, into + 1, fe, w, w);
      querylist := querylist + [q];
    }

    method FindInsertSelect(stop: int, v: int, e: int) returns (found: bool, select: int)
      requires 0 <= stop <= e <= |tokens| && v == ValueList(tokens, stop, e).0
      modifies this`isInsertSelect
      ensures found == InsertSelect(tokens, stop, e).Some? && (found ==> select == InsertSelect(tokens, stop, e).value)
      ensures isInsertSelect == (old(isInsertSelect) || found)
    {
      hide First, Hit, ValueList;
      found, select := false, 0;
      if v == e || (Token(v) != Values && Token(v) != Value) {
        found, select := FindToken(stop, e, Select);
        if found {
          isInsertSelect := true;
        }
      }
    }

    /** The query, and where the SELECT in it starts, if it has one. */
    method InsertAndSelect(b: int, e: int) returns (found: bool, q: Query, more: bool, select: int)
      requires 0 <= b <= |tokens| && e <= |tokens| && (IdAt(tokens, b) == Insert || IdAt(tokens, b) == Replace)
      modifies this`querylist, this`isInsertSelect
      ensures found == InsertQuery(tokens, b, e).Some?
      ensures found ==> q == InsertQuery(tokens, b, e).value && q.fromend <= e
      ensures found ==>
            more == InsertSelect(tokens, q.fromend, e).Some?
                && (more ==> select == InsertSelect(tokens, q.fromend, e).value)
      ensures Recorded() == if found then After(tokens, old(Recorded()), [q]) else old(Recorded())
    {
      ghost var s := Recorded();
      hide QueryAt, InsertQuery, ValueList, InsertSelect, Big, After;
      InsertRanges(tokens, b, e);
      var v;
      found, q, v := RecordInsert(b, e);
      more, select := false, 0;
      if found {
        AfterOne(tokens, s, q);
        NotBig(tokens, q);
        more, select := FindInsertSelect(q.fromend, v, e);
      }
    }

    method ParseInsert(ghost lo: int, b: int, e: int)
      requires 0 <= lo <= b <= |tokens| && e <= |tokens| && (IdAt(tokens, b) == Insert || IdAt(tokens, b) == Replace)
      modifies this`querylist, this`isBigQuery, this`isInsertSelect
      ensures Recorded() == After(tokens, old(Recorded()), Own(tokens, lo, e, b))
      decreases Size(lo, e), 1, 1
    {
      ghost var s := Recorded();
      OwnInsert(tokens, lo, e, b);
      InsertRanges(tokens, b, e);
      hide InsertQuery, InsertSelect, Own, After, Queries, SelectPart;
      AfterNone(tokens, s);
      var found, q, more, select := InsertAndSelect(b, e);
      if found {
        ParseInsertSelect(lo, q.fromend, e, more, select);
        AfterBoth(tokens, s, [q], SelectPart(tokens, q.fromend, e));
      }
    }

    method ParseInsertSelect(ghost lo: int, ghost stop: int, e: int, more: bool, select: int)
      requires 0 <= lo < stop <= e <= |tokens|
      requires more == InsertSelect(tokens, stop, e).Some? && (more ==> select == InsertSelect(tokens, stop, e).value)
      modifies this`querylist, this`isBigQuery, this`isInsertSelect
      ensures Recorded() == After(tokens, old(Recorded()), SelectPart(tokens, stop, e))
      decreases Size(lo, e), 1, 0
    {
      hide After, Queries, InsertSelect;
      AfterNone(tokens, Recorded());
      if more {
        ParseSubQuery(select, e);
      }
    }

    method ParseBlocks(ghost lo: int, b: int, e: int)
      requires 0 <= lo <= b <= |tokens| && e <= |tokens|
      modifies this`querylist, this`isBigQuery, this`isInsertSelect
      ensures Recorded() == After(tokens, old(Recorded()), Blocks(tokens, lo, e, b, b))
      decreases Size(lo, e), 1, 1
    {
      hide After, Queries, Blocks, NextSemicolon;
      ghost var s := Recorded();
      ghost var done := [];
      AfterNone(tokens, s);
      var fs, fe := b, b;
      BlocksStart(tokens, lo, e, b);
      while fe < e
        invariant b <= fe <= |tokens| && (fe < e ==> fs == fe)
        invariant Recorded() == After(tokens, s, done)
        invariant Blocks(tokens, lo, e, b, b) == done + BlocksFrom(tokens, lo, e, b, fe)
        decreases e - fe
      {
        ghost var i := fe;
        BlocksStep(tokens, lo, e, b, i);
        fe := FindSemicolon(fe, e);
        ghost var found := [];
        if fs > b {
          found := Queries(tokens, fs, fe);
          ParseSubQuery(fs, fe);
        }
        AfterBoth(tokens, s, done, found);
        AfterNone(tokens, After(tokens, s, done));
        Assoc(done, found, BlocksFrom(tokens, lo, e, b, fe + 1));
        done := done + found;
        if fe < e {
          fe := fe + 1;
          fs := fe;
        }
        BlocksOver(tokens, lo, e, b, fe);
      }
      BlocksOver(tokens, lo, e, b, fe);
      Assoc(done, [], []);
    }

    method FindSemicolon(start: int, end: int) returns (i: int)
      requires 0 <= start <= end <= |tokens|
      ensures i == NextSemicolon(tokens, start, end)
    {
      i := start;
      while i < end && Token(i) != Semicolon
        invariant start <= i <= end && NextSemicolon(tokens, i, end) == NextSemicolon(tokens, start, end)
        decreases end - i
      {
        i := i + 1;
      }
    }

    method ParseOther(ghost lo: int, b: int, e: int)
      requires 0 <= lo <= b <= |tokens| && e <= |tokens|
      requires !Nests(IdAt(tokens, b))
      modifies this`querylist
      ensures Recorded() == After(tokens, old(Recorded()), Own(tokens, lo, e, b))
    {
      OwnOther(tokens, lo, e, b);
      hide Own, After, QueryAt, Big, FromSelect;
      ghost var s := Recorded();
      AfterNone(tokens, s);
      var q := FindOther(b, e);
      if q.Some? {
        AfterOne(tokens, s, q.value);
        querylist := querylist + [q.value];
      }
    }

    method FindOther(b: int, e: int) returns (q: Option<Query>)
      requires 0 <= b <= |tokens| && e <= |tokens|
      requires !Nests(IdAt(tokens, b))
      ensures q == QueryAt(tokens, b, e)
    {
      OtherQuery(tokens, b, e);
      hide QueryAt, CreateQuery, DescribeQuery, ShowQuery, TruncateQuery, VacuumQuery;
      q := None;
      var id := Token(b);
      if id == Create || id == Alter || id == Drop {
        q := FindCreate(b, e);
      } else if id == Describe || id == Desc {
        q := FindDescribe(b, e);
      } else if id == Show {
        q := FindShow(b, e);
      } else if id == Truncate {
        q := FindTruncate(b, e);
      } else if id == Vacuum {
        q := FindVacuum(b, e);
      }
    }

    method SkipWords(start: int) returns (fs: int, fe: int)
      requires 0 <= start <= |tokens|
      ensures fs == SkipIfNotExists(tokens, start) && fe == fs + 1
    {
      fs, fe := start, start + 1;
      while IfNotExists(Token(fs))
        invariant start <= fs <= |tokens| && fe == fs + 1
        invariant SkipIfNotExists(tokens, fs) == SkipIfNotExists(tokens, start)
        decreases |tokens| - fs
      {
        fs := fs + 1;
        fe := fe + 1;
      }
    }

    method FindCreate(b: int, e: int) returns (q: Option<Query>)
      requires 0 <= b && e <= |tokens|
      ensures q == CreateQuery(tokens, b, e)
    {
      q := None;
      if b + 2 < e && Token(b + 1) == Table {
        var fs, fe := SkipWords(b + 2);
        hide SkipIfNotExists;
        if fe + 1 < e && Token(0) == Dot {
          fe := fe + 2;
        }
        q := Some(Query(b, e, fs, fe, 0, 0));
      }
    }

    method FindDescribe(b: int, e: int) returns (q: Option<Query>)
      requires 0 <= b && e <= |tokens|
      ensures q == DescribeQuery(tokens, b, e)
    {
      q := None;
      if b + 1 < e && Token(b + 1) == Literal {
        var fe := b + 2;
        if b + 3 < e && Token(b + 2) == Dot {
          fe := b + 4;
        }
        q := Some(Query(b, e, b + 1, fe, 0, 0));
      }
    }

    method FindShow(b: int, e: int) returns (q: Option<Query>)
      requires 0 <= b && e <= |tokens|
      ensures q == ShowQuery(tokens, b, e)
    {
      hide First, Hit;
      q := None;
      if b + 2 < e {
        var found, col := FindToken(1, e, Columns);
        if found {
          var from;
          found, from := FindToken(col + 1, e, From);
          var fs := if found then from + 1 else col + 1;
          var fe := fs + 1;
          if fs + 2 < e && Token(fs + 1) == Dot {
            fe := fs + 3;
          }
          q := Some(Query(b, e, fs, fe, 0, 0));
        }
      }
    }

    method FindTruncate(b: int, e: int) returns (q: Option<Query>)
      requires 0 <= b && e <= |tokens|
      ensures q == TruncateQuery(tokens, b, e)
    {
      q := None;
      if b + 2 < e && Token(b + 1) == Table {
        var fe := b + 3;
        if b + 4 < e && Token(b + 3) == Dot {
          fe := b + 5;
        }
        q := Some(Query(b, e, b + 2, fe, 0, 0));
      } else if b + 1 < e && Token(b + 1) == Literal {
        q := Some(Query(b, e, b + 1, b + 2, 0, 0));
      }
    }

    method FindVacuum(b: int, e: int) returns (q: Option<Query>)
      requires 0 <= b && e <= |tokens|
      ensures q == VacuumQuery(tokens, b, e)
    {
      q := None;
      if b + 1 < e && Token(b + 1) == Literal {
        q := Some(Query(b, e, b + 1, b + 2, 0, 0));
      }
    }

    // ----- tables -----

    method DropSemicolons(start: int, end: int) returns (e: int)
      requires 0 <= start && end <= |tokens| + 1
      ensures e == WithoutSemicolons(tokens, start, end)
    {
      e := end;
      while e > start && Token(e - 1) == Semicolon
        invariant e <= end && WithoutSemicolons(tokens, start, e) == WithoutSemicolons(tokens, start, end)
        decreases e - start
      {
        e := e - 1;
      }
    }

    method ParseSimpleTableNameAndAlias(q: Query, start: int, end: int) returns (ok: bool)
      requires 0 <= start && end <= |tokens| + 1
      modifies this`tablelist
      ensures tablelist == old(tablelist) + Simple(tokens, q, start, end, isBigQuery)
      ensures ok == (Simple(tokens, q, start, end, isBigQuery) != [])
    {
      var e := DropSemicolons(start, end);
      var pos, alias;
      ok, pos, alias := FindName(start, e);
      if ok {
        SimpleIs(tokens, q, start, end, isBigQuery, pos, alias);
        tablelist := tablelist + [TableInfo(TextAt(tokens, pos), alias, pos, q, isBigQuery)];
      } else {
        NoName(tokens, q, start, end, isBigQuery);
      }
      hide Simple, Names, WithoutSemicolons;
    }

    method FindName(start: int, e: int) returns (ok: bool, pos: int, alias: string)
      requires 0 <= start && e <= |tokens| + 1
      ensures if ok then Names(tokens, start, e, pos, alias) else forall p, a :: !Names(tokens, start, e, p, a)
    {
      if e <= start {
        return false, 0, "";
      }
      var n := e - start;
      if n <= 2 || (n == 3 && Token(start + 1) == As) {
        ok, pos, alias := FindPlainName(start, e);
      } else if (n <= 4 && Token(start + 1) == Dot) || (n == 5 && Token(start + 1) == Dot && Token(start + 3) == As) {
        ok, pos, alias := FindSchemaName(start, e);
      } else {
        ok, pos, alias := FindDatabaseName(start, e);
      }
      hide Names;
    }

    /** name, name alias, or name AS alias */
    method FindPlainName(start: int, e: int) returns (ok: bool, pos: int, alias: string)
      requires 0 <= start < e <= |tokens| + 1 && (e - start <= 2 || (e - start == 3 && IdAt(tokens, start + 1) == As))
      ensures if ok then Names(tokens, start, e, pos, alias) else forall p, a :: !Names(tokens, start, e, p, a)
    {
      var n := e - start;
      if n == 1 {
        if Token(start) == Literal {
          return true, start, "";
        }
      } else if n == 2 {
        if Token(start) == Literal && Token(start + 1) == Literal {
          return true, start, TextAt(tokens, start + 1);
        }
      } else {
        if Token(start) == Literal && Token(start + 2) == Literal {
          return true, start, TextAt(tokens, start + 2);
        }
      }
      return false, 0, "";
    }

    /** The same behind a schema. */
    method FindSchemaName(start: int, e: int) returns (ok: bool, pos: int, alias: string)
      requires 0 <= start && e <= |tokens| + 1 && 3 <= e - start <= 5 && IdAt(tokens, start + 1) == Dot
      requires e - start == 5 ==> IdAt(tokens, start + 3) == As
      ensures if ok then Names(tokens, start, e, pos, alias) else forall p, a :: !Names(tokens, start, e, p, a)
    {
      var n := e - start;
      if n == 3 {
        if Token(start) == Literal && Token(start + 2) == Literal {
          return true, start + 2, "";
        }
      } else if n == 4 {
        if Token(start) == Literal && Token(start + 2) == Literal && Token(start + 3) == Literal {
          return true, start + 2, TextAt(tokens, start + 3);
        }
      } else {
        if Token(start) == Literal && Token(start + 2) == Literal && Token(start + 4) == Literal {
          return true, start + 2, TextAt(tokens, start + 4);
        }
      }
      return false, 0, "";
    }

    /** The same behind a database and a user, but the name itself is not looked at. */
    method FindDatabaseName(start: int, e: int) returns (ok: bool, pos: int, alias: string)
      requires 0 <= start && e <= |tokens| + 1 && e - start >= 3
      requires e - start == 3 ==> IdAt(tokens, start + 1) != As
      requires e - start <= 4 ==> IdAt(tokens, start + 1) != Dot
      requires e - start == 5 ==> IdAt(tokens, start + 1) != Dot || IdAt(tokens, start + 3) != As
      ensures if ok then Names(tokens, start, e, pos, alias) else forall p, a :: !Names(tokens, start, e, p, a)
    {
      var n := e - start;
      if n < 5 || Token(start) != Literal || Token(start + 1) != Dot || Token(start + 2) != Literal || Token(start
          + 3) != Dot {
        return false, 0, "";
      }
      if n == 5 {
        return true, start + 4, "";
      } else if n == 6 && Token(start + 5) == Literal {
        return true, start + 4, TextAt(tokens, start + 5);
      } else if n == 7 && Token(start + 5) == As && Token(start + 6) == Literal {
        return true, start + 4, TextAt(tokens, start + 6);
      }
      return false, 0, "";
    }

    /** The list of tables of a SELECT: the first table, then what joins it. */
    method ParseTableNameAndAlias(q: Query, start: int, end: int)
      requires 1 <= start && end <= |tokens|
      modifies this`tablelist
      ensures tablelist == old(tablelist) + Listed(tokens, q, start, end, isBigQuery)
    {
      hide Simple, Joined, First, Hit, Sought;
      var i := start;
      while i < end
        invariant start <= i && tablelist == old(tablelist)
        invariant Listed(tokens, q, i, end, isBigQuery) == Listed(tokens, q, start, end, isBigQuery)
        decreases end - i
      {
        var found, t := FindTokens(i, end, TABLE_END_LIST);
        if found && t - i > 5 {
          i := if Token(t) == Comma then t + 1 else t;
          continue;
        }
        var ok := ParseSimpleTableNameAndAlias(q, i, t);
        if found {
          ParseJoined(q, t, end);
        }
        return;
      }
    }

    /** One table behind a comma or a JOIN, up to the next. */
    method ParseJoin(q: Query, i: int, end: int) returns (over: bool, next: int, ghost tables: seq<TableInfo>)
      requires 1 <= i <= end + 1 && end <= |tokens|
      modifies this`tablelist
      ensures tablelist == old(tablelist) + tables && (!over ==> i < next <= end + 1)
      ensures Joined(tokens, q, i, end, isBigQuery) == tables
            + if over then [] else Joined(tokens, q, next, end, isBigQuery)
    {
      hide Simple, Joined, First, Hit, Sought;
      var ok;
      tables := [];
      var found, t := FindTokens(i, end, JOIN_LIST);
      if !found {
        LastUnfolds(tokens, q, i, end, isBigQuery);
        if Token(i - 1) == Comma && t - i < 5 {
          tables := Simple(tokens, q, i, t, isBigQuery);
          ok := ParseSimpleTableNameAndAlias(q, i, t);
        }
        return true, i, tables;
      }
      if Token(t) == Comma {
        CommaUnfolds(tokens, q, i, end, isBigQuery);
        if t - i < 5 {
          tables := Simple(tokens, q, i, t, isBigQuery);
          ok := ParseSimpleTableNameAndAlias(q, i, t);
        }
        return false, t + 1, tables;
      }
      JoinUnfolds(tokens, q, i, end, isBigQuery);
      t := t + 1;
      var c;
      found, c := FindTokens(t, end, CONDITION_LIST);
      if c - t > 5 {
        JoinedBehind(tokens, q, end + 1, end, isBigQuery);
        return false, c + 1, tables;
      }
      tables := Simple(tokens, q, t, c, isBigQuery);
      ok := ParseSimpleTableNameAndAlias(q, t, c);
      return !found, c + 1, tables;
    }

    method ParseJoined(q: Query, start: int, end: int)
      requires 1 <= start <= end <= |tokens|
      modifies this`tablelist
      ensures tablelist == old(tablelist) + Joined(tokens, q, start, end, isBigQuery)
    {
      hide Joined;
      var i, over := start, false;
      ghost var done := [];
      while !over
        invariant (!over ==> start <= i <= end + 1) && tablelist == old(tablelist) + done
        invariant Joined(tokens, q, start, end, isBigQuery) == done
              + if over then [] else Joined(tokens, q, i, end, isBigQuery)
        decreases !over, end - i
      {
        ghost var tables;
        over, i, tables := ParseJoin(q, i, end);
        ghost var rest := if over then [] else Joined(tokens, q, i, end, isBigQuery);
        Assoc(done, tables, rest);
        Assoc(old(tablelist), done, tables);
        done := done + tables;
      }
    }

    method ParseQueryTable(q: Query)
      requires 0 <= q.fromstart && q.fromend <= |tokens| + 1 && 0 <= q.tbegin <= |tokens|
      requires IdAt(tokens, q.tbegin) == Select ==> 1 <= q.fromstart && q.fromend <= |tokens|
      modifies this`tablelist
      ensures tablelist == old(tablelist) + TablesOf(tokens, q, isBigQuery)
    {
      hide Simple, Listed;
      if Token(q.tbegin) == Select {
        ParseTableNameAndAlias(q, q.fromstart, q.fromend);
      } else {
        var ok := ParseSimpleTableNameAndAlias(q, q.fromstart, q.fromend);
      }
    }

    /** The tables of all queries. */
    method ParseTables()
      requires tablelist == [] && querylist == Queries(tokens, 0, |tokens|)
      modifies this`tablelist
      ensures tablelist == AllTables(tokens, querylist, isBigQuery)
    {
      hide Queries, TablesOf, AllTables;
      NoTables(tokens, isBigQuery);
      var i := 0;
      while i < |querylist|
        invariant 0 <= i <= |querylist| && tablelist == AllTables(tokens, querylist[..i], isBigQuery)
      {
        QueryBounds(tokens, querylist[i]);
        TablesNext(tokens, querylist, i, isBigQuery);
        ParseQueryTable(querylist[i]);
        i := i + 1;
      }
      assert querylist[..i] == querylist;
    }

    method Parse(ts: seq<Token>)
      modifies this
      ensures tokens == ts && querylist == Queries(ts, 0, |ts|)
      ensures isBigQuery == AnyBig(ts, querylist) && isInsertSelect == AnyFromSelect(ts, querylist)
      ensures tablelist == AllTables(ts, querylist, isBigQuery)
    {
      hide Queries, AllTables, AnyBig, AnyFromSelect;
      tokens, querylist, tablelist, isBigQuery, isInsertSelect := ts, [], [], false, false;
      ParseSubQuery(0, |ts|);
      assert [] + Queries(ts, 0, |ts|) == Queries(ts, 0, |ts|);
      ParseTables();
    }
  }

  lemma {:induction false} NoTables(ts: seq<Token>, big: bool)
    ensures AllTables(ts, [], big) == []
  {
  }

  lemma {:induction false} TablesNext(ts: seq<Token>, qs: seq<Query>, i: int, big: bool)
    requires 0 <= i < |qs|
    ensures AllTables(ts, qs[..i + 1], big) == AllTables(ts, qs[..i], big) + TablesOf(ts, qs[i], big)
  {
    hide TablesOf;
    assert qs[..i + 1][..i] == qs[..i];
  }

  /** The tokens name nothing. */
  lemma {:induction false} NoName(ts: seq<Token>, q: Query, start: int, end: int, big: bool)
    ensures (forall p, a :: !Names(ts, start, WithoutSemicolons(ts, start, end), p, a)) ==>
          Simple(ts, q, start, end, big) == []
  {
    hide Names;
  }

  lemma {:induction false} QueryBounds(ts: seq<Token>, q: Query)
    requires q in Queries(ts, 0, |ts|)
    ensures 0 <= q.tbegin < |ts| && Bounded(ts, q) && q.fromend <= |ts| + 1
    ensures IdAt(ts, q.tbegin) == Select ==> 1 <= q.fromstart && q.fromend <= |ts|
  {
    hide Queries, QueryAt;
    var e := Recorded(ts, q);
    RangeBounds(ts, q.tbegin, e, q);
  }

  lemma {:induction false} RangeBounds(ts: seq<Token>, b: int, e: int, q: Query)
    requires 0 <= b < e <= |ts| && QueryAt(ts, b, e) == Some(q)
    ensures Bounded(ts, q) && q.fromend <= |ts| + 1
    ensures IdAt(ts, b) == Select ==> 1 <= q.fromstart && q.fromend <= |ts|
  {
    hide First, WhereRange, ValueList, NameEnd, SkipIfNotExists;
  }

  lemma {:induction false} SelectMade(ts: seq<Token>, b: int, e: int)
    ensures var from, u := First(ts, b, e, {From}), First(ts, b, e, {Union});
      var fe, qe := First(ts, from + 1, e, FROM_ENDS), if u < e then u else e;
      SelectQuery(ts, b, e)
          == if from < e then var w := WhereRange(ts, fe, qe); Some(Query(b, qe, from + 1, fe, w.0, w.1)) else None
  {
    hide First, WhereRange, FROM_ENDS;
  }

  lemma {:induction false} InSought(ids: seq<Id>, t: Id)
    requires t != OBrace && t != CBrace
    ensures t in ids <==> t in Sought(ids)
  {
  }

  lemma {:induction false} NoBrace(ids: seq<Id>)
    ensures OBrace !in Sought(ids) && CBrace !in Sought(ids)
  {
  }

  function BlocksFrom(ts: seq<Token>, lo: int, e: int, b: int, i: int): seq<Query>
    requires lo <= b
  {
    if b <= i then Blocks(ts, lo, e, b, i) else []
  }

  lemma {:induction false} BlocksStart(ts: seq<Token>, lo: int, e: int, b: int)
    requires lo <= b
    ensures Blocks(ts, lo, e, b, b) == [] + BlocksFrom(ts, lo, e, b, b)
  {
    hide Blocks;
  }

  lemma {:induction false} BlocksStep(ts: seq<Token>, lo: int, e: int, b: int, i: int)
    requires lo <= b <= i < e
    ensures var semi := NextSemicolon(ts, i, e);
      BlocksFrom(ts, lo, e, b, i) == (if i > b then Queries(ts, i, semi) else []) + BlocksFrom(ts, lo, e, b, semi + 1)
  {
    hide Queries, NextSemicolon;
  }

  lemma {:induction false} BlocksOver(ts: seq<Token>, lo: int, e: int, b: int, i: int)
    requires lo <= b
    ensures i >= e ==> BlocksFrom(ts, lo, e, b, i) == [] == BlocksFrom(ts, lo, e, b, i + 1)
  {
  }

  lemma {:induction false} NestedStart(ts: seq<Token>, lo: int, hi: int)
    ensures Nested(ts, lo, hi) == [] + NestedFrom(ts, lo, hi, lo, 0, 0)
  {
    hide InBraces;
    StartUnused(ts, lo, lo, hi, lo, 0, lo, 0);
  }

  lemma {:induction false} NestedEnd(ts: seq<Token>, lo: int, hi: int, i: int, depth: int, start: int)
    requires lo <= i && hi <= i && (depth >= 1 ==> lo <= start < i)
    ensures NestedFrom(ts, lo, hi, i, depth, start) == []
  {
  }

  lemma {:induction false} NotFlagged(ts: seq<Token>, q: Query)
    requires IdAt(ts, q.tbegin) == Update || IdAt(ts, q.tbegin) == Delete
    ensures !Big(ts, q) && !FromSelect(ts, q)
  {
  }

  lemma {:induction false} NotBig(ts: seq<Token>, q: Query)
    requires IdAt(ts, q.tbegin) == Insert || IdAt(ts, q.tbegin) == Replace
    ensures !Big(ts, q)
  {
  }

  lemma {:induction false} OwnUpdate(ts: seq<Token>, lo: int, e: int, b: int)
    requires lo <= b && IdAt(ts, b) == Update
    ensures var q := UpdateQuery(ts, b, e);
      Own(ts, lo, e, b) == if q.None? then []
          else [q.value] + (Nested(ts, q.value.fromstart, q.value.wherestart) + Nested(ts, q.value.wherestart,
              q.value.tend))
  {
    hide UpdateQuery, Nested;
  }

  lemma {:induction false} SetBehind(ts: seq<Token>, b: int, e: int)
    requires IdAt(ts, b) == Update
    ensures First(ts, b, e, {Set}) < e ==> b < First(ts, b, e, {Set})
  {
  }

  lemma {:induction false} OwnDelete(ts: seq<Token>, lo: int, e: int, b: int)
    requires lo <= b && IdAt(ts, b) == Delete
    ensures var q := DeleteQuery(ts, b, e);
      Own(ts, lo, e, b) == if q.None? then [] else [q.value] + Nested(ts, q.value.wherestart, q.value.tend)
  {
    hide DeleteQuery, Nested;
  }

  function SelectPart(ts: seq<Token>, stop: int, e: int): seq<Query>
    requires stop <= e
  {
    var s := InsertSelect(ts, stop, e);
    if s.Some? then Queries(ts, s.value, e) else []
  }

  lemma {:induction false} OwnInsert(ts: seq<Token>, lo: int, e: int, b: int)
    requires lo <= b && (IdAt(ts, b) == Insert || IdAt(ts, b) == Replace)
    ensures var q := InsertQuery(ts, b, e);
      if q.None? then Own(ts, lo, e, b) == []
      else q.value.fromend <= e && Own(ts, lo, e, b) == [q.value] + SelectPart(ts, q.value.fromend, e)
  {
    InsertRanges(ts, b, e);
    hide InsertQuery, Queries, InsertSelect, QueryAt, Contained;
    var q := InsertQuery(ts, b, e);
    if q.Some? {
      InsertContains(ts, lo, e, b, q.value);
    }
  }

  lemma {:induction false} OtherQuery(ts: seq<Token>, b: int, e: int)
    requires !Nests(IdAt(ts, b))
    ensures QueryAt(ts, b, e) ==
      if IdAt(ts, b) in {Create, Alter, Drop} then CreateQuery(ts, b, e)
      else if IdAt(ts, b) in {Describe, Desc} then DescribeQuery(ts, b, e)
      else if IdAt(ts, b) == Show then ShowQuery(ts, b, e)
      else if IdAt(ts, b) == Truncate then TruncateQuery(ts, b, e)
      else if IdAt(ts, b) == Vacuum then VacuumQuery(ts, b, e)
      else None
  {
    hide CreateQuery, DescribeQuery, ShowQuery, TruncateQuery, VacuumQuery;
  }

  lemma {:induction false} OwnOther(ts: seq<Token>, lo: int, e: int, b: int)
    requires lo <= b && !Nests(IdAt(ts, b))
    ensures var q := QueryAt(ts, b, e);
      && Own(ts, lo, e, b) == (if q.None? then [] else [q.value])
      && (q.Some? ==> !Big(ts, q.value) && !FromSelect(ts, q.value))
  {
    BeginsThere(ts, b, e);
    hide CreateQuery, DescribeQuery, ShowQuery, TruncateQuery, VacuumQuery, First;
  }

  /**
   Every table that parsing reports is the text of the token at its position, inside the FROM range of a query
   recorded.
   */
  lemma {:induction false} EveryTableIsItsToken(ts: seq<Token>, big: bool, t: TableInfo)
    requires t in AllTables(ts, Queries(ts, 0, |ts|), big)
    ensures t.query in Queries(ts, 0, |ts|) && t.query.fromstart <= t.position < t.query.fromend
    ensures 0 <= t.position < |ts| && t.name == ts[t.position].text
    ensures AliasWithin(ts, t.alias, t.position, t.query.fromend)
  {
    hide Queries, AllTables, Bounded, AliasWithin;
    var qs := Queries(ts, 0, |ts|);
    forall q | q in qs
      ensures Bounded(ts, q)
    {
      QueryBounds(ts, q);
    }
    TableIsItsToken(ts, qs, big, t);
  }
}
