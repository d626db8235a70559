/** When the parser of sql/sqlparser.cpp records a query twice, in terms of the tokens. */
module SqlReach {
  import opened Options
  import opened Sequences
  import opened SqlTokens
  import opened SqlQueries
  import opened SqlTheorems

  // ----- where a statement is looked for -----

  /** The ranges in which parseSubQuery looks for a statement, in the order in which it gets to them. */
  function Reached(ts: seq<Token>, b: int, e: int): seq<(int, int)>
    decreases Size(b, e), 2, 0
  {
    var b' := SkipHeader(ts, b, e);
    if b' == e then []
    else if IdAt(ts, b') == Begin then ReachedBlocks(ts, b, e, b', b')
    else [(b', e)] + ReachedWithin(ts, b, e, b')
  }

  function ReachedWithin(ts: seq<Token>, lo: int, e: int, b: int): seq<(int, int)>
    requires lo <= b
    decreases Size(lo, e), 1, 1
  {
    var q := QueryAt(ts, b, e);
    if q.None? then [] else ReachedIn(ts, lo, e, b, q.value)
  }

  function ReachedIn(ts: seq<Token>, lo: int, e: int, b: int, q: Query): seq<(int, int)>
    requires lo <= b && QueryAt(ts, b, e) == Some(q)
    decreases Size(lo, e), 1, 0
  {
    match IdAt(ts, b)
    case Select =>
      (if q.tend < e && AfterUnion(ts, q.tend).Some? then Reached(ts, AfterUnion(ts, q.tend).value, e) else [])
      + ReachedNested(ts, q.tbegin, q.fromstart)
      + ReachedNested(ts, q.fromstart, q.fromend)
      + ReachedNested(ts, q.wherestart, q.whereend)
    case Update => ReachedNested(ts, q.fromstart, q.wherestart) + ReachedNested(ts, q.wherestart, q.tend)
    case Delete => ReachedNested(ts, q.wherestart, q.tend)
    case Insert =>
      var s := InsertSelect(ts, q.fromend, e);
      if s.Some? then Reached(ts, s.value, e) else []
    case Replace =>
      var s := InsertSelect(ts, q.fromend, e);
      if s.Some? then Reached(ts, s.value, e) else []
    case _ => []
  }

  function ReachedBlocks(ts: seq<Token>, lo: int, e: int, b: int, i: int): seq<(int, int)>
    requires lo <= b <= i
    decreases Size(lo, e), 1, Size(i, e)
  {
    if i >= e then []
    else
      var semi := NextSemicolon(ts, i, e);
      (if i > b then Reached(ts, i, semi) else []) + ReachedBlocks(ts, lo, e, b, semi + 1)
  }

  function ReachedNested(ts: seq<Token>, lo: int, hi: int): seq<(int, int)>
    decreases Size(lo, hi), 0, Size(lo, hi) + 1
  {
    ReachedNestedFrom(ts, lo, hi, lo, 0, lo)
  }

  function ReachedNestedFrom(ts: seq<Token>, lo: int, hi: int, i: int, depth: int, start: int): seq<(int, int)>
    requires lo <= i && (depth >= 1 ==> lo <= start < i)
    decreases Size(lo, hi), 0, Size(i, hi)
  {
    if i >= hi then []
    else
      var id := IdAt(ts, i);
      (if id == CBrace && depth == 1 then ReachedInBraces(ts, lo, hi, start, i) else [])
      + ReachedNestedFrom(ts, lo, hi, i + 1, depth + Step(id), if id == OBrace && depth == 0 then i else start)
  }

  function ReachedInBraces(ts: seq<Token>, lo: int, hi: int, s: int, e: int): seq<(int, int)>
    requires lo <= s < e < hi
    decreases Size(lo, hi), 0, 0
  {
    match Peel(ts, s, e)
    case None => []
    case Some(r) => Reached(ts, r.0, r.1)
  }

  /** What the tokens of each range make, where they make a query. */
  function Found(ts: seq<Token>, rs: seq<(int, int)>): seq<Query> {
    if rs == [] then []
    else
      var q := QueryAt(ts, rs[0].0, rs[0].1);
      (if q.Some? then [q.value] else []) + Found(ts, rs[1..])
  }

  lemma {:induction false} FoundBoth(ts: seq<Token>, p: seq<(int, int)>, q: seq<(int, int)>)
    ensures Found(ts, p + q) == Found(ts, p) + Found(ts, q)
    decreases |p|
  {
    hide QueryAt;
    if p == [] {
      assert p + q == q;
    } else {
      assert (p + q)[0] == p[0] && (p + q)[1..] == p[1..] + q;
      FoundBoth(ts, p[1..], q);
      var x := QueryAt(ts, p[0].0, p[0].1);
      Assoc(if x.Some? then [x.value] else [], Found(ts, p[1..]), Found(ts, q));
    }
  }

  lemma {:induction false} FoundOne(ts: seq<Token>, r: (int, int))
    ensures Found(ts, [r]) == var q := QueryAt(ts, r.0, r.1); if q.Some? then [q.value] else []
  {
    hide QueryAt;
  }

  /** The queries recorded are what is found there. */
  lemma {:induction false} QueriesReached(ts: seq<Token>, b: int, e: int)
    ensures Queries(ts, b, e) == Found(ts, Reached(ts, b, e))
    decreases Size(b, e), 2, 0
  {
    hide QueryAt, Contained, ReachedIn, Found;
    NoneFound(ts);
    var b' := SkipHeader(ts, b, e);
    if b' != e {
      if IdAt(ts, b') == Begin {
        BlocksReached(ts, b, e, b', b');
      } else {
        FoundOne(ts, (b', e));
        FoundBoth(ts, [(b', e)], ReachedWithin(ts, b, e, b'));
        var q := QueryAt(ts, b', e);
        if q.Some? {
          ContainedReached(ts, b, e, b', q.value);
        }
      }
    }
  }

  lemma {:induction false} NoneFound(ts: seq<Token>)
    ensures Found(ts, []) == []
  {
  }

  lemma {:induction false} ContainedReached(ts: seq<Token>, lo: int, e: int, b: int, q: Query)
    requires lo <= b && QueryAt(ts, b, e) == Some(q)
    ensures Contained(ts, lo, e, b, q) == Found(ts, ReachedIn(ts, lo, e, b, q))
    decreases Size(lo, e), 1, 0
  {
    NoneFound(ts);
    BeginsThere(ts, b, e);
    var id := IdAt(ts, b);
    if id == Select {
      SelectReached(ts, lo, e, b, q);
    } else if id == Update {
      UpdateRanges(ts, b, e, q);
      hide QueryAt, Nested, ReachedNested, Found;
      NestedReached(ts, q.fromstart, q.wherestart);
      NestedReached(ts, q.wherestart, q.tend);
      FoundBoth(ts, ReachedNested(ts, q.fromstart, q.wherestart), ReachedNested(ts, q.wherestart, q.tend));
    } else if id == Delete {
      DeleteRanges(ts, b, e, q);
      hide QueryAt, Nested, ReachedNested, Found;
      NestedReached(ts, q.wherestart, q.tend);
    } else if id == Insert || id == Replace {
      InsertRanges(ts, b, e);
      hide QueryAt, Queries, Reached, Found, InsertSelect;
      var s := InsertSelect(ts, q.fromend, e);
      if s.Some? {
        QueriesReached(ts, s.value, e);
      }
    }
    hide Queries, Reached, Nested, ReachedNested, Found, QueryAt, InsertSelect;
  }

  lemma {:induction false} SelectReached(ts: seq<Token>, lo: int, e: int, b: int, q: Query)
    requires lo <= b && QueryAt(ts, b, e) == Some(q) && IdAt(ts, b) == Select
    ensures Contained(ts, lo, e, b, q) == Found(ts, ReachedIn(ts, lo, e, b, q))
    decreases Size(lo, e), 0, Size(lo, e) + 2
  {
    NoneFound(ts);
    SelectIsQuery(ts, b, e);
    FromOrUnion(ts, b, e, q);
    SelectBounds(ts, b, e, q);
    hide QueryAt, SelectQuery, Queries, Reached, Nested, ReachedNested, Found, First, FROM_ENDS;
    if q.tend < e && AfterUnion(ts, q.tend).Some? {
      QueriesReached(ts, AfterUnion(ts, q.tend).value, e);
    }
    var u := if q.tend < e && AfterUnion(ts, q.tend).Some? then Reached(ts, AfterUnion(ts, q.tend).value, e) else [];
    NestedReached(ts, q.tbegin, q.fromstart);
    NestedReached(ts, q.fromstart, q.fromend);
    NestedReached(ts, q.wherestart, q.whereend);
    hide AfterUnion;
    FoundBoth(ts, u, ReachedNested(ts, q.tbegin, q.fromstart));
    FoundBoth(ts, u + ReachedNested(ts, q.tbegin, q.fromstart), ReachedNested(ts, q.fromstart, q.fromend));
    FoundBoth(ts, u + ReachedNested(ts, q.tbegin, q.fromstart)
        + ReachedNested(ts, q.fromstart, q.fromend), ReachedNested(ts, q.wherestart, q.whereend));
  }

  lemma {:induction false} SelectBounds(ts: seq<Token>, b: int, e: int, q: Query)
    requires SelectQuery(ts, b, e) == Some(q)
    ensures Size(q.wherestart, q.whereend) <= Size(b, e)
  {
    hide FROM_ENDS, WHERE_ENDS;
  }

  lemma {:induction false} BlocksReached(ts: seq<Token>, lo: int, e: int, b: int, i: int)
    requires lo <= b <= i
    ensures Blocks(ts, lo, e, b, i) == Found(ts, ReachedBlocks(ts, lo, e, b, i))
    decreases Size(lo, e), 1, Size(i, e)
  {
    hide Queries, Reached, Found;
    NoneFound(ts);
    if i < e {
      var semi := NextSemicolon(ts, i, e);
      BlocksReached(ts, lo, e, b, semi + 1);
      FoundBoth(ts, if i > b then Reached(ts, i, semi) else [], ReachedBlocks(ts, lo, e, b, semi + 1));
      if i > b {
        QueriesReached(ts, i, semi);
      }
    }
  }

  lemma {:induction false} NestedReached(ts: seq<Token>, lo: int, hi: int)
    ensures Nested(ts, lo, hi) == Found(ts, ReachedNested(ts, lo, hi))
    decreases Size(lo, hi), 0, Size(lo, hi) + 1
  {
    NestedFromReached(ts, lo, hi, lo, 0, lo);
  }

  lemma {:induction false} NestedFromReached(ts: seq<Token>, lo: int, hi: int, i: int, depth: int, start: int)
    requires lo <= i && (depth >= 1 ==> lo <= start < i)
    ensures NestedFrom(ts, lo, hi, i, depth, start) == Found(ts, ReachedNestedFrom(ts, lo, hi, i, depth, start))
    decreases Size(lo, hi), 0, Size(i, hi)
  {
    hide InBraces, ReachedInBraces, Found;
    NoneFound(ts);
    if i < hi {
      var id := IdAt(ts, i);
      var start' := if id == OBrace && depth == 0 then i else start;
      var first := if id == CBrace && depth == 1 then ReachedInBraces(ts, lo, hi, start, i) else [];
      NestedFromReached(ts, lo, hi, i + 1, depth + Step(id), start');
      FoundBoth(ts, first, ReachedNestedFrom(ts, lo, hi, i + 1, depth + Step(id), start'));
      if id == CBrace && depth == 1 {
        InBracesReached(ts, lo, hi, start, i);
      }
    }
  }

  lemma {:induction false} InBracesReached(ts: seq<Token>, lo: int, hi: int, s: int, e: int)
    requires lo <= s < e < hi
    ensures InBraces(ts, lo, hi, s, e) == Found(ts, ReachedInBraces(ts, lo, hi, s, e))
    decreases Size(lo, hi), 0, 0
  {
    hide Peel, Queries, Reached, Found;
    NoneFound(ts);
    var r := Peel(ts, s, e);
    if r.Some? {
      QueriesReached(ts, r.value.0, r.value.1);
    }
  }

  // ----- a query recorded twice -----

  /**
   A SELECT whose first UNION comes before its FROM, with another SELECT behind that UNION, and with
   some query in braces from there to the end of the FROM range, which both SELECTs have in common.
   */
  predicate Shared(ts: seq<Token>, b: int, e: int) {
    var u, from := First(ts, b, e, {Union}), First(ts, b, e, {From});
    IdAt(ts, b) == Select && u < from < e && AfterUnion(ts, u).Some?
    && Nested(ts, AfterUnion(ts, u).value, First(ts, from + 1, e, FROM_ENDS)) != []
  }

  lemma {:induction false} SharedIsNotLone(ts: seq<Token>, b: int, e: int)
    ensures Shared(ts, b, e) <==> QueryAt(ts, b, e).Some? && !Lone(ts, QueryAt(ts, b, e).value)
  {
    BeginsThere(ts, b, e);
    hide Nested, AfterUnion, FROM_ENDS, First;
    if IdAt(ts, b) == Select {
      SelectIsQuery(ts, b, e);
      hide QueryAt;
      if SelectQuery(ts, b, e).Some? {
        FromOrUnion(ts, b, e, SelectQuery(ts, b, e).value);
        hide SelectQuery;
      }
    } else {
      hide QueryAt;
    }
  }

  predicate NoneShared(ts: seq<Token>, rs: seq<(int, int)>) {
    forall r | r in rs :: !Shared(ts, r.0, r.1)
  }

  lemma {:induction false} NoneSharedNext(ts: seq<Token>, rs: seq<(int, int)>)
    requires rs != []
    ensures NoneShared(ts, rs) <==> !Shared(ts, rs[0].0, rs[0].1) && NoneShared(ts, rs[1..])
  {
    hide Shared;
    assert forall r :: r in rs <==> r == rs[0] || r in rs[1..];
  }

  lemma {:induction false} LoneFound(ts: seq<Token>, rs: seq<(int, int)>)
    ensures AllLone(ts, Found(ts, rs)) <==> NoneShared(ts, rs)
    decreases |rs|
  {
    if rs != [] {
      var q := QueryAt(ts, rs[0].0, rs[0].1);
      var one := if q.Some? then [q.value] else [];
      NoneSharedNext(ts, rs);
      LoneFound(ts, rs[1..]);
      SharedIsNotLone(ts, rs[0].0, rs[0].1);
      LoneBoth(ts, one, Found(ts, rs[1..]));
      LoneOne(ts, q);
      hide QueryAt, Shared, NoneShared, Lone, AllLone;
    }
  }

  lemma {:induction false} LoneOne(ts: seq<Token>, q: Option<Query>)
    ensures AllLone(ts, if q.Some? then [q.value] else []) <==> q.None? || Lone(ts, q.value)
  {
    hide Lone;
    if q.Some? {
      assert [q.value][0] == q.value;
    }
  }

  /** No query is recorded twice just when no SELECT that the parser gets to is one of those. */
  lemma {:induction false} NoneTwice(ts: seq<Token>)
    ensures Apart(Queries(ts, 0, |ts|)) <==> forall r | r in Reached(ts, 0, |ts|) :: !Shared(ts, r.0, r.1)
  {
    hide Queries, Found, Lone, Reached, Shared;
    QueriesReached(ts, 0, |ts|);
    QueriesGood(ts, 0, |ts|);
    LoneFound(ts, Reached(ts, 0, |ts|));
    hide Apart, AllLone, AllOf;
  }

  /** Every query there is recorded for the second SELECT and again for the first. */
  lemma {:induction false} SharedTwice(ts: seq<Token>, b: int, e: int, s: int, fe: int, x: Query)
    requires 0 <= b && Shared(ts, b, e) && AfterUnion(ts, First(ts, b, e, {Union})) == Some(s)
    requires fe == First(ts, First(ts, b, e, {From}) + 1, e, FROM_ENDS) && x in Nested(ts, s, fe)
    ensures Twice(Queries(ts, b, e), x)
  {
    SelectIsQuery(ts, b, e);
    SharedIsNotLone(ts, b, e);
    var q := SelectQuery(ts, b, e).value;
    FromOrUnion(ts, b, e, q);
    hide Nested, FROM_ENDS, First, Depth, Lone;
    assert b < e && q.fromend == fe && q.tend < fe && q.tbegin == b;
    SecondFinds(ts, b, e, q, s, x);
    hide *;
  }

  lemma {:induction false} SecondFinds(ts: seq<Token>, b: int, e: int, q: Query, s: int, x: Query)
    requires b < e && IdAt(ts, b) == Select && SelectQuery(ts, b, e) == Some(q) && q.tbegin == b
    requires q.tend < q.fromend && AfterUnion(ts, q.tend) == Some(s) && x in Nested(ts, s, q.fromend)
    ensures Twice(Queries(ts, b, e), x)
  {
    UnionShares(ts, b, e, q, s);
    hide SelectQuery, Nested, AfterUnion, Depth, Queries, Twice;
    NestedSplits(ts, b, s, q.fromstart);
    NestedSplits(ts, s, q.fromstart, q.fromend);
    SelectContains(ts, b, e, q);
    FoundBehind(ts, s, e, SelectQuery(ts, s, e).value, x);
    Assoc([q], UnionPart(ts, q, e), Parts(ts, q));
    TwiceIn([q], UnionPart(ts, q, e), Parts(ts, q), x);
  }

  // ----- two inputs -----

  /** SELECT UNION SELECT FROM ( SELECT FROM t ), with a query in the FROM range */
  const LATE_FROM: seq<Token> := [
    Token(Select, "select"), Token(Union, "union"), Token(Select, "select"), Token(From, "from"),
    Token(OBrace, "("), Token(Select, "select"), Token(From, "from"), Token(Literal, "t"), Token(CBrace, ")")]

  /** SELECT UNION SELECT ( SELECT FROM t ) FROM x, with a query in the list of the second SELECT */
  const LATE_LIST: seq<Token> := [
    Token(Select, "select"), Token(Union, "union"), Token(Select, "select"),
    Token(OBrace, "("), Token(Select, "select"), Token(From, "from"), Token(Literal, "t"), Token(CBrace, ")"),
    Token(From, "from"), Token(Literal, "x")]

  /** With one pair of braces, the depth is 1 inside and 0 outside. */
  lemma {:induction false} OnePair(ts: seq<Token>, lo: int, open: int, close: int, i: int)
    requires lo <= i && IdAt(ts, open) == OBrace && IdAt(ts, close) == CBrace && lo <= open < close
    requires forall j | lo <= j < i && j != open && j != close :: Step(IdAt(ts, j)) == 0
    ensures Depth(ts, lo, i) == if open < i <= close then 1 else 0
    decreases i - lo
  {
    if lo < i {
      OnePair(ts, lo, open, close, i - 1);
    }
  }

  lemma {:induction false} NoBraces(ts: seq<Token>, lo: int, i: int)
    requires forall j | lo <= j < i :: Step(IdAt(ts, j)) == 0
    ensures Depth(ts, lo, i) == 0
    decreases i - lo
  {
    if lo < i {
      NoBraces(ts, lo, i - 1);
    }
  }

  /** A SELECT with a FROM behind it, in the only braces of the range. */
  lemma {:induction false} OnlyBraces(ts: seq<Token>, lo: int, hi: int, open: int, close: int, from: int)
    requires lo <= open < from - 1 && from < close < hi && IdAt(ts, open) == OBrace && IdAt(ts, close) == CBrace
    requires IdAt(ts, open + 1) == Select && IdAt(ts, from) == From
    requires forall j | lo <= j < hi && j != open && j != close :: Step(IdAt(ts, j)) == 0
    requires forall j | open < j < from :: IdAt(ts, j) != From
    ensures exists x :: x in Nested(ts, lo, hi) && x.tbegin == open + 1
  {
    NoBraces(ts, lo, open);
    var b := open + 1;
    forall j | b <= j <= close
      ensures Depth(ts, b, j) == 0
    {
      NoBraces(ts, b, j);
    }
    hide Depth;
    assert Closes(ts, open, close);
    FirstIs(ts, open + 1, close, {From}, from);
    hide First;
    var x := SelectQuery(ts, open + 1, close).value;
    SubqueryRecorded(ts, lo, hi, open, close);
    assert x in Nested(ts, lo, hi) && x.tbegin == open + 1;
    hide Nested, SelectQuery, Closes;
  }

  lemma {:induction false} WholeReached(ts: seq<Token>)
    requires IdAt(ts, 0) == Select
    ensures (0, |ts|) in Reached(ts, 0, |ts|)
  {
    hide ReachedWithin;
    assert SkipHeader(ts, 0, |ts|) == 0;
    assert ([(0, |ts|)] + ReachedWithin(ts, 0, |ts|, 0))[0] == (0, |ts|);
  }

  /**
   SELECT UNION SELECT, a FROM at `from`, and no braces but those at `open` and `close`, behind the UNION
   and not around that FROM, with a SELECT and the FROM at `inner` in them.
   */
  predicate Late(ts: seq<Token>, open: int, close: int, inner: int, from: int) {
    && 3 <= open < inner - 1 && inner < close < |ts| && 3 <= from < |ts| && !(open <= from <= close)
    && IdAt(ts, 0) == IdAt(ts, 2) == IdAt(ts, open + 1) == Select && IdAt(ts, open) == OBrace
         && IdAt(ts, close) == CBrace
    && (forall j | 0 <= j < |ts| :: IdAt(ts, j) == Union <==> j == 1)
    && (forall j | 0 <= j < |ts| :: IdAt(ts, j) == From <==> j == inner || j == from)
    && (forall j | 0 <= j < |ts| && j != open && j != close :: Step(IdAt(ts, j)) == 0)
    && (forall j | from < j < |ts| :: IdAt(ts, j) !in FROM_ENDS)
  }

  lemma {:induction false} LateDepth(ts: seq<Token>, open: int, close: int, inner: int, from: int)
    requires Late(ts, open, close, inner, from)
    ensures forall j | 0 <= j <= |ts| :: Depth(ts, 0, j) == if open < j <= close then 1 else 0
  {
    forall j | 0 <= j <= |ts|
      ensures Depth(ts, 0, j) == if open < j <= close then 1 else 0
    {
      OnePair(ts, 0, open, close, j);
    }
  }

  lemma {:induction false} LateFirsts(ts: seq<Token>, open: int, close: int, inner: int, from: int)
    requires Late(ts, open, close, inner, from)
    ensures First(ts, 0, |ts|, {Union}) == 1 && First(ts, 0, |ts|, {From}) == from
    ensures First(ts, from + 1, |ts|, FROM_ENDS) == |ts|
  {
    LateDepth(ts, open, close, inner, from);
    hide Depth, FROM_ENDS;
    FirstIs(ts, 0, |ts|, {From}, from);
    FirstIs(ts, 0, |ts|, {Union}, 1);
    FirstIs(ts, from + 1, |ts|, FROM_ENDS, |ts|);
  }

  lemma {:induction false} LateNested(ts: seq<Token>, open: int, close: int, inner: int, from: int)
    requires Late(ts, open, close, inner, from)
    ensures exists x :: x in Nested(ts, 2, |ts|) && x.tbegin == open + 1
  {
    hide FROM_ENDS, Nested;
    OnlyBraces(ts, 2, |ts|, open, close, inner);
  }

  lemma {:induction false} LateTwice(ts: seq<Token>, open: int, close: int, inner: int, from: int)
    requires Late(ts, open, close, inner, from)
    ensures (0, |ts|) in Reached(ts, 0, |ts|) && Shared(ts, 0, |ts|)
    ensures exists x :: Twice(Queries(ts, 0, |ts|), x) && x.tbegin == open + 1
  {
    hide *;
    LateNested(ts, open, close, inner, from);
    LateShared(ts, open, close, inner, from);
    var x :| x in Nested(ts, 2, |ts|) && x.tbegin == open + 1;
    SharedTwice(ts, 0, |ts|, 2, |ts|, x);
  }

  lemma {:induction false} LateShared(ts: seq<Token>, open: int, close: int, inner: int, from: int)
    requires Late(ts, open, close, inner, from)
    ensures (0, |ts|) in Reached(ts, 0, |ts|) && Shared(ts, 0, |ts|)
    ensures AfterUnion(ts, First(ts, 0, |ts|, {Union})) == Some(2)
    ensures First(ts, First(ts, 0, |ts|, {From}) + 1, |ts|, FROM_ENDS) == |ts|
  {
    LateStart(ts, open, close, inner, from);
    hide *;
    LateFirsts(ts, open, close, inner, from);
    LateNested(ts, open, close, inner, from);
    IsShared(ts, 0, |ts|, 1, from, 2, |ts|);
  }

  lemma {:induction false} LateStart(ts: seq<Token>, open: int, close: int, inner: int, from: int)
    requires Late(ts, open, close, inner, from)
    ensures 1 < from < |ts| && IdAt(ts, 0) == Select && AfterUnion(ts, 1) == Some(2)
    ensures (0, |ts|) in Reached(ts, 0, |ts|)
  {
    WholeReached(ts);
    hide Reached;
  }

  lemma {:induction false} IsShared(ts: seq<Token>, b: int, e: int, u: int, from: int, s: int, fe: int)
    requires IdAt(ts, b) == Select && First(ts, b, e, {Union}) == u < from == First(ts, b, e, {From}) < e
    requires AfterUnion(ts, u) == Some(s) && First(ts, from + 1, e, FROM_ENDS) == fe && Nested(ts, s, fe) != []
    ensures Shared(ts, b, e)
  {
    hide First, AfterUnion, FROM_ENDS, Nested;
  }

  lemma {:induction false} NoEnds()
    ensures Literal !in FROM_ENDS && OBrace !in FROM_ENDS && Select !in FROM_ENDS && From !in FROM_ENDS
    ensures CBrace !in FROM_ENDS
  {
  }

  lemma {:induction false} LateFromIds()
    ensures |LATE_FROM| == 9 && IdAt(LATE_FROM, 0) == IdAt(LATE_FROM, 2) == Select && IdAt(LATE_FROM, 1) == Union
    ensures IdAt(LATE_FROM, 3) == From && IdAt(LATE_FROM, 4) == OBrace
  {
  }

  lemma {:induction false} LateFromIds'()
    ensures IdAt(LATE_FROM, 5) == Select && IdAt(LATE_FROM, 6) == From && IdAt(LATE_FROM, 7) == Literal
    ensures IdAt(LATE_FROM, 8) == CBrace
  {
  }

  lemma {:induction false} LateFrom()
    ensures |LATE_FROM| == 9 && Late(LATE_FROM, 4, 8, 6, 3)
  {
    NoEnds();
    LateFromIds();
    LateFromIds'();
    hide FROM_ENDS, LATE_FROM, IdAt;
  }

  lemma {:induction false} LateListIds()
    ensures |LATE_LIST| == 10 && IdAt(LATE_LIST, 0) == IdAt(LATE_LIST, 2) == IdAt(LATE_LIST, 4) == Select
    ensures IdAt(LATE_LIST, 1) == Union
    ensures IdAt(LATE_LIST, 3) == OBrace
  {
  }

  lemma {:induction false} LateListIds'()
    ensures IdAt(LATE_LIST, 5) == IdAt(LATE_LIST, 8) == From && IdAt(LATE_LIST, 6) == IdAt(LATE_LIST, 9) == Literal
    ensures IdAt(LATE_LIST, 7) == CBrace
  {
  }

  lemma {:induction false} LateList()
    ensures |LATE_LIST| == 10 && Late(LATE_LIST, 3, 7, 5, 8)
  {
    NoEnds();
    LateListIds();
    LateListIds'();
    hide FROM_ENDS, LATE_LIST, IdAt;
  }

  /**
   On both, the query in braces is recorded twice: once it stands in the FROM range, once in the list in front of it.
   */
  lemma {:induction false} RecordedTwice()
    ensures exists x :: Twice(Queries(LATE_FROM, 0, 9), x) && x.tbegin == 5
    ensures exists x :: Twice(Queries(LATE_LIST, 0, 10), x) && x.tbegin == 4
  {
    LateFrom();
    LateList();
    hide Late, Queries, Reached, Shared, Twice, LATE_FROM, LATE_LIST;
    LateTwice(LATE_FROM, 4, 8, 6, 3);
    LateTwice(LATE_LIST, 3, 7, 5, 8);
  }
}
