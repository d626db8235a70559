/** What holds of every list of queries that the parser of sql/sqlparser.cpp records. */
module SqlTheorems {
  import opened Options
  import opened Sequences
  import opened SqlTokens
  import opened SqlQueries

  // ----- where queries come from -----

  /** `q` is what the tokens from its own first one make of some range within `lo` and `hi`. */
  ghost predicate QueryOf(ts: seq<Token>, q: Query, lo: int, hi: int) {
    exists e :: lo <= q.tbegin < e <= hi && QueryAt(ts, q.tbegin, e) == Some(q)
  }

  /**
   If the FROM of a SELECT stands behind a UNION with another SELECT, there is no query from there to the end of the
   FROM range.
   */
  predicate Lone(ts: seq<Token>, q: Query) {
    IdAt(ts, q.tbegin) == Select && q.tend < q.fromend && AfterUnion(ts, q.tend).Some? ==>
      Nested(ts, AfterUnion(ts, q.tend).value, q.fromend) == []
  }

  ghost predicate AllOf(ts: seq<Token>, qs: seq<Query>, lo: int, hi: int) {
    forall i | 0 <= i < |qs| :: QueryOf(ts, qs[i], lo, hi)
  }

  predicate AllLone(ts: seq<Token>, qs: seq<Query>) {
    forall i | 0 <= i < |qs| :: Lone(ts, qs[i])
  }

  /** No query is recorded twice. */
  predicate Apart(qs: seq<Query>) {
    forall i, j | 0 <= i < j < |qs| :: qs[i].tbegin != qs[j].tbegin
  }

  ghost predicate Good(ts: seq<Token>, qs: seq<Query>, lo: int, hi: int) {
    AllOf(ts, qs, lo, hi) && (AllLone(ts, qs) <==> Apart(qs))
  }

  lemma {:induction false} OfWider(ts: seq<Token>, q: Query, lo: int, hi: int, lo': int, hi': int)
    requires QueryOf(ts, q, lo, hi) && lo' <= lo && hi <= hi'
    ensures QueryOf(ts, q, lo', hi')
  {
    var e :| lo <= q.tbegin < e <= hi && QueryAt(ts, q.tbegin, e) == Some(q);
  }

  lemma {:induction false} Wider(ts: seq<Token>, qs: seq<Query>, lo: int, hi: int, lo': int, hi': int)
    requires Good(ts, qs, lo, hi) && (qs == [] || (lo' <= lo && hi <= hi'))
    ensures Good(ts, qs, lo', hi')
  {
    hide QueryOf;
    forall i | 0 <= i < |qs|
      ensures QueryOf(ts, qs[i], lo', hi')
    {
      OfWider(ts, qs[i], lo, hi, lo', hi');
    }
  }

  /** Queries from two ranges one behind the other. */
  lemma {:induction false} Both(ts: seq<Token>, p: seq<Query>, lo: int, mid: int, q: seq<Query>, mid': int, hi: int)
    requires Good(ts, p, lo, mid) && Good(ts, q, mid', hi) && lo <= mid <= mid' <= hi
    ensures Good(ts, p + q, lo, hi) && Good(ts, q + p, lo, hi)
  {
    Wider(ts, p, lo, mid, lo, hi);
    Wider(ts, q, mid', hi, lo, hi);
    LoneBoth(ts, p, q);
    LoneBoth(ts, q, p);
    forall i, j | 0 <= i < |p| && 0 <= j < |q|
      ensures p[i].tbegin < q[j].tbegin
    {
      assert QueryOf(ts, p[i], lo, mid) && QueryOf(ts, q[j], mid', hi);
    }
    ApartBoth(p, q);
    ApartBoth(q, p);
    OfBoth(ts, p, q, lo, hi);
    OfBoth(ts, q, p, lo, hi);
    hide AllOf, AllLone, Apart;
  }

  lemma {:induction false} ApartBoth(p: seq<Query>, q: seq<Query>)
    requires forall i, j | 0 <= i < |p| && 0 <= j < |q| :: p[i].tbegin != q[j].tbegin
    ensures Apart(p + q) <==> Apart(p) && Apart(q)
  {
    var s := p + q;
    assert forall i | 0 <= i < |p| :: s[i] == p[i];
    assert forall i | 0 <= i < |q| :: s[|p| + i] == q[i];
    if Apart(s) {
      forall i, j | 0 <= i < j < |q|
        ensures q[i].tbegin != q[j].tbegin
      {
        assert s[|p| + i].tbegin != s[|p| + j].tbegin;
      }
    }
  }

  lemma {:induction false} LoneBoth(ts: seq<Token>, p: seq<Query>, q: seq<Query>)
    ensures AllLone(ts, p + q) <==> AllLone(ts, p) && AllLone(ts, q)
  {
    hide Lone;
    forall i | 0 <= i < |p|
      ensures (p + q)[i] == p[i]
    {
    }
    forall i | 0 <= i < |q|
      ensures (p + q)[|p| + i] == q[i]
    {
    }
  }

  lemma {:induction false} OfBoth(ts: seq<Token>, p: seq<Query>, q: seq<Query>, lo: int, hi: int)
    requires AllOf(ts, p, lo, hi) && AllOf(ts, q, lo, hi)
    ensures AllOf(ts, p + q, lo, hi)
  {
  }

  // ----- ranges -----

  lemma {:induction false} FromOrUnion(ts: seq<Token>, b: int, e: int, q: Query)
    requires IdAt(ts, b) == Select && SelectQuery(ts, b, e) == Some(q)
    ensures q.tbegin == b < q.fromstart <= q.fromend <= e && b < q.tend <= e
    ensures q.tend == First(ts, b, e, {Union}) && q.fromstart - 1 == First(ts, b, e, {From})
    ensures q.fromend == First(ts, q.fromstart, e, FROM_ENDS)
    ensures q.fromend <= q.tend <==> First(ts, b, e, {From}) < First(ts, b, e, {Union})
  {
    var from, u := First(ts, b, e, {From}), First(ts, b, e, {Union});
    assert from < e && Hit(ts, b, from, {From}) && (u < e ==> Hit(ts, b, u, {Union}));
    if from < u {
      UnionEndsFrom(ts, b, e);
    }
    hide First, WhereRange, Depth;
  }

  /**
   FROM at depth zero in front of any UNION at depth zero is just what keeps the tables of a SELECT inside its range.
   */
  lemma {:induction false} SelectRanges(ts: seq<Token>, b: int, e: int, q: Query)
    requires 0 <= b && IdAt(ts, b) == Select && SelectQuery(ts, b, e) == Some(q)
    ensures q.tbegin == b < q.fromstart <= q.fromend <= e && b < q.tend <= e
    ensures q.fromstart - 1 == First(ts, b, e, {From})
    ensures q.fromend <= q.tend <==> First(ts, b, e, {From}) < First(ts, b, e, {Union})
    ensures q.wherestart < q.whereend ==> q.fromend < q.wherestart && q.whereend <= q.tend
    ensures q.fromend <= q.wherestart && q.whereend <= e
  {
    FromOrUnion(ts, b, e, q);
    WhereIn(ts, q.fromend, q.tend);
    hide First, WhereRange, Depth, FROM_ENDS;
  }

  lemma {:induction false} UnionEndsFrom(ts: seq<Token>, b: int, e: int)
    requires First(ts, b, e, {From}) < e && First(ts, b, e, {From}) < First(ts, b, e, {Union})
    ensures First(ts, First(ts, b, e, {From}) + 1, e, FROM_ENDS) <= First(ts, b, e, {Union})
  {
    var from := First(ts, b, e, {From});
    assert Hit(ts, b, from, {From});
    assert Depth(ts, b, from + 1) == Depth(ts, b, from) + Step(IdAt(ts, from));
    hide First, Depth;
    FirstGoesOn(ts, b, from + 1, e, {Union});
    UnionEnds();
    FirstOfMore(ts, from + 1, e, {Union}, FROM_ENDS);
  }

  lemma {:induction false} WhereIn(ts: seq<Token>, fe: int, qe: int)
    requires 0 <= fe
    ensures var w := WhereRange(ts, fe, qe);
          fe <= w.0 && (w.1 == 0 || w.1 <= qe) && (w.0 < w.1 ==> fe < w.0 && w.1 <= qe)
  {
    hide First;
  }

  lemma {:induction false} NoNested(ts: seq<Token>, lo: int, hi: int)
    requires hi <= lo
    ensures Nested(ts, lo, hi) == []
  {
  }

  lemma {:induction false} DepthNext(ts: seq<Token>, lo: int, i: int)
    requires lo <= i
    ensures Depth(ts, lo, i + 1) == Depth(ts, lo, i) + Step(IdAt(ts, i))
  {
  }

  // ----- all queries -----

  lemma {:induction false} SelectIs(ts: seq<Token>, b: int, e: int, q: Query)
    requires IdAt(ts, b) == Select && SelectQuery(ts, b, e) == Some(q) && q.tbegin == b < e
    ensures QueryAt(ts, b, e) == Some(q) && QueryOf(ts, q, b, e)
  {
    hide SelectQuery;
    assert QueryAt(ts, b, e) == Some(q);
    hide QueryAt;
  }

  /** `q` and the queries of the list, of FROM, of WHERE and behind UNION, each behind the one before. */
  lemma {:induction false} SelectSeparate(ts: seq<Token>, q: Query, x: int, y: int, limit: int, e: int,
      u: seq<Query>, list: seq<Query>, from: seq<Query>, where: seq<Query>)
    requires QueryOf(ts, q, q.tbegin, e) && q.tbegin < x <= y <= limit <= e && Lone(ts, q)
    requires Good(ts, list, q.tbegin + 1, x) && Good(ts, from, x, y) && Good(ts, where, y, limit)
    requires Good(ts, u, limit, e)
    ensures Good(ts, [q] + (u + (list + from + where)), q.tbegin, e)
  {
    hide Good, QueryOf, Lone;
    var b := q.tbegin;
    Both(ts, list, b + 1, x, from, x, y);
    Both(ts, list + from, b + 1, y, where, y, limit);
    Both(ts, list + from + where, b + 1, limit, u, limit, e);
    FirstApart(ts, q, u + (list + from + where), e);
  }

  /** A query of the FROM range, or of the list behind the UNION, is found behind the UNION too. */
  lemma {:induction false} SelectShared(ts: seq<Token>, q: Query, e: int, u: seq<Query>, list: seq<Query>,
      from: seq<Query>, where: seq<Query>, x: Query)
    requires !Lone(ts, q) && AllOf(ts, [q], q.tbegin, e) && AllOf(ts, u, q.tbegin, e) && AllOf(ts, list, q.tbegin, e)
    requires AllOf(ts, from, q.tbegin, e) && where == [] && x in u && (x in list || x in from)
    ensures Good(ts, [q] + (u + (list + from + where)), q.tbegin, e)
  {
    hide QueryOf, Lone;
    OfBoth(ts, list, from, q.tbegin, e);
    assert list + from + [] == list + from;
    OfBoth(ts, u, list + from, q.tbegin, e);
    OfBoth(ts, [q], u + (list + from), q.tbegin, e);
    assert ([q] + (u + (list + from)))[0] == q;
    assert x in list + from;
    TwiceIn([q], u, list + from, x);
    hide AllOf, Apart;
  }

  predicate Twice(qs: seq<Query>, x: Query) {
    exists i, j :: 0 <= i < j < |qs| && qs[i] == qs[j] == x
  }

  lemma {:induction false} TwiceIn(a: seq<Query>, b: seq<Query>, c: seq<Query>, x: Query)
    requires x in b && x in c
    ensures Twice(a + (b + c), x) && !Apart(a + (b + c))
  {
    var i :| 0 <= i < |b| && b[i] == x;
    var j :| 0 <= j < |c| && c[j] == x;
    var s := a + (b + c);
    assert s[|a| + i] == x && s[|a| + |b| + j] == x;
  }

  lemma {:induction false} FirstApart(ts: seq<Token>, q: Query, qs: seq<Query>, e: int)
    requires QueryOf(ts, q, q.tbegin, e) && Good(ts, qs, q.tbegin + 1, e) && Lone(ts, q)
    ensures Good(ts, [q] + qs, q.tbegin, e)
  {
    OneGood(ts, q, q.tbegin, e);
    hide QueryOf, Lone;
    Wider(ts, qs, q.tbegin + 1, e, q.tbegin, e);
    LoneBoth(ts, [q], qs);
    forall i, j | 0 <= i < |[q]| && 0 <= j < |qs|
      ensures [q][i].tbegin != qs[j].tbegin
    {
      BeginsIn(ts, qs[j], q.tbegin + 1, e);
    }
    ApartBoth([q], qs);
    OfBoth(ts, [q], qs, q.tbegin, e);
    hide AllOf, AllLone, Apart;
  }

  lemma {:induction false} OneGood(ts: seq<Token>, q: Query, lo: int, hi: int)
    requires QueryOf(ts, q, lo, hi) && Lone(ts, q)
    ensures Good(ts, [q], lo, hi)
  {
    hide QueryOf, Lone;
  }

  lemma {:induction false} BeginsIn(ts: seq<Token>, q: Query, lo: int, hi: int)
    requires QueryOf(ts, q, lo, hi)
    ensures lo <= q.tbegin < hi
  {
  }

  /** The queries recorded for a range all come from it, and none is recorded twice unless a UNION precedes a FROM. */
  lemma {:induction false} QueriesGood(ts: seq<Token>, b: int, e: int)
    requires 0 <= b
    ensures Good(ts, Queries(ts, b, e), b, e)
    decreases Size(b, e), 2, 0
  {
    hide QueryAt, Contained, Good;
    NothingGood(ts, b, e);
    var b' := SkipHeader(ts, b, e);
    if b' != e {
      if IdAt(ts, b') == Begin {
        BlocksGood(ts, b, e, b', b');
      } else {
        var q := QueryAt(ts, b', e);
        if q.Some? {
          BeginsThere(ts, b', e);
          ContainedGood(ts, b, e, b', q.value);
          Wider(ts, [q.value] + Contained(ts, b, e, b', q.value), b', e, b, e);
        }
      }
    }
  }

  lemma {:induction false} NothingGood(ts: seq<Token>, lo: int, hi: int)
    ensures Good(ts, [], lo, hi)
  {
  }

  lemma {:induction false} BeginsThere(ts: seq<Token>, b: int, e: int)
    ensures var q := QueryAt(ts, b, e); q.Some? ==> q.value.tbegin == b && b < e
  {
  }

  lemma {:induction false} ContainedGood(ts: seq<Token>, lo: int, e: int, b: int, q: Query)
    requires 0 <= lo <= b && QueryAt(ts, b, e) == Some(q)
    ensures Good(ts, [q] + Contained(ts, lo, e, b, q), b, e)
    decreases Size(lo, e), 1, 0
  {
    hide Good;
    BeginsThere(ts, b, e);
    var id := IdAt(ts, b);
    if id == Select {
      SelectCase(ts, lo, e, b, q);
    } else if id == Update {
      UpdateCase(ts, lo, e, b, q);
    } else if id == Delete {
      DeleteCase(ts, lo, e, b, q);
    } else if id == Insert || id == Replace {
      InsertCase(ts, lo, e, b, q);
    } else {
      Alone(ts, e, b, q);
    }
  }

  lemma {:induction false} Alone(ts: seq<Token>, e: int, b: int, q: Query)
    requires QueryAt(ts, b, e) == Some(q) && q.tbegin == b < e && IdAt(ts, b) != Select
    ensures Good(ts, [q] + [], b, e) && QueryOf(ts, q, b, e) && Lone(ts, q)
  {
    hide QueryAt, Nested;
    assert [q] + [] == [q];
    OneGood(ts, q, b, e);
    hide Good;
  }

  lemma {:induction false} OwnSelect(ts: seq<Token>, lo: int, e: int, b: int)
    requires lo <= b && IdAt(ts, b) == Select
    ensures var q := SelectQuery(ts, b, e);
      Own(ts, lo, e, b) == if q.None? then [] else [q.value] + UnionPart(ts, q.value, e) + Parts(ts, q.value)
  {
    hide SelectQuery, Nested, Queries, AfterUnion;
  }

  lemma {:induction false} SelectHolds(ts: seq<Token>, lo: int, e: int, b: int, q: Query)
    requires lo <= b && QueryAt(ts, b, e) == Some(q) && IdAt(ts, b) == Select
    ensures Contained(ts, lo, e, b, q) == UnionPart(ts, q, e) + Parts(ts, q)
  {
    hide QueryAt, Nested, Queries, AfterUnion;
    AssocFour(UnionPart(ts, q, e), Nested(ts, q.tbegin, q.fromstart), Nested(ts, q.fromstart, q.fromend),
        Nested(ts, q.wherestart, q.whereend));
  }

  lemma {:induction false} SelectCase(ts: seq<Token>, lo: int, e: int, b: int, q: Query)
    requires 0 <= lo <= b && QueryAt(ts, b, e) == Some(q) && IdAt(ts, b) == Select
    ensures Good(ts, [q] + Contained(ts, lo, e, b, q), b, e)
    decreases Size(lo, e), 0, Size(lo, e) + 4
  {
    SelectIsQuery(ts, b, e);
    SelectRanges(ts, b, e, q);
    SelectIs(ts, b, e, q);
    SelectHolds(ts, lo, e, b, q);
    hide Good, QueryAt, SelectQuery, QueryOf, Lone, Contained, Queries, Nested, UnionPart, Parts, First;
    if q.tend < e && AfterUnion(ts, q.tend).Some? {
      BehindUnion(ts, lo, e, b, q, AfterUnion(ts, q.tend).value);
    }
    SelectNested(ts, lo, e, b, q);
    hide AfterUnion;
    SelectEach(ts, b, e, q);
  }

  lemma {:induction false} SelectNested(ts: seq<Token>, lo: int, e: int, b: int, q: Query)
    requires 0 <= lo <= b <= q.fromstart <= q.fromend <= e && q.fromend <= q.wherestart && q.whereend <= e
    ensures Good(ts, Nested(ts, b, q.fromstart), b + 1, q.fromstart)
    ensures Good(ts, Nested(ts, q.fromstart, q.fromend), q.fromstart + 1, q.fromend)
    ensures Good(ts, Nested(ts, q.wherestart, q.whereend), q.wherestart + 1, q.whereend)
    decreases Size(lo, e), 0, Size(lo, e) + 3
  {
    hide Good, Nested;
    NestedGood(ts, b, q.fromstart);
    NestedGood(ts, q.fromstart, q.fromend);
    NestedGood(ts, q.wherestart, q.whereend);
  }

  lemma {:induction false} BehindUnion(ts: seq<Token>, lo: int, e: int, b: int, q: Query, s: int)
    requires 0 <= lo <= b < q.tend < e && SelectQuery(ts, b, e) == Some(q) && IdAt(ts, b) == Select
    requires AfterUnion(ts, q.tend) == Some(s)
    ensures Good(ts, Queries(ts, s, e), s, e)
    ensures q.tend < q.fromend ==> Good(ts, Nested(ts, b, s), b + 1, s)
    decreases Size(lo, e), 0, Size(lo, e) + 1
  {
    hide Good, SelectQuery, Queries, Nested;
    QueriesGood(ts, s, e);
    if q.tend < q.fromend {
      UnionShares(ts, b, e, q, s);
      NestedGood(ts, b, s);
    }
  }

  /** The queries of the condition lie behind the FROM range. */
  lemma {:induction false} WhereGood(ts: seq<Token>, q: Query, e: int)
    requires 0 <= q.fromend && Good(ts, Nested(ts, q.wherestart, q.whereend), q.wherestart + 1, q.whereend)
    requires q.fromend <= q.wherestart
    requires (q.wherestart < q.whereend ==> q.fromend < q.wherestart && q.whereend <= q.tend)
    ensures q.wherestart < q.whereend || Nested(ts, q.wherestart, q.whereend) == []
    ensures Good(ts, Nested(ts, q.wherestart, q.whereend), q.fromend, q.tend)
  {
    hide Good;
    if q.wherestart >= q.whereend {
      NoNested(ts, q.wherestart, q.whereend);
      NothingGood(ts, q.fromend, q.tend);
    } else {
      Wider(ts, Nested(ts, q.wherestart, q.whereend), q.wherestart + 1, q.whereend, q.fromend, q.tend);
    }
  }

  lemma {:induction false} SelectEach(ts: seq<Token>, b: int, e: int, q: Query)
    requires 0 <= b && IdAt(ts, b) == Select && SelectQuery(ts, b, e) == Some(q) && QueryOf(ts, q, b, e)
    requires q.tbegin == b
    requires Good(ts, Nested(ts, b, q.fromstart), b + 1, q.fromstart)
    requires Good(ts, Nested(ts, q.fromstart, q.fromend), q.fromstart + 1, q.fromend)
    requires Good(ts, Nested(ts, q.wherestart, q.whereend), q.wherestart + 1, q.whereend)
    requires q.tend < e && AfterUnion(ts, q.tend).Some? ==>
      var s := AfterUnion(ts, q.tend).value; Good(ts, Queries(ts, s, e), s, e)
    requires q.tend < q.fromend && AfterUnion(ts, q.tend).Some? ==>
      var s := AfterUnion(ts, q.tend).value; Good(ts, Nested(ts, b, s), b + 1, s)
    ensures Good(ts, [q] + (UnionPart(ts, q, e) + Parts(ts, q)), b, e)
  {
    SelectRanges(ts, b, e, q);
    hide Good, SelectQuery, QueryOf, Nested, Queries, First;
    var list, from, where := Nested(ts, b, q.fromstart), Nested(ts, q.fromstart, q.fromend),
        Nested(ts, q.wherestart, q.whereend);
    Wider(ts, from, q.fromstart + 1, q.fromend, q.fromstart, q.fromend);
    WhereGood(ts, q, e);
    if q.fromend <= q.tend {
      LoneBefore(ts, q);
      UnionGood(ts, q, e);
      hide AfterUnion, UnionPart, Lone;
      SelectSeparate(ts, q, q.fromstart, q.fromend, q.tend, e, UnionPart(ts, q, e), list, from, where);
    } else if AfterUnion(ts, q.tend).None? {
      LoneBefore(ts, q);
      NothingGood(ts, q.fromend, e);
      NothingGood(ts, e, e);
      hide AfterUnion, Lone;
      SelectSeparate(ts, q, q.fromstart, q.fromend, e, e, [], list, from, []);
    } else {
      hide AfterUnion, Lone;
      SelectLate(ts, b, e, q, AfterUnion(ts, q.tend).value, list, from);
    }
  }

  lemma {:induction false} LoneBefore(ts: seq<Token>, q: Query)
    requires q.fromend <= q.tend || AfterUnion(ts, q.tend).None?
    ensures Lone(ts, q)
  {
    hide Nested;
  }

  lemma {:induction false} UnionGood(ts: seq<Token>, q: Query, e: int)
    requires q.tend <= e
    requires q.tend < e && AfterUnion(ts, q.tend).Some? ==>
          var s := AfterUnion(ts, q.tend).value; Good(ts, Queries(ts, s, e), s, e)
    ensures Good(ts, UnionPart(ts, q, e), q.tend, e)
  {
    hide Good, Queries;
    NothingGood(ts, q.tend, e);
    if q.tend < e && AfterUnion(ts, q.tend).Some? {
      Wider(ts, Queries(ts, AfterUnion(ts, q.tend).value, e), AfterUnion(ts, q.tend).value, e, q.tend, e);
    }
  }

  // ----- a FROM behind a UNION -----

  lemma {:induction false} BracesAnywhere(ts: seq<Token>, lo: int, hi: int, lo': int, hi': int, s: int, e: int)
    requires lo <= s < e < hi && lo' <= s < e < hi'
    ensures InBraces(ts, lo, hi, s, e) == InBraces(ts, lo', hi', s, e)
  {
    hide Queries;
  }

  lemma {:induction false} NestedStep(ts: seq<Token>, lo: int, hi: int, i: int, depth: int, start: int)
    requires lo <= i < hi && (depth >= 1 ==> lo <= start < i)
    ensures var id := IdAt(ts, i);
      NestedFrom(ts, lo, hi, i, depth, start) ==
      (if id == CBrace && depth == 1 then InBraces(ts, lo, hi, start, i) else [])
      + NestedFrom(ts, lo, hi, i + 1, depth + Step(id), if id == OBrace && depth == 0 then i else start)
  {
    hide InBraces;
  }

  /** Where the range starts does not matter behind it, nor where the last brace was while none is open. */
  lemma {:induction false} StartUnused(ts: seq<Token>, lo: int, lo': int, hi: int, i: int, depth: int, start: int,
      start': int)
    requires lo <= i && lo' <= i && (depth >= 1 ==> start == start' && lo <= start < i && lo' <= start < i)
    ensures NestedFrom(ts, lo, hi, i, depth, start) == NestedFrom(ts, lo', hi, i, depth, start')
    decreases hi - i
  {
    hide InBraces;
    if i < hi {
      NestedStep(ts, lo, hi, i, depth, start);
      NestedStep(ts, lo', hi, i, depth, start');
      var id := IdAt(ts, i);
      if id == CBrace && depth == 1 {
        BracesAnywhere(ts, lo, hi, lo', hi, start, i);
      }
      StartUnused(ts, lo, lo', hi, i + 1, depth + Step(id), if id == OBrace
          && depth == 0 then i else start, if id == OBrace && depth == 0 then i else start');
      hide NestedFrom;
    }
  }

  lemma {:induction false} SplitFrom(ts: seq<Token>, lo: int, mid: int, hi: int, i: int, depth: int, start: int)
    requires lo <= i <= mid <= hi && (depth >= 1 ==> lo <= start < i) && depth == Depth(ts, lo, i)
    requires Depth(ts, lo, mid) == 0
    ensures NestedFrom(ts, lo, hi, i, depth, start) == NestedFrom(ts, lo, mid, i, depth, start) + Nested(ts, mid, hi)
    decreases mid - i
  {
    if i < mid {
      DepthNext(ts, lo, i);
      hide NestedFrom, InBraces, Nested, Depth;
      var id := IdAt(ts, i);
      SplitFrom(ts, lo, mid, hi, i + 1, depth + Step(id), if id == OBrace && depth == 0 then i else start);
      SplitStep(ts, lo, mid, hi, i, depth, start);
    } else {
      hide InBraces;
      StartUnused(ts, lo, mid, hi, mid, 0, start, mid);
      assert [] + Nested(ts, mid, hi) == Nested(ts, mid, hi);
    }
  }

  /** What closing braces at `i` adds. */
  function Closing(ts: seq<Token>, lo: int, hi: int, i: int, depth: int, start: int): seq<Query>
    requires lo <= i < hi && (depth >= 1 ==> lo <= start < i)
  {
    if IdAt(ts, i) == CBrace && depth == 1 then InBraces(ts, lo, hi, start, i) else []
  }

  lemma {:induction false} ClosingAnywhere(ts: seq<Token>, lo: int, hi: int, hi': int, i: int, depth: int, start: int)
    requires lo <= i < hi && i < hi' && (depth >= 1 ==> lo <= start < i)
    ensures Closing(ts, lo, hi, i, depth, start) == Closing(ts, lo, hi', i, depth, start)
  {
    hide InBraces;
    if IdAt(ts, i) == CBrace && depth == 1 {
      BracesAnywhere(ts, lo, hi, lo, hi', start, i);
    }
  }

  lemma {:induction false} ClosingStep(ts: seq<Token>, lo: int, hi: int, i: int, depth: int, start: int, start': int)
    requires lo <= i < hi && (depth >= 1 ==> lo <= start < i) && start' == if IdAt(ts, i) == OBrace
          && depth == 0 then i else start
    ensures NestedFrom(ts, lo, hi, i, depth, start) == Closing(ts, lo, hi, i, depth, start)
          + NestedFrom(ts, lo, hi, i + 1, depth + Step(IdAt(ts, i)), start')
  {
    hide InBraces;
  }

  lemma {:induction false} SplitStep(ts: seq<Token>, lo: int, mid: int, hi: int, i: int, depth: int, start: int)
    requires lo <= i < mid <= hi && (depth >= 1 ==> lo <= start < i)
    requires var id := IdAt(ts, i); var start' := if id == OBrace && depth == 0 then i else start;
      NestedFrom(ts, lo, hi, i + 1, depth + Step(id), start')
          == NestedFrom(ts, lo, mid, i + 1, depth + Step(id), start') + Nested(ts, mid, hi)
    ensures NestedFrom(ts, lo, hi, i, depth, start) == NestedFrom(ts, lo, mid, i, depth, start) + Nested(ts, mid, hi)
  {
    hide NestedFrom, Nested, Closing;
    var start' := if IdAt(ts, i) == OBrace && depth == 0 then i else start;
    ClosingStep(ts, lo, hi, i, depth, start, start');
    ClosingStep(ts, lo, mid, i, depth, start, start');
    ClosingAnywhere(ts, lo, hi, mid, i, depth, start);
    Assoc(Closing(ts, lo, hi, i, depth, start), NestedFrom(ts, lo, mid, i + 1, depth + Step(IdAt(ts, i)), start'),
        Nested(ts, mid, hi));
  }

  /** A range may be searched in two parts, if no brace is open between them. */
  lemma {:induction false} NestedSplits(ts: seq<Token>, lo: int, mid: int, hi: int)
    requires lo <= mid <= hi && Depth(ts, lo, mid) == 0
    ensures Nested(ts, lo, hi) == Nested(ts, lo, mid) + Nested(ts, mid, hi)
  {
    SplitFrom(ts, lo, mid, hi, lo, 0, lo);
  }

  /** At a token found at depth zero that is no brace, the depth behind it is zero too. */
  lemma {:induction false} DepthBehind(ts: seq<Token>, b: int, e: int, id: Id)
    requires First(ts, b, e, {id}) < e && Step(id) == 0
    ensures var i := First(ts, b, e, {id}); IdAt(ts, i) == id && Depth(ts, b, i) == Depth(ts, b, i + 1) == 0
  {
    assert Hit(ts, b, First(ts, b, e, {id}), {id});
    DepthNext(ts, b, First(ts, b, e, {id}));
    hide First, Depth;
  }

  lemma {:induction false} UnionBefore(ts: seq<Token>, b: int, e: int, u: int, from: int, s: int)
    requires IdAt(ts, b) == Select && u == First(ts, b, e, {Union}) && from == First(ts, b, e, {From}) && u < from < e
    requires AfterUnion(ts, u) == Some(s)
    ensures b < u < s <= from && IdAt(ts, s) == Select && Depth(ts, b, s) == 0 && Depth(ts, b, from + 1) == 0
  {
    hide First, Depth, Hit, IdAt;
    DepthBehind(ts, b, e, From);
    DepthBehind(ts, b, e, Union);
    DepthNext(ts, b, u + 1);
  }

  /** The second SELECT has the same FROM, and what lies in front of it belongs to the lists of both. */
  lemma {:induction false} UnionShares(ts: seq<Token>, b: int, e: int, q: Query, s: int)
    requires IdAt(ts, b) == Select && SelectQuery(ts, b, e) == Some(q)
    requires q.tend < q.fromend && AfterUnion(ts, q.tend) == Some(s)
    ensures b < q.tend < s < q.fromstart <= q.fromend <= e && IdAt(ts, s) == Select
    ensures Depth(ts, b, s) == 0 && Depth(ts, s, q.fromstart) == 0
    ensures var q' := SelectQuery(ts, s, e);
          q'.Some? && q'.value.tbegin == s && q'.value.fromstart == q.fromstart && q'.value.fromend == q.fromend
  {
    hide First, Depth, SelectQuery, AfterUnion, FROM_ENDS;
    FromOrUnion(ts, b, e, q);
    var from := First(ts, b, e, {From});
    UnionBefore(ts, b, e, q.tend, from, s);
    FirstGoesOn(ts, b, s, e, {From});
    DepthSplits(ts, b, s, q.fromstart);
    SelectFrom(ts, s, e, from);
  }

  lemma {:induction false} SelectFrom(ts: seq<Token>, b: int, e: int, from: int)
    requires First(ts, b, e, {From}) == from < e
    ensures var q := SelectQuery(ts, b, e);
          q.Some? && q.value.tbegin == b && q.value.fromstart == from + 1
              && q.value.fromend == First(ts, from + 1, e, FROM_ENDS)
  {
    hide First, WhereRange, FROM_ENDS;
  }

  lemma {:induction false} SelectLate(ts: seq<Token>, b: int, e: int, q: Query, s: int, list: seq<Query>,
      from: seq<Query>)
    requires IdAt(ts, b) == Select && SelectQuery(ts, b, e) == Some(q) && QueryOf(ts, q, b, e) && q.tbegin == b
    requires q.tend < q.fromend && AfterUnion(ts, q.tend) == Some(s)
    requires list == Nested(ts, b, q.fromstart) && from == Nested(ts, q.fromstart, q.fromend)
    requires Good(ts, list, b + 1, q.fromstart) && Good(ts, from, q.fromstart, q.fromend)
    requires Good(ts, Queries(ts, s, e), s, e)
    requires Good(ts, Nested(ts, b, s), b + 1, s)
    ensures Good(ts, [q] + (Queries(ts, s, e) + (list + from + [])), b, e)
  {
    hide Good, QueryOf, Nested, Queries, Lone, SelectQuery, Depth, AfterUnion;
    UnionShares(ts, b, e, q, s);
    NestedSplits(ts, b, s, q.fromstart);
    NestedSplits(ts, s, q.fromstart, q.fromend);
    LoneIf(ts, q, s);
    if Nested(ts, s, q.fromend) == [] {
      assert list == Nested(ts, b, s) + [] == Nested(ts, b, s);
      NothingGood(ts, s, s);
      SelectSeparate(ts, q, s, s, s, e, Queries(ts, s, e), list, [], []);
    } else {
      LateFound(ts, b, e, q, s, SelectQuery(ts, s, e).value, list, from);
    }
  }

  lemma {:induction false} LateFound(ts: seq<Token>, b: int, e: int, q: Query, s: int, q': Query, list: seq<Query>,
      from: seq<Query>)
    requires QueryOf(ts, q, b, e) && q.tbegin == b <= s < q.fromstart <= q.fromend <= e && !Lone(ts, q)
    requires IdAt(ts, s) == Select && SelectQuery(ts, s, e) == Some(q') && q'.tbegin == s && q'.fromstart == q.fromstart
    requires q'.fromend == q.fromend
    requires list == Nested(ts, b, s) + Nested(ts, s, q.fromstart) && from == Nested(ts, q.fromstart, q.fromend)
    requires Nested(ts, s, q.fromend) == Nested(ts, s, q.fromstart) + from != []
    requires Good(ts, list, b + 1, q.fromstart) && Good(ts, from, q.fromstart, q.fromend)
    requires Good(ts, Queries(ts, s, e), s, e)
    ensures Good(ts, [q] + (Queries(ts, s, e) + (list + from + [])), b, e)
  {
    hide Good, QueryOf, Nested, Queries, Lone, SelectQuery;
    var x := Nested(ts, s, q.fromend)[0];
    FoundBehind(ts, s, e, q', x);
    InEither(Nested(ts, b, s), Nested(ts, s, q.fromstart), from);
    LateShared(ts, b, e, q, s, list, from, x);
  }

  lemma {:induction false} InEither(a: seq<Query>, b: seq<Query>, c: seq<Query>)
    requires b + c != []
    ensures (b + c)[0] in a + b || (b + c)[0] in c
  {
    if b == [] {
      assert (b + c)[0] == c[0];
    } else {
      assert (a + b)[|a|] == b[0] == (b + c)[0];
    }
  }

  lemma {:induction false} LateShared(ts: seq<Token>, b: int, e: int, q: Query, s: int, list: seq<Query>,
      from: seq<Query>, x: Query)
    requires QueryOf(ts, q, b, e) && q.tbegin == b <= s <= q.fromstart <= q.fromend <= e && !Lone(ts, q)
    requires Good(ts, list, b + 1, q.fromstart) && Good(ts, from, q.fromstart, q.fromend)
    requires Good(ts, Queries(ts, s, e), s, e)
    requires x in Queries(ts, s, e) && (x in list || x in from)
    ensures Good(ts, [q] + (Queries(ts, s, e) + (list + from + [])), b, e)
  {
    hide Lone, Queries, QueryOf;
    var u := Queries(ts, s, e);
    Wider(ts, u, s, e, b, e);
    Wider(ts, list, b + 1, q.fromstart, b, e);
    Wider(ts, from, q.fromstart, q.fromend, b, e);
    assert AllOf(ts, [q], b, e);
    hide AllOf, AllLone, Apart;
    SelectShared(ts, q, e, u, list, from, [], x);
  }

  lemma {:induction false} LoneIf(ts: seq<Token>, q: Query, s: int)
    requires IdAt(ts, q.tbegin) == Select && q.tend < q.fromend && AfterUnion(ts, q.tend) == Some(s)
    ensures Lone(ts, q) <==> Nested(ts, s, q.fromend) == []
  {
    hide Nested;
  }

  lemma {:induction false} SelectContains(ts: seq<Token>, b: int, e: int, q: Query)
    requires b < e && IdAt(ts, b) == Select && SelectQuery(ts, b, e) == Some(q)
    ensures Queries(ts, b, e) == [q] + UnionPart(ts, q, e) + Parts(ts, q)
  {
    OwnSelect(ts, b, e, b);
    hide SelectQuery, UnionPart, Parts, Own;
    assert SkipHeader(ts, b, e) == b;
  }

  /** Whatever is found in the list and the FROM range of a SELECT is among its queries. */
  lemma {:induction false} FoundBehind(ts: seq<Token>, b: int, e: int, q: Query, x: Query)
    requires b < e && IdAt(ts, b) == Select && SelectQuery(ts, b, e) == Some(q) && q.tbegin == b
    requires x in Nested(ts, b, q.fromstart) + Nested(ts, q.fromstart, q.fromend)
    ensures x in Queries(ts, b, e)
  {
    SelectContains(ts, b, e, q);
    hide SelectQuery, Nested, Queries, UnionPart;
  }

  lemma {:induction false} UpdateRanges(ts: seq<Token>, b: int, e: int, q: Query)
    requires QueryAt(ts, b, e) == Some(q) && IdAt(ts, b) == Update
    ensures q.tbegin == b < q.fromstart <= q.wherestart <= e == q.tend
  {
  }

  lemma {:induction false} UpdateCase(ts: seq<Token>, lo: int, e: int, b: int, q: Query)
    requires 0 <= lo <= b && QueryAt(ts, b, e) == Some(q) && IdAt(ts, b) == Update
    ensures Good(ts, [q] + Contained(ts, lo, e, b, q), b, e)
    decreases Size(lo, e), 0, Size(lo, e) + 2
  {
    BeginsThere(ts, b, e);
    UpdateRanges(ts, b, e, q);
    hide Good, QueryAt, QueryOf, Nested;
    Alone(ts, e, b, q);
    NestedGood(ts, q.fromstart, q.wherestart);
    NestedGood(ts, q.wherestart, q.tend);
    var qs, rs := Nested(ts, q.fromstart, q.wherestart), Nested(ts, q.wherestart, q.tend);
    Wider(ts, qs, q.fromstart + 1, q.wherestart, b + 1, q.wherestart);
    Wider(ts, rs, q.wherestart + 1, q.tend, q.wherestart, e);
    Both(ts, qs, b + 1, q.wherestart, rs, q.wherestart, e);
    FirstApart(ts, q, qs + rs, e);
  }

  lemma {:induction false} DeleteRanges(ts: seq<Token>, b: int, e: int, q: Query)
    requires QueryAt(ts, b, e) == Some(q) && IdAt(ts, b) == Delete
    ensures q.tbegin == b < q.wherestart <= e == q.tend
  {
  }

  lemma {:induction false} DeleteCase(ts: seq<Token>, lo: int, e: int, b: int, q: Query)
    requires 0 <= lo <= b && QueryAt(ts, b, e) == Some(q) && IdAt(ts, b) == Delete
    ensures Good(ts, [q] + Contained(ts, lo, e, b, q), b, e)
    decreases Size(lo, e), 0, Size(lo, e) + 2
  {
    BeginsThere(ts, b, e);
    DeleteRanges(ts, b, e, q);
    hide Good, QueryAt, QueryOf, Nested;
    Alone(ts, e, b, q);
    NestedGood(ts, q.wherestart, q.tend);
    Wider(ts, Nested(ts, q.wherestart, q.tend), q.wherestart + 1, q.tend, b + 1, e);
    FirstApart(ts, q, Nested(ts, q.wherestart, q.tend), e);
  }

  lemma {:induction false} InsertRanges(ts: seq<Token>, b: int, e: int)
    requires IdAt(ts, b) == Insert || IdAt(ts, b) == Replace
    ensures QueryAt(ts, b, e) == InsertQuery(ts, b, e)
    ensures var q := InsertQuery(ts, b, e); q.Some? ==> q.value.tbegin == b < q.value.fromend <= e == q.value.tend
  {
    hide NameEnd, ValueList, First;
  }

  lemma {:induction false} InsertContains(ts: seq<Token>, lo: int, e: int, b: int, q: Query)
    requires lo <= b && QueryAt(ts, b, e) == Some(q) && (IdAt(ts, b) == Insert || IdAt(ts, b) == Replace)
    ensures q.fromend <= e
    ensures var s := InsertSelect(ts, q.fromend, e);
      Contained(ts, lo, e, b, q) == if s.Some? then Queries(ts, s.value, e) else []
  {
    hide QueryAt, InsertSelect, Queries, InsertQuery;
    InsertRanges(ts, b, e);
  }

  lemma {:induction false} InsertCase(ts: seq<Token>, lo: int, e: int, b: int, q: Query)
    requires 0 <= lo <= b && QueryAt(ts, b, e) == Some(q) && (IdAt(ts, b) == Insert || IdAt(ts, b) == Replace)
    ensures Good(ts, [q] + Contained(ts, lo, e, b, q), b, e)
    decreases Size(lo, e), 0, Size(lo, e) + 2
  {
    BeginsThere(ts, b, e);
    InsertRanges(ts, b, e);
    InsertContains(ts, lo, e, b, q);
    hide Good, QueryAt, QueryOf, InsertSelect, Queries, Contained;
    Alone(ts, e, b, q);
    var s := InsertSelect(ts, q.fromend, e);
    if s.Some? {
      QueriesGood(ts, s.value, e);
      Wider(ts, Queries(ts, s.value, e), s.value, e, b + 1, e);
      FirstApart(ts, q, Queries(ts, s.value, e), e);
    }
  }

  lemma {:induction false} BlocksGood(ts: seq<Token>, lo: int, e: int, b: int, i: int)
    requires 0 <= lo <= b <= i
    ensures Good(ts, Blocks(ts, lo, e, b, i), if i > b then i else lo, e)
    decreases Size(lo, e), 1, Size(i, e)
  {
    hide Queries, Good;
    NothingGood(ts, if i > b then i else lo, e);
    if i < e {
      var semi := NextSemicolon(ts, i, e);
      var mid := if semi < e then semi + 1 else e;
      var rest := Blocks(ts, lo, e, b, semi + 1);
      BlocksGood(ts, lo, e, b, semi + 1);
      Wider(ts, rest, semi + 1, e, mid, e);
      if i > b {
        QueriesGood(ts, i, semi);
        Both(ts, Queries(ts, i, semi), i, semi, rest, mid, e);
      } else {
        assert [] + rest == rest;
        Wider(ts, rest, mid, e, lo, e);
      }
    }
  }

  lemma {:induction false} NestedGood(ts: seq<Token>, lo: int, hi: int)
    requires 0 <= lo
    ensures Good(ts, Nested(ts, lo, hi), lo + 1, hi)
    decreases Size(lo, hi), 0, Size(lo, hi) + 2
  {
    NestedFromGood(ts, lo, hi, lo, 0, lo);
  }

  /** Braces still open at `i` started at `start`. */
  function Start(i: int, depth: int, start: int): int {
    if depth >= 1 then start else i
  }

  lemma {:induction false} NestedFromGood(ts: seq<Token>, lo: int, hi: int, i: int, depth: int, start: int)
    requires 0 <= lo <= i && (depth >= 1 ==> lo <= start < i)
    ensures Good(ts, NestedFrom(ts, lo, hi, i, depth, start), Start(i, depth, start) + 1, hi)
    decreases Size(lo, hi), 0, Size(i, hi) + 1
  {
    hide InBraces, Good, Closing, Start;
    NothingGood(ts, Start(i, depth, start) + 1, hi);
    if i < hi {
      var id := IdAt(ts, i);
      var start' := if id == OBrace && depth == 0 then i else start;
      var rest := NestedFrom(ts, lo, hi, i + 1, depth + Step(id), start');
      ClosingStep(ts, lo, hi, i, depth, start, start');
      NestedFromGood(ts, lo, hi, i + 1, depth + Step(id), start');
      ClosingGood(ts, lo, hi, i, depth, start);
      hide NestedFrom;
      StepGood(ts, id, i, hi, depth, start, Closing(ts, lo, hi, i, depth, start), rest);
    }
  }

  lemma {:induction false} StepGood(ts: seq<Token>, id: Id, i: int, hi: int, depth: int, start: int,
      first: seq<Query>, rest: seq<Query>)
    requires i < hi && (depth >= 1 ==> start < i)
    requires Good(ts, rest, Start(i + 1, depth + Step(id), if id == OBrace && depth == 0 then i else start) + 1, hi)
    requires if id == CBrace && depth == 1 then Good(ts, first, start + 1, i) else first == []
    ensures Good(ts, first + rest, Start(i, depth, start) + 1, hi)
  {
    hide Good;
    if id == CBrace && depth == 1 {
      Wider(ts, rest, i + 2, hi, i, hi);
      Both(ts, first, start + 1, i, rest, i, hi);
    } else {
      assert first + rest == rest;
      Wider(ts, rest, Start(i + 1, depth + Step(id), if id == OBrace && depth == 0 then i else start)
          + 1, hi, Start(i, depth, start) + 1, hi);
    }
  }

  lemma {:induction false} ClosingGood(ts: seq<Token>, lo: int, hi: int, i: int, depth: int, start: int)
    requires 0 <= lo <= i < hi && (depth >= 1 ==> lo <= start < i)
    ensures if IdAt(ts, i) == CBrace && depth == 1 then Good(ts, Closing(ts, lo, hi, i, depth, start), start + 1, i)
            else Closing(ts, lo, hi, i, depth, start) == []
    decreases Size(lo, hi), 0, 1
  {
    hide InBraces, Good;
    if IdAt(ts, i) == CBrace && depth == 1 {
      InBracesGood(ts, lo, hi, start, i);
    }
  }

  lemma {:induction false} InBracesGood(ts: seq<Token>, lo: int, hi: int, s: int, e: int)
    requires 0 <= lo <= s < e < hi
    ensures Good(ts, InBraces(ts, lo, hi, s, e), s + 1, e)
    decreases Size(lo, hi), 0, 0
  {
    hide Peel, Queries, Good;
    NothingGood(ts, s + 1, e);
    var r := Peel(ts, s, e);
    if r.Some? {
      QueriesGood(ts, r.value.0, r.value.1);
      Wider(ts, Queries(ts, r.value.0, r.value.1), r.value.0, r.value.1, s + 1, e);
    }
  }

  // ----- what parse records -----

  /** Every query recorded is made of its own tokens, from its first to the end of the range it was found in. */
  lemma {:induction false} Recorded(ts: seq<Token>, q: Query) returns (e: int)
    requires q in Queries(ts, 0, |ts|)
    ensures 0 <= q.tbegin < e <= |ts| && QueryAt(ts, q.tbegin, e) == Some(q)
  {
    hide QueryAt, Queries;
    QueriesGood(ts, 0, |ts|);
    assert QueryOf(ts, q, 0, |ts|);
    e :| 0 <= q.tbegin < e <= |ts| && QueryAt(ts, q.tbegin, e) == Some(q);
  }

  /**
   The FROM range of a SELECT lies in the tokens. It lies in the range of the SELECT itself just when
   some FROM at the depth of the SELECT comes before any UNION at that depth.
   */
  lemma {:induction false} FromInRange(ts: seq<Token>, q: Query)
    requires q in Queries(ts, 0, |ts|) && IdAt(ts, q.tbegin) == Select
    ensures q.tbegin < q.fromstart <= q.fromend <= |ts| && IdAt(ts, q.fromstart - 1) == From
    ensures exists e :: (q.tbegin < e <= |ts| && SelectQuery(ts, q.tbegin, e) == Some(q)
                         && (q.fromend <= q.tend <==> First(ts, q.tbegin, e, {From}) < First(ts, q.tbegin, e, {Union})))
  {
    hide Queries;
    var e := Recorded(ts, q);
    SelectFound(ts, q, e);
  }

  lemma {:induction false} SelectIsQuery(ts: seq<Token>, b: int, e: int)
    requires IdAt(ts, b) == Select
    ensures QueryAt(ts, b, e) == SelectQuery(ts, b, e)
  {
    hide SelectQuery;
  }

  lemma {:induction false} SelectFound(ts: seq<Token>, q: Query, e: int)
    requires 0 <= q.tbegin < e && IdAt(ts, q.tbegin) == Select && QueryAt(ts, q.tbegin, e) == Some(q)
    ensures SelectQuery(ts, q.tbegin, e) == Some(q)
    ensures q.tbegin < q.fromstart <= q.fromend <= e && IdAt(ts, q.fromstart - 1) == From
    ensures q.fromend <= q.tend <==> First(ts, q.tbegin, e, {From}) < First(ts, q.tbegin, e, {Union})
  {
    SelectIsQuery(ts, q.tbegin, e);
    hide QueryAt, SelectQuery, First, Sought, FROM_ENDS;
    SelectRanges(ts, q.tbegin, e, q);
    assert Hit(ts, q.tbegin, q.fromstart - 1, {From});
  }

  /** Of a table name with a schema, CREATE, ALTER and DROP take the schema for the table. */
  lemma {:induction false} CreateTakesOneToken(ts: seq<Token>, q: Query)
    requires q in Queries(ts, 0, |ts|) && IdAt(ts, q.tbegin) in {Create, Alter, Drop}
    ensures q.fromend == q.fromstart + 1
  {
    StartsWithDot(ts);
    hide Queries;
    var e := Recorded(ts, q);
  }

  lemma {:induction false} StartsWithDot(ts: seq<Token>)
    ensures IdAt(ts, 0) == Dot ==> Queries(ts, 0, |ts|) == []
  {
  }

  // ----- queries in braces -----

  ghost predicate StaysOpen(ts: seq<Token>, lo: int, hi: int) {
    forall j | lo <= j <= hi :: Depth(ts, lo, j) >= 0
  }

  /** The brace at `e` closes the one at `s`. */
  ghost predicate Closes(ts: seq<Token>, s: int, e: int) {
    && IdAt(ts, s) == OBrace && IdAt(ts, e) == CBrace && s < e
    && StaysOpen(ts, s + 1, e) && Depth(ts, s + 1, e) == 0
  }

  /** Whatever stands in outermost braces of a range is searched for queries. */
  lemma {:induction false} AllBracesSearched(ts: seq<Token>, lo: int, hi: int, s: int, e: int)
    requires lo <= s && e < hi && Depth(ts, lo, s) == 0 && Closes(ts, s, e)
    ensures forall q | q in InBraces(ts, lo, hi, s, e) :: q in Nested(ts, lo, hi)
  {
    UpToBrace(ts, lo, hi, lo, 0, lo, s, e);
  }

  lemma {:induction false} UpToBrace(ts: seq<Token>, lo: int, hi: int, i: int, depth: int, start: int, s: int, e: int)
    requires lo <= i <= s && (depth >= 1 ==> lo <= start < i) && depth == Depth(ts, lo, i)
    requires e < hi && Depth(ts, lo, s) == 0 && Closes(ts, s, e)
    ensures forall q | q in InBraces(ts, lo, hi, s, e) :: q in NestedFrom(ts, lo, hi, i, depth, start)
    decreases s - i
  {
    hide InBraces, StaysOpen, NestedFrom, Closing, Depth;
    if i < s {
      DepthNext(ts, lo, i);
      var start' := if IdAt(ts, i) == OBrace && depth == 0 then i else start;
      ClosingStep(ts, lo, hi, i, depth, start, start');
      UpToBrace(ts, lo, hi, i + 1, depth + Step(IdAt(ts, i)), start', s, e);
    } else {
      NoBraceYet(ts, s);
      ClosingStep(ts, lo, hi, s, 0, start, s);
      WithinBrace(ts, lo, hi, s + 1, s, e);
    }
  }

  lemma {:induction false} NoBraceYet(ts: seq<Token>, s: int)
    ensures Depth(ts, s + 1, s + 1) == 0
  {
  }

  lemma {:induction false} WithinBrace(ts: seq<Token>, lo: int, hi: int, i: int, s: int, e: int)
    requires lo <= s < i <= e < hi && Closes(ts, s, e)
    ensures Depth(ts, s + 1, i) >= 0
    ensures forall q | q in InBraces(ts, lo, hi, s, e) :: q in NestedFrom(ts, lo, hi, i, Depth(ts, s + 1, i) + 1, s)
    decreases e - i
  {
    hide InBraces, NestedFrom, Depth;
    var depth := Depth(ts, s + 1, i) + 1;
    ClosingStep(ts, lo, hi, i, depth, s, s);
    if i < e {
      DepthNext(ts, s + 1, i);
      hide Closing;
      WithinBrace(ts, lo, hi, i + 1, s, e);
    }
  }

  /** So a SELECT with a FROM, just behind the outermost opening brace, is recorded, to the closing brace. */
  lemma {:induction false} SubqueryRecorded(ts: seq<Token>, lo: int, hi: int, s: int, e: int)
    requires lo <= s && e < hi && Depth(ts, lo, s) == 0 && Closes(ts, s, e)
    requires IdAt(ts, s + 1) == Select && SelectQuery(ts, s + 1, e).Some?
    ensures SelectQuery(ts, s + 1, e).value in Nested(ts, lo, hi)
  {
    hide SelectQuery, Nested, Contained;
    AllBracesSearched(ts, lo, hi, s, e);
    var q := SelectQuery(ts, s + 1, e).value;
    assert s + 1 != e;
    assert Queries(ts, s + 1, e) == Own(ts, s + 1, e, s + 1);
    assert Queries(ts, s + 1, e)[0] == q;
    assert InBraces(ts, lo, hi, s, e) == Queries(ts, s + 1, e);
  }
}
