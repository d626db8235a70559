/**
 The queries that parseSubQuery of sql/sqlparser.cpp finds in a range of tokens, in the order in which
 it records them, as functions of the tokens.
 */
module SqlQueries {
  import opened Options
  import opened SqlTokens

  /** Ranges of positions: of the query, behind FROM (or of the table name), and behind WHERE. */
  datatype Query = Query(tbegin: int, tend: int, fromstart: int, fromend: int, wherestart: int, whereend: int)

  const FROM_END_LIST: seq<Id> := [Union, Where, Group, Having, Order, Limit, Procedure, Into, For, Lock, Use, Ignore,
      Force]
  const WHERE_END_LIST: seq<Id> := [Union, Group, Having, Order, Limit, Procedure, Into, For, Lock]
  const FROM_ENDS: set<Id> := Sought(FROM_END_LIST)
  const WHERE_ENDS: set<Id> := Sought(WHERE_END_LIST)

  lemma {:induction false} UnionEnds()
    ensures Union in FROM_ENDS
  {
    assert FROM_END_LIST[0] == Union;
  }

  function Size(lo: int, hi: int): nat {
    if lo < hi then hi - lo else 0
  }

  // ----- headers -----

  function SkipAll(ts: seq<Token>, i: int, e: int, id: Id): (r: int)
    ensures i <= r && (i <= e ==> r <= e) && (i > e ==> r == i) && (r < e ==> IdAt(ts, r) != id)
    ensures forall j | i <= j < r :: IdAt(ts, j) == id
    decreases e - i
  {
    if i < e && IdAt(ts, i) == id then SkipAll(ts, i + 1, e, id) else i
  }

  /** Past comments, then past EXPLAINs. */
  function SkipHeader(ts: seq<Token>, b: int, e: int): (r: int)
    ensures b <= r && (b <= e ==> r <= e) && (b > e ==> r == b)
  {
    SkipAll(ts, SkipAll(ts, b, e, Comment), e, Explain)
  }

  // ----- single queries -----

  /** Behind WHERE, to the clause that ends it; (`qe`, 0) if there is none. */
  function WhereRange(ts: seq<Token>, fe: int, qe: int): (r: (int, int)) {
    var w := First(ts, fe, qe, {Where});
    if w < qe then (w + 1, First(ts, w + 1, qe, WHERE_ENDS)) else (w, 0)
  }

  function SelectQuery(ts: seq<Token>, b: int, e: int): Option<Query> {
    var from := First(ts, b, e, {From});
    if from >= e then None
    else
      var fe := First(ts, from + 1, e, FROM_ENDS);
      var qe := First(ts, b, e, {Union});
      var w := WhereRange(ts, fe, if qe < e then qe else e);
      Some(Query(b, if qe < e then qe else e, from + 1, fe, w.0, w.1))
  }

  /** Between UPDATE and SET, the literal in front of SET is in reach, so that some literal is found. */
  lemma {:induction false} NameFound(ts: seq<Token>, b: int, e: int)
    requires IdAt(ts, b) == Update && First(ts, b, e, {Set}) < e && IdAt(ts, First(ts, b, e, {Set}) - 1) == Literal
    ensures var set' := First(ts, b, e, {Set}); b < First(ts, b, set', {Literal}) < set'
  {
    var set' := First(ts, b, e, {Set});
    assert Hit(ts, b, set', {Set});
    assert Depth(ts, b, b) == 0;
    assert Depth(ts, b, set') == Depth(ts, b, set' - 1) + Step(IdAt(ts, set' - 1));
    assert Hit(ts, b, set' - 1, {Literal});
    NoneBefore(ts, b, set', {Literal});
    assert set' != b;
    assert First(ts, b, set', {Literal}) < set';
    assert Hit(ts, b, First(ts, b, set', {Literal}), {Literal});
  }

  function UpdateQuery(ts: seq<Token>, b: int, e: int): (r: Option<Query>)
    requires IdAt(ts, b) == Update
    ensures r.Some? ==> b < r.value.fromstart < r.value.fromend <= r.value.wherestart <= e == r.value.tend
  {
    var set' := First(ts, b, e, {Set});
    if set' >= e || IdAt(ts, set' - 1) != Literal then None
    else
      NameFound(ts, b, e);
      var name := First(ts, b, set', {Literal});
      var w := First(ts, set', e, {Where});
      Some(Query(b, e, if name < set' then name else 2, set', w, w))
  }

  function DeleteQuery(ts: seq<Token>, b: int, e: int): Option<Query> {
    var from := First(ts, b, e, {From});
    if from >= e - 1 then None
    else
      var w := First(ts, from + 1, e, {Where});
      Some(Query(b, e, from + 1, w, w, e))
  }

  predicate EndsName(id: Id) {
    id == OBrace || id == Values || id == Value || id == Select || id == Set
  }

  const VALUE_ID_LIST: seq<Id> := [Values, Value]

  /** The end of the table name behind INTO: a brace or one of the words that may follow. */
  function NameEnd(ts: seq<Token>, i: int, e: int): (r: int)
    requires i <= e
    ensures i <= r <= e
    ensures forall j | i <= j < r :: !EndsName(IdAt(ts, j))
    ensures r < e ==> EndsName(IdAt(ts, r))
    decreases e - i
  {
    if i < e && !EndsName(IdAt(ts, i)) then NameEnd(ts, i + 1, e) else i
  }

  /** The list of values: where the search for it stops, and whether it was found. */
  function ValueList(ts: seq<Token>, stop: int, e: int): (r: (int, bool))
    requires stop <= e
    ensures stop <= r.0 <= e
  {
    if (IdAt(ts, stop) == Values || IdAt(ts, stop) == Value) && IdAt(ts, stop + 1) == OBrace then (stop, true)
    else if IdAt(ts, stop) == Set then (stop, true)
    else
      var v := First(ts, stop, e, Sought(VALUE_ID_LIST));
      (v, v < e && IdAt(ts, v + 1) == OBrace)
  }

  function InsertQuery(ts: seq<Token>, b: int, e: int): Option<Query> {
    var into := First(ts, b, e, {Into});
    if into + 1 >= e then None
    else
      var stop := NameEnd(ts, into + 2, e);
      var v := ValueList(ts, stop, e);
      Some(Query(b, e, into + 1, stop, if v.1 then v.0 else 0, if v.1 then v.0 else 0))
  }

  /** Where the SELECT of an INSERT or REPLACE without a list of values starts. */
  function InsertSelect(ts: seq<Token>, stop: int, e: int): (r: Option<int>)
    requires stop <= e
    ensures r.Some? ==> stop <= r.value < e
  {
    var v := ValueList(ts, stop, e).0;
    if v < e && (IdAt(ts, v) == Values || IdAt(ts, v) == Value) then None
    else
      var s := First(ts, stop, e, {Select});
      if s < e then Some(s) else None
  }

  predicate IfNotExists(id: Id) {
    id == If || id == Not || id == Exists
  }

  function SkipIfNotExists(ts: seq<Token>, i: int): (r: int)
    ensures i <= r && (0 <= i <= |ts| ==> r <= |ts|)
    ensures !IfNotExists(IdAt(ts, r))
    decreases |ts| - i
  {
    if IfNotExists(IdAt(ts, i)) then SkipIfNotExists(ts, i + 1) else i
  }

  /** Whether the name is qualified is read off the first token of all. */
  function CreateQuery(ts: seq<Token>, b: int, e: int): Option<Query> {
    if b + 2 < e && IdAt(ts, b + 1) == Table then
      var name := SkipIfNotExists(ts, b + 2);
      Some(Query(b, e, name, if name + 2 < e && IdAt(ts, 0) == Dot then name + 3 else name + 1, 0, 0))
    else None
  }

  /** A name at `i`, qualified if a dot and something else follow. */
  function NameAt(ts: seq<Token>, b: int, e: int, i: int): Query {
    Query(b, e, i, if i + 2 < e && IdAt(ts, i + 1) == Dot then i + 3 else i + 1, 0, 0)
  }

  function DescribeQuery(ts: seq<Token>, b: int, e: int): Option<Query> {
    if b + 1 < e && IdAt(ts, b + 1) == Literal then Some(NameAt(ts, b, e, b + 1)) else None
  }

  function ShowQuery(ts: seq<Token>, b: int, e: int): Option<Query> {
    var col := First(ts, 1, e, {Columns});
    if b + 2 < e && col < e then
      var from := First(ts, col + 1, e, {From});
      Some(NameAt(ts, b, e, if from < e then from + 1 else col + 1))
    else None
  }

  function TruncateQuery(ts: seq<Token>, b: int, e: int): Option<Query> {
    if b + 2 < e && IdAt(ts, b + 1) == Table then Some(NameAt(ts, b, e, b + 2))
    else if b + 1 < e && IdAt(ts, b + 1) == Literal then Some(Query(b, e, b + 1, b + 2, 0, 0))
    else None
  }

  function VacuumQuery(ts: seq<Token>, b: int, e: int): Option<Query> {
    if b + 1 < e && IdAt(ts, b + 1) == Literal then Some(Query(b, e, b + 1, b + 2, 0, 0)) else None
  }

  /** The query that the range itself is, if it is one. */
  function QueryAt(ts: seq<Token>, b: int, e: int): Option<Query> {
    match IdAt(ts, b)
    case Select => SelectQuery(ts, b, e)
    case Update => UpdateQuery(ts, b, e)
    case Delete => DeleteQuery(ts, b, e)
    case Insert => InsertQuery(ts, b, e)
    case Replace => InsertQuery(ts, b, e)
    case Create => CreateQuery(ts, b, e)
    case Alter => CreateQuery(ts, b, e)
    case Drop => CreateQuery(ts, b, e)
    case Describe => DescribeQuery(ts, b, e)
    case Desc => DescribeQuery(ts, b, e)
    case Show => ShowQuery(ts, b, e)
    case Truncate => TruncateQuery(ts, b, e)
    case Vacuum => VacuumQuery(ts, b, e)
    case _ => None
  }

  // ----- all queries -----

  /** Where the SELECT behind a UNION at `u` starts. */
  function AfterUnion(ts: seq<Token>, u: int): Option<int> {
    var s := if IdAt(ts, u + 1) == All then u + 2 else u + 1;
    if IdAt(ts, s) == Select then Some(s) else None
  }

  /** Peels braces that match at both ends, until a SELECT comes up behind the opening one. */
  function Peel(ts: seq<Token>, s: int, e: int): (r: Option<(int, int)>)
    requires s <= e || (s == e + 1 && IdAt(ts, s) != OBrace)
    ensures r.Some? ==> s < r.value.0 <= r.value.1 <= e && IdAt(ts, r.value.0) == Select
    decreases e - s + 2
  {
    if IdAt(ts, s) == OBrace && IdAt(ts, e) == CBrace then
      if IdAt(ts, s + 1) == Select then Some((s + 1, e)) else Peel(ts, s + 1, e - 1)
    else None
  }

  /** The queries in a range: its own, then those it contains. */
  function Queries(ts: seq<Token>, b: int, e: int): seq<Query>
    decreases Size(b, e), 2, 0
  {
    var b' := SkipHeader(ts, b, e);
    if b' == e then []
    else if IdAt(ts, b') == Begin then Blocks(ts, b, e, b', b')
    else Own(ts, b, e, b')
  }

  function Own(ts: seq<Token>, lo: int, e: int, b: int): seq<Query>
    requires lo <= b
    decreases Size(lo, e), 1, 1
  {
    var q := QueryAt(ts, b, e);
    if q.None? then [] else [q.value] + Contained(ts, lo, e, b, q.value)
  }

  function Contained(ts: seq<Token>, lo: int, e: int, b: int, q: Query): seq<Query>
    requires lo <= b && QueryAt(ts, b, e) == Some(q)
    decreases Size(lo, e), 1, 0
  {
    match IdAt(ts, b)
    case Select =>
      (if q.tend < e && AfterUnion(ts, q.tend).Some? then Queries(ts, AfterUnion(ts, q.tend).value, e) else [])
      + Nested(ts, q.tbegin, q.fromstart)
      + Nested(ts, q.fromstart, q.fromend)
      + Nested(ts, q.wherestart, q.whereend)
    case Update => Nested(ts, q.fromstart, q.wherestart) + Nested(ts, q.wherestart, q.tend)
    case Delete => Nested(ts, q.wherestart, q.tend)
    case Insert =>
      var s := InsertSelect(ts, q.fromend, e);
      if s.Some? then Queries(ts, s.value, e) else []
    case Replace =>
      var s := InsertSelect(ts, q.fromend, e);
      if s.Some? then Queries(ts, s.value, e) else []
    case _ => []
  }

  /** What the SELECT behind a UNION adds, if the query ends in one. */
  function UnionPart(ts: seq<Token>, q: Query, e: int): seq<Query> {
    if q.tend < e && AfterUnion(ts, q.tend).Some? then Queries(ts, AfterUnion(ts, q.tend).value, e) else []
  }

  /** What the lists of columns and tables and the condition add. */
  function Parts(ts: seq<Token>, q: Query): seq<Query> {
    Nested(ts, q.tbegin, q.fromstart) + Nested(ts, q.fromstart, q.fromend) + Nested(ts, q.wherestart, q.whereend)
  }

  /** The statements behind a BEGIN, split at semicolons, but for the first. */
  function Blocks(ts: seq<Token>, lo: int, e: int, b: int, i: int): seq<Query>
    requires lo <= b <= i
    decreases Size(lo, e), 1, Size(i, e)
  {
    if i >= e then []
    else
      var semi := NextSemicolon(ts, i, e);
      (if i > b then Queries(ts, i, semi) else []) + Blocks(ts, lo, e, b, semi + 1)
  }

  function NextSemicolon(ts: seq<Token>, i: int, e: int): (r: int)
    requires i <= e
    ensures i <= r <= e && (r < e ==> IdAt(ts, r) == Semicolon)
    ensures forall j | i <= j < r :: IdAt(ts, j) != Semicolon
    decreases e - i
  {
    if i < e && IdAt(ts, i) != Semicolon then NextSemicolon(ts, i + 1, e) else i
  }

  /** The queries in the outermost braces of a range. */
  function Nested(ts: seq<Token>, lo: int, hi: int): seq<Query>
    decreases Size(lo, hi), 0, Size(lo, hi) + 1
  {
    NestedFrom(ts, lo, hi, lo, 0, lo)
  }

  function NestedFrom(ts: seq<Token>, lo: int, hi: int, i: int, depth: int, start: int): seq<Query>
    requires lo <= i && (depth >= 1 ==> lo <= start < i)
    decreases Size(lo, hi), 0, Size(i, hi)
  {
    if i >= hi then []
    else
      var id := IdAt(ts, i);
      (if id == CBrace && depth == 1 then InBraces(ts, lo, hi, start, i) else [])
      + NestedFrom(ts, lo, hi, i + 1, depth + Step(id), if id == OBrace && depth == 0 then i else start)
  }

  function InBraces(ts: seq<Token>, lo: int, hi: int, s: int, e: int): seq<Query>
    requires lo <= s < e < hi
    decreases Size(lo, hi), 0, 0
  {
    match Peel(ts, s, e)
    case None => []
    case Some(r) => Queries(ts, r.0, r.1)
  }
}
