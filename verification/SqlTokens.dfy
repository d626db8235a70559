/** The token lists of sql/sqlparser.cpp, and searching them at brace depth zero. */
module SqlTokens {
  /** The token kinds the parser tells apart; Other is every other kind, and what lies behind the last token. */
  datatype Id =
    | Other | Literal | Dot | Comma | OBrace | CBrace | Semicolon | Comment | Explain
    | Select | Union | All | From | Where | Group | Having | Order | Limit | Procedure | Into | For | Lock
    | Use | Ignore | Force | Update | Set | Delete | Insert | Replace | Values | Value
    | Create | Alter | Drop | Table | If | Not | Exists | Describe | Desc | Show | Columns | Truncate | Begin | Vacuum
    | Inner | Cross | StraightJoin | Left | Right | Natural | Join | On | Using | As

  datatype Token = Token(id: Id, text: string)

  function IdAt(ts: seq<Token>, i: int): Id {
    if 0 <= i < |ts| then ts[i].id else Other
  }

  function TextAt(ts: seq<Token>, i: int): string {
    if 0 <= i < |ts| then ts[i].text else ""
  }

  // ----- brace depth -----

  function Step(id: Id): int {
    if id == OBrace then 1 else if id == CBrace then -1 else 0
  }

  /** Braces opened less braces closed, from `lo` to before `i`. */
  function Depth(ts: seq<Token>, lo: int, i: int): int
    decreases i - lo
  {
    if i <= lo then 0 else Depth(ts, lo, i - 1) + Step(IdAt(ts, i - 1))
  }

  lemma {:induction false} DepthSplits(ts: seq<Token>, lo: int, mid: int, i: int)
    requires lo <= mid <= i
    ensures Depth(ts, lo, i) == Depth(ts, lo, mid) + Depth(ts, mid, i)
    decreases i - mid
  {
    if mid < i {
      DepthSplits(ts, lo, mid, i - 1);
    }
  }

  // ----- searching -----

  predicate Hit(ts: seq<Token>, lo: int, i: int, ids: set<Id>) {
    IdAt(ts, i) in ids && Depth(ts, lo, i) == 0
  }

  /** What a search for several ids can find: braces are counted first. */
  function Sought(ids: seq<Id>): set<Id> {
    (set k | 0 <= k < |ids| :: ids[k]) - {OBrace, CBrace}
  }

  function FirstFrom(ts: seq<Token>, lo: int, i: int, hi: int, ids: set<Id>): (r: int)
    ensures i <= r && (i <= hi ==> r <= hi) && (r < hi ==> Hit(ts, lo, r, ids))
    ensures forall j | i <= j < r :: !Hit(ts, lo, j, ids)
    decreases hi - i
  {
    if i >= hi || Hit(ts, lo, i, ids) then i else FirstFrom(ts, lo, i + 1, hi, ids)
  }

  /**
   The least position from `lo`, at the brace depth of `lo`, with one of the ids; `hi` if there is none, and `lo` if
   that lies behind.
   */
  function First(ts: seq<Token>, lo: int, hi: int, ids: set<Id>): (r: int)
    ensures lo <= r && (lo <= hi ==> r <= hi) && (r < hi ==> Hit(ts, lo, r, ids))
    ensures lo > hi ==> r == lo
  {
    FirstFrom(ts, lo, lo, hi, ids)
  }

  lemma {:induction false} NoneBefore(ts: seq<Token>, lo: int, hi: int, ids: set<Id>)
    ensures forall j | lo <= j < First(ts, lo, hi, ids) :: !Hit(ts, lo, j, ids)
  {
  }

  /** Nothing else has these properties. */
  lemma {:induction false} FirstIs(ts: seq<Token>, lo: int, hi: int, ids: set<Id>, r: int)
    requires lo <= r <= hi && (r < hi ==> Hit(ts, lo, r, ids))
    requires forall j | lo <= j < r :: !Hit(ts, lo, j, ids)
    ensures First(ts, lo, hi, ids) == r
  {
    var f := First(ts, lo, hi, ids);
    NoneBefore(ts, lo, hi, ids);
    assert f < r ==> !Hit(ts, lo, f, ids);
    assert r < f ==> !Hit(ts, lo, r, ids);
  }

  /** A search for more ids stops no later. */
  lemma {:induction false} FirstOfMore(ts: seq<Token>, lo: int, hi: int, ids: set<Id>, more: set<Id>)
    requires ids <= more
    ensures First(ts, lo, hi, more) <= First(ts, lo, hi, ids)
  {
    var f, g := First(ts, lo, hi, ids), First(ts, lo, hi, more);
    NoneBefore(ts, lo, hi, more);
    if f < g {
      assert Hit(ts, lo, f, ids);
      assert Hit(ts, lo, f, more);
    }
  }

  /** Going on from a position at depth zero, the search finds the same. */
  lemma {:induction false} FirstGoesOn(ts: seq<Token>, lo: int, mid: int, hi: int, ids: set<Id>)
    requires lo <= mid <= First(ts, lo, hi, ids) && mid <= hi && Depth(ts, lo, mid) == 0
    ensures First(ts, mid, hi, ids) == First(ts, lo, hi, ids)
  {
    var f := First(ts, lo, hi, ids);
    NoneBefore(ts, lo, hi, ids);
    forall j | mid <= j <= f
      ensures Hit(ts, mid, j, ids) <==> Hit(ts, lo, j, ids)
    {
      DepthSplits(ts, lo, mid, j);
    }
    FirstIs(ts, mid, hi, ids, f);
  }

  /**
   For an id that is no brace, searching for it is searching for a list of it alone; a brace is only found by the
   former.
   */
  lemma {:induction false} SearchesAgree(ts: seq<Token>, lo: int, hi: int, id: Id)
    requires lo <= hi
    ensures id != OBrace && id != CBrace ==> First(ts, lo, hi, {id}) == First(ts, lo, hi, Sought([id]))
    ensures id == OBrace || id == CBrace ==> First(ts, lo, hi, Sought([id])) == hi
  {
    assert [id][0] == id;
    if id != OBrace && id != CBrace {
      assert Sought([id]) == {id};
    } else {
      assert Sought([id]) == {};
      FirstIs(ts, lo, hi, {}, hi);
    }
  }
}
