/** Marking and filling the parameters of a prepared statement, as protocol/protocolbase.cpp does. */
module SqlParams {
  import opened Options
  import opened Sequences

  /** `text`: the value is put in quotes. Start and end 0 say that the parameter was not found. */
  datatype Param = Param(name: string, start: nat, end: nat, text: bool)

  // ----- marking -----

  predicate OccursAt(sql: string, name: string, p: nat) {
    p + |name| <= |sql| && sql[p..p + |name|] == name
  }

  /** The least position of the name from `p`, or -1. */
  function Find(sql: string, name: string, p: nat): (r: int)
    ensures r == -1 || (p <= r && OccursAt(sql, name, r))
    ensures forall q: nat | p <= q && (r == -1 || q < r) :: !OccursAt(sql, name, q)
    decreases |sql| + 1 - p
  {
    if p > |sql| then -1 else if OccursAt(sql, name, p) then p else Find(sql, name, p + 1)
  }

  function Marked(sql: string, p: Param): (r: Param)
    ensures r.name == p.name && r.text == p.text && r.start <= r.end <= |sql|
    ensures Set(r) ==> sql[r.start..r.end] == p.name
  {
    var at := Find(sql, p.name, 0);
    if at != -1 then p.(start := at, end := at + |p.name|) else p.(start := 0, end := 0)
  }

  method MarkSqlParamPosition(sql: string, params: array<Param>)
    modifies params
    ensures forall i | 0 <= i < params.Length ::
          params[i] == if sql == "" then old(params[i]) else Marked(sql, old(params[i]))
  {
    if |sql| > 0 && params.Length > 0 {
      for i := 0 to params.Length
        invariant forall j | 0 <= j < params.Length ::
              params[j] == if j < i then Marked(sql, old(params[j])) else old(params[j])
      {
        var at := Find(sql, params[i].name, 0);
        if at != -1 {
          params[i] := params[i].(start := at, end := at + |params[i].name|);
        } else {
          params[i] := params[i].(start := 0, end := 0);
        }
      }
    }
  }

  // ----- filling -----

  /** A parameter at the very beginning counts as not found. */
  predicate Set(p: Param) {
    p.start != 0 && p.end != 0
  }

  /** So a parameter is filled just when its name is not empty, and occurs, but not first at the very beginning. */
  lemma {:induction false} MarkedIsSet(sql: string, p: Param)
    ensures Set(Marked(sql, p)) <==>
          p.name != "" && !OccursAt(sql, p.name, 0) && exists q: nat :: OccursAt(sql, p.name, q)
  {
    if p.name == "" {
      assert OccursAt(sql, "", 0);
    }
    assert Find(sql, p.name, 0) == 0 <==> OccursAt(sql, p.name, 0);
  }

  function Value(p: Param, value: string): string {
    if p.text then "\"" + value + "\"" else value
  }

  /** The text from `from`, with the parameters from `i` replaced by their values, all at once. */
  function Replaced(sql: string, params: seq<Param>, values: seq<string>, i: nat, from: nat): string
    requires i <= |params| == |values| && from <= |sql|
    requires InOrder(sql, params, i, from)
    decreases |params| - i
  {
    if i == |params| then sql[from..]
    else if !Set(params[i]) then Replaced(sql, params, values, i + 1, from)
    else sql[from..params[i].start] + Value(params[i], values[i]) + Replaced(sql, params, values, i + 1, params[i].end)
  }

  /** The ranges found from `i` on lie behind `from`, one behind the other. */
  predicate InOrder(sql: string, params: seq<Param>, i: nat, from: nat)
    decreases |params| - i
  {
    i < |params| ==>
      if Set(params[i]) then from <= params[i].start <= params[i].end <= |sql|
          && InOrder(sql, params, i + 1, params[i].end)
      else InOrder(sql, params, i + 1, from)
  }

  lemma {:induction false} InOrderFrom(sql: string, params: seq<Param>, i: nat, from: nat, from': nat)
    requires InOrder(sql, params, i, from) && from' <= from
    ensures InOrder(sql, params, i, from')
    decreases |params| - i
  {
    if i < |params| && !Set(params[i]) {
      InOrderFrom(sql, params, i + 1, from, from');
    }
  }

  /** Up to the first range that is replaced, the text stays as it is. */
  lemma {:induction false} PrefixStays(sql: string, params: seq<Param>, values: seq<string>, i: nat, from: nat,
      from': nat)
    requires i <= |params| == |values| && from' <= from <= |sql| && InOrder(sql, params, i, from)
    ensures InOrder(sql, params, i, from')
    ensures Replaced(sql, params, values, i, from') == sql[from'..from] + Replaced(sql, params, values, i, from)
    decreases |params| - i
  {
    InOrderFrom(sql, params, i, from, from');
    if i == |params| {
      Split(sql, from', from, |sql|);
      assert sql[from'..] == sql[from'..|sql|] && sql[from..] == sql[from..|sql|];
    } else {
      if Set(params[i]) {
        Split(sql, from', from, params[i].start);
        AssocFour(sql[from'..from], sql[from..params[i].start], Value(params[i], values[i]),
            Replaced(sql, params, values, i + 1, params[i].end));
      } else {
        PrefixStays(sql, params, values, i + 1, from, from');
      }
    }
  }

  lemma {:induction false} Split(s: string, a: nat, b: nat, c: nat)
    requires a <= b <= c <= |s|
    ensures s[a..c] == s[a..b] + s[b..c]
  {
  }

  /** Where the next range may start, once the parameters before `i` are passed. */
  function Behind(params: seq<Param>, i: nat): nat
    requires i <= |params|
  {
    if i == 0 then 0 else if Set(params[i - 1]) then params[i - 1].end else Behind(params, i - 1)
  }

  lemma {:induction false} InOrderUpTo(sql: string, params: seq<Param>, i: nat)
    requires i <= |params| && InOrder(sql, params, 0, 0)
    ensures Behind(params, i) <= |sql| && InOrder(sql, params, i, Behind(params, i))
  {
    if i > 0 {
      InOrderUpTo(sql, params, i - 1);
    }
  }

  /** Filling cuts only positions that the text has. */
  predicate InRange(text: string, params: seq<Param>, values: seq<string>, n: nat)
    requires n <= |params| == |values|
    decreases n
  {
    n > 0 ==>
      var p := params[n - 1];
      if Set(p) then p.start <= |text| && p.end <= |text|
          && InRange(FillOne(text, p, values[n - 1]), params, values, n - 1)
      else InRange(text, params, values, n - 1)
  }

  function FillOne(text: string, p: Param, value: string): string
    requires p.start <= |text| && p.end <= |text|
  {
    text[..p.start] + Value(p, value) + text[p.end..]
  }

  /** The text with the parameters before `n` filled in, from the last to the first. */
  function Filled(text: string, params: seq<Param>, values: seq<string>, n: nat): string
    requires n <= |params| == |values| && InRange(text, params, values, n)
    decreases n
  {
    if n == 0 then text
    else if !Set(params[n - 1]) then Filled(text, params, values, n - 1)
    else Filled(FillOne(text, params[n - 1], values[n - 1]), params, values, n - 1)
  }

  /** For ranges in order, one behind the other, this is replacing all of them at once. */
  lemma {:induction false} FilledIsReplaced(sql: string, params: seq<Param>, values: seq<string>, n: nat)
    requires n <= |params| == |values| && InOrder(sql, params, 0, 0)
    ensures InOrder(sql, params, n, 0)
    ensures var text := Replaced(sql, params, values, n, 0);
      InRange(text, params, values, n) && Filled(text, params, values, n) == Replaced(sql, params, values, 0, 0)
    decreases n
  {
    InOrderUpTo(sql, params, n);
    InOrderFrom(sql, params, n, Behind(params, n), 0);
    if n > 0 {
      FilledIsReplaced(sql, params, values, n - 1);
      InOrderUpTo(sql, params, n - 1);
      var p := params[n - 1];
      if Set(p) {
        PrefixStays(sql, params, values, n, p.end, 0);
        CutIn(sql[0..p.end], Replaced(sql, params, values, n, p.end), p.start, Value(p, values[n - 1]));
        assert sql[0..p.end][..p.start] == sql[0..p.start];
      }
    }
  }

  lemma {:induction false} CutIn(x: string, t: string, s: nat, v: string)
    requires s <= |x|
    ensures (x + t)[..s] + v + (x + t)[|x|..] == x[..s] + v + t
  {
    assert (x + t)[|x|..] == t && (x + t)[..s] == x[..s];
  }

  // ----- ranges in any order -----

  /** The ranges found are not empty, lie in the text, and do not overlap. */
  predicate Disjoint(sql: string, params: seq<Param>) {
    && (forall i | 0 <= i < |params| && Set(params[i]) :: params[i].start < params[i].end <= |sql|)
    && (forall i, j | 0 <= i < j < |params| && Set(params[i]) && Set(params[j]) ::
          params[i].end <= params[j].start || params[j].end <= params[i].start)
  }

  /** The parameter before `n` that is found at `from`, or -1. */
  function StartsAt(params: seq<Param>, from: nat, n: nat): (i: int)
    requires n <= |params|
    ensures -1 <= i < n && (i >= 0 ==> Set(params[i]) && params[i].start == from)
    ensures i == -1 ==> forall k | 0 <= k < n && Set(params[k]) :: params[k].start != from
  {
    if n == 0 then -1
    else if Set(params[n - 1]) && params[n - 1].start == from then n - 1
    else StartsAt(params, from, n - 1)
  }

  /** The text from `from`, read once from left to right, with each range replaced where it starts. */
  function Substituted(sql: string, params: seq<Param>, values: seq<string>, from: nat): string
    requires |params| == |values| && Disjoint(sql, params)
    decreases |sql| - from
  {
    if from >= |sql| then ""
    else
      var i := StartsAt(params, from, |params|);
      if i == -1 then [sql[from]] + Substituted(sql, params, values, from + 1)
      else Value(params[i], values[i]) + Substituted(sql, params, values, params[i].end)
  }

  // ----- in order, filling is substituting -----

  lemma {:induction false} Plain(sql: string, params: seq<Param>, values: seq<string>, from: nat, to: nat)
    requires |params| == |values| && Disjoint(sql, params) && from <= to <= |sql|
    requires forall k | 0 <= k < |params| && Set(params[k]) :: !(from <= params[k].start < to)
    ensures Substituted(sql, params, values, from) == sql[from..to] + Substituted(sql, params, values, to)
    decreases |sql| - from
  {
    if from < to {
      Plain(sql, params, values, from + 1, to);
      assert StartsAt(params, from, |params|) == -1;
      Split(sql, from, from + 1, to);
      assert sql[from..from + 1] == [sql[from]];
      Assoc([sql[from]], sql[from + 1..to], Substituted(sql, params, values, to));
      hide StartsAt, Disjoint;
    } else {
      assert sql[from..to] + Substituted(sql, params, values, to) == Substituted(sql, params, values, to);
      hide Substituted;
    }
  }

  lemma {:induction false} InOrderBehind(sql: string, params: seq<Param>, i: nat, from: nat, k: nat)
    requires InOrder(sql, params, i, from) && i <= k < |params| && Set(params[k])
    ensures from <= params[k].start
    decreases |params| - i
  {
    if i < k {
      InOrderBehind(sql, params, i + 1, if Set(params[i]) then params[i].end else from, k);
    }
  }

  lemma {:induction false} ReplacedIsSubstituted(sql: string, params: seq<Param>, values: seq<string>, i: nat,
      from: nat)
    requires i <= |params| == |values| && from <= |sql| && Disjoint(sql, params) && InOrder(sql, params, i, from)
    requires forall k | 0 <= k < i && Set(params[k]) :: params[k].end <= from
    ensures Replaced(sql, params, values, i, from) == Substituted(sql, params, values, from)
    decreases |params| - i
  {
    if i == |params| {
      Plain(sql, params, values, from, |sql|);
      assert sql[from..] == sql[from..|sql|];
      assert sql[from..] + "" == sql[from..];
    } else if !Set(params[i]) {
      ReplacedIsSubstituted(sql, params, values, i + 1, from);
    } else {
      var p := params[i];
      NothingBetween(sql, params, i, from);
      Plain(sql, params, values, from, p.start);
      ReplacedIsSubstituted(sql, params, values, i + 1, p.end);
      hide InOrder, Disjoint, StartsAt;
      Assoc(sql[from..p.start], Value(p, values[i]), Substituted(sql, params, values, p.end));
    }
  }

  lemma {:induction false} NothingBetween(sql: string, params: seq<Param>, i: nat, from: nat)
    requires i < |params| && Set(params[i]) && Disjoint(sql, params) && InOrder(sql, params, i, from)
    requires forall k | 0 <= k < i && Set(params[k]) :: params[k].end <= from
    ensures forall k | 0 <= k < |params| && Set(params[k]) :: !(from <= params[k].start < params[i].start)
    ensures StartsAt(params, params[i].start, |params|) == i
  {
    var p := params[i];
    forall k | 0 <= k < |params| && Set(params[k])
      ensures !(from <= params[k].start < p.start) && (params[k].start == p.start ==> k == i)
    {
      if i <= k {
        InOrderBehind(sql, params, i, from, k);
      }
      if i < k {
        InOrderBehind(sql, params, i + 1, p.end, k);
      }
    }
  }

  // ----- out of order, some values come out wrong -----

  function Count(s: string, c: char): nat {
    if s == "" then 0 else (if s[0] == c then 1 else 0) + Count(s[1..], c)
  }

  lemma {:induction false} CountBoth(s: string, t: string, c: char)
    ensures Count(s + t, c) == Count(s, c) + Count(t, c)
  {
    if s == "" {
      assert s + t == t;
    } else {
      assert (s + t)[1..] == s[1..] + t;
      CountBoth(s[1..], t, c);
    }
  }

  /** At most as many as there are characters, and fewer if one is another. */
  lemma {:induction false} CountFewer(s: string, c: char)
    ensures Count(s, c) <= |s|
    ensures s != "" && s[0] != c ==> Count(s, c) < |s|
  {
    if s != "" {
      CountFewer(s[1..], c);
    }
  }

  lemma {:induction false} CountAll(s: string, c: char)
    requires forall i | 0 <= i < |s| :: s[i] == c
    ensures Count(s, c) == |s|
  {
    if s != "" {
      CountAll(s[1..], c);
    }
  }

  /** Long values of one character. */
  function Runs(c: char, len: nat, n: nat): (values: seq<string>)
    ensures |values| == n && forall i | 0 <= i < n :: values[i] == seq(len, _ => c)
  {
    seq(n, _ => seq(len, _ => c))
  }

  /** How many more `c` there are once the range is replaced. */
  function Gain(sql: string, p: Param, value: string, c: char): int
    requires p.start <= p.end <= |sql|
  {
    Count(Value(p, value), c) - Count(sql[p.start..p.end], c)
  }

  /** The gains of the parameters before `n` whose ranges start at `from` or behind. */
  function Gains(sql: string, params: seq<Param>, values: seq<string>, c: char, from: nat, n: nat): int
    requires n <= |params| == |values| && Disjoint(sql, params)
  {
    if n == 0 then 0
    else
      (if Set(params[n - 1]) && from <= params[n - 1].start then Gain(sql, params[n - 1], values[n - 1], c) else 0)
      + Gains(sql, params, values, c, from, n - 1)
  }

  lemma {:induction false} GainsFrom(sql: string, params: seq<Param>, values: seq<string>, c: char, from: nat,
      next: nat, i: int, n: nat)
    requires n <= |params| == |values| && Disjoint(sql, params) && from <= next
    requires -1 <= i < |params| && (i >= 0 ==> Set(params[i]) && params[i].start == from < next)
    requires forall k | 0 <= k < |params| && Set(params[k]) && from <= params[k].start < next :: k == i
    ensures Gains(sql, params, values, c, from, n) ==
      Gains(sql, params, values, c, next, n) + if 0 <= i < n then Gain(sql, params[i], values[i], c) else 0
  {
    if n > 0 {
      GainsFrom(sql, params, values, c, from, next, i, n - 1);
    }
  }

  /** Substituting adds all the gains. */
  lemma {:induction false} CountSubstituted(sql: string, params: seq<Param>, values: seq<string>, c: char, from: nat)
    requires |params| == |values| && Disjoint(sql, params) && from <= |sql|
    ensures Count(Substituted(sql, params, values, from), c) == Count(sql[from..], c)
          + Gains(sql, params, values, c, from, |params|)
    decreases |sql| - from
  {
    if from == |sql| {
      NoGains(sql, params, values, c, |params|);
    } else {
      var i := StartsAt(params, from, |params|);
      var next := if i == -1 then from + 1 else params[i].end;
      GainsFrom(sql, params, values, c, from, next, i, |params|);
      CountSubstituted(sql, params, values, c, next);
      CountBoth(sql[from..next], sql[next..], c);
      assert sql[from..] == sql[from..next] + sql[next..];
      if i == -1 {
        assert sql[from..next] == [sql[from]];
        CountBoth([sql[from]], Substituted(sql, params, values, next), c);
      } else {
        CountBoth(Value(params[i], values[i]), Substituted(sql, params, values, next), c);
      }
    }
  }

  lemma {:induction false} NoGains(sql: string, params: seq<Param>, values: seq<string>, c: char, n: nat)
    requires n <= |params| == |values| && Disjoint(sql, params)
    ensures Gains(sql, params, values, c, |sql|, n) == 0
  {
    if n > 0 {
      NoGains(sql, params, values, c, n - 1);
    }
  }

  /**
   With long values of one character, the text is the old one up to the leftmost range filled so far, and
   from there on, as far as the old text went, all that character, but for quotes where ranges started.
   */
  predicate Flooded(sql: string, params: seq<Param>, c: char, n: nat, m: nat, text: string)
    requires n <= |params|
  {
    && m <= |sql| <= |text| && text[..m] == sql[..m]
    && (forall k | n <= k < |params| && Set(params[k]) :: m <= params[k].start)
    && (forall q | m <= q < |sql| ::
         text[q] == c || exists k :: n <= k < |params| && Set(params[k]) && params[k].start == q)
    && (m < |sql| ==> exists k :: n <= k < |params| && Set(params[k]) && params[k].start == m)
    && (m == |sql| ==> text == sql)
  }

  lemma {:induction false} CountFilled(text: string, p: Param, value: string, c: char)
    requires p.start <= p.end <= |text|
    ensures Count(FillOne(text, p, value), c) == Count(text, c)
          + Count(Value(p, value), c) - Count(text[p.start..p.end], c)
  {
    var a, b, d := text[..p.start], text[p.start..p.end], text[p.end..];
    assert text == a + b + d;
    CountBoth(a + b, d, c);
    CountBoth(a, b, c);
    CountBoth(a + Value(p, value), d, c);
    CountBoth(a, Value(p, value), c);
  }

  /** The value stands where the range was, and what was behind the range is behind the old text's end. */
  lemma {:induction false} FilledAt(text: string, p: Param, c: char, len: nat, q: nat)
    requires p.start <= p.end <= |text| && p.end <= len <= |text| && q < len
    ensures var text' := FillOne(text, p, seq(len, _ => c));
      && |text'| >= |text|
      && (q < p.start ==> text'[q] == text[q])
      && (p.start < q ==> text'[q] == c)
  {
    var value := seq(len, _ => c);
    var v := Value(p, value);
    assert forall i | 0 < i < len :: v[i] == c;
  }

  lemma {:induction false} Within(s: string, m: nat, a: nat, b: nat)
    requires a <= b <= m <= |s|
    ensures s[..m][a..b] == s[a..b]
  {
  }

  /** A range in front of all that were filled is the old text. */
  lemma {:induction false} FloodLeft(sql: string, params: seq<Param>, c: char, n: nat, m: nat, text: string)
    requires Disjoint(sql, params) && 0 < n <= |params| && Set(params[n - 1]) && Flooded(sql, params, c, n, m, text)
    requires params[n - 1].start < m
    ensures var p := params[n - 1];
      p.end <= m && text[p.start..p.end] == sql[p.start..p.end]
      && Flooded(sql, params, c, n - 1, p.start, FillOne(text, p, seq(|sql|, _ => c)))
  {
    var p := params[n - 1];
    if m < |sql| {
      var k :| n <= k < |params| && Set(params[k]) && params[k].start == m;
    }
    Within(text, m, p.start, p.end);
    Within(sql, m, p.start, p.end);
    var text' := FillOne(text, p, seq(|sql|, _ => c));
    forall q | 0 <= q < |sql|
      ensures q < p.start ==> text'[q] == sql[q]
      ensures p.start < q ==> text'[q] == c
      ensures |text'| >= |text|
    {
      FilledAt(text, p, c, |sql|, q);
      assert q < p.start ==> text[q] == text[..m][q];
    }
    assert text'[..p.start] == sql[..p.start];
  }

  /** Any other range has become all that character. */
  lemma {:induction false} FloodRight(sql: string, params: seq<Param>, c: char, n: nat, m: nat, text: string)
    requires Disjoint(sql, params) && 0 < n <= |params| && Set(params[n - 1]) && Flooded(sql, params, c, n, m, text)
    requires params[n - 1].start >= m
    ensures var p := params[n - 1];
      && m < p.start && p.end <= |text| && (forall q | p.start <= q < p.end :: text[q] == c)
      && Flooded(sql, params, c, n - 1, m, FillOne(text, p, seq(|sql|, _ => c)))
  {
    var p := params[n - 1];
    var k :| n <= k < |params| && Set(params[k]) && params[k].start == m;
    var text' := FillOne(text, p, seq(|sql|, _ => c));
    forall q | 0 <= q < |sql|
      ensures q < p.start ==> text'[q] == text[q]
      ensures p.start < q ==> text'[q] == c
      ensures |text'| >= |text|
    {
      FilledAt(text, p, c, |sql|, q);
    }
    assert text'[..m] == text[..m];
  }

  /**
   One of the parameters before `n` starts behind another one that is filled earlier, or behind `m`, and not with `c`.
   */
  ghost predicate Overtaken(sql: string, params: seq<Param>, c: char, n: nat, m: nat)
    requires n <= |params| && Disjoint(sql, params)
  {
    exists i :: 0 <= i < n && Set(params[i]) && sql[params[i].start] != c
        && (m < params[i].start || LaterBefore(params, i, n))
  }

  ghost predicate LaterBefore(params: seq<Param>, i: nat, n: nat)
    requires i < n <= |params|
  {
    exists j :: i < j < n && Set(params[j]) && params[j].start < params[i].start
  }

  /** Filling adds at most all the gains, and less where a range is overtaken. */
  lemma {:induction false} CountFlooded(sql: string, params: seq<Param>, c: char, n: nat, m: nat, text: string)
    requires Disjoint(sql, params) && n <= |params| && Flooded(sql, params, c, n, m, text)
    ensures var values := Runs(c, |sql|, |params|);
      && InRange(text, params, values, n)
      && var gained := Count(Filled(text, params, values, n), c) - Count(text, c);
         && gained <= Gains(sql, params, values, c, 0, n)
         && (Overtaken(sql, params, c, n, m) ==> gained < Gains(sql, params, values, c, 0, n))
    decreases n
  {
    var values := Runs(c, |sql|, |params|);
    if n > 0 {
      var p := params[n - 1];
      if !Set(p) {
        StillOvertaken(sql, params, c, n, m, m);
        CountFlooded(sql, params, c, n - 1, m, text);
      } else {
        var text' := FillOne(text, p, values[n - 1]);
        var m' := if p.start < m then p.start else m;
        FloodOne(sql, params, c, n, m, text);
        StillOvertaken(sql, params, c, n, m, m');
        CountFlooded(sql, params, c, n - 1, m', text');
      }
      hide Flooded, Overtaken, Disjoint, FillOne, Gain, Runs, Count;
    }
  }

  lemma {:induction false} FloodOne(sql: string, params: seq<Param>, c: char, n: nat, m: nat, text: string)
    requires Disjoint(sql, params) && 0 < n <= |params| && Set(params[n - 1]) && Flooded(sql, params, c, n, m, text)
    ensures var p, value := params[n - 1], Runs(c, |sql|, |params|)[n - 1];
      && p.start <= |text| && p.end <= |text|
      && var text' := FillOne(text, p, value);
         && Flooded(sql, params, c, n - 1, if p.start < m then p.start else m, text')
         && Count(text', c) - Count(text, c) <= Gain(sql, p, value, c)
         && (m < p.start && sql[p.start] != c ==> Count(text', c) - Count(text, c) < Gain(sql, p, value, c))
  {
    var p := params[n - 1];
    var value := Runs(c, |sql|, |params|)[n - 1];
    assert value == seq(|sql|, _ => c);
    if p.start < m {
      FloodLeft(sql, params, c, n, m, text);
    } else {
      FloodRight(sql, params, c, n, m, text);
      CountAll(text[p.start..p.end], c);
      CountFewer(sql[p.start..p.end], c);
    }
    CountFilled(text, p, value, c);
    hide Flooded, FillOne;
  }

  lemma {:induction false} StillOvertaken(sql: string, params: seq<Param>, c: char, n: nat, m: nat, m': nat)
    requires 0 < n <= |params| && Disjoint(sql, params) && m' <= m
    requires Set(params[n - 1]) ==> m' <= params[n - 1].start
    ensures Overtaken(sql, params, c, n, m) ==>
      Overtaken(sql, params, c, n - 1, m') || (Set(params[n - 1]) && sql[params[n - 1].start] != c
          && m < params[n - 1].start)
  {
  }

  lemma {:induction false} OutOfOrder(sql: string, params: seq<Param>, i: nat, from: nat)
    requires i <= |params| && Disjoint(sql, params) && !InOrder(sql, params, i, from)
    requires forall k | i <= k < |params| && Set(params[k]) :: from <= params[k].start
    ensures exists k, j ::
          i <= k < j < |params| && Set(params[k]) && Set(params[j]) && params[j].start < params[k].start
    decreases |params| - i
  {
    if Set(params[i]) {
      if j :| i < j < |params| && Set(params[j]) && params[j].start < params[i].end {
        assert params[j].start < params[i].start;
      } else {
        OutOfOrder(sql, params, i + 1, params[i].end);
      }
    } else {
      OutOfOrder(sql, params, i + 1, from);
    }
  }

  /** Out of order, long values of a character that is not the first of the range overtaken come out wrong. */
  lemma {:induction false} SomeWrong(sql: string, params: seq<Param>) returns (values: seq<string>)
    requires Disjoint(sql, params) && !InOrder(sql, params, 0, 0)
    ensures |values| == |params| && InRange(sql, params, values, |params|)
    ensures Filled(sql, params, values, |params|) != Substituted(sql, params, values, 0)
  {
    OutOfOrder(sql, params, 0, 0);
    var n := |params|;
    var k, j :| 0 <= k < j < n && Set(params[k]) && Set(params[j]) && params[j].start < params[k].start;
    var c := if sql[params[k].start] == 'a' then 'b' else 'a';
    values := Runs(c, |sql|, n);
    assert LaterBefore(params, k, n);
    assert Overtaken(sql, params, c, n, |sql|);
    assert sql[..|sql|] == sql && sql[0..] == sql;
    assert Flooded(sql, params, c, n, |sql|, sql);
    CountFlooded(sql, params, c, n, |sql|, sql);
    CountSubstituted(sql, params, values, c, 0);
    hide Filled, Substituted, Gains, Count, Flooded, Overtaken;
  }

  ghost predicate AlwaysRight(sql: string, params: seq<Param>)
    requires Disjoint(sql, params)
  {
    forall values: seq<string> | |values| == |params| ::
      InRange(sql, params, values, |params|)
          && Filled(sql, params, values, |params|) == Substituted(sql, params, values, 0)
  }

  /**
   For ranges that do not overlap, filling is substituting, whatever the values, just when the ranges are in order.
   */
  lemma {:induction false} OrderMatters(sql: string, params: seq<Param>)
    requires Disjoint(sql, params)
    ensures AlwaysRight(sql, params) <==> InOrder(sql, params, 0, 0)
  {
    if InOrder(sql, params, 0, 0) {
      forall values: seq<string> | |values| == |params|
        ensures InRange(sql, params, values, |params|)
        ensures Filled(sql, params, values, |params|) == Substituted(sql, params, values, 0)
      {
        FilledIsReplaced(sql, params, values, |params|);
        AllFilled(sql, params, values);
        ReplacedIsSubstituted(sql, params, values, 0, 0);
      }
    } else {
      var values := SomeWrong(sql, params);
    }
    hide InRange, Filled, Substituted, InOrder;
  }

  lemma {:induction false} AllFilled(sql: string, params: seq<Param>, values: seq<string>)
    requires |params| == |values| && InOrder(sql, params, 0, 0)
    ensures InOrder(sql, params, |params|, 0) && Replaced(sql, params, values, |params|, 0) == sql
  {
  }

  lemma {:induction false} FindIs(sql: string, name: string, r: nat)
    requires OccursAt(sql, name, r) && forall q: nat | q < r :: !OccursAt(sql, name, q)
    ensures Find(sql, name, 0) == r
  {
    hide OccursAt;
  }

  /** Parameters that stand in the other order than they are numbered. */
  function Crossed(): seq<Param> {
    [Param(":a", 3, 5, false), Param(":b", 1, 3, false)]
  }

  lemma {:induction false} CrossedMarked()
    ensures Marked("=:b:a", Param(":a", 0, 0, false)) == Crossed()[0]
    ensures Marked("=:b:a", Param(":b", 0, 0, false)) == Crossed()[1]
  {
    var sql := "=:b:a";
    assert sql[3..5] == ":a" && sql[1..3] == ":b";
    assert forall q: nat | q < 3 :: OccursAt(sql, ":a", q) ==> sql[q..q + 2][1] == sql[q + 1];
    assert !OccursAt(sql, ":b", 0) by {
      assert sql[0..2][0] == '=';
    }
    FindIs(sql, ":a", 3);
    FindIs(sql, ":b", 1);
    hide Find;
  }

  lemma {:induction false} CrossedFilled()
    ensures InRange("=:b:a", Crossed(), ["Y", "XXX"], 2) && Filled("=:b:a", Crossed(), ["Y", "XXX"], 2) == "=XXYa"
  {
    var ps, vs := Crossed(), ["Y", "XXX"];
    assert FillOne("=:b:a", ps[1], vs[1]) == "=XXX:a";
    assert FillOne("=XXX:a", ps[0], vs[0]) == "=XXYa";
    hide FillOne;
    assert InRange("=XXYa", ps, vs, 0) && InRange("=XXX:a", ps, vs, 1);
    assert Filled("=XXX:a", ps, vs, 1) == Filled("=XXYa", ps, vs, 0);
  }

  lemma {:induction false} CrossedSubstituted()
    ensures Disjoint("=:b:a", Crossed()) && Substituted("=:b:a", Crossed(), ["Y", "XXX"], 0) == "=XXXY"
  {
    var ps, vs := Crossed(), ["Y", "XXX"];
    assert StartsAt(ps, 0, 2) == -1 && StartsAt(ps, 1, 2) == 1 && StartsAt(ps, 3, 2) == 0;
    hide StartsAt;
    assert Substituted("=:b:a", ps, vs, 5) == "";
    assert Substituted("=:b:a", ps, vs, 3) == "Y" + "";
    assert Substituted("=:b:a", ps, vs, 1) == "XXX" + "Y";
  }

  /** The longer value moves the place of the other parameter. */
  lemma {:induction false} OrderIsNeeded()
    ensures Marked("=:b:a", Param(":a", 0, 0, false)) == Crossed()[0]
    ensures Marked("=:b:a", Param(":b", 0, 0, false)) == Crossed()[1]
    ensures InRange("=:b:a", Crossed(), ["Y", "XXX"], 2) && Disjoint("=:b:a", Crossed())
    ensures Filled("=:b:a", Crossed(), ["Y", "XXX"], 2) == "=XXYa"
    ensures Substituted("=:b:a", Crossed(), ["Y", "XXX"], 0) == "=XXXY"
  {
    hide Marked, InRange, Disjoint, Filled, Substituted;
    CrossedMarked();
    CrossedFilled();
    CrossedSubstituted();
  }

  // ----- when every position is inside the text -----

  /** How long the text is at least, of `len` characters before, once the parameters from `n` on are filled. */
  function Shortest(len: int, params: seq<Param>, n: nat): int
    requires n <= |params|
    decreases |params| - n
  {
    if n == |params| then len
    else if !Set(params[n]) then Shortest(len, params, n + 1)
    else Shortest(len, params, n + 1) - (params[n].end - params[n].start) + if params[n].text then 2 else 0
  }

  predicate Fit(len: int, params: seq<Param>, n: nat)
    requires n <= |params|
  {
    forall i | 0 <= i < n && Set(params[i]) ::
      var least := Shortest(len, params, i + 1); params[i].start <= least && params[i].end <= least
  }

  ghost predicate AlwaysInRange(sql: string, params: seq<Param>) {
    forall values: seq<string> | |values| == |params| :: InRange(sql, params, values, |params|)
  }

  lemma {:induction false} LongerFits(text: string, params: seq<Param>, values: seq<string>, n: nat, len: int)
    requires n <= |params| == |values| && Fit(len, params, n) && Shortest(len, params, n) <= |text|
    ensures InRange(text, params, values, n)
    decreases n
  {
    if n > 0 {
      var p := params[n - 1];
      LongerFits(if Set(p) then FillOne(text, p, values[n - 1]) else text, params, values, n - 1, len);
    }
  }

  lemma {:induction false} EmptyFits(text: string, params: seq<Param>, values: seq<string>, n: nat, len: int)
    requires n <= |params| == |values| && (forall v | v in values :: v == "") && Shortest(len, params, n) == |text|
    requires InRange(text, params, values, n)
    ensures Fit(len, params, n)
    decreases n
  {
    if n > 0 {
      var p := params[n - 1];
      assert values[n - 1] in values;
      EmptyFits(if Set(p) then FillOne(text, p, values[n - 1]) else text, params, values, n - 1, len);
    }
  }

  /** No value leads behind the end just when every range is inside what empty values leave. */
  lemma {:induction false} InRangeExactly(sql: string, params: seq<Param>)
    ensures AlwaysInRange(sql, params) <==> Fit(|sql|, params, |params|)
  {
    hide InRange;
    if Fit(|sql|, params, |params|) {
      forall values: seq<string> | |values| == |params|
        ensures InRange(sql, params, values, |params|)
      {
        LongerFits(sql, params, values, |params|, |sql|);
      }
    }
    if AlwaysInRange(sql, params) {
      EmptyFits(sql, params, seq(|params|, _ => ""), |params|, |sql|);
    }
  }

  /** Marked parameters that an empty value leaves behind the end. */
  lemma {:induction false} CrossedMisfit()
    ensures Marked("=:b:a", Param(":a", 0, 0, false)) == Crossed()[0]
    ensures Marked("=:b:a", Param(":b", 0, 0, false)) == Crossed()[1]
    ensures !InRange("=:b:a", Crossed(), ["Y", ""], 2)
  {
    CrossedMarked();
    hide Marked;
    assert FillOne("=:b:a", Crossed()[1], "") == "=:a";
    assert !InRange("=:a", Crossed(), ["Y", ""], 1);
  }

  // ----- when marked places overlap -----

  /** A colon, and something without colons. */
  predicate BindName(n: string) {
    |n| > 0 && n[0] == ':' && forall k | 0 < k < |n| :: n[k] != ':'
  }

  /** What marking makes of parameters that are marked for this statement. */
  ghost predicate AllMarked(sql: string, params: seq<Param>) {
    forall i | 0 <= i < |params| :: BindName(params[i].name) && params[i] == Marked(sql, params[i])
  }

  lemma {:induction false} ColonAt(sql: string, p: Param, q: nat)
    requires BindName(p.name) && OccursAt(sql, p.name, q)
    ensures q < |sql| && sql[q] == ':' && forall k | q < k < q + |p.name| :: sql[k] != ':'
  {
    assert sql[q..q + |p.name|][0] == sql[q];
    forall k | q < k < q + |p.name|
      ensures sql[k] != ':'
    {
      assert sql[q..q + |p.name|][k - q] == sql[k];
    }
  }

  lemma {:induction false} MarkedAt(sql: string, p: Param)
    requires BindName(p.name) && p == Marked(sql, p) && Set(p)
    ensures OccursAt(sql, p.name, p.start) && p.start < p.end == p.start + |p.name| <= |sql|
  {
  }

  /**
   The places of names with a colon in front do not overlap just when no two parameters are found at the same place.
   */
  lemma {:induction false} MarkedDisjoint(sql: string, params: seq<Param>)
    requires AllMarked(sql, params)
    ensures Disjoint(sql, params) <==>
      forall i, j | 0 <= i < j < |params| && Set(params[i]) && Set(params[j]) :: params[i].start != params[j].start
  {
    hide Marked, BindName, OccursAt, Set;
    forall i | 0 <= i < |params| && Set(params[i])
      ensures OccursAt(sql, params[i].name, params[i].start)
      ensures params[i].start < params[i].end == params[i].start + |params[i].name| <= |sql|
    {
      MarkedAt(sql, params[i]);
    }
    forall i, j | 0 <= i < j < |params| && Set(params[i]) && Set(params[j]) && params[i].start != params[j].start
      ensures params[i].end <= params[j].start || params[j].end <= params[i].start
    {
      ColonAt(sql, params[i], params[i].start);
      ColonAt(sql, params[j], params[j].start);
    }
  }

  /** That takes one name beginning another, so that it never happens where none does. */
  lemma {:induction false} TogetherBegins(sql: string, p: Param, r: Param)
    requires BindName(p.name) && BindName(r.name) && p == Marked(sql, p) && r == Marked(sql, r)
    requires Set(p) && Set(r) && p.start == r.start
    ensures p.name <= r.name || r.name <= p.name
  {
    MarkedAt(sql, p);
    MarkedAt(sql, r);
    hide Marked, BindName, Set;
    if |p.name| <= |r.name| {
      assert r.name[..|p.name|] == sql[p.start..p.end];
    } else {
      assert p.name[..|r.name|] == sql[p.start..r.end];
    }
  }

  /** Where one name begins another it can happen. */
  lemma {:induction false} MarkedTogether()
    ensures var p, r := Param(":a", 1, 3, false), Param(":ab", 1, 4, false);
          AllMarked("=:ab", [p, r]) && !Disjoint("=:ab", [p, r])
  {
    var sql := "=:ab";
    var ps := [Param(":a", 1, 3, false), Param(":ab", 1, 4, false)];
    assert Set(ps[0]) && Set(ps[1]) && !(ps[0].end <= ps[1].start || ps[1].end <= ps[0].start);
    assert sql[1..3] == ":a" && sql[1..4] == ":ab";
    assert !OccursAt(sql, ":a", 0) && !OccursAt(sql, ":ab", 0) by {
      assert sql[0..2][0] == '=' && sql[0..3][0] == '=';
    }
    FindIs(sql, ":a", 1);
    FindIs(sql, ":ab", 1);
    hide Find;
  }

  /** A parameter that a statement begins with keeps its name. */
  lemma {:induction false} FirstIsLeft()
    ensures var p := Marked(":a is 1", Param(":a", 0, 0, false));
      !Set(p) && InRange(":a is 1", [p], ["7"], 1) && Filled(":a is 1", [p], ["7"], 1) == ":a is 1"
  {
    assert OccursAt(":a is 1", ":a", 0);
    MarkedIsSet(":a is 1", Param(":a", 0, 0, false));
  }

  /**
   The statement with its values; as it is if there is nothing to fill, or if values are missing. None: a position
   lies behind the end of the text.
   */
  method FillOriginSqlValue(sql: string, params: seq<Param>, values: seq<string>) returns (out: Option<string>)
    ensures out == if |params| != |values| || sql == "" then Some(sql)
      else if InRange(sql, params, values, |params|) then Some(Filled(sql, params, values, |params|))
      else None
    ensures |params| == |values| && InOrder(sql, params, 0, 0) && Disjoint(sql, params) ==>
          out == Some(Substituted(sql, params, values, 0))
  {
    if |params| == |values| && InOrder(sql, params, 0, 0) && Disjoint(sql, params) {
      FilledIsReplaced(sql, params, values, |params|);
      AllFilled(sql, params, values);
      ReplacedIsSubstituted(sql, params, values, 0, 0);
      if sql == "" {
        NothingToFill(sql, params, values, |params|);
      }
    }
    if |params| == 0 || |sql| == 0 || |params| != |values| {
      return Some(sql);
    }
    var text := sql;
    var i := |params|;
    while i > 0
      invariant 0 <= i <= |params|
      invariant InRange(text, params, values, i) <==> InRange(sql, params, values, |params|)
      invariant InRange(text, params, values, i) ==>
          Filled(text, params, values, i) == Filled(sql, params, values, |params|)
    {
      i := i - 1;
      if params[i].start == 0 || params[i].end == 0 {
        continue;
      }
      if params[i].start > |text| || params[i].end > |text| {
        return None;
      }
      text := text[..params[i].start] + Value(params[i], values[i]) + text[params[i].end..];
    }
    return Some(text);
  }

  /** In the empty text nothing can be set. */
  lemma {:induction false} NothingToFill(text: string, params: seq<Param>, values: seq<string>, n: nat)
    requires n <= |params| == |values| && InRange(text, params, values, n) && (text == "" || n == 0)
    ensures Filled(text, params, values, n) == text
    decreases n
  {
    if n > 0 {
      NothingToFill(text, params, values, n - 1);
    }
  }
}
