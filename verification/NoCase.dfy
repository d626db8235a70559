/** SI_GenericNoCase of conf/simpleini.h: ordering names without regard to ASCII case. */
module NoCase {
  import opened IniText

  /** The order of character strings, read from the left. */
  predicate Before(x: string, y: string) {
    y != "" && (x == "" || x[0] < y[0] || (x[0] == y[0] && Before(x[1..], y[1..])))
  }

  lemma {:induction false} BeforeIrreflexive(x: string)
    ensures !Before(x, x)
  {
    if x != "" {
      BeforeIrreflexive(x[1..]);
    }
  }

  lemma {:induction false} BeforeTransitive(x: string, y: string, z: string)
    requires Before(x, y) && Before(y, z)
    ensures Before(x, z)
  {
    if x != "" && x[0] == y[0] == z[0] {
      BeforeTransitive(x[1..], y[1..], z[1..]);
    }
  }

  lemma {:induction false} BeforeTotal(x: string, y: string)
    ensures Before(x, y) || Before(y, x) || x == y
  {
    if x != "" && y != "" && x[0] == y[0] {
      BeforeTotal(x[1..], y[1..]);
      assert x[1..] == y[1..] ==> x == [x[0]] + x[1..] == [y[0]] + y[1..] == y;
    }
  }

  /** Two names that neither precede each other are the same entry of a map: they fold alike. */
  lemma {:induction false} SameEntry(x: string, y: string)
    ensures !Before(Fold(x), Fold(y)) && !Before(Fold(y), Fold(x)) <==> Fold(x) == Fold(y)
  {
    BeforeTotal(Fold(x), Fold(y));
    BeforeIrreflexive(Fold(x));
  }

  lemma {:induction false} FoldCStr(b: string, p: nat)
    requires IsBuffer(b) && p < |b|
    ensures Fold(CStr(b, p)) == if b[p] == NUL then "" else [LoCase(b[p])] + Fold(CStr(b, p + 1))
  {
  }

  /** The comparison of two NUL-terminated strings in a buffer. */
  method IsLess(data: array<char>, left: nat, right: nat) returns (less: bool)
    requires IsBuffer(data[..]) && left < data.Length && right < data.Length
    ensures less == Before(Fold(CStr(data[..], left)), Fold(CStr(data[..], right)))
  {
    ghost var b := data[..];
    var l, r := left, right;
    while data[l] != NUL && data[r] != NUL
      invariant left <= l < data.Length && right <= r < data.Length
      invariant Before(Fold(CStr(b, l)), Fold(CStr(b, r))) == Before(Fold(CStr(b, left)), Fold(CStr(b, right)))
      decreases data.Length - l
    {
      FoldCStr(b, l);
      FoldCStr(b, r);
      var cmp := LoCase(data[l]) as int - LoCase(data[r]) as int;
      if cmp != 0 {
        return cmp < 0;
      }
      l, r := l + 1, r + 1;
    }
    FoldCStr(b, l);
    FoldCStr(b, r);
    return data[r] != NUL;
  }
}
