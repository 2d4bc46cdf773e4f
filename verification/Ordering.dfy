/** Python's order on strings: by code point, position by position. */
module Ordering {
  predicate StrLe(a: string, b: string) {
    a == [] || (b != [] && (a[0] < b[0] || (a[0] == b[0] && StrLe(a[1..], b[1..]))))
  }

  /** `a` comes before `b`: it is a proper prefix, or has the smaller code point where they first differ. */
  ghost predicate ComesBefore(a: string, b: string) {
    exists i: nat :: DiffersAt(a, b, i)
  }

  ghost predicate DiffersAt(a: string, b: string, i: nat) {
    i <= |a| && i < |b| && (forall m | 0 <= m < i :: a[m] == b[m]) && (i < |a| ==> a[i] < b[i])
  }

  lemma DiffersLater(a: string, b: string, i: nat)
    requires a != [] && b != [] && a[0] == b[0]
    ensures DiffersAt(a, b, i + 1) <==> DiffersAt(a[1..], b[1..], i)
  {
    if DiffersAt(a[1..], b[1..], i) {
      forall m | 0 < m < i + 1
        ensures a[m] == b[m]
      {
        assert a[1..][m - 1] == b[1..][m - 1];
      }
    }
  }

  lemma {:induction false} StrLeExactly(a: string, b: string)
    ensures StrLe(a, b) <==> a == b || ComesBefore(a, b)
  {
    if a == [] || b == [] || a[0] != b[0] {
      assert DiffersAt(a, b, 0) <==> b != [] && (a == [] || a[0] < b[0]);
    } else {
      StrLeExactly(a[1..], b[1..]);
      assert a == [a[0]] + a[1..] && b == [b[0]] + b[1..];
      if i: nat :| DiffersAt(a[1..], b[1..], i) {
        DiffersLater(a, b, i);
      }
      if i: nat :| DiffersAt(a, b, i) {
        DiffersLater(a, b, i - 1);
      }
    }
  }

  lemma {:induction false} StrTotal(a: string, b: string)
    ensures StrLe(a, b) || StrLe(b, a)
  {
    if a != [] && b != [] {
      StrTotal(a[1..], b[1..]);
    }
  }

  lemma {:induction false} StrReflexive(a: string)
    ensures StrLe(a, a)
  {
    if a != [] {
      StrReflexive(a[1..]);
    }
  }

  lemma {:induction false} StrAntisymmetric(a: string, b: string)
    requires StrLe(a, b) && StrLe(b, a)
    ensures a == b
  {
    if a != [] && b != [] {
      StrAntisymmetric(a[1..], b[1..]);
      assert a == [a[0]] + a[1..] && b == [b[0]] + b[1..];
    }
  }

  lemma DiffersOneWay(a: string, b: string, i: nat, j: nat)
    requires DiffersAt(a, b, i)
    ensures !DiffersAt(b, a, j)
  {
  }

  lemma ComesBeforeStrict(a: string, b: string)
    ensures !(ComesBefore(a, b) && ComesBefore(b, a)) && !ComesBefore(a, a)
  {
    forall i: nat, j: nat | DiffersAt(a, b, i)
      ensures !DiffersAt(b, a, j)
    {
      DiffersOneWay(a, b, i, j);
    }
  }

  lemma {:induction false} StrTransitive(a: string, b: string, c: string)
    requires StrLe(a, b) && StrLe(b, c)
    ensures StrLe(a, c)
  {
    if a != [] && b != [] && c != [] && a[0] == b[0] == c[0] {
      StrTransitive(a[1..], b[1..], c[1..]);
    }
  }
}
