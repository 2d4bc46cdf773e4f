/** The canonical form that signatures are computed over: src/shyam/sync/serializer.py. A value is
    what a model dump holds; dictionaries keep their insertion order. */
module Canonical {
  import opened Ordering

  datatype Value =
    | Null
    | Bool(b: bool)
    | Num(n: int)
    | Text(text: string)
    | Stamp(text: string)  // a datetime, with its ISO text
    | Uuid(text: string)
    | List(items: Values)
    | Tuple(items: Values)
    | Dict(entries: Entries)

  datatype Values = Nil | Cons(head: Value, tail: Values)

  datatype Entries = End | Entry(key: string, value: Value, rest: Entries)

  predicate HasKey(es: Entries, k: string) {
    es.Entry? && (es.key == k || HasKey(es.rest, k))
  }

  function Lookup(es: Entries, k: string): Value
    requires HasKey(es, k)
  {
    if es.key == k then es.value else Lookup(es.rest, k)
  }

  function Insert(k: string, v: Value, es: Entries): Entries {
    if es.End? || StrLe(k, es.key) then Entry(k, v, es) else Entry(es.key, es.value, Insert(k, v, es.rest))
  }

  function SortEntries(es: Entries): Entries {
    if es.End? then End else Insert(es.key, es.value, SortEntries(es.rest))
  }

  /** Sorted dictionaries at every depth, and only JSON shapes. */
  function Normalize(v: Value): Value {
    match v
    case Stamp(text) => Text(text)
    case Uuid(text) => Text(text)
    case List(items) => List(NormalizeAll(items))
    case Tuple(items) => List(NormalizeAll(items))
    case Dict(entries) => Dict(SortEntries(NormalizeEntries(entries)))
    case _ => v
  }

  function NormalizeAll(vs: Values): Values {
    match vs
    case Nil => Nil
    case Cons(v, rest) => Cons(Normalize(v), NormalizeAll(rest))
  }

  function NormalizeEntries(es: Entries): Entries {
    match es
    case End => End
    case Entry(k, v, rest) => Entry(k, Normalize(v), NormalizeEntries(rest))
  }

  /** A Python dictionary has each key once, at every depth. */
  predicate WellFormed(v: Value) {
    match v
    case List(items) => AllWellFormed(items)
    case Tuple(items) => AllWellFormed(items)
    case Dict(entries) => EntriesWellFormed(entries)
    case _ => true
  }

  predicate AllWellFormed(vs: Values) {
    vs.Cons? ==> WellFormed(vs.head) && AllWellFormed(vs.tail)
  }

  predicate EntriesWellFormed(es: Entries) {
    es.Entry? ==> !HasKey(es.rest, es.key) && WellFormed(es.value) && EntriesWellFormed(es.rest)
  }

  predicate DistinctKeys(es: Entries) {
    es.Entry? ==> !HasKey(es.rest, es.key) && DistinctKeys(es.rest)
  }

  ghost predicate SameKeys(xs: Entries, ys: Entries) {
    forall k :: HasKey(xs, k) <==> HasKey(ys, k)
  }

  /** The same logical data: equal up to the order of dictionary entries at every depth. */
  ghost predicate Equivalent(a: Value, b: Value)
    decreases a
  {
    match a
    case List(xs) => (b.List? || b.Tuple?) && AllEquivalent(xs, b.items)
    case Tuple(xs) => (b.List? || b.Tuple?) && AllEquivalent(xs, b.items)
    case Dict(xs) =>
      b.Dict? && SameKeys(xs, b.entries) && EntriesAgree(xs, b.entries)
    case Stamp(t) => (b.Text? || b.Stamp? || b.Uuid?) && b.text == t
    case Uuid(t) => (b.Text? || b.Stamp? || b.Uuid?) && b.text == t
    case Text(t) => (b.Text? || b.Stamp? || b.Uuid?) && b.text == t
    case _ => a == b
  }

  ghost predicate AllEquivalent(xs: Values, ys: Values)
    decreases xs
  {
    match xs
    case Nil => ys.Nil?
    case Cons(x, rest) => ys.Cons? && Equivalent(x, ys.head) && AllEquivalent(rest, ys.tail)
  }

  /** Every entry of xs has an equivalent value under the same key of ys. */
  ghost predicate EntriesAgree(xs: Entries, ys: Entries)
    decreases xs
  {
    xs.Entry? ==>
      HasKey(ys, xs.key) && Equivalent(xs.value, Lookup(ys, xs.key)) && EntriesAgree(xs.rest, ys)
  }

  // ---- Sorting keeps the dictionary and forgets only the order ----

  predicate Sorted(es: Entries) {
    es.Entry? && es.rest.Entry? ==> StrLe(es.key, es.rest.key) && Sorted(es.rest)
  }

  lemma {:induction false} InsertKeeps(k: string, v: Value, es: Entries, q: string)
    ensures HasKey(Insert(k, v, es), q) <==> q == k || HasKey(es, q)
    ensures !HasKey(es, k) && HasKey(Insert(k, v, es), q) ==>
              Lookup(Insert(k, v, es), q) == if q == k then v else Lookup(es, q)
    ensures !HasKey(es, k) && DistinctKeys(es) ==> DistinctKeys(Insert(k, v, es))
    ensures Sorted(es) ==> Sorted(Insert(k, v, es))
  {
    if es.Entry? && !StrLe(k, es.key) {
      StrTotal(k, es.key);
      InsertKeeps(k, v, es.rest, q);
      InsertKeeps(k, v, es.rest, es.key);
    }
  }

  lemma {:induction false} SortKeeps(es: Entries, q: string)
    requires DistinctKeys(es)
    ensures HasKey(SortEntries(es), q) <==> HasKey(es, q)
    ensures HasKey(es, q) ==> Lookup(SortEntries(es), q) == Lookup(es, q)
    ensures DistinctKeys(SortEntries(es)) && Sorted(SortEntries(es))
  {
    if es.Entry? {
      SortKeeps(es.rest, q);
      SortKeeps(es.rest, es.key);
      InsertKeeps(es.key, es.value, SortEntries(es.rest), q);
    }
  }

  lemma {:induction false} SortedHead(es: Entries, k: string)
    requires Sorted(es) && HasKey(es, k)
    ensures StrLe(es.key, k)
  {
    if es.key == k {
      StrReflexive(k);
    } else {
      SortedHead(es.rest, k);
      StrTransitive(es.key, es.rest.key, k);
    }
  }

  ghost predicate SameLookups(xs: Entries, ys: Entries) {
    forall k :: HasKey(xs, k) && HasKey(ys, k) ==> Lookup(xs, k) == Lookup(ys, k)
  }

  /** A sorted dictionary is determined by its lookups. */
  lemma {:induction false} SortedUnique(xs: Entries, ys: Entries)
    requires Sorted(xs) && Sorted(ys) && DistinctKeys(xs) && DistinctKeys(ys)
    requires SameKeys(xs, ys)
    requires SameLookups(xs, ys)
    ensures xs == ys
  {
    if xs.Entry? {
      assert HasKey(xs, xs.key) && HasKey(ys, xs.key) && HasKey(ys, ys.key) && HasKey(xs, ys.key);
      SortedHead(xs, ys.key);
      SortedHead(ys, xs.key);
      StrAntisymmetric(xs.key, ys.key);
      forall k
        ensures HasKey(xs.rest, k) <==> HasKey(ys.rest, k)
        ensures HasKey(xs.rest, k) && HasKey(ys.rest, k) ==> Lookup(xs.rest, k) == Lookup(ys.rest, k)
      {
        assert HasKey(xs, k) <==> HasKey(ys, k);
        if HasKey(xs, k) {
          assert Lookup(xs, k) == Lookup(ys, k);
        }
      }
      SortedUnique(xs.rest, ys.rest);
    } else if ys.Entry? {
      assert HasKey(ys, ys.key);
    }
  }

  lemma {:induction false} NormalizeKeeps(es: Entries, q: string)
    ensures HasKey(NormalizeEntries(es), q) <==> HasKey(es, q)
    ensures HasKey(es, q) ==> Lookup(NormalizeEntries(es), q) == Normalize(Lookup(es, q))
    ensures DistinctKeys(NormalizeEntries(es)) <==> DistinctKeys(es)
  {
    if es.Entry? {
      NormalizeKeeps(es.rest, q);
      NormalizeKeeps(es.rest, es.key);
    }
  }

  lemma {:induction false} WellFormedLookup(es: Entries, k: string)
    requires EntriesWellFormed(es)
    ensures DistinctKeys(es)
    ensures HasKey(es, k) ==> WellFormed(Lookup(es, k))
  {
    if es.Entry? {
      WellFormedLookup(es.rest, k);
    }
  }

  /** What a normalized dictionary holds under each key. */
  lemma NormalDict(es: Entries, k: string)
    requires EntriesWellFormed(es)
    ensures var n := SortEntries(NormalizeEntries(es));
      && (HasKey(n, k) <==> HasKey(es, k))
      && (HasKey(es, k) ==> Lookup(n, k) == Normalize(Lookup(es, k)))
      && DistinctKeys(n) && Sorted(n)
  {
    WellFormedLookup(es, k);
    NormalizeKeeps(es, k);
    SortKeeps(NormalizeEntries(es), k);
  }

  // ---- Sound and complete ----

  /** Two values have one canonical form exactly when they hold the same logical data. */
  lemma {:induction false} CanonicalExactly(a: Value, b: Value)
    requires WellFormed(a) && WellFormed(b)
    ensures Equivalent(a, b) <==> Normalize(a) == Normalize(b)
    decreases a
  {
    match a
    case List(xs) =>
      if b.List? || b.Tuple? {
        CanonicalAll(xs, b.items);
      }
    case Tuple(xs) =>
      if b.List? || b.Tuple? {
        CanonicalAll(xs, b.items);
      }
    case Dict(xs) =>
      if b.Dict? {
        CanonicalDict(xs, b.entries);
      }
    case _ =>
  }

  lemma {:induction false} CanonicalAll(xs: Values, ys: Values)
    requires AllWellFormed(xs) && AllWellFormed(ys)
    ensures AllEquivalent(xs, ys) <==> NormalizeAll(xs) == NormalizeAll(ys)
    decreases xs
  {
    if xs.Cons? && ys.Cons? {
      CanonicalExactly(xs.head, ys.head);
      CanonicalAll(xs.tail, ys.tail);
    }
  }

  lemma {:induction false} CanonicalDict(xs: Entries, ys: Entries)
    requires EntriesWellFormed(xs) && EntriesWellFormed(ys)
    ensures SameKeys(xs, ys) && EntriesAgree(xs, ys)
       <==> SortEntries(NormalizeEntries(xs)) == SortEntries(NormalizeEntries(ys))
    decreases xs, 1
  {
    var m, n := SortEntries(NormalizeEntries(xs)), SortEntries(NormalizeEntries(ys));
    NormalDicts(xs, ys);
    if SameKeys(xs, ys) {
      CanonicalEntries(xs, ys);
      if SameNormals(xs, ys) {
        SortedUnique(m, n);
      }
    }
  }

  ghost predicate SameNormals(xs: Entries, ys: Entries) {
    forall k :: HasKey(xs, k) && HasKey(ys, k) ==> Normalize(Lookup(xs, k)) == Normalize(Lookup(ys, k))
  }

  lemma NormalDicts(xs: Entries, ys: Entries)
    requires EntriesWellFormed(xs) && EntriesWellFormed(ys)
    ensures var m, n := SortEntries(NormalizeEntries(xs)), SortEntries(NormalizeEntries(ys));
      && Sorted(m) && Sorted(n) && DistinctKeys(m) && DistinctKeys(n)
      && (SameKeys(m, n) <==> SameKeys(xs, ys))
      && (SameLookups(m, n) <==> SameNormals(xs, ys))
  {
    var m, n := SortEntries(NormalizeEntries(xs)), SortEntries(NormalizeEntries(ys));
    NormalDict(xs, "");
    NormalDict(ys, "");
    forall k
      ensures (HasKey(m, k) <==> HasKey(xs, k)) && (HasKey(n, k) <==> HasKey(ys, k))
      ensures HasKey(xs, k) ==> Lookup(m, k) == Normalize(Lookup(xs, k))
      ensures HasKey(ys, k) ==> Lookup(n, k) == Normalize(Lookup(ys, k))
    {
      NormalDict(xs, k);
      NormalDict(ys, k);
    }
    if SameLookups(m, n) {
      forall k | HasKey(xs, k) && HasKey(ys, k)
        ensures Normalize(Lookup(xs, k)) == Normalize(Lookup(ys, k))
      {
        assert HasKey(m, k) && HasKey(n, k) && Lookup(m, k) == Lookup(n, k);
      }
    }
    if SameNormals(xs, ys) {
      forall k | HasKey(m, k) && HasKey(n, k)
        ensures Lookup(m, k) == Lookup(n, k)
      {
        assert HasKey(xs, k) && HasKey(ys, k);
      }
    }
  }

  lemma {:induction false} CanonicalEntries(xs: Entries, ys: Entries)
    requires EntriesWellFormed(xs) && EntriesWellFormed(ys)
    requires forall k :: HasKey(xs, k) ==> HasKey(ys, k)
    ensures EntriesAgree(xs, ys) <==> SameNormals(xs, ys)
    decreases xs, 0
  {
    if xs.Entry? {
      var k0 := xs.key;
      assert HasKey(xs, k0);
      forall k | HasKey(xs.rest, k)
        ensures HasKey(ys, k) && k != k0 && Lookup(xs, k) == Lookup(xs.rest, k)
      {
        assert HasKey(xs, k);
      }
      CanonicalEntries(xs.rest, ys);
      WellFormedLookup(ys, k0);
      CanonicalExactly(xs.value, Lookup(ys, k0));
      assert forall k :: HasKey(xs, k) <==> k == k0 || HasKey(xs.rest, k);
    }
  }

  // ---- Idempotence ----

  lemma {:induction false} SortSorted(es: Entries)
    requires Sorted(es)
    ensures SortEntries(es) == es
  {
    if es.Entry? {
      SortSorted(es.rest);
    }
  }

  lemma {:induction false} InsertCommutes(k: string, v: Value, es: Entries)
    ensures NormalizeEntries(Insert(k, v, es)) == Insert(k, Normalize(v), NormalizeEntries(es))
  {
    if es.Entry? && !StrLe(k, es.key) {
      InsertCommutes(k, v, es.rest);
    }
  }

  /** Sorting the entries first and normalizing the values next, as the source does, is the same. */
  lemma {:induction false} SortCommutes(es: Entries)
    ensures NormalizeEntries(SortEntries(es)) == SortEntries(NormalizeEntries(es))
  {
    if es.Entry? {
      SortCommutes(es.rest);
      InsertCommutes(es.key, es.value, SortEntries(es.rest));
    }
  }

  lemma {:induction false} NormalizeIdempotent(v: Value)
    requires WellFormed(v)
    ensures Normalize(Normalize(v)) == Normalize(v)
    decreases v
  {
    match v
    case List(items) => AllIdempotent(items);
    case Tuple(items) => AllIdempotent(items);
    case Dict(es) =>
      EntriesIdempotent(es);
      NormalDict(es, "");
      var n := NormalizeEntries(es);
      SortCommutes(n);
      SortSorted(SortEntries(n));
    case _ =>
  }

  lemma {:induction false} AllIdempotent(vs: Values)
    requires AllWellFormed(vs)
    ensures NormalizeAll(NormalizeAll(vs)) == NormalizeAll(vs)
    decreases vs
  {
    if vs.Cons? {
      NormalizeIdempotent(vs.head);
      AllIdempotent(vs.tail);
    }
  }

  lemma {:induction false} EntriesIdempotent(es: Entries)
    requires EntriesWellFormed(es)
    ensures NormalizeEntries(NormalizeEntries(es)) == NormalizeEntries(es)
    decreases es
  {
    if es.Entry? {
      NormalizeIdempotent(es.value);
      EntriesIdempotent(es.rest);
    }
  }
}
