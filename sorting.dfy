/** The app sorts with `Array.prototype.sort` and subtraction comparators such as
    `(a, b) => a.timestamp - b.timestamp`. That sort is stable, and a comparator that
    subtracts keys (where a missing due date is ±Infinity and Infinity - Infinity,
    being NaN, counts as "equal") sorts by the key in the extended integers.
    A descending comparator `b.k - a.k` is the same stable sort on the negated key. */
module Sorting {

  /** Integers extended with -Infinity and +Infinity. */
  datatype ExtInt = NegInf | Fin(n: int) | PosInf

  predicate ExtLe(a: ExtInt, b: ExtInt)
  {
    a.NegInf? || b.PosInf? || (a.Fin? && b.Fin? && a.n <= b.n)
  }

  function Negate(a: ExtInt): ExtInt
  {
    match a
    case NegInf => PosInf
    case PosInf => NegInf
    case Fin(x) => Fin(-x)
  }

  /** `s` is in ascending order of `key`. */
  predicate SortedBy<T>(s: seq<T>, key: T -> ExtInt)
  {
    forall i, j :: 0 <= i < j < |s| ==> ExtLe(key(s[i]), key(s[j]))
  }

  /** `s` is in descending order of `key`. */
  predicate SortedDescBy<T>(s: seq<T>, key: T -> ExtInt)
  {
    forall i, j :: 0 <= i < j < |s| ==> ExtLe(key(s[j]), key(s[i]))
  }

  /** Inserts `x` in front of the first element whose key is not below `x`'s key. */
  function Insert<T>(x: T, s: seq<T>, key: T -> ExtInt): (r: seq<T>)
    requires SortedBy(s, key)
    ensures |r| == |s| + 1
    ensures SortedBy(r, key)
    ensures multiset(r) == multiset(s) + multiset{x}
  {
    if s == [] then [x]
    else if ExtLe(key(x), key(s[0])) then [x] + s
    else
      var rest := Insert(x, s[1..], key);
      assert s == [s[0]] + s[1..];
      LowerBound(key(s[0]), x, s[1..], rest, key);
      [s[0]] + rest
  }

  /** A lower bound of `x`'s key and of every key in `s` bounds every key of a
      sequence holding the same elements as `s` plus `x`. */
  lemma LowerBound<T>(lo: ExtInt, x: T, s: seq<T>, r: seq<T>, key: T -> ExtInt)
    requires ExtLe(lo, key(x))
    requires forall i :: 0 <= i < |s| ==> ExtLe(lo, key(s[i]))
    requires multiset(r) == multiset(s) + multiset{x}
    ensures forall i :: 0 <= i < |r| ==> ExtLe(lo, key(r[i]))
  {
    forall i | 0 <= i < |r| ensures ExtLe(lo, key(r[i])) {
      assert r[i] in multiset(r);
      if r[i] != x {
        assert r[i] in multiset(s);
        var j :| 0 <= j < |s| && s[j] == r[i];
      }
    }
  }

  /** The stable ascending sort of `s` by `key` (JavaScript `sort` with `(a, b) => key(a) - key(b)`). */
  function SortBy<T>(s: seq<T>, key: T -> ExtInt): (r: seq<T>)
    ensures |r| == |s|
    ensures SortedBy(r, key)
    ensures multiset(r) == multiset(s)
  {
    if s == [] then []
    else
      assert s == [s[0]] + s[1..];
      Insert(s[0], SortBy(s[1..], key), key)
  }

  /** The stable descending sort of `s` by `key` (JavaScript `sort` with `(a, b) => key(b) - key(a)`). */
  function SortDescBy<T>(s: seq<T>, key: T -> ExtInt): (r: seq<T>)
    ensures |r| == |s|
    ensures SortedDescBy(r, key)
    ensures multiset(r) == multiset(s)
  {
    var r := SortBy(s, x => Negate(key(x)));
    assert forall i, j :: 0 <= i < j < |r| ==> ExtLe(Negate(key(r[i])), Negate(key(r[j])));
    r
  }

  /** The elements of `s` whose key is `k`, in their order in `s`. */
  function Select<T>(s: seq<T>, key: T -> ExtInt, k: ExtInt): (r: seq<T>)
    ensures |r| <= |s|
  {
    if s == [] then [] else (if key(s[0]) == k then [s[0]] else []) + Select(s[1..], key, k)
  }

  lemma {:induction false} InsertSelect<T>(x: T, s: seq<T>, key: T -> ExtInt, k: ExtInt)
    requires SortedBy(s, key)
    ensures Select(Insert(x, s, key), key, k) ==
            if key(x) == k then [x] + Select(s, key, k) else Select(s, key, k)
  {
    if s == [] {
      SelectCons(x, [], key, k);
    } else if ExtLe(key(x), key(s[0])) {
      assert Insert(x, s, key) == [x] + s;
      SelectCons(x, s, key, k);
    } else {
      var rest := Insert(x, s[1..], key);
      assert Insert(x, s, key) == [s[0]] + rest;
      InsertSelect(x, s[1..], key, k);
      SelectCons(s[0], rest, key, k);
      assert s == [s[0]] + s[1..];
      SelectCons(s[0], s[1..], key, k);
    }
  }

  lemma SelectCons<T>(h: T, t: seq<T>, key: T -> ExtInt, k: ExtInt)
    ensures Select([h] + t, key, k) == (if key(h) == k then [h] else []) + Select(t, key, k)
  {
    assert ([h] + t)[1..] == t;
  }

  /** Stability: elements with equal keys keep their relative order. */
  lemma {:induction false} SortByStable<T>(s: seq<T>, key: T -> ExtInt, k: ExtInt)
    ensures Select(SortBy(s, key), key, k) == Select(s, key, k)
  {
    if s != [] {
      SortByStable(s[1..], key, k);
      InsertSelect(s[0], SortBy(s[1..], key), key, k);
    }
  }

  lemma SortDescByStable<T>(s: seq<T>, key: T -> ExtInt, k: ExtInt)
    ensures Select(SortDescBy(s, key), key, k) == Select(s, key, k)
  {
    var nk := x => Negate(key(x));
    SortByStable(s, nk, Negate(k));
    SelectNegate(SortBy(s, nk), key, k);
    SelectNegate(s, key, k);
  }

  lemma {:induction false} SelectNegate<T>(s: seq<T>, key: T -> ExtInt, k: ExtInt)
    ensures Select(s, x => Negate(key(x)), Negate(k)) == Select(s, key, k)
  {
    if s != [] {
      SelectNegate(s[1..], key, k);
    }
  }

  /** Sorting an already sorted sequence changes nothing. */
  lemma {:induction false} SortBySorted<T>(s: seq<T>, key: T -> ExtInt)
    requires SortedBy(s, key)
    ensures SortBy(s, key) == s
  {
    if s != [] {
      SortBySorted(s[1..], key);
      assert s == [s[0]] + s[1..];
    }
  }

  function Reverse<T>(s: seq<T>): (r: seq<T>)
    ensures |r| == |s|
    ensures forall i :: 0 <= i < |s| ==> r[i] == s[|s| - 1 - i]
  {
    if s == [] then [] else Reverse(s[1..]) + [s[0]]
  }

  /** An element whose key is strictly above every key of `s` goes to the end. */
  lemma {:induction false} InsertAtEnd<T>(x: T, s: seq<T>, key: T -> ExtInt)
    requires SortedBy(s, key)
    requires forall i :: 0 <= i < |s| ==> !ExtLe(key(x), key(s[i]))
    ensures Insert(x, s, key) == s + [x]
  {
    if s != [] {
      InsertAtEnd(x, s[1..], key);
      assert s == [s[0]] + s[1..];
    }
  }

  /** The keys of `s` strictly decrease. */
  predicate StrictlyDecreasing<T>(s: seq<T>, key: T -> ExtInt)
  {
    forall i, j :: 0 <= i < j < |s| ==> !ExtLe(key(s[i]), key(s[j]))
  }

  lemma StrictlyDecreasingTail<T>(s: seq<T>, key: T -> ExtInt)
    requires |s| > 0 && StrictlyDecreasing(s, key)
    ensures StrictlyDecreasing(s[1..], key)
    ensures forall i :: 0 <= i < |Reverse(s[1..])| ==> !ExtLe(key(s[0]), key(Reverse(s[1..])[i]))
  {
    var t := s[1..];
    forall i, j | 0 <= i < j < |t| ensures !ExtLe(key(t[i]), key(t[j])) {
      assert t[i] == s[i + 1] && t[j] == s[j + 1];
    }
    var rest := Reverse(t);
    forall i | 0 <= i < |rest| ensures !ExtLe(key(s[0]), key(rest[i])) {
      assert rest[i] == s[|s| - 1 - i];
    }
  }

  /** Sorting a sequence whose keys strictly decrease reverses it. */
  lemma {:induction false} SortByStrictlyDecreasing<T>(s: seq<T>, key: T -> ExtInt)
    requires StrictlyDecreasing(s, key)
    ensures SortBy(s, key) == Reverse(s)
  {
    if s != [] {
      StrictlyDecreasingTail(s, key);
      SortByStrictlyDecreasing(s[1..], key);
      InsertAtEnd(s[0], Reverse(s[1..]), key);
    }
  }

  /** Sorting a sequence whose keys strictly increase into descending order reverses it. */
  lemma SortDescByStrictlyIncreasing<T>(s: seq<T>, key: T -> ExtInt)
    requires forall i, j :: 0 <= i < j < |s| ==> !ExtLe(key(s[j]), key(s[i]))
    ensures SortDescBy(s, key) == Reverse(s)
  {
    SortByStrictlyDecreasing(s, x => Negate(key(x)));
  }

  /** The descending sort of a sequence already in descending order is the sequence. */
  lemma SortDescBySorted<T>(s: seq<T>, key: T -> ExtInt)
    requires SortedDescBy(s, key)
    ensures SortDescBy(s, key) == s
  {
    SortBySorted(s, x => Negate(key(x)));
  }
}
