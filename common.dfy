/** Small shared vocabulary: bytes, optional values, byte-string helpers and
    the ascending order of a finite set of part numbers, with sums over it. */
module Common {

  type Byte = b: int | 0 <= b < 256

  /** A positive count (worker counts, divisors). */
  type Pos = n: int | n >= 1 witness 1

  datatype Option<T> = None | Some(value: T) {
    function GetOr(default: T): T {
      if Some? then value else default
    }
  }

  /** `n` zero bytes. */
  function Zeros(n: nat): (z: seq<Byte>)
    ensures |z| == n && forall i :: 0 <= i < n ==> z[i] == 0
  {
    seq(n, _ => 0)
  }

  /** The concatenation of a sequence of byte blocks, in order. */
  function Flatten(blocks: seq<seq<Byte>>): seq<Byte>
  {
    if blocks == [] then [] else blocks[0] + Flatten(blocks[1..])
  }

  lemma {:induction false} FlattenAppend(a: seq<seq<Byte>>, b: seq<seq<Byte>>)
    ensures Flatten(a + b) == Flatten(a) + Flatten(b)
  {
    if a == [] {
      assert a + b == b;
    } else {
      assert (a + b)[0] == a[0];
      assert (a + b)[1..] == a[1..] + b;
      FlattenAppend(a[1..], b);
      assert a[0] + (Flatten(a[1..]) + Flatten(b)) == (a[0] + Flatten(a[1..])) + Flatten(b);
    }
  }

  lemma FlattenSnoc(blocks: seq<seq<Byte>>, b: seq<Byte>)
    ensures Flatten(blocks + [b]) == Flatten(blocks) + b
  {
    FlattenAppend(blocks, [b]);
    assert Flatten([b]) == b + Flatten([]);
  }

  /** The numbers lo, lo+1, ..., hi-1. */
  function Interval(lo: nat, hi: nat): (r: seq<nat>)
    ensures |r| == if lo <= hi then hi - lo else 0
    ensures forall i :: 0 <= i < |r| ==> r[i] == lo + i
    decreases hi - lo
  {
    if lo >= hi then [] else [lo] + Interval(lo + 1, hi)
  }

  // ---------------------------------------------------------------------------
  // Ascending order of a set of part numbers

  /** The least element of a non-empty set. */
  ghost function MinOf(s: set<nat>): (m: nat)
    requires s != {}
    ensures m in s && forall x :: x in s ==> m <= x
    decreases s
  {
    var x :| x in s;
    var rest := s - {x};
    if rest == {} then
      assert forall y :: y in s ==> y == x || y in rest;
      x
    else
      var r := MinOf(rest);
      assert forall y :: y in s ==> y == x || y in rest;
      if x < r then x else r
  }

  /** The elements of `s` in ascending order. */
  ghost function Ascending(s: set<nat>): seq<nat>
    decreases s
  {
    if s == {} then [] else [MinOf(s)] + Ascending(s - {MinOf(s)})
  }

  /** The executable way the model walks a key set in ascending order: pick
      the smallest remaining key. */
  method PickMin(s: set<nat>) returns (k: nat)
    requires s != {}
    ensures k == MinOf(s)
  {
    var m := MinOf(s);
    k :| k in s && forall x :: x in s ==> k <= x;
    assert k <= MinOf(s) && MinOf(s) <= k;
  }

  /** A sequence that lists each element of a set once, in strictly ascending order. */
  ghost predicate SortedEnumeration(t: seq<nat>, s: set<nat>) {
    && |t| == |s|
    && (forall i :: 0 <= i < |t| ==> t[i] in s)
    && (forall k :: k in s ==> k in t)
    && (forall i, j :: 0 <= i < j < |t| ==> t[i] < t[j])
  }

  lemma {:induction false} AscendingIsSortedEnumeration(s: set<nat>)
    ensures SortedEnumeration(Ascending(s), s)
    decreases s
  {
    if s != {} {
      var m := MinOf(s);
      var rest := s - {m};
      AscendingIsSortedEnumeration(rest);
      assert Ascending(s) == [m] + Ascending(rest);
      ConsSorted(s, m, rest, Ascending(rest));
    }
  }

  /** Putting the minimum in front of a sorted enumeration of the rest. */
  lemma ConsSorted(s: set<nat>, m: nat, rest: set<nat>, t: seq<nat>)
    requires m in s && (forall x :: x in s ==> m <= x) && rest == s - {m}
    requires SortedEnumeration(t, rest)
    ensures SortedEnumeration([m] + t, s)
  {
    var r := [m] + t;
    assert |s| == |rest| + 1;
    forall i | 0 <= i < |r| ensures r[i] in s {
      if i > 0 { assert r[i] == t[i - 1]; }
    }
    forall k | k in s ensures k in r {
      if k != m {
        assert k in rest;
      }
    }
    forall i, j | 0 <= i < j < |r| ensures r[i] < r[j] {
      assert r[j] == t[j - 1];
      assert t[j - 1] in rest;
      if i > 0 {
        assert r[i] == t[i - 1];
      }
    }
  }

  /** The set {lo, ..., hi-1}. */
  function Span(lo: nat, hi: nat): (r: set<nat>)
    ensures forall k :: k in r <==> lo <= k < hi
    decreases hi - lo
  {
    if lo >= hi then {} else {lo} + Span(lo + 1, hi)
  }

  /** The keys lo, ..., hi-1 in ascending order are Interval(lo, hi). */
  lemma {:induction false} AscendingOfSpan(lo: nat, hi: nat)
    ensures Ascending(Span(lo, hi)) == Interval(lo, hi)
    decreases hi - lo
  {
    var s := Span(lo, hi);
    if lo < hi {
      var m := MinOf(s);
      assert lo in s;
      assert m == lo;
      var rest := Span(lo + 1, hi);
      assert s - {lo} == rest by {
        forall k ensures k in s - {lo} <==> k in rest {
        }
      }
      AscendingOfSpan(lo + 1, hi);
      assert Ascending(s) == [lo] + Ascending(rest);
    } else {
      assert s == {} by {
        forall k ensures k !in s { }
      }
    }
  }

  // ---------------------------------------------------------------------------
  // Sums over a map from part numbers to counters

  function Get(m: map<nat, int>, k: nat): int {
    if k in m then m[k] else 0
  }

  /** Sum of m[k] for k in ks (absent keys count 0). */
  function SumAt(m: map<nat, int>, ks: seq<nat>): int
  {
    if ks == [] then 0 else Get(m, ks[0]) + SumAt(m, ks[1..])
  }

  /** Sum of all values of `m` (Python: sum(m.values())). */
  ghost function Total(m: map<nat, int>): int {
    SumAt(m, Ascending(m.Keys))
  }

  /** Computes Total(m) by walking the keys in ascending order. */
  method SumValues(m: map<nat, int>) returns (total: int)
    ensures total == Total(m)
  {
    var rest := m.Keys;
    total := 0;
    while rest != {}
      invariant total + SumAt(m, Ascending(rest)) == Total(m)
      decreases rest
    {
      var k := PickMin(rest);
      total := total + Get(m, k);
      rest := rest - {k};
    }
  }

  lemma {:induction false} SumAtZero(m: map<nat, int>, ks: seq<nat>)
    requires forall i :: 0 <= i < |ks| ==> Get(m, ks[i]) == 0
    ensures SumAt(m, ks) == 0
  {
    if ks != [] {
      SumAtZero(m, ks[1..]);
    }
  }

  /** Two maps that agree on the listed keys have the same sum over them. */
  lemma {:induction false} SumAtAgree(m1: map<nat, int>, m2: map<nat, int>, ks: seq<nat>)
    requires forall i :: 0 <= i < |ks| ==> Get(m1, ks[i]) == Get(m2, ks[i])
    ensures SumAt(m1, ks) == SumAt(m2, ks)
  {
    if ks != [] {
      SumAtAgree(m1, m2, ks[1..]);
    }
  }
}
