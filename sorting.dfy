/**
  Sorting by a caller-given total preorder. The analysed code sorts file names
  (`sorted`) and file times (`np.argsort`); both promise an ordered permutation
  of the input and nothing about the relative order of equivalent elements.
 */
module Sorting {
  import Strings

  /** `le` is total and transitive. */
  ghost predicate TotalPreorder<T(!new)>(le: (T, T) -> bool) {
    && (forall a, b :: le(a, b) || le(b, a))
    && (forall a, b, c :: le(a, b) && le(b, c) ==> le(a, c))
  }

  predicate SortedBy<T>(s: seq<T>, le: (T, T) -> bool) {
    forall i, j | 0 <= i < j < |s| :: le(s[i], s[j])
  }

  /** Places `x` in front of the first element it precedes. */
  function Insert<T(!new)>(x: T, s: seq<T>, le: (T, T) -> bool): (r: seq<T>)
    requires TotalPreorder(le) && SortedBy(s, le)
    ensures SortedBy(r, le)
    ensures multiset(r) == multiset(s) + multiset{x}
  {
    if s == [] then [x]
    else if le(x, s[0]) then [x] + s
    else
      var rest := Insert(x, s[1..], le);
      assert s == [s[0]] + s[1..];
      HeadPrecedes(x, s, rest, le);
      [s[0]] + rest
  }

  /** The head of a sorted `s` that `x` does not precede precedes every element of `s[1..]` with `x` added. */
  lemma HeadPrecedes<T(!new)>(x: T, s: seq<T>, rest: seq<T>, le: (T, T) -> bool)
    requires TotalPreorder(le) && SortedBy(s, le) && s != [] && !le(x, s[0])
    requires multiset(rest) == multiset(s[1..]) + multiset{x}
    ensures forall i | 0 <= i < |rest| :: le(s[0], rest[i])
  {
    forall i | 0 <= i < |rest| ensures le(s[0], rest[i]) {
      assert rest[i] in multiset(rest);
      if rest[i] != x {
        assert rest[i] in multiset(s[1..]);
        var k :| 0 <= k < |s[1..]| && s[1..][k] == rest[i];
        assert s[k + 1] == rest[i];
      }
    }
  }

  /** An ordered permutation of `s` (insertion sort). */
  function Sort<T(!new)>(s: seq<T>, le: (T, T) -> bool): (r: seq<T>)
    requires TotalPreorder(le)
    ensures SortedBy(r, le)
    ensures multiset(r) == multiset(s)
    ensures |r| == |s|
  {
    if s == [] then []
    else
      assert s == [s[0]] + s[1..];
      var r := Insert(s[0], Sort(s[1..], le), le);
      assert |r| == |multiset(r)|;
      r
  }

  /** Python's ordering of strings, as a relation `Sort` accepts. */
  function NameOrder(): (le: (string, string) -> bool)
    ensures TotalPreorder(le)
    ensures forall a, b :: le(a, b) == Strings.StrLe(a, b)
  {
    var le := (a: string, b: string) => Strings.StrLe(a, b);
    assert forall a, b :: le(a, b) || le(b, a) by {
      forall a, b ensures le(a, b) || le(b, a) { Strings.StrLeTotal(a, b); }
    }
    assert forall a, b, c :: le(a, b) && le(b, c) ==> le(a, c) by {
      forall a, b, c | le(a, b) && le(b, c) ensures le(a, c) { Strings.StrLeTransitive(a, b, c); }
    }
    le
  }

  /** Python's `sorted(names)`. */
  function SortNames(names: seq<string>): (r: seq<string>)
    ensures multiset(r) == multiset(names) && |r| == |names|
    ensures forall i, j | 0 <= i < j < |r| :: Strings.StrLe(r[i], r[j])
  {
    Sort(names, NameOrder())
  }
}
