/** Python's `max` and `min` over a non-empty sequence of reals, and of two values. */
module Extrema {
  /** The largest value of a non-empty sequence. */
  function Max(s: seq<real>): real
    requires s != []
  {
    if |s| == 1 then s[0]
    else
      var m := Max(s[..|s| - 1]);
      if s[|s| - 1] > m then s[|s| - 1] else m
  }

  /** The smallest value of a non-empty sequence. */
  function Min(s: seq<real>): real
    requires s != []
  {
    if |s| == 1 then s[0]
    else
      var m := Min(s[..|s| - 1]);
      if s[|s| - 1] < m then s[|s| - 1] else m
  }

  /** `Max` is attained at some index and bounds every entry. */
  lemma {:induction false} MaxIsLargest(s: seq<real>)
    requires s != []
    ensures exists i | 0 <= i < |s| :: s[i] == Max(s)
    ensures forall i | 0 <= i < |s| :: s[i] <= Max(s)
  {
    if |s| > 1 {
      var init := s[..|s| - 1];
      MaxIsLargest(init);
      assert forall i | 0 <= i < |init| :: init[i] == s[i];
      var k :| 0 <= k < |init| && init[k] == Max(init);
      if Max(s) != Max(init) {
        assert s[|s| - 1] == Max(s);
      } else {
        assert s[k] == Max(s);
      }
    } else {
      assert s[0] == Max(s);
    }
  }

  /** `Min` is attained at some index and is bounded by every entry. */
  lemma {:induction false} MinIsSmallest(s: seq<real>)
    requires s != []
    ensures exists i | 0 <= i < |s| :: s[i] == Min(s)
    ensures forall i | 0 <= i < |s| :: Min(s) <= s[i]
  {
    if |s| > 1 {
      var init := s[..|s| - 1];
      MinIsSmallest(init);
      assert forall i | 0 <= i < |init| :: init[i] == s[i];
      var k :| 0 <= k < |init| && init[k] == Min(init);
      if Min(s) != Min(init) {
        assert s[|s| - 1] == Min(s);
      } else {
        assert s[k] == Min(s);
      }
    } else {
      assert s[0] == Min(s);
    }
  }

  /** `max(a, b)`. */
  function Larger(a: real, b: real): (m: real)
    ensures a <= m && b <= m && (m == a || m == b)
  {
    if b > a then b else a
  }

  /** `abs(x)`. */
  function Abs(x: real): (r: real)
    ensures r >= 0.0 && (r == x || r == -x)
  {
    if x < 0.0 then -x else x
  }
}
