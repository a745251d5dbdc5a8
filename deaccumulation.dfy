/** Turning a cumulative series (precipitation accumulated since the last
    reset) into per-step increments, along one time axis of one grid cell.
    main.py does this on whole arrays with `diff` along `valid_time` and then
    `where`; here the series is a sequence of integers. */
module Deaccumulation {

  /** One step: the difference to the previous value, or the value itself
      when the difference is negative, since the accumulation was reset. */
  function Increment(previous: int, current: int): (d: int)
    ensures previous <= current ==> d == current - previous
    ensures current < previous ==> d == current
    ensures current >= 0 ==> d >= 0
    ensures previous >= 0 && current >= 0 ==> d <= current
  {
    if current - previous < 0 then current else current - previous
  }

  /** `diff` followed by `where(diffs < 0, c[1:], diffs)`. */
  function Deaccumulate(c: seq<int>): (d: seq<int>)
    ensures |d| == if c == [] then 0 else |c| - 1
  {
    if |c| < 2 then [] else [Increment(c[0], c[1])] + Deaccumulate(c[1..])
  }

  /** Element i of the result: the difference `c[i+1] - c[i]` when it is not
      negative, and the value `c[i+1]` after a reset. */
  lemma {:induction false} DeaccumulateAt(c: seq<int>, i: nat)
    requires i + 1 < |c|
    ensures Deaccumulate(c)[i] == if c[i + 1] - c[i] >= 0 then c[i + 1] - c[i] else c[i + 1]
  {
    if i > 0 {
      DeaccumulateAt(c[1..], i - 1);
    }
  }

  /** Each increment depends on its two neighbouring inputs only. */
  lemma DeaccumulateIsLocal(c: seq<int>, c': seq<int>, i: nat)
    requires i + 1 < |c| && i + 1 < |c'|
    requires c[i] == c'[i] && c[i + 1] == c'[i + 1]
    ensures Deaccumulate(c)[i] == Deaccumulate(c')[i]
  {
    DeaccumulateAt(c, i);
    DeaccumulateAt(c', i);
  }

  /** Non-negative accumulations give non-negative increments, none larger
      than the accumulated value they came from. */
  lemma DeaccumulateNonNegative(c: seq<int>)
    requires forall i :: 0 <= i < |c| ==> c[i] >= 0
    ensures forall i :: 0 <= i < |Deaccumulate(c)| ==> 0 <= Deaccumulate(c)[i] <= c[i + 1]
  {
    forall i | 0 <= i < |Deaccumulate(c)|
      ensures 0 <= Deaccumulate(c)[i] <= c[i + 1]
    {
      DeaccumulateAt(c, i);
    }
  }

  /** Where the accumulation was reset: the value dropped. */
  function Resets(c: seq<int>): (r: seq<bool>)
    ensures |r| == |Deaccumulate(c)|
  {
    if |c| < 2 then [] else [c[1] < c[0]] + Resets(c[1..])
  }

  /** The inverse: re-accumulate the increments from a first value, restarting
      the running total at every reset. */
  function Reaccumulate(first: int, d: seq<int>, resets: seq<bool>): (c: seq<int>)
    requires |resets| == |d|
    ensures |c| == |d| + 1 && c[0] == first
    decreases d
  {
    if d == [] then [first]
    else [first] + Reaccumulate(if resets[0] then d[0] else first + d[0], d[1..], resets[1..])
  }

  /** De-accumulation loses nothing: knowing the first value and where the
      resets were, the cumulative series is rebuilt exactly. */
  lemma {:induction false} ReaccumulateDeaccumulate(c: seq<int>)
    requires c != []
    ensures Reaccumulate(c[0], Deaccumulate(c), Resets(c)) == c
  {
    if |c| >= 2 {
      ReaccumulateDeaccumulate(c[1..]);
      assert c == [c[0]] + c[1..];
    }
  }

  function Sum(s: seq<int>): int
  {
    if s == [] then 0 else s[0] + Sum(s[1..])
  }

  /** Without a reset the increments add up to the growth of the accumulation
      over the whole series. */
  lemma {:induction false} IncrementsTelescope(c: seq<int>)
    requires c != []
    requires forall i :: 0 <= i < |c| - 1 ==> c[i] <= c[i + 1]
    ensures Sum(Deaccumulate(c)) == c[|c| - 1] - c[0]
  {
    if |c| >= 2 {
      IncrementsTelescope(c[1..]);
    }
  }
}
