/** Reasoning about the times at which a rate-limited action went through: the debounce of
    the origin sync and the cool-down of gateway recovery both record the time of each accepted
    call and refuse the next one until an interval has passed. */
module Timing {
  import opened Text

  /** The accepted time a step contributes to a trace, if any. */
  function Stamped(stamp: Option<int>): (r: seq<int>)
    ensures stamp.None? <==> r == []
    ensures stamp.Some? ==> r == [stamp.value]
  {
    if stamp.Some? then [stamp.value] else []
  }

  function Last(s: seq<int>): int
    requires s != []
  {
    s[|s| - 1]
  }

  /** Each accepted time is at least `gap` after the one before it, the first one at least
      `gap` after `from`. */
  ghost predicate Spaced(from: int, gap: int, stamps: seq<int>) {
    (stamps != [] ==> stamps[0] - from >= gap)
    && (forall i :: 0 <= i < |stamps| - 1 ==> stamps[i + 1] - stamps[i] >= gap)
  }

  /** One more step in front of a spaced trace keeps it spaced, provided the step either
      accepted a time `gap` after `from` and recorded it, or accepted nothing and kept `from`. */
  lemma ConsSpaced(from: int, gap: int, stamp: Option<int>, mid: int, rest: seq<int>)
    requires stamp.Some? ==> stamp.value == mid && mid - from >= gap
    requires stamp.None? ==> mid == from
    requires Spaced(mid, gap, rest)
    ensures Spaced(from, gap, Stamped(stamp) + rest)
    ensures rest != [] ==> Last(Stamped(stamp) + rest) == Last(rest)
    ensures rest == [] && stamp.Some? ==> Last(Stamped(stamp) + rest) == mid
  {
    var stamps := Stamped(stamp) + rest;
    if stamp.Some? {
      forall i | 0 <= i < |stamps| - 1 ensures stamps[i + 1] - stamps[i] >= gap {
        if i > 0 { assert stamps[i] == rest[i - 1] && stamps[i + 1] == rest[i]; }
      }
    } else {
      assert stamps == rest;
    }
  }
}
