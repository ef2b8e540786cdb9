/** The running-maximum selection both goal selectors use: a running maximum
    starts at a floor value, and an entry replaces the current choice only when
    it is STRICTLY greater than the running maximum. */
module Selection {
  import opened Facts

  /** The score column of a table, read off each entry with `score`. */
  function Column<T>(s: seq<T>, score: T -> int): (r: seq<int>)
    ensures |r| == |s|
    ensures forall i :: 0 <= i < |s| ==> r[i] == score(s[i])
  {
    seq(|s|, i requires 0 <= i < |s| => score(s[i]))
  }

  /** Index chosen by that loop over `s`, or None when no entry exceeds `floor`. */
  function FirstMaxAbove(s: seq<int>, floor: int): (r: Option<nat>)
    ensures r.None? <==> forall j :: 0 <= j < |s| ==> s[j] <= floor
    ensures r.Some? ==> r.value < |s| && s[r.value] > floor
    ensures r.Some? ==> forall j :: 0 <= j < |s| ==> s[j] <= s[r.value]
    ensures r.Some? ==> forall j :: 0 <= j < r.value ==> s[j] < s[r.value]
  {
    if s == [] then None
    else
      var prev := FirstMaxAbove(s[..|s| - 1], floor);
      var best := if prev.Some? then s[prev.value] else floor;
      if s[|s| - 1] > best then Some(|s| - 1) else prev
  }

  /** One more step of the running maximum. */
  lemma FirstMaxAboveSnoc(s: seq<int>, x: int, floor: int)
    ensures var prev := FirstMaxAbove(s, floor);
      FirstMaxAbove(s + [x], floor) ==
        if x > (if prev.Some? then s[prev.value] else floor) then Some(|s|) else prev
  {
    assert (s + [x])[..|s|] == s;
  }

  /** The running minimum of `s` that starts at `start` (the source starts at `Int32.MaxValue`). */
  function MinFrom(s: seq<int>, start: int): (m: int)
    ensures m <= start
    ensures forall j :: 0 <= j < |s| ==> m <= s[j]
    ensures m == start || exists j :: 0 <= j < |s| && m == s[j]
  {
    if s == [] then start
    else
      var prev := MinFrom(s[..|s| - 1], start);
      if s[|s| - 1] < prev then s[|s| - 1] else prev
  }

  /** One more step of the running minimum. */
  lemma MinFromSnoc(s: seq<int>, x: int, start: int)
    ensures MinFrom(s + [x], start) == if x < MinFrom(s, start) then x else MinFrom(s, start)
  {
    assert (s + [x])[..|s|] == s;
  }

  /** The largest value of a 32-bit signed integer (`Int32.MaxValue`). */
  const INT32_MAX: int := 0x7FFF_FFFF
}
