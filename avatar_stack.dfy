/**
 * The member stack (`AvatarStack`): the first `max` members are drawn and a
 * "+n" badge counts the rest.
 */
module AvatarStack {
  import opened Database

  /** `max` when the caller gives none. */
  const DefaultMax: int := 5

  /**
   * The end index `slice(0, end)` uses on a sequence of length `len`: a
   * negative `end` counts back from the length, and the result is clamped to
   * [0, len].
   */
  function SliceEnd(end: int, len: nat): (k: nat)
    ensures k <= len
    ensures end >= 0 ==> k == (if end < len then end else len)
    ensures end < 0 ==> k == (if len + end > 0 then len + end else 0)
  {
    if end < 0 then (if len + end > 0 then len + end else 0)
    else if end < len then end else len
  }

  /** `members.slice(0, max)`: a prefix of the members. */
  function Visible(members: seq<Profile>, max: int): (v: seq<Profile>)
    ensures |v| <= |members| && v == members[..|v|]
    ensures max >= 0 ==> |v| == (if max < |members| then max else |members|)
  {
    members[..SliceEnd(max, |members|)]
  }

  /**
   * `members.length - max`, which may be zero or negative: for a
   * non-negative `max` it is positive exactly when some members are not
   * drawn, and then it counts them.
   */
  function Overflow(members: seq<Profile>, max: int): (o: int)
    ensures o > 0 <==> max < |members|
    ensures max >= 0 && o >= 0 ==> o == |members| - |Visible(members, max)|
    ensures max >= 0 && o <= 0 ==> Visible(members, max) == members
  {
    assert members[..|members|] == members;
    |members| - max
  }

  /** `overflow > 0`: the badge is drawn exactly when there are more members than `max`. */
  function ShowsBadge(members: seq<Profile>, max: int): (b: bool)
    ensures b <==> |members| > max
    ensures b && max >= 0 ==> Visible(members, max) != members
  {
    Overflow(members, max) > 0
  }

  /**
   * With no `max` given, at most the first five members are drawn and the
   * badge appears exactly when there are more than five.
   */
  lemma DefaultStackShowsFive(members: seq<Profile>)
    ensures Visible(members, DefaultMax) == members[..if |members| < 5 then |members| else 5]
    ensures ShowsBadge(members, DefaultMax) <==> |members| > 5
    ensures ShowsBadge(members, DefaultMax) ==> Overflow(members, DefaultMax) == |members| - 5
  {
  }

  /**
   * For any non-negative `max`, the badge appears exactly when some members
   * are not drawn, and then the drawn avatars plus the badge's count are all
   * the members; without a badge every member is drawn.
   */
  lemma BadgeCountsTheRest(members: seq<Profile>, max: int)
    requires max >= 0
    ensures ShowsBadge(members, max) <==> |Visible(members, max)| < |members|
    ensures ShowsBadge(members, max) ==> |Visible(members, max)| + Overflow(members, max) == |members|
    ensures !ShowsBadge(members, max) ==> Visible(members, max) == members
  {
    var v := Visible(members, max);
    if !ShowsBadge(members, max) {
      assert |v| == |members|;
      assert members[..|members|] == members;
    }
  }

  /**
   * A negative `max` is not rejected: it hides the last `-max` members and
   * still shows a badge counting more than are hidden.
   */
  lemma NegativeMaxHidesFromTheEnd(members: seq<Profile>, max: int)
    requires max < 0 && |members| + max > 0
    ensures Visible(members, max) == members[..|members| + max]
    ensures Overflow(members, max) > |members| - |Visible(members, max)|
  {
  }
}
