/**
 * The avatar helpers (`getInitials`, `getColor`): the letters shown for a
 * profile without a picture, and the background colour picked by hashing the
 * profile id.
 */
module Avatar {
  import opened Wrappers
  import opened Database
  import opened Strings

  // ---------------------------------------------------------------------------
  // Initials
  // ---------------------------------------------------------------------------

  /**
   * `s.split(' ')`: the pieces between single spaces, so repeated, leading
   * or trailing spaces give empty pieces. There is always at least one piece.
   */
  function Split(s: string): (words: seq<string>)
    ensures |words| >= 1
    ensures forall i :: 0 <= i < |words| ==> ' ' !in words[i]
    decreases |s|
  {
    if s == [] then [""]
    else
      var rest := Split(s[1..]);
      if s[0] == ' ' then [""] + rest
      else [[s[0]] + rest[0]] + rest[1..]
  }

  /** `words.join(' ')`. */
  function Join(words: seq<string>): string
    requires |words| >= 1
    decreases |words|
  {
    if |words| == 1 then words[0] else words[0] + " " + Join(words[1..])
  }

  /** Joining the pieces back with single spaces gives the original string. */
  lemma {:induction false} JoinSplit(s: string)
    ensures Join(Split(s)) == s
    decreases |s|
  {
    if s != [] {
      var rest := Split(s[1..]);
      JoinSplit(s[1..]);
      if s[0] == ' ' {
        assert ([""] + rest)[1..] == rest;
      } else {
        var words := [[s[0]] + rest[0]] + rest[1..];
        assert words[1..] == rest[1..];
        if |rest| > 1 {
          assert Join(rest) == rest[0] + " " + Join(rest[1..]);
        }
      }
      assert s == [s[0]] + s[1..];
    }
  }

  /**
   * `.map((n) => n[0]).join('')`: the first character of every piece; an
   * empty piece yields `undefined`, which `join` renders as nothing.
   */
  function Heads(words: seq<string>): (h: string)
    ensures |h| <= |words|
    ensures (forall i :: 0 <= i < |words| ==> words[i] != []) ==>
      |h| == |words| && forall i :: 0 <= i < |words| ==> h[i] == words[i][0]
    decreases |words|
  {
    if words == [] then []
    else (if words[0] == [] then [] else [words[0][0]]) + Heads(words[1..])
  }

  /**
   * The reference definition: the characters of `s` that are not spaces and
   * start a word, that is, come first or right after a space. `atStart` says
   * whether the previous character was a space (or there was none).
   */
  function WordStarts(s: string, atStart: bool): (r: string)
    ensures |r| <= |s|
    ensures forall i :: 0 <= i < |r| ==> r[i] != ' ' && r[i] in s
    decreases |s|
  {
    if s == [] then []
    else if s[0] == ' ' then WordStarts(s[1..], true)
    else (if atStart then [s[0]] else []) + WordStarts(s[1..], false)
  }

  /** Taking the first character of each piece of the split is taking the first character of each word. */
  lemma {:induction false} HeadsOfSplit(s: string)
    ensures Heads(Split(s)) == WordStarts(s, true)
    ensures Heads(Split(s)[1..]) == WordStarts(s, false)
    decreases |s|
  {
    if s != [] {
      var rest := Split(s[1..]);
      HeadsOfSplit(s[1..]);
      if s[0] == ' ' {
        assert ([""] + rest)[1..] == rest;
      } else {
        var words := [[s[0]] + rest[0]] + rest[1..];
        assert words[1..] == rest[1..];
      }
    }
  }

  /** `.slice(0, 2)`: at most the first two characters. */
  function FirstTwo(s: string): (r: string)
    ensures |r| <= 2 && |r| <= |s| && r == s[..|r|]
    ensures |r| == if |s| < 2 then |s| else 2
  {
    if |s| < 2 then s else s[..2]
  }

  /**
   * `getInitials`: from a non-empty display name, the upper-cased first
   * letters of its words, at most two; else the upper-cased first character
   * of a non-empty email; else a question mark.
   */
  function Initials(p: Profile): (r: string)
    ensures |r| <= 2
    ensures IsSet(p.display_name) ==> r == FirstTwo(Upper(WordStarts(p.display_name.value, true)))
    ensures !IsSet(p.display_name) && p.email != "" ==> r == [UpperChar(p.email[0])]
    ensures !IsSet(p.display_name) && p.email == "" ==> r == "?"
  {
    if IsSet(p.display_name) then
      HeadsOfSplit(p.display_name.value);
      FirstTwo(Upper(Heads(Split(p.display_name.value))))
    else if p.email != "" then
      [UpperChar(p.email[0])]
    else
      "?"
  }

  /** A string of spaces starts no word. */
  lemma {:induction false} SpacesStartNoWord(s: string, atStart: bool)
    requires forall i :: 0 <= i < |s| ==> s[i] == ' '
    ensures WordStarts(s, atStart) == []
    decreases |s|
  {
    if s != [] {
      SpacesStartNoWord(s[1..], true);
    }
  }

  /**
   * A display name made only of spaces is truthy, so the email fallback is
   * not taken: the initials are empty.
   */
  lemma SpacesOnlyNameHasNoInitials(p: Profile)
    requires IsSet(p.display_name)
    requires forall i :: 0 <= i < |p.display_name.value| ==> p.display_name.value[i] == ' '
    ensures Initials(p) == ""
  {
    SpacesStartNoWord(p.display_name.value, true);
  }

  // ---------------------------------------------------------------------------
  // Colour
  // ---------------------------------------------------------------------------

  const TwoTo31: int := 0x8000_0000
  const TwoTo32: int := 0x1_0000_0000

  /** ECMAScript ToInt32: the integer congruent to `x` modulo 2^32 in [-2^31, 2^31). */
  function ToInt32(x: int): (r: int)
    ensures -TwoTo31 <= r < TwoTo31
    ensures (r - x) % TwoTo32 == 0
  {
    var m := x % TwoTo32;
    if m >= TwoTo31 then m - TwoTo32 else m
  }

  /**
   * One step of `hash = id.charCodeAt(i) + ((hash << 5) - hash)`: the shift
   * works on the 32-bit view of `hash` and wraps, the addition and
   * subtraction do not.
   */
  function HashStep(h: int, c: char): (r: int)
    ensures (r - (31 * h + c as int)) % TwoTo32 == 0
    ensures c as int - TwoTo31 - h <= r < c as int + TwoTo31 - h
  {
    var t := ToInt32(h);
    var u := ToInt32(t * 32);
    CongruentScaled(t, h, 32);
    CongruentSum(u - t * 32, t * 32 - h * 32);
    c as int + (u - h)
  }

  /**
   * The reference string hash `s[0]·31^(n-1) + … + s[n-1]`, computed in
   * unbounded integers.
   */
  function PolyHash(s: string): int
    decreases |s|
  {
    if s == [] then 0 else 31 * PolyHash(s[..|s| - 1]) + s[|s| - 1] as int
  }

  /**
   * The hash after the loop has consumed every character of `s`, starting
   * from 0. Only the shift wraps, so it agrees with the polynomial hash modulo
   * 2^32 without being reduced itself.
   */
  function Hash(s: string): (h: int)
    ensures (h - PolyHash(s)) % TwoTo32 == 0
    decreases |s|
  {
    if s == [] then 0
    else
      var prev := Hash(s[..|s| - 1]);
      var c := s[|s| - 1];
      CongruentScaled(prev, PolyHash(s[..|s| - 1]), 31);
      CongruentSum(HashStep(prev, c) - (31 * prev + c as int), 31 * prev - 31 * PolyHash(s[..|s| - 1]));
      HashStep(prev, c)
  }

  /** Multiplying both sides keeps a congruence modulo 2^32. */
  lemma CongruentScaled(a: int, b: int, m: int)
    requires (a - b) % TwoTo32 == 0
    ensures (a * m - b * m) % TwoTo32 == 0
  {
    var q := (a - b) / TwoTo32;
    assert a - b == q * TwoTo32;
    assert a * m - b * m == (q * m) * TwoTo32;
  }

  /** Two multiples of 2^32 add up to one. */
  lemma CongruentSum(x: int, y: int)
    requires x % TwoTo32 == 0 && y % TwoTo32 == 0
    ensures (x + y) % TwoTo32 == 0
  {
    assert x == (x / TwoTo32) * TwoTo32;
    assert y == (y / TwoTo32) * TwoTo32;
    assert x + y == (x / TwoTo32 + y / TwoTo32) * TwoTo32;
  }

  /** The largest character code. */
  const MaxCharCode: int := 0x10_FFFF

  /**
   * The hash grows by less than 2^31 plus a character code per character, so
   * it stays far inside the range where floating-point arithmetic is exact
   * for every id of realistic length.
   */
  lemma {:induction false} HashBound(s: string)
    ensures -|s| * (TwoTo31 + MaxCharCode) <= Hash(s) <= |s| * (TwoTo31 + MaxCharCode)
    decreases |s|
  {
    if s != [] {
      var n := |s| - 1;
      HashBound(s[..n]);
      var h := Hash(s[..n]);
      var shifted := ToInt32(ToInt32(h) * 32);
      assert 0 <= s[n] as int <= MaxCharCode;
      assert Hash(s) == s[n] as int + shifted - h;
      assert n * (TwoTo31 + MaxCharCode) + (TwoTo31 + MaxCharCode) == |s| * (TwoTo31 + MaxCharCode);
    }
  }

  /** The eight colour classes, in order. */
  const Colors: seq<string> := [
    "bg-red-200 text-red-800",
    "bg-blue-200 text-blue-800",
    "bg-green-200 text-green-800",
    "bg-yellow-200 text-yellow-800",
    "bg-purple-200 text-purple-800",
    "bg-pink-200 text-pink-800",
    "bg-indigo-200 text-indigo-800",
    "bg-orange-200 text-orange-800"
  ]

  function Abs(x: int): nat { if x < 0 then -x else x }

  /** The colour `getColor` picks: `colors[Math.abs(hash) % colors.length]`, always one of the eight. */
  function ColorOf(id: string): (color: string)
    ensures color in Colors
    ensures id == "" ==> color == Colors[0]
  {
    Colors[Abs(Hash(id)) % |Colors|]
  }

  /** `getColor`: the hashing loop over the id's characters, then the table lookup. */
  method GetColor(id: string) returns (color: string)
    ensures color == ColorOf(id)
    ensures color in Colors
  {
    var hash := 0;
    var i := 0;
    while i < |id|
      invariant 0 <= i <= |id|
      invariant hash == Hash(id[..i])
    {
      assert id[..i + 1][..i] == id[..i];
      hash := id[i] as int + (ToInt32(ToInt32(hash) * 32) - hash);
      i := i + 1;
    }
    assert id[..i] == id;
    color := Colors[Abs(hash) % |Colors|];
  }
}
