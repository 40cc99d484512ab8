/**
 * The handful of Python string operations the game and the SMS classifier
 * rely on: `str.lower`, `str.upper`, `str.strip`, the `in` substring test and
 * `any(w in s for w in words)`. Case mapping is modelled for ASCII letters;
 * the whitespace set is Python's own (`str.isspace`).
 */
module Text {

  /** Python's whitespace characters: those `str.strip()` removes by default. */
  predicate IsSpace(c: char)
    ensures c == ' ' || c == '\t' || c == '\n' || c == '\r' ==> IsSpace(c)
    ensures IsSpace(c) ==> !IsAsciiUpper(c) && !IsAsciiLower(c) && !('0' <= c <= '9')
  {
    var n := c as int;
    || (9 <= n <= 13)          // \t \n \v \f \r
    || (0x1C <= n <= 0x20)     // file/group/record/unit separators and space
    || n == 0x85 || n == 0xA0 || n == 0x1680
    || (0x2000 <= n <= 0x200A)
    || n == 0x2028 || n == 0x2029 || n == 0x202F || n == 0x205F || n == 0x3000
  }

  ghost predicate AllSpace(s: string) {
    forall k :: 0 <= k < |s| ==> IsSpace(s[k])
  }

  predicate IsAsciiUpper(c: char) { 'A' <= c <= 'Z' }
  predicate IsAsciiLower(c: char) { 'a' <= c <= 'z' }

  function LowerChar(c: char): (d: char)
    ensures IsAsciiUpper(c) ==> IsAsciiLower(d) && d as int == c as int + 32
    ensures !IsAsciiUpper(c) ==> d == c
  {
    if IsAsciiUpper(c) then (c as int + 32) as char else c
  }

  function UpperChar(c: char): (d: char)
    ensures IsAsciiLower(c) ==> IsAsciiUpper(d) && d as int == c as int - 32
    ensures !IsAsciiLower(c) ==> d == c
  {
    if IsAsciiLower(c) then (c as int - 32) as char else c
  }

  /** `s.lower()`: same length, each letter mapped on its own. */
  function Lower(s: string): (r: string)
    ensures |r| == |s|
    ensures forall k :: 0 <= k < |s| ==> r[k] == LowerChar(s[k])
  {
    seq(|s|, k requires 0 <= k < |s| => LowerChar(s[k]))
  }

  /** `s.upper()`. */
  function Upper(s: string): (r: string)
    ensures |r| == |s|
    ensures forall k :: 0 <= k < |s| ==> r[k] == UpperChar(s[k])
  {
    seq(|s|, k requires 0 <= k < |s| => UpperChar(s[k]))
  }

  lemma LowerAppend(a: string, b: string)
    ensures Lower(a + b) == Lower(a) + Lower(b)
  {
    assert forall k :: 0 <= k < |a + b| ==> Lower(a + b)[k] == (Lower(a) + Lower(b))[k];
  }

  /** Whitespace has no case, so `lower` leaves it alone. */
  lemma LowerKeepsSpace(w: string)
    requires AllSpace(w)
    ensures Lower(w) == w
  {
  }

  /** Number of whitespace characters at the front of `s`. */
  function LeadingSpaces(s: string): (n: nat)
    ensures n <= |s|
    ensures forall k :: 0 <= k < n ==> IsSpace(s[k])
    ensures n < |s| ==> !IsSpace(s[n])
    decreases |s|
  {
    if |s| > 0 && IsSpace(s[0]) then 1 + LeadingSpaces(s[1..]) else 0
  }

  /** Number of whitespace characters at the back of `s`. */
  function TrailingSpaces(s: string): (n: nat)
    ensures n <= |s|
    ensures forall k :: |s| - n <= k < |s| ==> IsSpace(s[k])
    ensures n < |s| ==> !IsSpace(s[|s| - n - 1])
    decreases |s|
  {
    if |s| > 0 && IsSpace(s[|s| - 1]) then 1 + TrailingSpaces(s[..|s| - 1]) else 0
  }

  /** `s[i..j]` is a candidate for `s.strip()`: only whitespace lies outside it. */
  ghost predicate Bordered(s: string, i: int, j: int) {
    && 0 <= i <= j <= |s|
    && (forall k :: 0 <= k < i ==> IsSpace(s[k]))
    && (forall k :: j <= k < |s| ==> IsSpace(s[k]))
  }

  /** Where the text kept by `strip` begins and ends. */
  function StripBounds(s: string): (b: (nat, nat))
    ensures Bordered(s, b.0, b.1)
    ensures b.0 < b.1 ==> !IsSpace(s[b.0]) && !IsSpace(s[b.1 - 1])
  {
    var lead := LeadingSpaces(s);
    var trail := TrailingSpaces(s[lead..]);
    (lead, |s| - trail)
  }

  /** `s.strip()`: the slice of `s` left once surrounding whitespace is dropped. */
  function Strip(s: string): (r: string)
    ensures exists i, j :: Bordered(s, i, j) && r == s[i..j]
    ensures r == [] || (!IsSpace(r[0]) && !IsSpace(r[|r| - 1]))
  {
    var b := StripBounds(s);
    s[b.0..b.1]
  }

  /** The two ensures of Strip determine its result: any bordered slice with non-blank ends is it. */
  lemma StripUnique(s: string, i: int, j: int)
    requires Bordered(s, i, j)
    requires i == j || (!IsSpace(s[i]) && !IsSpace(s[j - 1]))
    ensures Strip(s) == s[i..j]
  {
    var (i0, j0) := StripBounds(s);
    if i == j {
      // a non-empty result would begin on a character outside s[i..j], where all is blank
      assert i0 == j0;
    } else {
      assert i0 < j0;
      assert i0 == i && j0 == j;
    }
  }

  /** A string that neither begins nor ends with whitespace is its own strip. */
  lemma StripKeepsTrimmed(s: string)
    requires s == [] || (!IsSpace(s[0]) && !IsSpace(s[|s| - 1]))
    ensures Strip(s) == s
  {
    StripUnique(s, 0, |s|);
    assert s[0..|s|] == s;
  }

  /** Surrounding whitespace never changes what `strip` returns. */
  lemma StripIgnoresPadding(front: string, s: string, back: string)
    requires AllSpace(front) && AllSpace(back)
    ensures Strip(front + s + back) == Strip(s)
  {
    var (i, j) := StripBounds(s);
    PaddedStrip(front, s, back, i, j);
    PaddedSlice(front, s, back, i, j);
  }

  /** What `strip` keeps of a padded text is the same stretch as in the unpadded one, shifted. */
  lemma PaddedStrip(front: string, s: string, back: string, i: int, j: int)
    requires AllSpace(front) && AllSpace(back) && Bordered(s, i, j)
    requires i == j || (!IsSpace(s[i]) && !IsSpace(s[j - 1]))
    ensures Strip(front + s + back) == (front + s + back)[|front| + i..|front| + j]
  {
    PaddedBordered(front, s, back, i, j);
    StripUnique(front + s + back, |front| + i, |front| + j);
  }

  /** A bordered slice of `s` stays bordered once whitespace is added around `s`. */
  lemma PaddedBordered(front: string, s: string, back: string, i: int, j: int)
    requires AllSpace(front) && AllSpace(back) && Bordered(s, i, j)
    ensures Bordered(front + s + back, |front| + i, |front| + j)
    ensures i < j ==> !IsSpace(s[i]) && !IsSpace(s[j - 1]) ==>
      !IsSpace((front + s + back)[|front| + i]) && !IsSpace((front + s + back)[|front| + j - 1])
  {
    var t := front + s + back;
    forall k | 0 <= k < |front| + i ensures IsSpace(t[k]) {
      if k < |front| { assert t[k] == front[k]; } else { assert t[k] == s[k - |front|]; }
    }
    forall k | |front| + j <= k < |t| ensures IsSpace(t[k]) {
      if k < |front| + |s| { assert t[k] == s[k - |front|]; } else { assert t[k] == back[k - |front| - |s|]; }
    }
  }

  /** Padding shifts every slice of `s` by the length of the front. */
  lemma PaddedSlice(front: string, s: string, back: string, i: int, j: int)
    requires 0 <= i <= j <= |s|
    ensures (front + s + back)[|front| + i..|front| + j] == s[i..j]
  {
    var t := front + s + back;
    var shifted, slice := t[|front| + i..|front| + j], s[i..j];
    assert forall k :: 0 <= k < |slice| ==> shifted[k] == t[|front| + i + k] == slice[k];
  }

  /** `needle` occurs in `hay` starting at index `i`. */
  predicate OccursAt(hay: string, needle: string, i: int) {
    0 <= i && i + |needle| <= |hay| && hay[i..i + |needle|] == needle
  }

  /** Python's `needle in hay`. */
  function Contains(hay: string, needle: string): (r: bool)
    ensures r <==> exists i :: OccursAt(hay, needle, i)
    decreases |hay|
  {
    if |needle| > |hay| then false
    else if hay[..|needle|] == needle then
      assert OccursAt(hay, needle, 0);
      true
    else
      var r := Contains(hay[1..], needle);
      assert forall i :: OccursAt(hay[1..], needle, i) ==> OccursAt(hay, needle, i + 1) by {
        forall i { OccursShift(hay, needle, i); }
      }
      assert forall i :: OccursAt(hay, needle, i) ==> i == 0 || OccursAt(hay[1..], needle, i - 1) by {
        forall i | OccursAt(hay, needle, i) && i != 0 ensures OccursAt(hay[1..], needle, i - 1) {
          OccursShift(hay, needle, i - 1);
        }
      }
      r
  }

  /** Dropping the first character of `hay` moves every occurrence one place to the left. */
  lemma OccursShift(hay: string, needle: string, i: int)
    requires |hay| > 0
    ensures 0 <= i ==> (OccursAt(hay[1..], needle, i) <==> OccursAt(hay, needle, i + 1))
  {
    if 0 <= i && i + |needle| <= |hay| - 1 {
      assert hay[1..][i..i + |needle|] == hay[i + 1..i + 1 + |needle|];
    }
  }

  /** Python's `any(w in hay for w in needles)`. */
  function ContainsAny(hay: string, needles: seq<string>): (r: bool)
    ensures r <==> exists k :: 0 <= k < |needles| && Contains(hay, needles[k])
  {
    if |needles| == 0 then false
    else
      var r := Contains(hay, needles[0]) || ContainsAny(hay, needles[1..]);
      assert forall k :: 1 <= k < |needles| ==> needles[1..][k - 1] == needles[k];
      r
  }

  /** A string occurs in any string that has it as a segment. */
  lemma OccursInside(front: string, s: string, back: string)
    ensures Contains(front + s + back, s)
  {
    var t := front + s + back;
    assert t[|front|..|front| + |s|] == s;
    assert OccursAt(t, s, |front|);
  }

  /** A word with no whitespace in it survives `strip`. */
  lemma StripKeepsWord(t: string, word: string, p: int)
    requires OccursAt(t, word, p) && |word| > 0
    requires forall k :: 0 <= k < |word| ==> !IsSpace(word[k])
    ensures Contains(Strip(t), word)
  {
    var (i, j) := StripBounds(t);
    WordInsideBorders(t, word, p, i, j);
    OccursInSlice(t, word, i, j, p);
  }

  /** A word that starts and ends with non-blank characters lies within any bordered slice. */
  lemma WordInsideBorders(t: string, word: string, p: int, i: int, j: int)
    requires OccursAt(t, word, p) && |word| > 0
    requires !IsSpace(word[0]) && !IsSpace(word[|word| - 1])
    requires Bordered(t, i, j)
    ensures i <= p && p + |word| <= j
  {
    assert t[p] == word[0] by {
      assert t[p..p + |word|][0] == t[p];
    }
    assert t[p + |word| - 1] == word[|word| - 1] by {
      assert t[p..p + |word|][|word| - 1] == t[p + |word| - 1];
    }
  }

  lemma OccursInSlice(t: string, word: string, i: int, j: int, p: int)
    requires OccursAt(t, word, p)
    requires 0 <= i <= p && p + |word| <= j <= |t|
    ensures OccursAt(t[i..j], word, p - i)
  {
    var inner := t[i..j][p - i..p - i + |word|];
    assert forall k :: 0 <= k < |word| ==> inner[k] == t[p + k] == t[p..p + |word|][k];
    assert inner == t[p..p + |word|];
  }
}
