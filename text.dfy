/** The string primitives the agent relies on, modelled on Python's `str`:
    `strip()`, `lower()`, the `in` substring test, slicing `s[:n]` and
    `split("\n")`. Characters are Unicode scalar values, as Python's code
    points are. */
module Text {

  /** The characters Python's `str.isspace()` accepts, which are exactly the
      ones `str.strip()` with no argument removes. */
  predicate IsSpace(c: char) {
    var n := c as int;
    || (9 <= n <= 13) || (0x1C <= n <= 0x20) || n == 0x85 || n == 0xA0
    || n == 0x1680 || (0x2000 <= n <= 0x200A) || n == 0x2028 || n == 0x2029
    || n == 0x202F || n == 0x205F || n == 0x3000
  }

  /** Every character of `s` outside positions `lo..hi` is whitespace. */
  ghost predicate SpaceOutside(s: string, lo: int, hi: int) {
    (forall k :: 0 <= k < lo && k < |s| ==> IsSpace(s[k]))
    && (forall k :: hi <= k < |s| && 0 <= k ==> IsSpace(s[k]))
  }

  /** No whitespace at either end. */
  predicate NoEdgeSpace(s: string) {
    s == [] || (!IsSpace(s[0]) && !IsSpace(s[|s| - 1]))
  }

  /** `w` sits in `s` at position `i`. */
  ghost predicate OccursAt(s: string, w: string, i: int) {
    0 <= i <= |s| - |w| && s[i..i + |w|] == w
  }

  /** `w` occurs in `s` as a contiguous piece. */
  ghost predicate Occurs(s: string, w: string) {
    exists i :: OccursAt(s, w, i)
  }

  /** `r`, taken from `s` at position `i`, is what `s.strip()` returns: only
      whitespace around it and none at its own ends. */
  ghost predicate StripAt(r: string, s: string, i: int) {
    OccursAt(s, r, i) && SpaceOutside(s, i, i + |r|) && NoEdgeSpace(r)
  }

  ghost predicate IsStripOf(r: string, s: string) {
    exists i :: StripAt(r, s, i)
  }

  /** `s.lstrip()`. */
  function TrimStart(s: string): (r: string)
    ensures |r| <= |s| && r == s[|s| - |r|..]
    ensures SpaceOutside(s, |s| - |r|, |s|)
    ensures r == [] || !IsSpace(r[0])
  {
    if s != [] && IsSpace(s[0]) then
      var r := TrimStart(s[1..]);
      assert forall k :: 1 <= k < |s| ==> s[k] == s[1..][k - 1];
      r
    else s
  }

  /** `s.rstrip()`. */
  function TrimEnd(s: string): (r: string)
    ensures |r| <= |s| && r == s[..|r|]
    ensures SpaceOutside(s, 0, |r|)
    ensures r == [] || !IsSpace(r[|r| - 1])
  {
    if s != [] && IsSpace(s[|s| - 1]) then
      var r := TrimEnd(s[..|s| - 1]);
      assert forall k :: 0 <= k < |s| - 1 ==> s[k] == s[..|s| - 1][k];
      r
    else s
  }

  /** `s.strip()`. */
  function Strip(s: string): (r: string)
    ensures IsStripOf(r, s)
    ensures |r| <= |s|
  {
    TrimBothIsStrip(s);
    TrimEnd(TrimStart(s))
  }

  /** Trimming the front and then the back leaves the piece `strip` keeps,
      found where the front trim stopped. */
  lemma TrimBothIsStrip(s: string)
    ensures StripAt(TrimEnd(TrimStart(s)), s, |s| - |TrimStart(s)|)
  {
    var a := TrimStart(s);
    TrimmedPiece(s, a, TrimEnd(a));
  }

  /** A suffix `a` of `s` with only whitespace cut off its front, and a
      prefix `r` of `a` with only whitespace cut off its back, form the piece
      `strip` keeps. */
  lemma TrimmedPiece(s: string, a: string, r: string)
    requires |a| <= |s| && a == s[|s| - |a|..] && SpaceOutside(s, |s| - |a|, |s|)
    requires a == [] || !IsSpace(a[0])
    requires |r| <= |a| && r == a[..|r|] && SpaceOutside(a, 0, |r|)
    requires r == [] || !IsSpace(r[|r| - 1])
    ensures StripAt(r, s, |s| - |a|)
  {
    var i := |s| - |a|;
    assert s[i..i + |r|] == r;
    forall k | i + |r| <= k < |s| ensures IsSpace(s[k]) {
      assert s[k] == a[k - i];
    }
    assert r != [] ==> r[0] == a[0];
  }

  /** The specification of `strip` determines its result. */
  lemma StripOfIsUnique(r1: string, r2: string, s: string)
    requires IsStripOf(r1, s) && IsStripOf(r2, s)
    ensures r1 == r2
  {
    var i1 :| StripAt(r1, s, i1);
    var i2 :| StripAt(r2, s, i2);
    assert r1 != [] ==> s[i1] == r1[0] && s[i1 + |r1| - 1] == r1[|r1| - 1];
    assert r2 != [] ==> s[i2] == r2[0] && s[i2 + |r2| - 1] == r2[|r2| - 1];
    assert r1 != [] && r2 != [] ==> i1 == i2 && |r1| == |r2|;
  }

  /** What `strip` returns has no whitespace at either end. */
  lemma StripHasNoEdgeSpace(s: string)
    ensures NoEdgeSpace(Strip(s))
  {
    var i :| StripAt(Strip(s), s, i);
  }

  /** A text made of whitespace only strips to the empty text. */
  lemma StripAllSpace(s: string)
    requires forall k :: 0 <= k < |s| ==> IsSpace(s[k])
    ensures Strip(s) == []
  {
    var r := Strip(s);
    var i :| StripAt(r, s, i);
  }

  /** Python's `w in s` for strings: true exactly when `w` occurs in `s`. */
  function Contains(s: string, w: string): (r: bool)
    ensures r <==> Occurs(s, w)
    decreases |s|
  {
    if |w| > |s| then
      assert forall i :: !OccursAt(s, w, i);
      false
    else if s[..|w|] == w then
      assert OccursAt(s, w, 0);
      true
    else
      var r := Contains(s[1..], w);
      OccursInTail(s, w);
      r
  }

  /** When `w` does not sit at the front of `s`, it occurs in `s` exactly
      when it occurs in `s` without its first character. */
  lemma OccursInTail(s: string, w: string)
    requires |w| <= |s| && s[..|w|] != w
    ensures Occurs(s, w) <==> Occurs(s[1..], w)
  {
    forall i | OccursAt(s[1..], w, i) ensures OccursAt(s, w, i + 1) {
      assert s[1..][i..i + |w|] == s[i + 1..i + 1 + |w|];
    }
    forall i | OccursAt(s, w, i) ensures OccursAt(s[1..], w, i - 1) {
      assert s[1..][i - 1..i - 1 + |w|] == s[i..i + |w|];
    }
  }

  /** `w` occurs in `a + w + b`. */
  lemma OccursBetween(a: string, w: string, b: string)
    ensures Occurs(a + w + b, w)
  {
    assert OccursAt(a + w + b, w, |a|);
  }

  /** An occurrence in `s` is an occurrence in `s + t`. */
  lemma OccursExtend(s: string, w: string, t: string)
    requires Occurs(s, w)
    ensures Occurs(s + t, w)
  {
    var i :| OccursAt(s, w, i);
    assert (s + t)[i..i + |w|] == s[i..i + |w|];
    assert OccursAt(s + t, w, i);
  }

  /** An occurrence in `s` is an occurrence in `t + s`. */
  lemma OccursPrepend(t: string, s: string, w: string)
    requires Occurs(s, w)
    ensures Occurs(t + s, w)
  {
    var i :| OccursAt(s, w, i);
    assert (t + s)[|t| + i..|t| + i + |w|] == s[i..i + |w|];
    assert OccursAt(t + s, w, |t| + i);
  }

  /** Some word of `ws` occurs in `s`. */
  ghost predicate Mentions(s: string, ws: seq<string>) {
    exists k :: 0 <= k < |ws| && Occurs(s, ws[k])
  }

  /** Python's `any(w in s for w in ws)`: true exactly when some word of the
      list occurs in `s`. */
  function ContainsAny(s: string, ws: seq<string>): (r: bool)
    ensures r <==> Mentions(s, ws)
  {
    if |ws| == 0 then false
    else
      var r := Contains(s, ws[0]) || ContainsAny(s, ws[1..]);
      assert forall k :: 0 <= k < |ws| - 1 ==> ws[1..][k] == ws[k + 1];
      r
  }

  /** A non-empty word that holds no whitespace survives stripping: any
      occurrence of it lies inside what `strip` keeps. */
  lemma StripKeepsOccurrence(s: string, w: string)
    requires w != [] && forall k :: 0 <= k < |w| ==> !IsSpace(w[k])
    requires Occurs(s, w)
    ensures Occurs(Strip(s), w)
  {
    var r := Strip(s);
    var i :| StripAt(r, s, i);
    StripAtKeepsOccurrence(r, s, i, w);
  }

  lemma StripAtKeepsOccurrence(r: string, s: string, i: int, w: string)
    requires StripAt(r, s, i)
    requires w != [] && forall k :: 0 <= k < |w| ==> !IsSpace(w[k])
    requires Occurs(s, w)
    ensures Occurs(r, w)
  {
    var p :| OccursAt(s, w, p);
    CharAt(s, w, p, 0);
    CharAt(s, w, p, |w| - 1);
    assert i <= p && p + |w| <= i + |r|;
    forall k | 0 <= k < |w| ensures r[p - i + k] == w[k] {
      CharAt(s, w, p, k);
      CharAt(s, r, i, p - i + k);
    }
    assert r[p - i..p - i + |w|] == w;
    assert OccursAt(r, w, p - i);
  }

  /** The characters of an occurrence. */
  lemma CharAt(s: string, w: string, p: int, k: int)
    requires OccursAt(s, w, p) && 0 <= k < |w|
    ensures s[p + k] == w[k]
  {
    assert s[p..p + |w|][k] == s[p + k];
  }

  // ---------- Case ----------

  /** Upper-case letters of the modelled alphabets: Latin A-Z and the Cyrillic
      block U+0400-U+042F (Ѐ-Џ and А-Я). */
  predicate IsUpper(c: char) {
    var n := c as int;
    (65 <= n <= 90) || (0x400 <= n <= 0x42F)
  }

  /** Lower-case letters of the modelled alphabets: Latin a-z and the Cyrillic
      block U+0430-U+045F (а-я and ѐ-џ). */
  predicate IsLowerLetter(c: char) {
    var n := c as int;
    (97 <= n <= 122) || (0x430 <= n <= 0x45F)
  }

  /** `c.lower()` on the modelled alphabets: A-Z and А-Я move up by 32,
      Ѐ-Џ move up by 80, and every other character stays. */
  function LowerChar(c: char): (d: char)
    ensures (65 <= c as int <= 90 || 0x410 <= c as int <= 0x42F) ==> d as int == c as int + 32
    ensures 0x400 <= c as int <= 0x40F ==> d as int == c as int + 80
    ensures !IsUpper(c) ==> d == c
    ensures !IsUpper(d)
    ensures IsSpace(d) <==> IsSpace(c)
  {
    var n := c as int;
    if 65 <= n <= 90 then (n + 32) as char
    else if 0x410 <= n <= 0x42F then (n + 32) as char
    else if 0x400 <= n <= 0x40F then (n + 80) as char
    else c
  }

  /** `c.upper()` on the lower-case letters of the modelled alphabets, the
      inverse of `LowerChar` there. */
  function UpperChar(c: char): (u: char)
    requires IsLowerLetter(c)
    ensures IsUpper(u) && LowerChar(u) == c
  {
    var n := c as int;
    if n <= 122 then (n - 32) as char
    else if n <= 0x44F then (n - 32) as char
    else (n - 80) as char
  }

  /** `s.lower()`: the same length, and each character lowered. */
  function Lower(s: string): (r: string)
    ensures |r| == |s|
    ensures forall i :: 0 <= i < |s| ==> r[i] == LowerChar(s[i])
  {
    seq(|s|, i requires 0 <= i < |s| => LowerChar(s[i]))
  }

  /** `u` spells `w` with any of its letters in upper case. */
  ghost predicate CaseVariant(u: string, w: string) {
    |u| == |w| && forall i :: 0 <= i < |w| ==>
      u[i] == w[i] || (IsLowerLetter(w[i]) && u[i] == UpperChar(w[i]))
  }

  /** Every letter-case variant of a word written without upper-case letters
      lowers to that word. */
  lemma {:induction false} CaseVariantLowers(u: string, w: string)
    requires forall i :: 0 <= i < |w| ==> !IsUpper(w[i])
    requires CaseVariant(u, w)
    ensures Lower(u) == w
  {
    forall i | 0 <= i < |w| ensures Lower(u)[i] == w[i] {
      if u[i] != w[i] {
        assert LowerChar(UpperChar(w[i])) == w[i];
      }
    }
  }

  lemma LowerSlice(s: string, i: nat, j: nat)
    requires i <= j <= |s|
    ensures Lower(s)[i..j] == Lower(s[i..j])
  {
  }

  /** Lower-casing keeps every occurrence, lower-cased. */
  lemma LowerKeepsOccurrence(s: string, w: string)
    requires Occurs(s, w)
    ensures Occurs(Lower(s), Lower(w))
  {
    var p :| OccursAt(s, w, p);
    LowerSlice(s, p, p + |w|);
    assert OccursAt(Lower(s), Lower(w), p);
  }

  // ---------- Slicing and lines ----------

  function Min(a: int, b: int): int {
    if a <= b then a else b
  }

  /** Python's `s[:n]` for `n >= 0`: the first `n` characters, or all of `s`
      when it is shorter. */
  function Take(s: string, n: nat): (r: string)
    ensures |r| == Min(n, |s|) && r <= s
  {
    if |s| <= n then s else s[..n]
  }

  /** Python's `s.split("\n")`. */
  function Lines(s: string): seq<string> {
    LinesFrom("", s)
  }

  /** The lines of `s` when the current line already holds `cur`. */
  function LinesFrom(cur: string, s: string): (ls: seq<string>)
    ensures |ls| >= 1
    decreases |s|
  {
    if s == [] then [cur]
    else if s[0] == '\n' then [cur] + LinesFrom("", s[1..])
    else LinesFrom(cur + [s[0]], s[1..])
  }

  /** A text without a line break is one line. */
  lemma {:induction false} LinesOfOneLine(cur: string, s: string)
    requires '\n' !in s
    ensures LinesFrom(cur, s) == [cur + s]
    decreases |s|
  {
    if s == [] {
      assert cur + s == cur;
    } else {
      assert '\n' !in s[1..];
      LinesOfOneLine(cur + [s[0]], s[1..]);
      assert cur + [s[0]] + s[1..] == cur + s;
    }
  }

  /** Splitting at a line break splits the lines. */
  lemma {:induction false} LinesJoin(cur: string, a: string, b: string)
    ensures LinesFrom(cur, a + "\n" + b) == LinesFrom(cur, a) + Lines(b)
    decreases |a|
  {
    var c := a + "\n" + b;
    if a == [] {
      assert c[0] == '\n' && c[1..] == b;
    } else {
      assert c[0] == a[0] && c[1..] == a[1..] + "\n" + b;
      if a[0] == '\n' {
        LinesJoin("", a[1..], b);
      } else {
        LinesJoin(cur + [a[0]], a[1..], b);
      }
    }
  }
}
