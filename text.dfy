/** The one optional-value type of the project: a missing JSON field, a
    `find` that found nothing, an outcome list that is not there. */
module Options {
  datatype Option<+T> = None | Some(value: T)
}

/** The JavaScript string operations the server and the client script rely
    on, stated over `seq<char>`: the two date regular expressions, `slice`,
    the `\s` character class and `trim`, lower-casing and `includes`. */
module Text {

  /** `\d` in a JavaScript regular expression: the ASCII digits only. */
  predicate IsDigit(c: char) {
    '0' <= c <= '9'
  }

  /** `/^\d{4}-\d{2}-\d{2}$/.test(s)`: four digits, a dash, two digits, a
      dash, two digits, and nothing else (`$` without the `m` flag only
      matches at the very end of the input). */
  predicate IsIsoDate(s: string) {
    && |s| == 10
    && IsDigit(s[0]) && IsDigit(s[1]) && IsDigit(s[2]) && IsDigit(s[3])
    && s[4] == '-'
    && IsDigit(s[5]) && IsDigit(s[6])
    && s[7] == '-'
    && IsDigit(s[8]) && IsDigit(s[9])
  }

  /** `/^(\d{2})-(\d{2})-(\d{4})$/.test(s)`: a day-first date. */
  predicate IsDayFirstDate(s: string) {
    && |s| == 10
    && IsDigit(s[0]) && IsDigit(s[1])
    && s[2] == '-'
    && IsDigit(s[3]) && IsDigit(s[4])
    && s[5] == '-'
    && IsDigit(s[6]) && IsDigit(s[7]) && IsDigit(s[8]) && IsDigit(s[9])
  }

  /** `s.slice(0, n)`: the first `n` characters, or all of `s` when it is
      shorter. */
  function Prefix(s: string, n: nat): (r: string)
    ensures |r| <= n && |r| <= |s|
    ensures r <= s
    ensures |s| >= n ==> |r| == n
    ensures |s| <= n ==> r == s
  {
    if |s| <= n then s else s[..n]
  }

  /** Every character that JavaScript's `\s` class and `String.prototype.trim`
      treat as white space: the Unicode space separators, the line
      terminators, tab, vertical tab, form feed and the byte-order mark. */
  predicate IsSpace(c: char) {
    var k := c as int;
    || k == 0x09 || k == 0x0A || k == 0x0B || k == 0x0C || k == 0x0D
    || k == 0x20 || k == 0xA0 || k == 0x1680
    || (0x2000 <= k <= 0x200A)
    || k == 0x2028 || k == 0x2029 || k == 0x202F || k == 0x205F
    || k == 0x3000 || k == 0xFEFF
  }

  /** All of `s` is white space. */
  predicate AllSpace(s: string) {
    forall i :: 0 <= i < |s| ==> IsSpace(s[i])
  }

  /** `s.trimStart()` */
  function TrimStart(s: string): (r: string)
    ensures |r| <= |s| && r == s[|s| - |r|..]
    ensures AllSpace(s[..|s| - |r|])
    ensures r == [] || !IsSpace(r[0])
  {
    if s != [] && IsSpace(s[0]) then TrimStart(s[1..]) else s
  }

  /** `s.trimEnd()` */
  function TrimEnd(s: string): (r: string)
    ensures |r| <= |s| && r == s[..|r|]
    ensures AllSpace(s[|r|..])
    ensures r == [] || !IsSpace(r[|r| - 1])
  {
    if s != [] && IsSpace(s[|s| - 1]) then
      var r := TrimEnd(s[..|s| - 1]);
      assert s[|r|..] == s[..|s| - 1][|r|..] + [s[|s| - 1]];
      r
    else s
  }

  /** `s.trim()` */
  function Trim(s: string): string {
    TrimEnd(TrimStart(s))
  }

  /** What `trim` keeps is one contiguous piece of `s` that neither starts
      nor ends with white space, and all it cuts off on either side is white
      space. */
  lemma TrimKeepsInfix(s: string)
    ensures exists i: nat :: OccursAt(s, Trim(s), i) && AllSpace(s[..i]) && AllSpace(s[i + |Trim(s)|..])
    ensures Trim(s) == [] || (!IsSpace(Trim(s)[0]) && !IsSpace(Trim(s)[|Trim(s)| - 1]))
  {
    var t := TrimStart(s);
    var r := TrimEnd(t);
    var i := |s| - |t|;
    assert t == s[i..];
    assert r == s[i..i + |r|] by {
      assert r == t[..|r|];
    }
    assert OccursAt(s, r, i);
    assert AllSpace(s[..i]);
    assert AllSpace(s[i + |r|..]) by {
      assert s[i + |r|..] == t[|r|..];
    }
    if r != [] {
      assert r[0] == t[0];
    }
  }

  /** `c.toLowerCase()` for the ASCII letters; every other character is
      left as it is. */
  function LowerChar(c: char): char {
    if 'A' <= c <= 'Z' then (c as int + 32) as char else c
  }

  /** `s.toLowerCase()`, character by character (see LowerChar). */
  function Lower(s: string): (r: string)
    ensures |r| == |s|
    ensures forall i :: 0 <= i < |s| ==> r[i] == LowerChar(s[i])
  {
    if s == [] then [] else [LowerChar(s[0])] + Lower(s[1..])
  }

  lemma {:induction false} LowerConcat(a: string, b: string)
    ensures Lower(a + b) == Lower(a) + Lower(b)
  {
    if a == [] {
      assert a + b == b;
    } else {
      assert (a + b)[0] == a[0];
      assert (a + b)[1..] == a[1..] + b;
      LowerConcat(a[1..], b);
    }
  }

  lemma LowerCharIs(c: char, x: char)
    requires 'a' <= x <= 'z'
    ensures LowerChar(c) == x <==> c == x || c as int == x as int - 32
  {
  }

  /** The strings whose lower case is "draw" are exactly the sixteen
      spellings of "draw" in mixed case. Under full Unicode case mapping this
      is still true (no other character lower-cases to d, r, a or w), so
      comparing `Lower(s)` with "draw" is exactly JavaScript's
      `s.toLowerCase() === "draw"`. */
  lemma {:induction false} LowerIsDraw(s: string)
    ensures Lower(s) == "draw" <==>
      && |s| == 4
      && (s[0] == 'd' || s[0] == 'D') && (s[1] == 'r' || s[1] == 'R')
      && (s[2] == 'a' || s[2] == 'A') && (s[3] == 'w' || s[3] == 'W')
  {
    var l := Lower(s);
    if |s| == 4 {
      LowerCharIs(s[0], 'd');
      LowerCharIs(s[1], 'r');
      LowerCharIs(s[2], 'a');
      LowerCharIs(s[3], 'w');
      assert l == "draw" <==> l[0] == 'd' && l[1] == 'r' && l[2] == 'a' && l[3] == 'w';
    }
  }

  /** `needle` occurs in `hay` starting at index `i`. */
  predicate OccursAt(hay: string, needle: string, i: nat) {
    i + |needle| <= |hay| && hay[i..i + |needle|] == needle
  }

  /** `hay.includes(needle)`: `needle` occurs in `hay` at some position. */
  predicate Includes(hay: string, needle: string) {
    exists i :: 0 <= i <= |hay| && OccursAt(hay, needle, i)
  }
}
