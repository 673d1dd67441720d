/**
 * The JavaScript string operations the core uses: `trim`, `toLowerCase`,
 * `includes`, `startsWith`, `split(sep)[0]`, `padStart`, `String(n)` and the
 * UTF-16 `length`. Strings are sequences of Unicode code points.
 */
module Text {
  import opened Wrappers

  /** The characters `String.prototype.trim` strips: ECMAScript's WhiteSpace and LineTerminator. */
  predicate IsSpace(c: char)
  {
    c == '\t' || c == '\n' || c == '\r' || c == ' ' ||
    c == '\U{000B}' || c == '\U{000C}' || c == '\U{00A0}' || c == '\U{1680}' ||
    ('\U{2000}' <= c <= '\U{200A}') ||
    c == '\U{2028}' || c == '\U{2029}' || c == '\U{202F}' || c == '\U{205F}' ||
    c == '\U{3000}' || c == '\U{FEFF}'
  }

  /** Nothing but white space (the empty string included): `!s.trim()` in JavaScript. */
  predicate IsBlank(s: string)
  {
    forall i :: 0 <= i < |s| ==> IsSpace(s[i])
  }

  /** JavaScript truthiness of an optional string: present and not empty. */
  predicate Truthy(s: Option<string>)
  {
    s.Some? && s.value != ""
  }

  /** `a || b` on optional strings: the first one if it is truthy, else the second. */
  function Or(a: Option<string>, b: Option<string>): (r: Option<string>)
    ensures Truthy(a) ==> r == a
    ensures !Truthy(a) ==> r == b
  {
    if Truthy(a) then a else b
  }

  /** A string that starts or ends with white space is blank exactly when the rest of it is. */
  lemma BlankUnlessEnds(s: string)
    requires s != []
    ensures IsSpace(s[0]) ==> (IsBlank(s) <==> IsBlank(s[1..]))
    ensures IsSpace(s[|s| - 1]) ==> (IsBlank(s) <==> IsBlank(s[..|s| - 1]))
  {
    if IsSpace(s[0]) && IsBlank(s[1..]) {
      forall k | 0 <= k < |s| ensures IsSpace(s[k]) {
        if k > 0 {
          assert s[k] == s[1..][k - 1];
        }
      }
    }
    if IsSpace(s[|s| - 1]) && IsBlank(s[..|s| - 1]) {
      forall k | 0 <= k < |s| ensures IsSpace(s[k]) {
        if k < |s| - 1 {
          assert s[k] == s[..|s| - 1][k];
        }
      }
    }
  }

  /**
   * `s.trim()`: the white space at both ends removed. The result is empty
   * exactly when `s` is blank, and otherwise starts and ends with a character
   * that is not white space.
   */
  function Trim(s: string): (r: string)
    ensures |r| <= |s|
    ensures r == [] <==> IsBlank(s)
    ensures r != [] ==> !IsSpace(r[0]) && !IsSpace(r[|r| - 1])
    decreases |s|
  {
    if s == [] then []
    else if IsSpace(s[0]) then
      BlankUnlessEnds(s);
      Trim(s[1..])
    else if IsSpace(s[|s| - 1]) then
      BlankUnlessEnds(s);
      Trim(s[..|s| - 1])
    else
      assert !IsBlank(s) by { assert !IsSpace(s[0]); }
      s
  }

  /** `r` sits at position `i` of `s` with only white space before and after it. */
  predicate IsMiddle(s: string, r: string, i: int)
  {
    0 <= i <= i + |r| <= |s| && r == s[i..i + |r|] && IsBlank(s[..i]) && IsBlank(s[i + |r|..])
  }

  /** White space put in front moves the middle one place to the right. */
  lemma MiddleAfterSpace(s: string, r: string, i: int)
    requires s != [] && IsSpace(s[0]) && IsMiddle(s[1..], r, i)
    ensures IsMiddle(s, r, i + 1)
  {
    var t := s[1..];
    assert s[..i + 1] == [s[0]] + t[..i];
    BlankUnlessEnds(s[..i + 1]);
    assert s[i + 1..i + 1 + |r|] == t[i..i + |r|];
    assert s[i + 1 + |r|..] == t[i + |r|..];
  }

  /** White space put at the end leaves the middle where it is. */
  lemma MiddleBeforeSpace(s: string, r: string, i: int)
    requires s != [] && IsSpace(s[|s| - 1]) && IsMiddle(s[..|s| - 1], r, i)
    ensures IsMiddle(s, r, i)
  {
    var t := s[..|s| - 1];
    assert s[..i] == t[..i];
    assert s[i..i + |r|] == t[i..i + |r|];
    assert s[i + |r|..] == t[i + |r|..] + [s[|s| - 1]];
    BlankUnlessEnds(s[i + |r|..]);
  }

  /** `s.trim()` is the middle of `s`: only white space lies before it and after it. */
  lemma {:induction false} TrimIsMiddle(s: string)
    ensures exists i :: IsMiddle(s, Trim(s), i)
    decreases |s|
  {
    var r := Trim(s);
    if s == [] {
      assert IsMiddle(s, r, 0);
    } else if IsSpace(s[0]) {
      TrimIsMiddle(s[1..]);
      var i :| IsMiddle(s[1..], r, i);
      MiddleAfterSpace(s, r, i);
    } else if IsSpace(s[|s| - 1]) {
      TrimIsMiddle(s[..|s| - 1]);
      var i :| IsMiddle(s[..|s| - 1], r, i);
      MiddleBeforeSpace(s, r, i);
    } else {
      assert s[0..|s|] == s && s[..0] == [] && s[|s|..] == [];
      assert IsMiddle(s, r, 0);
    }
  }

  /** Trimming an already trimmed string changes nothing. */
  lemma TrimIdempotent(s: string)
    ensures Trim(Trim(s)) == Trim(s)
  {
  }

  /**
   * `c.toLowerCase()` for one character, for every capital of the Basic
   * Latin, Latin-1, Latin Extended-A, Greek and Coptic, and Cyrillic blocks
   * (U+0000 to U+017F and U+0370 to U+04FF) that has a one-character small
   * letter: each becomes that small letter. `İ` (U+0130), whose small form
   * is two characters, and every character outside these blocks are kept.
   */
  function LowerChar(c: char): char
  {
    if c < '\U{180}' then LowerLatin(c)
    else if '\U{370}' <= c < '\U{400}' then LowerGreek(c)
    else if '\U{400}' <= c < '\U{500}' then LowerCyrillic(c)
    else c
  }

  /** Basic Latin, Latin-1 and Latin Extended-A; the small letter stays in these blocks. */
  function LowerLatin(c: char): (r: char)
    requires c < '\U{180}'
    ensures r < '\U{180}'
  {
    var u := c as int;
    if 'A' <= c <= 'Z' then (u + 32) as char
    // Latin-1: À to Þ, except the multiplication sign.
    else if '\U{C0}' <= c <= '\U{DE}' && c != '\U{D7}' then (u + 32) as char
    // Latin Extended-A: capital and small letters alternate.
    else if ('\U{100}' <= c <= '\U{12E}' || '\U{132}' <= c <= '\U{136}' || '\U{14A}' <= c <= '\U{176}') && u % 2 == 0 then
      (u + 1) as char
    else if ('\U{139}' <= c <= '\U{147}' || '\U{179}' <= c <= '\U{17D}') && u % 2 == 1 then (u + 1) as char
    else if c == '\U{178}' then '\U{FF}'
    else c
  }

  /**
   * Greek and Coptic: Α to Ϋ, the capitals with tonos, and the archaic and
   * Coptic pairs; the small letter stays in the block.
   */
  function LowerGreek(c: char): (r: char)
    requires '\U{370}' <= c < '\U{400}'
    ensures '\U{370}' <= r < '\U{400}'
  {
    var u := c as int;
    if '\U{391}' <= c <= '\U{3AB}' && c != '\U{3A2}' then (u + 32) as char
    else if c == '\U{386}' then '\U{3AC}'
    else if '\U{388}' <= c <= '\U{38A}' then (u + 37) as char
    else if c == '\U{38C}' then '\U{3CC}'
    else if '\U{38E}' <= c <= '\U{38F}' then (u + 63) as char
    else if c == '\U{370}' || c == '\U{372}' || c == '\U{376}' || c == '\U{3F7}' || c == '\U{3FA}' then (u + 1) as char
    else if '\U{3D8}' <= c <= '\U{3EE}' && u % 2 == 0 then (u + 1) as char
    else if c == '\U{37F}' then '\U{3F3}'
    else if c == '\U{3CF}' then '\U{3D7}'
    else if c == '\U{3F4}' then '\U{3B8}'
    else if c == '\U{3F9}' then '\U{3F2}'
    else if '\U{3FD}' <= c <= '\U{3FF}' then (u - 130) as char
    else c
  }

  /** Cyrillic: Ѐ to Џ, А to Я, the pairs from Ѡ on, and the palochka; the small letter stays in the block. */
  function LowerCyrillic(c: char): (r: char)
    requires '\U{400}' <= c < '\U{500}'
    ensures '\U{400}' <= r < '\U{500}'
  {
    var u := c as int;
    if '\U{400}' <= c <= '\U{40F}' then (u + 80) as char
    else if '\U{410}' <= c <= '\U{42F}' then (u + 32) as char
    else if ('\U{460}' <= c <= '\U{480}' || '\U{48A}' <= c <= '\U{4BE}' || '\U{4D0}' <= c <= '\U{4FE}') && u % 2 == 0 then
      (u + 1) as char
    else if '\U{4C1}' <= c <= '\U{4CD}' && u % 2 == 1 then (u + 1) as char
    else if c == '\U{4C0}' then '\U{4CF}'
    else c
  }

  /** `s.toLowerCase()`, character by character. */
  function ToLower(s: string): (r: string)
    ensures |r| == |s|
    ensures forall i :: 0 <= i < |s| ==> r[i] == LowerChar(s[i])
  {
    if s == [] then [] else [LowerChar(s[0])] + ToLower(s[1..])
  }

  /** Lower-casing twice is lower-casing once. */
  lemma ToLowerIdempotent(s: string)
    ensures ToLower(ToLower(s)) == ToLower(s)
  {
    forall i | 0 <= i < |s|
      ensures LowerChar(LowerChar(s[i])) == LowerChar(s[i])
    {
      LowerCharIdempotent(s[i]);
    }
  }

  /** A small letter, or a character `LowerChar` keeps, is kept. */
  lemma LowerCharIdempotent(c: char)
    ensures LowerChar(LowerChar(c)) == LowerChar(c)
  {
    if c < '\U{180}' {
      LatinIdempotent(c);
    } else if '\U{370}' <= c < '\U{400}' {
      GreekIdempotent(c);
    } else if '\U{400}' <= c < '\U{500}' {
      CyrillicIdempotent(c);
    }
  }

  /** Within each block, `LowerChar` keeps the small letters it produces. */
  lemma LatinIdempotent(c: char)
    requires c < '\U{180}'
    ensures LowerLatin(LowerLatin(c)) == LowerLatin(c)
  {
  }

  lemma GreekIdempotent(c: char)
    requires '\U{370}' <= c < '\U{400}'
    ensures LowerGreek(LowerGreek(c)) == LowerGreek(c)
  {
  }

  lemma CyrillicIdempotent(c: char)
    requires '\U{400}' <= c < '\U{500}'
    ensures LowerCyrillic(LowerCyrillic(c)) == LowerCyrillic(c)
  {
  }

  /** `s.startsWith(prefix)`. */
  predicate StartsWith(s: string, prefix: string)
  {
    |prefix| <= |s| && s[..|prefix|] == prefix
  }

  /** `s.includes(t)`: `t` occurs in `s` at some position. */
  predicate Includes(s: string, t: string)
    ensures Includes(s, t) <==> exists i :: 0 <= i <= |s| - |t| && StartsWith(s[i..], t)
  {
    if StartsWith(s, t) then
      assert s[0..] == s;
      true
    else if s == [] then false
    else
      var rest := Includes(s[1..], t);
      assert rest ==> exists i :: 0 <= i <= |s| - |t| && StartsWith(s[i..], t) by {
        if rest {
          var j :| 0 <= j <= |s[1..]| - |t| && StartsWith(s[1..][j..], t);
          assert s[j + 1..] == s[1..][j..];
        }
      }
      assert (exists i :: 0 <= i <= |s| - |t| && StartsWith(s[i..], t)) ==> rest by {
        if exists i :: 0 <= i <= |s| - |t| && StartsWith(s[i..], t) {
          var i :| 0 <= i <= |s| - |t| && StartsWith(s[i..], t);
          assert i != 0;
          assert s[i..] == s[1..][i - 1..];
        }
      }
      rest
  }

  /** `s.split(sep)[0]`: the part of `s` before the first `sep`, or all of `s` when there is none. */
  function BeforeFirst(s: string, sep: char): (r: string)
    ensures |r| <= |s| && r == s[..|r|]
    ensures sep !in r
    ensures |r| < |s| ==> s[|r|] == sep
  {
    if s == [] || s[0] == sep then [] else [s[0]] + BeforeFirst(s[1..], sep)
  }

  /** `s.length`: JavaScript counts UTF-16 code units, two for a code point above U+FFFF. */
  function Utf16Length(s: string): (n: nat)
    ensures |s| <= n <= 2 * |s|
  {
    if s == [] then 0 else (if s[0] as int > 0xFFFF then 2 else 1) + Utf16Length(s[1..])
  }

  /** The decimal digit character for `d`. */
  function DigitChar(d: nat): char
    requires d < 10
  {
    ('0' as int + d) as char
  }

  /** `String(n)` for a non-negative integer: its decimal digits, no leading zeros. */
  function NatToDecimal(n: nat): (r: string)
    ensures 1 <= |r|
    ensures forall i :: 0 <= i < |r| ==> '0' <= r[i] <= '9'
    ensures n < 10 ==> |r| == 1
    ensures 10 <= n ==> 2 <= |r|
  {
    if n < 10 then [DigitChar(n)] else NatToDecimal(n / 10) + [DigitChar(n % 10)]
  }

  /** `String(n)` for any integer: a minus sign before the digits of a negative number. */
  function IntToDecimal(n: int): string
  {
    if n < 0 then "-" + NatToDecimal(-n) else NatToDecimal(n)
  }

  /** `s.padStart(width, c)`: `c` repeated in front until the string is `width` long. */
  function PadStart(s: string, width: nat, c: char): (r: string)
    ensures |r| == if |s| < width then width else |s|
    ensures r[|r| - |s|..] == s
    ensures forall i :: 0 <= i < |r| - |s| ==> r[i] == c
    decreases width - |s|
  {
    if |s| < width then
      var t := [c] + s;
      var r := PadStart(t, width, c);
      var k := |r| - |s|;
      assert r[k - 1..] == t;
      assert r[k..] == s by {
        assert r[k..] == r[k - 1..][1..];
      }
      assert r[k - 1] == c by {
        assert r[k - 1] == r[k - 1..][0] == t[0];
      }
      assert forall i :: 0 <= i < k ==> r[i] == c by {
        assert forall i :: 0 <= i < k - 1 ==> r[i] == c;
      }
      r
    else s
  }

  /** Padding a one-character string to width 2 puts one fill character in front. */
  lemma PadOneToTwo(s: string, c: char)
    requires |s| == 1
    ensures PadStart(s, 2, c) == [c] + s
  {
    assert PadStart(s, 2, c) == PadStart([c] + s, 2, c);
  }

  /** `String(n).padStart(2, '0')` for 0 <= n < 100 is the two digits of `n`. */
  lemma PadTwoDigits(n: nat)
    requires n < 100
    ensures PadStart(NatToDecimal(n), 2, '0') == [DigitChar(n / 10), DigitChar(n % 10)]
  {
    if n < 10 {
      assert NatToDecimal(n) == [DigitChar(n)];
      PadOneToTwo(NatToDecimal(n), '0');
      assert n / 10 == 0 && n % 10 == n;
    } else {
      var q := n / 10;
      assert NatToDecimal(q) == [DigitChar(q)];
      assert NatToDecimal(n) == [DigitChar(q), DigitChar(n % 10)];
    }
  }
}
