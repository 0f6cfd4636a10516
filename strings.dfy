/** The JavaScript string operations the core relies on, over `seq<char>`. */
module Strings {

  /** ECMAScript WhiteSpace and LineTerminator code points: what `trim` strips and `\s` matches. */
  predicate IsWhite(c: char) {
    c == '\t' || c == '\n' || c == '\U{000B}' || c == '\U{000C}' || c == '\r' || c == ' '
    || c == '\U{00A0}' || c == '\U{1680}' || ('\U{2000}' <= c <= '\U{200A}')
    || c == '\U{2028}' || c == '\U{2029}' || c == '\U{202F}' || c == '\U{205F}'
    || c == '\U{3000}' || c == '\U{FEFF}'
  }

  predicate AllWhite(s: string) {
    forall i :: 0 <= i < |s| ==> IsWhite(s[i])
  }

  predicate NoWhite(s: string) {
    forall i :: 0 <= i < |s| ==> !IsWhite(s[i])
  }

  /** `s.trimStart()`: drops the leading white space and nothing else. */
  function TrimStart(s: string): (r: string)
    ensures |r| <= |s|
    ensures |r| == |s| ==> r == s
    ensures |r| < |s| ==> r == s[|s| - |r|..]
    ensures AllWhite(s[..|s| - |r|])
    ensures r == [] || !IsWhite(r[0])
  {
    if s != [] && IsWhite(s[0]) then
      var r := TrimStart(s[1..]);
      TrimStartStep(s, r);
      r
    else s
  }

  /** Cutting white space after a leading white character cuts one more white character. */
  lemma TrimStartStep(s: string, r: string)
    requires s != [] && IsWhite(s[0])
    requires |r| <= |s| - 1 && r == s[1..][|s| - 1 - |r|..] && AllWhite(s[1..][..|s| - 1 - |r|])
    ensures r == s[|s| - |r|..] && AllWhite(s[..|s| - |r|])
  {
    var t, n := s[1..], |s| - 1 - |r|;
    assert t[n..] == s[n + 1..];
    assert s[..n + 1] == [s[0]] + t[..n];
  }

  /** `s.trimEnd()`: drops the trailing white space and nothing else. */
  function TrimEnd(s: string): (r: string)
    ensures |r| <= |s|
    ensures |r| == |s| ==> r == s
    ensures |r| < |s| ==> r == s[..|r|]
    ensures AllWhite(s[|r|..])
    ensures r == [] || !IsWhite(r[|r| - 1])
  {
    if s != [] && IsWhite(s[|s| - 1]) then
      var r := TrimEnd(s[..|s| - 1]);
      TrimEndStep(s, r);
      r
    else s
  }

  /** Cutting white space before a trailing white character cuts one more white character. */
  lemma TrimEndStep(s: string, r: string)
    requires s != [] && IsWhite(s[|s| - 1])
    requires |r| <= |s| - 1 && r == s[..|s| - 1][..|r|] && AllWhite(s[..|s| - 1][|r|..])
    ensures r == s[..|r|] && AllWhite(s[|r|..])
  {
    var t := s[..|s| - 1];
    assert t[..|r|] == s[..|r|];
    assert s[|r|..] == t[|r|..] + [s[|s| - 1]];
  }

  /** `s.trim()`. */
  function Trim(s: string): string {
    TrimEnd(TrimStart(s))
  }

  /** The trimmed string is a contiguous part of `s` with only white space cut from either end. */
  lemma TrimIsCore(s: string)
    ensures exists i, j :: 0 <= i <= j <= |s| && Trim(s) == s[i..j] && AllWhite(s[..i]) && AllWhite(s[j..])
    ensures Trim(s) == [] || (!IsWhite(Trim(s)[0]) && !IsWhite(Trim(s)[|Trim(s)| - 1]))
  {
    var i, j := TrimSpan(s);
    var t := TrimStart(s);
    if Trim(s) != [] {
      assert Trim(s)[0] == t[0];
    }
  }

  /** Where `trim` cuts `s`. */
  lemma TrimSpan(s: string) returns (i: nat, j: nat)
    ensures i <= j <= |s| && Trim(s) == s[i..j] && AllWhite(s[..i]) && AllWhite(s[j..])
  {
    var t := TrimStart(s);
    var e := TrimEnd(t);
    i := |s| - |t|;
    j := i + |e|;
    SliceParts(s, i, j);
  }

  lemma SliceParts<T>(s: seq<T>, i: nat, j: nat)
    requires i <= j <= |s|
    ensures s[i..][..j - i] == s[i..j] && s[i..][j - i..] == s[j..]
  {
  }

  /** Trimming twice is trimming once. */
  lemma TrimIdempotent(s: string)
    ensures Trim(Trim(s)) == Trim(s)
  {
    TrimIsCore(s);
  }

  /** A string trims to "" exactly when it is all white space. */
  lemma TrimEmptyIff(s: string)
    ensures Trim(s) == "" <==> AllWhite(s)
  {
    var t := TrimStart(s);
    if Trim(s) == "" {
      assert s == s[..|s| - |t|] + t;
      assert AllWhite(t[|TrimEnd(t)|..]);
      assert t[|TrimEnd(t)|..] == t;
    }
  }

  /** White space in front of a string is all cut by `trimStart`. */
  lemma {:induction false} TrimStartAfterWhite(w: string, x: string)
    requires AllWhite(w)
    ensures TrimStart(w + x) == TrimStart(x)
  {
    if w != [] {
      assert (w + x)[1..] == w[1..] + x;
      TrimStartAfterWhite(w[1..], x);
    } else {
      assert w + x == x;
    }
  }

  /** White space behind a string is all cut by `trimEnd`. */
  lemma {:induction false} TrimEndBeforeWhite(x: string, w: string)
    requires AllWhite(w)
    ensures TrimEnd(x + w) == TrimEnd(x)
  {
    if w != [] {
      assert (x + w)[..|x + w| - 1] == x + w[..|w| - 1];
      TrimEndBeforeWhite(x, w[..|w| - 1]);
    } else {
      assert x + w == x;
    }
  }

  /** Once a string holds something other than white space, `trimStart` stops inside it. */
  lemma {:induction false} TrimStartAppend(x: string, y: string)
    requires !AllWhite(x)
    ensures TrimStart(x + y) == TrimStart(x) + y
  {
    assert (x + y)[0] == x[0];
    if IsWhite(x[0]) {
      assert (x + y)[1..] == x[1..] + y;
      TrimStartDrop(x + y);
      TrimStartDrop(x);
      TrimStartAppend(x[1..], y);
    } else {
      TrimStartKeep(x + y);
      TrimStartKeep(x);
    }
  }

  /** White space around a string does not change its `trim`. */
  lemma TrimPadding(w1: string, e: string, w2: string)
    requires AllWhite(w1) && AllWhite(w2)
    ensures Trim(w1 + e + w2) == Trim(e)
  {
    assert w1 + e + w2 == w1 + (e + w2);
    if AllWhite(e) {
      assert AllWhite(w1 + e + w2);
      TrimEmptyIff(w1 + e + w2);
      TrimEmptyIff(e);
    } else {
      TrimStartAfterWhite(w1, e + w2);
      TrimStartAppend(e, w2);
      TrimEndBeforeWhite(TrimStart(e), w2);
    }
  }

  /** A string that the `trim` setter leaves as it is: it neither starts nor ends with white
      space (see `TrimmedIff`). */
  predicate Trimmed(s: string)
  {
    s == [] || (!IsWhite(s[0]) && !IsWhite(s[|s| - 1]))
  }

  /** `Trimmed` is exactly "trimming changes nothing". */
  lemma TrimmedIff(s: string)
    ensures Trimmed(s) <==> Trim(s) == s
  {
    if s != [] {
      if Trimmed(s) {
        assert TrimStart(s) == s;
        assert TrimEnd(s) == s;
      }
    }
  }

  /** The output of `trim` is trimmed. */
  lemma TrimTrimmed(s: string)
    ensures Trimmed(Trim(s))
  {
    TrimIsCore(s);
  }

  // ---------------------------------------------------------------------------------------
  // Lengths in UTF-16 code units

  /** The code units a character takes in UTF-16: two above the Basic Multilingual Plane. */
  function Utf16Units(c: char): (n: nat)
    ensures n == 1 || n == 2
  {
    if c as int > 0xFFFF then 2 else 1
  }

  /** `s.length`: the number of UTF-16 code units, not of characters. */
  function Utf16Length(s: string): (n: nat)
    ensures |s| <= n <= 2 * |s|
    ensures n == 0 <==> s == ""
  {
    if s == [] then 0 else Utf16Units(s[0]) + Utf16Length(s[1..])
  }

  lemma {:induction false} Utf16LengthAppend(a: string, b: string)
    ensures Utf16Length(a + b) == Utf16Length(a) + Utf16Length(b)
  {
    if a != [] {
      assert (a + b)[1..] == a[1..] + b;
      Utf16LengthAppend(a[1..], b);
    } else {
      assert a + b == b;
    }
  }

  /** Within the Basic Multilingual Plane, code units and characters agree. */
  lemma {:induction false} Utf16LengthBmp(s: string)
    requires forall i :: 0 <= i < |s| ==> s[i] as int <= 0xFFFF
    ensures Utf16Length(s) == |s|
  {
    if s != [] {
      Utf16LengthBmp(s[1..]);
    }
  }

  /** Three emoji are six code units long. */
  lemma EmojiLength()
    ensures Utf16Length("\U{1F600}\U{1F600}\U{1F600}") == 6
  {
    var e := "\U{1F600}\U{1F600}\U{1F600}";
    assert e[1..][1..][1..] == [];
  }

  /** The longest prefix of `s` that fits in `n` code units: `slice(0, n)` where the cut does
      not fall inside a surrogate pair. */
  function Utf16Prefix(s: string, n: int): (p: string)
    ensures |p| <= |s| && p == s[..|p|]
    ensures Utf16Length(p) <= if n < 0 then 0 else n
    ensures |p| < |s| ==> Utf16Length(p) + Utf16Units(s[|p|]) > n
  {
    if s == [] || Utf16Units(s[0]) > n then []
    else
      var rest := Utf16Prefix(s[1..], n - Utf16Units(s[0]));
      assert ([s[0]] + rest)[1..] == rest;
      [s[0]] + rest
  }

  lemma AppendAssoc<T>(a: seq<T>, b: seq<T>, c: seq<T>)
    ensures a + (b + c) == (a + b) + c
  {
  }

  /** A first character that fits is kept, and the rest is cut with what is left. */
  lemma Utf16PrefixCons(c: char, s: string, n: int)
    requires Utf16Units(c) <= n
    ensures Utf16Prefix([c] + s, n) == [c] + Utf16Prefix(s, n - Utf16Units(c))
  {
    assert ([c] + s)[0] == c && ([c] + s)[1..] == s;
  }

  /** A part that fills the budget exactly is the whole prefix of anything it starts. */
  lemma {:induction false} Utf16PrefixFilled(p: string, x: string, n: int)
    requires Utf16Length(p) == n && x != []
    ensures Utf16Prefix(p + x, n) == p
  {
    if p == [] {
      assert p + x == x;
    } else {
      var c, tail := p[0], p[1..];
      assert p == [c] + tail;
      assert Utf16Length(p) == Utf16Units(c) + Utf16Length(tail);
      Utf16PrefixFilled(tail, x, n - Utf16Units(c));
      calc {
        Utf16Prefix(p + x, n);
        { AppendAssoc([c], tail, x); }
        Utf16Prefix([c] + (tail + x), n);
        { Utf16PrefixCons(c, tail + x, n); }
        [c] + Utf16Prefix(tail + x, n - Utf16Units(c));
        [c] + tail;
      }
    }
  }

  /** `s.slice(0, end)` counted in code units: a negative end counts back from the length. */
  function Utf16Slice(s: string, end: int): (p: string)
    ensures |p| <= |s| && p == s[..|p|]
  {
    Utf16Prefix(s, if end < 0 then Utf16Length(s) + end else end)
  }

  /** `String.prototype.toLowerCase`, restricted to the ASCII letters. */
  function LowerChar(c: char): char {
    if 'A' <= c <= 'Z' then (c as int + 32) as char else c
  }

  /** `String.prototype.toUpperCase`, restricted to the ASCII letters. */
  function UpperChar(c: char): char {
    if 'a' <= c <= 'z' then (c as int - 32) as char else c
  }

  function Lower(s: string): (r: string)
    ensures |r| == |s| && forall i {:trigger r[i]} :: 0 <= i < |s| ==> r[i] == LowerChar(s[i])
  {
    seq(|s|, i requires 0 <= i < |s| => LowerChar(s[i]))
  }

  function Upper(s: string): (r: string)
    ensures |r| == |s| && forall i {:trigger r[i]} :: 0 <= i < |s| ==> r[i] == UpperChar(s[i])
  {
    seq(|s|, i requires 0 <= i < |s| => UpperChar(s[i]))
  }

  /** Lower-casing a lower-cased string changes nothing. */
  lemma LowerIdempotent(s: string)
    ensures Lower(Lower(s)) == Lower(s)
  {
  }

  lemma LowerAppend(a: string, b: string)
    ensures Lower(a + b) == Lower(a) + Lower(b)
  {
  }

  /** Case mapping never turns white space into something else or the reverse, so trimming and
      lower-casing may be applied in either order. */
  lemma LowerCharWhite(c: char)
    ensures IsWhite(LowerChar(c)) == IsWhite(c)
  {
    if 'A' <= c <= 'Z' {
      assert 'a' <= LowerChar(c) <= 'z';
    }
  }

  lemma {:induction false} LowerTrimStartCommute(s: string)
    ensures Lower(TrimStart(s)) == TrimStart(Lower(s))
  {
    if s != [] {
      var t := Lower(s);
      LowerCharWhite(s[0]);
      assert t[0] == LowerChar(s[0]);
      if IsWhite(s[0]) {
        TrimStartDrop(s);
        TrimStartDrop(t);
        LowerTail(s);
        LowerTrimStartCommute(s[1..]);
      } else {
        TrimStartKeep(s);
        TrimStartKeep(t);
      }
    }
  }

  /** Leading white space is dropped one character at a time. */
  lemma TrimStartDrop(s: string)
    requires s != [] && IsWhite(s[0])
    ensures TrimStart(s) == TrimStart(s[1..])
  {
  }

  /** A string that does not start with white space is its own `trimStart`. */
  lemma TrimStartKeep(s: string)
    requires s != [] && !IsWhite(s[0])
    ensures TrimStart(s) == s
  {
  }

  /** Lower-casing commutes with dropping the first character. */
  lemma LowerTail(s: string)
    requires s != []
    ensures Lower(s)[1..] == Lower(s[1..])
  {
  }

  lemma {:induction false} LowerTrimEndCommute(s: string)
    ensures Lower(TrimEnd(s)) == TrimEnd(Lower(s))
  {
    if s != [] {
      LowerCharWhite(s[|s| - 1]);
      if IsWhite(s[|s| - 1]) {
        assert Lower(s)[..|s| - 1] == Lower(s[..|s| - 1]);
        LowerTrimEndCommute(s[..|s| - 1]);
      }
    }
  }

  lemma LowerTrimCommute(s: string)
    ensures Lower(Trim(s)) == Trim(Lower(s))
  {
    LowerTrimStartCommute(s);
    LowerTrimEndCommute(TrimStart(s));
  }

  /** `p` is a prefix of `s`. */
  predicate IsPrefix(p: string, s: string) {
    |p| <= |s| && s[..|p|] == p
  }

  /** `hay.includes(needle)`. */
  predicate Contains(hay: string, needle: string)
    decreases |hay|
  {
    IsPrefix(needle, hay) || (hay != [] && Contains(hay[1..], needle))
  }

  /** `needle` occurs in `hay` starting at position `i`. */
  predicate OccursAt(hay: string, needle: string, i: int) {
    0 <= i <= |hay| - |needle| && hay[i..i + |needle|] == needle
  }

  /** `includes` holds exactly when the needle occurs at some position. */
  lemma {:induction false} ContainsIff(hay: string, needle: string)
    ensures Contains(hay, needle) <==> exists i :: OccursAt(hay, needle, i)
    decreases |hay|
  {
    if IsPrefix(needle, hay) {
      assert OccursAt(hay, needle, 0);
    } else if hay != [] {
      ContainsIff(hay[1..], needle);
      if Contains(hay[1..], needle) {
        var i :| OccursAt(hay[1..], needle, i);
        assert hay[i + 1..i + 1 + |needle|] == hay[1..][i..i + |needle|];
        assert OccursAt(hay, needle, i + 1);
      } else {
        forall i | OccursAt(hay, needle, i)
          ensures false
        {
          if i > 0 {
            OccursInTail(hay, needle, i);
          }
        }
      }
    }
  }

  /** An occurrence past the first position is an occurrence in the tail. */
  lemma OccursInTail(hay: string, needle: string, i: int)
    requires 0 < i && OccursAt(hay, needle, i)
    ensures OccursAt(hay[1..], needle, i - 1)
  {
    var tail := hay[1..];
    forall k | 0 <= k < |needle|
      ensures tail[i - 1..i - 1 + |needle|][k] == needle[k]
    {
      assert tail[i - 1 + k] == hay[i + k];
      assert hay[i..i + |needle|][k] == hay[i + k];
    }
    assert tail[i - 1..i - 1 + |needle|] == needle;
  }

  /** Every string includes the empty string. */
  lemma ContainsEmpty(hay: string)
    ensures Contains(hay, "")
  {
  }

  /** A string includes anything placed inside it. */
  lemma {:induction false} ContainsInfix(a: string, needle: string, b: string)
    ensures Contains(a + needle + b, needle)
  {
    ContainsIff(a + needle + b, needle);
    assert (a + needle + b)[|a|..|a| + |needle|] == needle;
    assert OccursAt(a + needle + b, needle, |a|);
  }

  /** Whatever either half includes, the joined string includes. */
  lemma ContainsAppend(a: string, b: string, needle: string)
    ensures Contains(a, needle) ==> Contains(a + b, needle)
    ensures Contains(b, needle) ==> Contains(a + b, needle)
  {
    ContainsIff(a, needle);
    ContainsIff(b, needle);
    ContainsIff(a + b, needle);
    if Contains(a, needle) {
      var i :| OccursAt(a, needle, i);
      assert (a + b)[i..i + |needle|] == a[i..i + |needle|];
      assert OccursAt(a + b, needle, i);
    }
    if Contains(b, needle) {
      var i :| OccursAt(b, needle, i);
      assert (a + b)[|a| + i..|a| + i + |needle|] == b[i..i + |needle|];
      assert OccursAt(a + b, needle, |a| + i);
    }
  }

  /** Plain lexicographic order of code points (a prefix comes first), the order of `<` on strings. */
  predicate StrLe(a: string, b: string) {
    a == [] || (b != [] && (a[0] < b[0] || (a[0] == b[0] && StrLe(a[1..], b[1..]))))
  }

  lemma {:induction false} StrLeTotal(a: string, b: string)
    ensures StrLe(a, b) || StrLe(b, a)
  {
    if a != [] && b != [] && a[0] == b[0] {
      StrLeTotal(a[1..], b[1..]);
    }
  }

  lemma {:induction false} StrLeTrans(a: string, b: string, c: string)
    requires StrLe(a, b) && StrLe(b, c)
    ensures StrLe(a, c)
  {
    if a != [] && a[0] == b[0] && b[0] == c[0] {
      StrLeTrans(a[1..], b[1..], c[1..]);
    }
  }

  lemma {:induction false} StrLeAntisym(a: string, b: string)
    requires StrLe(a, b) && StrLe(b, a)
    ensures a == b
  {
    if a != [] {
      StrLeAntisym(a[1..], b[1..]);
      assert a == [a[0]] + a[1..] && b == [b[0]] + b[1..];
    }
  }

  /** The character is an ASCII capital, a decimal digit, or neither letter nor digit. */
  predicate IsUpperAscii(c: char) { 'A' <= c <= 'Z' }
  predicate IsDigit(c: char) { '0' <= c <= '9' }
  predicate IsAlnumAscii(c: char) { 'A' <= c <= 'Z' || 'a' <= c <= 'z' || '0' <= c <= '9' }

  /** `/[A-Z]/.test(s)`. */
  predicate HasUpper(s: string) { exists i :: 0 <= i < |s| && IsUpperAscii(s[i]) }
  /** `/[0-9]/.test(s)`. */
  predicate HasDigit(s: string) { exists i :: 0 <= i < |s| && IsDigit(s[i]) }
  /** `/[^A-Za-z0-9]/.test(s)`. */
  predicate HasSymbol(s: string) { exists i :: 0 <= i < |s| && !IsAlnumAscii(s[i]) }

  /** The character of a decimal digit. */
  function DigitChar(d: nat): (c: char)
    requires d < 10
    ensures IsDigit(c) && c as int - '0' as int == d
  {
    ('0' as int + d) as char
  }

  /** Every character is a decimal digit. */
  predicate AllDigits(s: string) {
    forall i :: 0 <= i < |s| ==> IsDigit(s[i])
  }

  /** `n.toString()` for a non-negative integer: its decimal digits, without leading zeros. */
  function DecimalString(n: nat): (r: string)
    ensures |r| >= 1 && AllDigits(r)
    ensures |r| > 1 ==> r[0] != '0'
    decreases n
  {
    if n < 10 then [DigitChar(n)] else DecimalString(n / 10) + [DigitChar(n % 10)]
  }

  /** The number a string of decimal digits denotes. */
  function DecimalValue(s: string): nat
    requires AllDigits(s)
  {
    if s == [] then 0 else DecimalValue(s[..|s| - 1]) * 10 + (s[|s| - 1] as int - '0' as int)
  }

  /** Reading back the digits of `n` gives `n`. */
  lemma {:induction false} DecimalRoundTrip(n: nat)
    ensures DecimalValue(DecimalString(n)) == n
    decreases n
  {
    if n >= 10 {
      DecimalRoundTrip(n / 10);
      var r := DecimalString(n);
      assert r[..|r| - 1] == DecimalString(n / 10);
    }
  }

  /** A number from 100000 to 999999 is written with exactly six digits. */
  lemma SixDigits(n: nat)
    requires 100000 <= n <= 999999
    ensures |DecimalString(n)| == 6
  {
    var d5 := n / 10;
    var d4 := d5 / 10;
    var d3 := d4 / 10;
    var d2 := d3 / 10;
    var d1 := d2 / 10;
    assert 1 <= d1 < 10 && d2 >= 10 && d3 >= 10 && d4 >= 10 && d5 >= 10;
    assert |DecimalString(d2)| == 2;
    assert |DecimalString(d3)| == 3;
    assert |DecimalString(d4)| == 4;
    assert |DecimalString(d5)| == 5;
  }
}
