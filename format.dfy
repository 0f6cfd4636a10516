/** `truncate` of `frontend/src/utils/format.js`. */
module Format {
  import opened Common
  import opened Strings

  /** The limit when the caller passes none. */
  const DEFAULT_LENGTH := 100

  /** The limit in force for an optional `length` argument. */
  function LimitOf(length: Option<int>): int
  {
    if length.None? then DEFAULT_LENGTH else length.value
  }

  /** `truncate(str, length)`: "" for a falsy string, the string itself when its length in
      UTF-16 code units fits, otherwise `str.slice(0, length)` followed by an ellipsis. */
  function Truncate(str: Option<string>, length: Option<int>): (r: string)
    ensures !Present(str) ==> r == ""
    ensures Present(str) && Utf16Length(str.value) <= LimitOf(length) ==> r == str.value
    ensures Present(str) && 0 <= LimitOf(length) < Utf16Length(str.value) ==>
      exists p :: r == p + "…" && IsPrefix(p, str.value)
        && LimitOf(length) - 1 <= Utf16Length(p) <= LimitOf(length)
    ensures Present(str) && LimitOf(length) < Utf16Length(str.value) ==>
      r == Utf16Slice(str.value, LimitOf(length)) + "…"
  {
    var n := LimitOf(length);
    if !Present(str) then ""
    else if Utf16Length(str.value) > n then
      CutFits(str.value, n);
      Utf16Slice(str.value, n) + "…"
    else str.value
  }

  /** A cut of a string too long for `n` units drops at most half a surrogate pair. */
  lemma CutFits(s: string, n: int)
    requires n < Utf16Length(s)
    ensures 0 <= n ==> var p := Utf16Slice(s, n); IsPrefix(p, s) && n - 1 <= Utf16Length(p) <= n
  {
    var p := Utf16Prefix(s, n);
    if |p| == |s| {
      assert p == s;
    }
  }

  /** Within the Basic Multilingual Plane the cut is exactly the first `length` characters. */
  lemma TruncateBmp(str: string, length: Option<int>)
    requires forall i :: 0 <= i < |str| ==> str[i] as int <= 0xFFFF
    requires 0 <= LimitOf(length) < |str|
    ensures Truncate(Some(str), length) == str[..LimitOf(length)] + "…"
  {
    var n := LimitOf(length);
    Utf16LengthBmp(str);
    var p := Utf16Prefix(str, n);
    assert IsPrefix(p, str);
    Utf16LengthBmp(p);
    assert |p| == n;
  }

  /** With a non-negative limit the result never exceeds the limit by more than the ellipsis, and
      truncating again changes nothing. */
  lemma TruncateBoundedIdempotent(str: Option<string>, length: Option<int>)
    requires LimitOf(length) >= 0
    ensures Utf16Length(Truncate(str, length)) <= LimitOf(length) + 1
    ensures Truncate(Some(Truncate(str, length)), length) == Truncate(str, length)
  {
    var n := LimitOf(length);
    if Present(str) && n < Utf16Length(str.value) {
      var p := Utf16Prefix(str.value, n);
      assert Truncate(str, length) == p + "…";
      EllipsisAfterCut(p, n);
    }
  }

  /** A cut followed by the ellipsis is at most one unit over the limit, and cutting it again
      leaves it as it is. */
  lemma EllipsisAfterCut(p: string, n: int)
    requires 0 <= n && Utf16Length(p) <= n
    ensures Utf16Length(p + "…") <= n + 1
    ensures Truncate(Some(p + "…"), Some(n)) == p + "…"
  {
    Utf16LengthAppend(p, "…");
    assert Utf16Length("…") == 1;
    if Utf16Length(p + "…") > n {
      Utf16PrefixFilled(p, "…", n);
    }
  }
}
