/** Python's `str.replace` for a one-character pattern and a one-character
    replacement: every occurrence, or (with a count of 1) only the first. */
module Strings {

  /** `s.replace(from, to)` */
  function ReplaceAll(s: string, from: char, to: char): (r: string)
    ensures |r| == |s|
    ensures forall i :: 0 <= i < |s| ==> r[i] == if s[i] == from then to else s[i]
  {
    if s == [] then [] else [if s[0] == from then to else s[0]] + ReplaceAll(s[1..], from, to)
  }

  /** `s.replace(from, to, 1)`: position i changes exactly when it holds the
      first occurrence of `from`. */
  function ReplaceFirst(s: string, from: char, to: char): (r: string)
    ensures |r| == |s|
    ensures forall i :: 0 <= i < |s| ==> r[i] == if s[i] == from && from !in s[..i] then to else s[i]
  {
    if s == [] then []
    else if s[0] == from then [to] + s[1..]
    else
      var rest := ReplaceFirst(s[1..], from, to);
      assert forall i :: 0 < i < |s| ==> s[..i] == [s[0]] + s[1..][..i - 1];
      [s[0]] + rest
  }
}
