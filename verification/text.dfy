/** String helpers used by the writer, the registry and the format filter. */
module Text {
  import opened Wrappers

  /** Number of occurrences of `c` in `s`. */
  function Count(s: string, c: char): nat
  {
    if s == [] then 0 else (if s[0] == c then 1 else 0) + Count(s[1..], c)
  }

  /** `s` with every double quote doubled, which is what
      `replaceAll("\"", "\"\"")` produces (the pattern is a literal quote). */
  function Escape(s: string): (r: string)
    ensures |r| == |s| + Count(s, '"')
    ensures '"' !in s ==> r == s
  {
    if s == [] then []
    else (if s[0] == '"' then "\"\"" else [s[0]]) + Escape(s[1..])
  }

  /** Reverses `Escape`: a doubled quote becomes one quote; a quote that is
      not doubled makes the text undecodable. */
  function Unescape(s: string): Option<string>
    decreases |s|
  {
    if s == [] then Some([])
    else if s[0] != '"' then
      match Unescape(s[1..])
      case Some(t) => Some([s[0]] + t)
      case None => None
    else if |s| >= 2 && s[1] == '"' then
      match Unescape(s[2..])
      case Some(t) => Some("\"" + t)
      case None => None
    else None
  }

  /** Un-doubling the quotes of an escaped text gives the text back. */
  lemma {:induction false} UnescapeEscape(s: string)
    ensures Unescape(Escape(s)) == Some(s)
  {
    if s != [] {
      UnescapeEscape(s[1..]);
      var e := Escape(s);
      if s[0] == '"' {
        assert e == "\"\"" + Escape(s[1..]);
        assert e[2..] == Escape(s[1..]);
      } else {
        assert e == [s[0]] + Escape(s[1..]);
        assert e[1..] == Escape(s[1..]);
        assert e[0] == s[0];
      }
      assert s == [s[0]] + s[1..];
    }
  }

  /** `parts` joined with `sep` between consecutive parts. */
  function Join(parts: seq<string>, sep: string): string
  {
    if |parts| == 0 then ""
    else if |parts| == 1 then parts[0]
    else parts[0] + sep + Join(parts[1..], sep)
  }

  /** Java's `String.lastIndexOf(char)`: the last index of `c`, or -1. */
  function LastIndexOf(s: string, c: char): (r: int)
    ensures -1 <= r < |s|
    ensures r == -1 <==> c !in s
    ensures r >= 0 ==> s[r] == c && c !in s[r + 1..]
  {
    if s == [] then -1
    else if s[|s| - 1] == c then |s| - 1
    else
      var r := LastIndexOf(s[..|s| - 1], c);
      assert s == s[..|s| - 1] + [s[|s| - 1]];
      r
  }

  /** Upper case of an ASCII letter; any other character is returned unchanged. */
  function UpperChar(c: char): char
  {
    if 'a' <= c <= 'z' then (c as int - 32) as char else c
  }

  /** Lower case of an ASCII letter; any other character is returned unchanged. */
  function LowerChar(c: char): char
  {
    if 'A' <= c <= 'Z' then (c as int + 32) as char else c
  }

  /** `name.substring(0,1).toUpperCase() + name.substring(1)`: the first
      character upper-cased; `substring(0,1)` of an empty name throws. */
  function Capitalize(name: string): (r: Result<string>)
    ensures r.Ok? <==> |name| > 0
    ensures r.Ok? ==> |r.value| == |name| && r.value[1..] == name[1..]
    ensures r.Ok? && 'a' <= name[0] <= 'z' ==> 'A' <= r.value[0] <= 'Z' && r.value[0] as int == name[0] as int - 32
    ensures r.Ok? && !('a' <= name[0] <= 'z') ==> r.value[0] == name[0]
  {
    if |name| == 0 then Err(IndexOutOfBounds)
    else Ok([UpperChar(name[0])] + name[1..])
  }

  /** Lower-casing an upper-case ASCII letter and upper-casing it again gives it back. */
  lemma UpperLower(c: char)
    requires 'A' <= c <= 'Z'
    ensures UpperChar(LowerChar(c)) == c
  {
  }
}
