/**
 * The string primitives the PHP and JavaScript code relies on: PHP truthiness,
 * decimal rendering of integers, ASCII case mapping (`strtoupper`, `toLowerCase`),
 * `explode(...)[0]`, `rtrim` with a character list, `implode`, left padding and
 * substring search (`String.prototype.includes`).
 */
module Strings {
  import opened Wrappers

  /** PHP's `!$x` on a nullable string: null, "" and "0" are all falsy. */
  predicate PhpFalsy(s: Option<string>) {
    s.None? || s.value == "" || s.value == "0"
  }

  /** The characters PHP's `trim` strips by default: space, tab, newline, carriage return, NUL, vertical tab. */
  const TrimChars: set<char> := {' ', '\t', '\n', '\r', '\0', '\U{0B}'}

  /** `trim($s) === ''`: the string holds nothing but `trim`'s characters (the empty string included). */
  predicate Blank(s: string) {
    forall i :: 0 <= i < |s| ==> s[i] in TrimChars
  }

  /** Laravel's `required` rule on a string field: present, and not empty once trimmed. */
  predicate Present(s: Option<string>) {
    s.Some? && !Blank(s.value)
  }

  predicate IsDigit(c: char) { '0' <= c <= '9' }
  predicate IsUpper(c: char) { 'A' <= c <= 'Z' }
  predicate IsLower(c: char) { 'a' <= c <= 'z' }
  predicate IsAlnum(c: char) { IsDigit(c) || IsUpper(c) || IsLower(c) }

  // ---------------------------------------------------------------------------
  // Decimal rendering (PHP string interpolation of an int, `date('Ymd')` fields)

  function DigitChar(d: int): (c: char)
    requires 0 <= d < 10
    ensures IsDigit(c) && c as int - '0' as int == d
  {
    ['0', '1', '2', '3', '4', '5', '6', '7', '8', '9'][d]
  }

  /** The decimal digits of `n`, most significant first, without leading zeros. */
  function NatToString(n: nat): (s: string)
    ensures 1 <= |s|
    ensures forall i :: 0 <= i < |s| ==> IsDigit(s[i])
    ensures s[0] == '0' ==> n == 0
  {
    if n < 10 then [DigitChar(n)] else NatToString(n / 10) + [DigitChar(n % 10)]
  }

  /** Reads a string of decimal digits back as a number. */
  function DigitsValue(s: string): nat
    requires forall i :: 0 <= i < |s| ==> IsDigit(s[i])
  {
    if |s| == 0 then 0
    else DigitsValue(s[..|s| - 1]) * 10 + DigitValue(s[|s| - 1])
  }

  function DigitValue(c: char): nat
    requires IsDigit(c)
  {
    c as int - '0' as int
  }

  /** Rendering a number and reading it back gives the number. */
  lemma {:induction false} DigitsValueOfNatToString(n: nat)
    ensures DigitsValue(NatToString(n)) == n
  {
    var s := NatToString(n);
    if n >= 10 {
      DigitsValueOfNatToString(n / 10);
      assert s[..|s| - 1] == NatToString(n / 10);
    }
  }

  /** Distinct numbers render differently. */
  lemma NatToStringInjective(m: nat, n: nat)
    requires NatToString(m) == NatToString(n)
    ensures m == n
  {
    DigitsValueOfNatToString(m);
    DigitsValueOfNatToString(n);
  }

  /** `s` widened to `width` characters by `c` on the left (`str_pad(..., STR_PAD_LEFT)`). */
  function PadLeft(s: string, width: nat, c: char): (r: string)
    ensures |r| == if |s| < width then width else |s|
    ensures r[|r| - |s|..] == s
    ensures forall i :: 0 <= i < |r| - |s| ==> r[i] == c
  {
    if |s| < width then seq(width - |s|, _ => c) + s else s
  }

  // ---------------------------------------------------------------------------
  // ASCII case mapping

  function UpperChar(c: char): (u: char)
    ensures !IsLower(u)
    ensures IsAlnum(c) ==> IsDigit(u) || IsUpper(u)
    ensures !IsLower(c) ==> u == c
  {
    if IsLower(c) then (c as int - 32) as char else c
  }

  function LowerChar(c: char): (l: char)
    ensures !IsUpper(l)
    ensures !IsUpper(c) ==> l == c
  {
    if IsUpper(c) then (c as int + 32) as char else c
  }

  /** PHP's `strtoupper` on ASCII text. */
  function ToUpper(s: string): (r: string)
    ensures |r| == |s|
    ensures forall i :: 0 <= i < |s| ==> r[i] == UpperChar(s[i])
  {
    seq(|s|, i requires 0 <= i < |s| => UpperChar(s[i]))
  }

  /** JavaScript's `toLowerCase` on ASCII text. */
  function ToLower(s: string): (r: string)
    ensures |r| == |s|
    ensures forall i :: 0 <= i < |s| ==> r[i] == LowerChar(s[i])
  {
    seq(|s|, i requires 0 <= i < |s| => LowerChar(s[i]))
  }

  /** Upper-casing leaves no lower-case letter and keeps alphanumerics alphanumeric. */
  lemma ToUpperShape(s: string)
    ensures forall i :: 0 <= i < |s| ==> !IsLower(ToUpper(s)[i])
    ensures (forall i :: 0 <= i < |s| ==> IsAlnum(s[i])) ==>
              forall i :: 0 <= i < |s| ==> IsDigit(ToUpper(s)[i]) || IsUpper(ToUpper(s)[i])
  {
  }

  // ---------------------------------------------------------------------------
  // Searching and splitting

  /** JavaScript's `hay.includes(needle)`: `needle` occurs somewhere in `hay`. */
  predicate Contains(hay: string, needle: string) {
    exists i :: 0 <= i <= |hay| && needle <= hay[i..]
  }

  /** PHP's `explode(c, s)[0]`: the text before the first `c`, or all of `s`. */
  function Before(s: string, c: char): (r: string)
    ensures r <= s
    ensures c !in r
    ensures |r| == |s| || s[|r|] == c
  {
    if |s| == 0 then ""
    else if s[0] == c then ""
    else [s[0]] + Before(s[1..], c)
  }

  /** The text before the last `c`, or all of `s` when `c` does not occur in it. */
  function BeforeLast(s: string, c: char): (r: string)
    ensures r <= s
    ensures c in s ==> |r| < |s| && s[|r|] == c && c !in s[|r| + 1..]
    ensures c !in s ==> r == s
    decreases |s|
  {
    if |s| == 0 then s
    else if s[|s| - 1] == c then s[..|s| - 1]
    else if c in s[..|s| - 1] then BeforeLast(s[..|s| - 1], c)
    else s
  }

  /** `Before` splits at the first separator: it recovers a head free of separators. */
  lemma {:induction false} BeforeOfJoined(head: string, c: char, tail: string)
    requires c !in head
    ensures Before(head + [c] + tail, c) == head
  {
    var s := head + [c] + tail;
    assert s[|head|] == c;
    assert forall i :: 0 <= i < |head| ==> s[i] == head[i];
  }

  /** `BeforeLast` splits at the last separator: it recovers a head followed by a separator-free tail. */
  lemma {:induction false} BeforeLastOfJoined(head: string, c: char, tail: string)
    requires c !in tail
    ensures BeforeLast(head + [c] + tail, c) == head
  {
    var s := head + [c] + tail;
    assert s[|head|] == c;
    assert forall i :: |head| < i < |s| ==> s[i] == tail[i - |head| - 1];
    var r := BeforeLast(s, c);
    assert |r| < |s| && s[|r|] == c;
    assert forall i :: |r| < i < |s| ==> s[|r| + 1..][i - |r| - 1] == s[i];
    assert r == s[..|r|];
  }

  // ---------------------------------------------------------------------------
  // Trimming and joining

  /** PHP's `rtrim(s, chars)`: drop every trailing character that is in `cs`. */
  function RTrim(s: string, cs: set<char>): (r: string)
    ensures r <= s
    ensures |r| == 0 || r[|r| - 1] !in cs
    ensures forall i :: |r| <= i < |s| ==> s[i] in cs
  {
    if |s| == 0 then s
    else if s[|s| - 1] in cs then RTrim(s[..|s| - 1], cs)
    else s
  }

  /** Trimming text that ends in a kept character followed only by trimmed ones removes exactly the latter. */
  lemma RTrimStops(body: string, trail: string, cs: set<char>)
    requires |body| > 0 && body[|body| - 1] !in cs
    requires forall i :: 0 <= i < |trail| ==> trail[i] in cs
    ensures RTrim(body + trail, cs) == body
  {
    var s := body + trail;
    assert s[|body| - 1] == body[|body| - 1];
    assert forall i :: |body| <= i < |s| ==> s[i] == trail[i - |body|];
    var r := RTrim(s, cs);
    assert r == s[..|r|];
  }

  /** PHP's `implode(sep, parts)`. */
  function Join(parts: seq<string>, sep: string): string {
    if |parts| == 0 then ""
    else if |parts| == 1 then parts[0]
    else parts[0] + sep + Join(parts[1..], sep)
  }

  /** The text a loop `$s .= $part . sep` builds: every part followed by `sep`. */
  function Terminated(parts: seq<string>, sep: string): string {
    if |parts| == 0 then "" else Terminated(parts[..|parts| - 1], sep) + parts[|parts| - 1] + sep
  }

  /** Appending one more terminated part to a join extends the join by a separator and the part. */
  lemma {:induction false} JoinSnoc(parts: seq<string>, p: string, sep: string)
    requires |parts| > 0
    ensures Join(parts + [p], sep) == Join(parts, sep) + sep + p
  {
    if |parts| == 1 {
      assert (parts + [p])[1..] == [p];
    } else {
      JoinSnoc(parts[1..], p, sep);
      assert (parts + [p])[1..] == parts[1..] + [p];
    }
  }

  /** Terminating every part equals joining them and terminating once. */
  lemma {:induction false} TerminatedIsJoinThenSep(parts: seq<string>, sep: string)
    requires |parts| > 0
    ensures Terminated(parts, sep) == Join(parts, sep) + sep
  {
    var n := |parts|;
    if n == 1 {
      assert Terminated(parts[..0], sep) == "";
    } else {
      var init := parts[..n - 1];
      TerminatedIsJoinThenSep(init, sep);
      JoinSnoc(init, parts[n - 1], sep);
      assert init + [parts[n - 1]] == parts;
    }
  }

  /** The last character of a join is the last character of its last part. */
  lemma {:induction false} JoinLast(parts: seq<string>, sep: string)
    requires |parts| > 0 && |parts[|parts| - 1]| > 0
    ensures |Join(parts, sep)| > 0
    ensures Join(parts, sep)[|Join(parts, sep)| - 1] == parts[|parts| - 1][|parts[|parts| - 1]| - 1]
  {
    if |parts| > 1 {
      JoinLast(parts[1..], sep);
    }
  }
}
