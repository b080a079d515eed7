/** Java-library behaviour the core relies on: nullable values, thrown
    exceptions, and the java.lang.String operations the core calls. */
module Common {

  datatype Option<+T> = None | Some(value: T)

  /** A computation that either returns a value or throws an exception
      carrying a message. */
  datatype Result<+T, +E> = Success(value: T) | Failure(error: E)

  /** Java string concatenation renders a null reference as "null". */
  function NullText(s: Option<string>): (r: string)
    ensures s.Some? ==> r == s.value
    ensures s.None? ==> r == "null"
  {
    match s
    case Some(t) => t
    case None => "null"
  }

  /** Character.isWhitespace: space, line and paragraph separators other
      than the non-breaking ones, plus the ASCII controls TAB..CR and FS..US. */
  predicate IsJavaWhitespace(c: char)
  {
    || c == ' ' || ('\t' <= c <= '\r') || ('\U{1C}' <= c <= '\U{1F}')
    || c == '\U{1680}' || ('\U{2000}' <= c <= '\U{2006}') || ('\U{2008}' <= c <= '\U{200A}')
    || c == '\U{2028}' || c == '\U{2029}' || c == '\U{205F}' || c == '\U{3000}'
  }

  /** String.isBlank: empty or only Character.isWhitespace characters. */
  predicate IsBlank(s: string)
  {
    forall i :: 0 <= i < |s| ==> IsJavaWhitespace(s[i])
  }

  /** The regular-expression class \s: space, tab, line feed, vertical tab,
      form feed and carriage return. */
  predicate IsRegexSpace(c: char)
  {
    c == ' ' || c == '\t' || c == '\n' || c == '\U{0B}' || c == '\U{0C}' || c == '\r'
  }

  /** String.trim removes every character at or below U+0020 from both ends. */
  predicate IsTrimmable(c: char)
  {
    c <= ' '
  }

  function TrimStart(s: string): (r: string)
    ensures |r| <= |s| && r == s[|s| - |r|..]
    ensures r == [] || !IsTrimmable(r[0])
    ensures forall i :: 0 <= i < |s| - |r| ==> IsTrimmable(s[i])
  {
    if s == [] || !IsTrimmable(s[0]) then s else TrimStart(s[1..])
  }

  function TrimEnd(s: string): (r: string)
    ensures |r| <= |s| && r == s[..|r|]
    ensures r == [] || !IsTrimmable(r[|r| - 1])
    ensures forall i :: |r| <= i < |s| ==> IsTrimmable(s[i])
  {
    if s == [] || !IsTrimmable(s[|s| - 1]) then s else TrimEnd(s[..|s| - 1])
  }

  /** String.trim: what is left once every character at or below U+0020
      is removed from both ends. */
  function Trim(s: string): (r: string)
    ensures |r| <= |s|
    ensures r == [] || (!IsTrimmable(r[0]) && !IsTrimmable(r[|r| - 1]))
    ensures forall c :: c in r ==> c in s
  {
    TrimEnd(TrimStart(s))
  }

  function IsEmpty(s: string): bool { |s| == 0 }

  predicate StartsWith(s: string, prefix: string)
  {
    |prefix| <= |s| && s[..|prefix|] == prefix
  }

  predicate EndsWith(s: string, suffix: string)
  {
    |suffix| <= |s| && s[|s| - |suffix|..] == suffix
  }

  /** `part` occurs in `s` starting at position `i`. */
  predicate OccursAt(s: string, part: string, i: nat)
  {
    i + |part| <= |s| && s[i..i + |part|] == part
  }

  /** String.contains. */
  predicate Contains(s: string, part: string)
  {
    exists i: nat | i <= |s| :: OccursAt(s, part, i)
  }

  /** A string contains every string it is built around. */
  lemma ContainsMiddle(a: string, part: string, b: string)
    ensures Contains(a + part + b, part)
  {
    assert (a + part + b)[|a|..|a| + |part|] == part;
    assert OccursAt(a + part + b, part, |a|);
  }

  /** What a string contains, it still contains with more text after it. */
  lemma ContainsExtend(s: string, part: string, t: string)
    requires Contains(s, part)
    ensures Contains(s + t, part)
  {
    var i: nat :| i <= |s| && OccursAt(s, part, i);
    assert (s + t)[i..i + |part|] == s[i..i + |part|];
    assert OccursAt(s + t, part, i);
  }

  /** What a string contains, it still contains with more text before it. */
  lemma ContainsPrepend(t: string, s: string, part: string)
    requires Contains(s, part)
    ensures Contains(t + s, part)
  {
    var i: nat :| i <= |s| && OccursAt(s, part, i);
    assert (t + s)[|t| + i..|t| + i + |part|] == s[i..i + |part|];
    assert OccursAt(t + s, part, |t| + i);
  }

  lemma OccursShift(s: string, part: string, i: nat)
    requires |s| > 0
    ensures OccursAt(s[1..], part, i) <==> OccursAt(s, part, i + 1)
  {
    if i + 1 + |part| <= |s| {
      assert s[1..][i..i + |part|] == s[i + 1..i + 1 + |part|];
    }
  }

  /** String.indexOf(part): the first position where `part` occurs. */
  function IndexOf(s: string, part: string): (r: Option<nat>)
    ensures r.Some? ==> OccursAt(s, part, r.value)
    ensures r.Some? ==> forall j: nat :: j < r.value ==> !OccursAt(s, part, j)
    ensures r.None? <==> !Contains(s, part)
    decreases |s|
  {
    if |s| < |part| then None
    else if s[..|part|] == part then
      assert OccursAt(s, part, 0);
      Some(0)
    else
      forall j: nat ensures OccursAt(s[1..], part, j) <==> OccursAt(s, part, j + 1) {
        OccursShift(s, part, j);
      }
      assert !OccursAt(s, part, 0);
      match IndexOf(s[1..], part)
      case None =>
        assert !Contains(s, part) by {
          forall j: nat ensures !OccursAt(s, part, j) {
            if j > 0 { assert !OccursAt(s[1..], part, j - 1); }
          }
        }
        None
      case Some(k) =>
        assert forall j: nat :: 1 <= j <= k ==> (OccursAt(s, part, j) <==> OccursAt(s[1..], part, j - 1));
        Some(k + 1)
  }

  /** The first occurrence is the one indexOf finds. */
  lemma {:induction false} IndexOfFinds(s: string, part: string, i: nat)
    requires OccursAt(s, part, i)
    requires forall j: nat :: j < i ==> !OccursAt(s, part, j)
    ensures IndexOf(s, part) == Some(i)
    decreases i
  {
    if i > 0 {
      assert !OccursAt(s, part, 0);
      OccursShift(s, part, i - 1);
      forall j: nat | j < i - 1 ensures !OccursAt(s[1..], part, j) {
        OccursShift(s, part, j);
      }
      IndexOfFinds(s[1..], part, i - 1);
    }
  }

  /** String.indexOf(char). */
  function IndexOfChar(s: string, c: char): (r: Option<nat>)
    ensures r.Some? ==> r.value < |s| && s[r.value] == c && c !in s[..r.value]
    ensures r.None? <==> c !in s
  {
    if s == [] then None
    else if s[0] == c then Some(0)
    else
      match IndexOfChar(s[1..], c)
      case None => None
      case Some(k) =>
        assert s[..k + 1] == [s[0]] + s[1..][..k];
        Some(k + 1)
  }

  function ToLowerAsciiChar(c: char): char
  {
    if 'A' <= c <= 'Z' then (c as int + 32) as char else c
  }

  /** Case folding of ASCII letters; the only characters the core compares
      case-insensitively against are ASCII letters. */
  function ToLowerAscii(s: string): (r: string)
    ensures |r| == |s|
    ensures forall i :: 0 <= i < |s| ==> r[i] == ToLowerAsciiChar(s[i])
  {
    if s == [] then [] else [ToLowerAsciiChar(s[0])] + ToLowerAscii(s[1..])
  }

  predicate EqualsIgnoreCaseAscii(a: string, b: string)
  {
    ToLowerAscii(a) == ToLowerAscii(b)
  }

  function DigitChar(d: nat): char
    requires d < 10
  {
    ('0' as int + d) as char
  }

  function NatToString(n: nat): (r: string)
    ensures |r| >= 1
    ensures forall i :: 0 <= i < |r| ==> '0' <= r[i] <= '9'
  {
    if n < 10 then [DigitChar(n)] else NatToString(n / 10) + [DigitChar(n % 10)]
  }

  /** Decimal rendering of an integer, as String.valueOf(long). */
  function IntToString(n: int): string
  {
    if n < 0 then "-" + NatToString(-n) else NatToString(n)
  }

  /** String.replace(target, replacement): every non-overlapping occurrence,
      scanning left to right. */
  function ReplaceLiteral(s: string, target: string, replacement: string): (r: string)
    requires |target| > 0
    ensures !Contains(s, target) ==> r == s
    decreases |s|
  {
    if |s| < |target| then s
    else if s[..|target|] == target then
      assert OccursAt(s, target, 0);
      replacement + ReplaceLiteral(s[|target|..], target, replacement)
    else
      var rest := ReplaceLiteral(s[1..], target, replacement);
      assert !Contains(s, target) ==> !Contains(s[1..], target) by {
        if Contains(s[1..], target) {
          var i: nat :| OccursAt(s[1..], target, i);
          OccursShift(s, target, i);
        }
      }
      [s[0]] + rest
  }

  /** Strings joined by a separator, as String.join. */
  function Join(sep: string, parts: seq<string>): (r: string)
    ensures parts != [] ==> StartsWith(r, parts[0])
  {
    if parts == [] then ""
    else if |parts| == 1 then parts[0]
    else parts[0] + sep + Join(sep, parts[1..])
  }

  /** Joining one more part at the end. */
  lemma {:induction false} JoinSnoc(sep: string, parts: seq<string>, p: string)
    ensures Join(sep, parts + [p]) == if parts == [] then p else Join(sep, parts) + sep + p
  {
    if |parts| >= 2 {
      JoinSnoc(sep, parts[1..], p);
      assert (parts + [p])[1..] == parts[1..] + [p];
    } else if |parts| == 1 {
      assert (parts + [p])[1..] == [p];
    }
  }

  /** Sequence concatenation regroups freely. */
  lemma AppendAssociates<T>(a: seq<T>, b: seq<T>, c: seq<T>)
    ensures a + b + c == a + (b + c)
  {
  }

  /** Two appended elements are one appended pair. */
  lemma AppendPair<T>(a: seq<T>, x: T, y: T)
    ensures a + [x] + [y] == a + [x, y]
  {
  }
}
