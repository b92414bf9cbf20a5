/** The string operations the ingestion and selection code performs:
    `startswith`/`endswith`, slicing, `str.split`, `lstrip`-style loops,
    `str(int)`, and POSIX `os.path.join`/`basename`/`dirname`.
 */
module Strings {
  import opened Common

  predicate StartsWith(s: string, prefix: string) {
    |prefix| <= |s| && s[..|prefix|] == prefix
  }

  predicate EndsWith(s: string, suffix: string) {
    |suffix| <= |s| && s[|s| - |suffix|..] == suffix
  }

  /** Python's slice `s[n:]`, which is empty once `n` passes the end. */
  function Drop(s: string, n: nat): (r: string)
    ensures n <= |s| ==> s == s[..n] + r
    ensures n >= |s| ==> r == ""
  {
    if n <= |s| then s[n..] else ""
  }

  lemma DropPrefix(prefix: string, rest: string)
    ensures Drop(prefix + rest, |prefix|) == rest
  {
    assert (prefix + rest)[|prefix|..] == rest;
  }

  /** `sep` occurs in `s` starting at position `j`. */
  predicate OccursAt(s: string, sep: string, j: int) {
    0 <= j && j + |sep| <= |s| && s[j..j + |sep|] == sep
  }

  /** `s.find(sep, k)`: the first occurrence of `sep` at or after `k`. */
  function FindFrom(s: string, sep: string, k: nat): (r: Option<nat>)
    requires |sep| > 0
    ensures r.Some? ==> k <= r.value && OccursAt(s, sep, r.value)
    ensures r.Some? ==> forall j :: k <= j < r.value ==> !OccursAt(s, sep, j)
    ensures r.None? ==> forall j :: k <= j ==> !OccursAt(s, sep, j)
    decreases |s| - k
  {
    if k + |sep| > |s| then None
    else if s[k..k + |sep|] == sep then Some(k)
    else FindFrom(s, sep, k + 1)
  }

  /** `sep.join(parts)`. */
  function Join(parts: seq<string>, sep: string): string
  {
    if |parts| == 0 then ""
    else if |parts| == 1 then parts[0]
    else parts[0] + sep + Join(parts[1..], sep)
  }

  lemma OccursInPrefix(s: string, sep: string, i: nat, j: int)
    requires i <= |s|
    requires OccursAt(s[..i], sep, j)
    ensures OccursAt(s, sep, j)
  {
    assert s[..i][j..j + |sep|] == s[j..j + |sep|];
  }

  /** `s.split(sep)`: the pieces between the non-overlapping occurrences of
      `sep`, scanned left to right. Joining them back gives `s`, and no piece
      contains `sep`. */
  function Split(s: string, sep: string): (parts: seq<string>)
    requires |sep| > 0
    ensures |parts| >= 1
    ensures Join(parts, sep) == s
    ensures forall i, j :: 0 <= i < |parts| ==> !OccursAt(parts[i], sep, j)
    decreases |s|
  {
    match FindFrom(s, sep, 0)
    case None => [s]
    case Some(i) =>
      var head := s[..i];
      var rest := Split(s[i + |sep|..], sep);
      assert s == head + sep + s[i + |sep|..];
      forall j | OccursAt(head, sep, j)
        ensures false
      {
        OccursInPrefix(s, sep, i, j);
      }
      assert ([head] + rest)[1..] == rest;
      [head] + rest
  }

  /** Splitting at an occurrence that is the first one. */
  lemma SplitAtFirst(x: string, sep: string, y: string)
    requires |sep| > 0
    requires forall j :: 0 <= j < |x| ==> !OccursAt(x + sep + y, sep, j)
    ensures Split(x + sep + y, sep) == [x] + Split(y, sep)
  {
    var s := x + sep + y;
    assert OccursAt(s, sep, |x|) by {
      assert s[|x|..|x| + |sep|] == sep;
    }
    assert FindFrom(s, sep, 0) == Some(|x|);
    assert s[..|x|] == x;
    assert s[|x| + |sep|..] == y;
  }

  /** Splitting a string that does not contain the separator. */
  lemma SplitWithout(s: string, sep: string)
    requires |sep| > 0
    requires forall j :: !OccursAt(s, sep, j)
    ensures Split(s, sep) == [s]
  {
    assert FindFrom(s, sep, 0).None?;
  }

  /** A one-character separator only occurs where that character is. */
  lemma OccursChar(s: string, c: char, j: int)
    ensures OccursAt(s, [c], j) <==> 0 <= j < |s| && s[j] == c
  {
    if 0 <= j < |s| {
      assert s[j..j + 1] == [s[j]];
    }
  }

  /** `s.split(c)` for a character-free head: the head comes off first. */
  lemma SplitCharHead(x: string, c: char, y: string)
    requires c !in x
    ensures Split(x + [c] + y, [c]) == [x] + Split(y, [c])
  {
    forall j | 0 <= j < |x|
      ensures !OccursAt(x + [c] + y, [c], j)
    {
      OccursChar(x + [c] + y, c, j);
    }
    SplitAtFirst(x, [c], y);
  }

  lemma SplitCharNone(s: string, c: char)
    requires c !in s
    ensures Split(s, [c]) == [s]
  {
    forall j
      ensures !OccursAt(s, [c], j)
    {
      OccursChar(s, c, j);
    }
    SplitWithout(s, [c]);
  }

  /** `while s.startswith(c): s = s[1:]`: removes every leading `c`. */
  function StripLeading(s: string, c: char): (r: string)
    ensures |r| <= |s| && r == s[|s| - |r|..]
    ensures forall j :: 0 <= j < |s| - |r| ==> s[j] == c
    ensures |r| > 0 ==> r[0] != c
  {
    if |s| > 0 && s[0] == c then
      var t := StripLeading(s[1..], c);
      assert s[1..][|s| - 1 - |t|..] == s[|s| - |t|..];
      t
    else s
  }

  /** `s.rstrip(c)`: removes every trailing `c`. */
  function StripTrailing(s: string, c: char): (r: string)
    ensures |r| <= |s| && r == s[..|r|]
    ensures forall j :: |r| <= j < |s| ==> s[j] == c
    ensures |r| > 0 ==> r[|r| - 1] != c
  {
    if |s| > 0 && s[|s| - 1] == c then StripTrailing(s[..|s| - 1], c) else s
  }

  predicate IsDigit(c: char) {
    '0' <= c <= '9'
  }

  predicate AllDigits(s: string) {
    forall i :: 0 <= i < |s| ==> IsDigit(s[i])
  }

  function DigitChar(d: nat): (c: char)
    requires d < 10
    ensures IsDigit(c) && c as int - '0' as int == d
  {
    (('0' as int) + d) as char
  }

  /** Decimal digits of `n`, most significant first. */
  function NatToString(n: nat): (r: string)
    ensures |r| >= 1 && AllDigits(r)
  {
    if n < 10 then [DigitChar(n)] else NatToString(n / 10) + [DigitChar(n % 10)]
  }

  function ParseNat(s: string): nat
    requires AllDigits(s)
  {
    if |s| == 0 then 0
    else ParseNat(s[..|s| - 1]) * 10 + (s[|s| - 1] as int - '0' as int)
  }

  lemma {:induction false} NatRoundTrip(n: nat)
    ensures ParseNat(NatToString(n)) == n
  {
    if n >= 10 {
      var s := NatToString(n);
      assert s[..|s| - 1] == NatToString(n / 10);
      NatRoundTrip(n / 10);
    }
  }

  /** `str(i)`. */
  function IntToString(i: int): (r: string)
    ensures |r| >= 1
  {
    if i < 0 then "-" + NatToString(-i) else NatToString(i)
  }

  /** Reads back what `IntToString` writes. */
  function ParseInt(s: string): Option<int>
  {
    if |s| >= 2 && s[0] == '-' && AllDigits(s[1..]) then Some(0 - ParseNat(s[1..]) as int)
    else if |s| >= 1 && AllDigits(s) then Some(ParseNat(s))
    else None
  }

  lemma IntRoundTrip(i: int)
    ensures ParseInt(IntToString(i)) == Some(i)
  {
    if i < 0 {
      NatRoundTrip(-i);
      assert IntToString(i)[1..] == NatToString(-i);
    } else {
      NatRoundTrip(i);
    }
  }

  /** POSIX `os.path.join(a, b)`. */
  function PathJoin(a: string, b: string): (r: string)
    ensures EndsWith(r, b)
    ensures StartsWith(b, "/") ==> r == b
    ensures !StartsWith(b, "/") ==> StartsWith(r, a)
  {
    if StartsWith(b, "/") then b
    else if a == "" || EndsWith(a, "/") then a + b
    else a + "/" + b
  }

  /** Position just after the last `/`, or 0 when there is none. */
  function AfterLastSlash(p: string): (i: nat)
    ensures i <= |p|
    ensures i > 0 ==> p[i - 1] == '/'
    ensures forall j :: i <= j < |p| ==> p[j] != '/'
  {
    if |p| == 0 then 0
    else if p[|p| - 1] == '/' then |p|
    else AfterLastSlash(p[..|p| - 1])
  }

  /** POSIX `os.path.basename`. */
  function BaseName(p: string): (r: string)
    ensures '/' !in r && EndsWith(p, r)
  {
    p[AfterLastSlash(p)..]
  }

  /** The basename is the one suffix that holds no `/` and starts the path
      or follows a `/`. */
  lemma BaseNameUnique(p: string, r: string)
    requires EndsWith(p, r) && '/' !in r
    requires |r| == |p| || p[|p| - |r| - 1] == '/'
    ensures BaseName(p) == r
  {
    var q := |p| - |r|;
    var i := AfterLastSlash(p);
    assert forall j :: q <= j < |p| ==> p[j] == r[j - q];
  }

  /** The last part of a join follows the last separator. */
  lemma {:induction false} JoinLast(parts: seq<string>, sep: string)
    requires |parts| >= 2
    ensures Join(parts, sep) == Join(parts[..|parts| - 1], sep) + sep + parts[|parts| - 1]
  {
    if |parts| > 2 {
      JoinLast(parts[1..], sep);
      assert parts[1..][..|parts| - 2] == parts[..|parts| - 1][1..];
    }
  }

  /** No part of a split on a character holds that character. */
  lemma SplitNoChar(s: string, c: char, k: nat)
    requires k < |Split(s, [c])|
    ensures c !in Split(s, [c])[k]
  {
    var part := Split(s, [c])[k];
    forall j | 0 <= j < |part|
      ensures part[j] != c
    {
      OccursChar(part, c, j);
    }
  }

  /** `p.split("/")[-1]` is `os.path.basename(p)`. */
  lemma LastSplitIsBaseName(p: string)
    ensures var parts := Split(p, "/"); parts[|parts| - 1] == BaseName(p)
  {
    var parts := Split(p, "/");
    var last := parts[|parts| - 1];
    SplitNoChar(p, '/', |parts| - 1);
    if |parts| == 1 {
      assert p == last;
      BaseNameUnique(p, last);
    } else {
      JoinLast(parts, "/");
      var head := Join(parts[..|parts| - 1], "/");
      assert p == head + "/" + last;
      assert p[|p| - |last|..] == last;
      assert p[|p| - |last| - 1] == '/';
      BaseNameUnique(p, last);
    }
  }

  /** POSIX `os.path.dirname`: the part up to the last `/`, with trailing
      slashes removed unless it consists only of slashes. */
  function DirName(p: string): (r: string)
    ensures StartsWith(p, r)
  {
    var head := p[..AfterLastSlash(p)];
    if head != "" && StripTrailing(head, '/') != "" then StripTrailing(head, '/') else head
  }
}
