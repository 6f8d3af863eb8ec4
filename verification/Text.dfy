/** Strings as the server builds them: prefixes, path segments and decimal numbers. */
module Text {

  /** std::string::rfind(p, 0) == 0: `s` starts with `p`. */
  predicate HasPrefix(s: string, p: string) {
    |p| <= |s| && s[..|p|] == p
  }

  lemma PrefixSplit(s: string, p: string)
    requires HasPrefix(s, p)
    ensures s == p + s[|p|..]
  {}

  lemma PrefixOfConcat(p: string, rest: string)
    ensures HasPrefix(p + rest, p)
    ensures (p + rest)[|p|..] == rest
  {}

  lemma PrefixTransitive(s: string, p: string, q: string)
    requires HasPrefix(s, p) && HasPrefix(p, q)
    ensures HasPrefix(s, q)
  {}

  /** Two prefixes of one string are prefixes of one another. */
  lemma PrefixesCompare(s: string, p: string, q: string)
    requires HasPrefix(s, p) && HasPrefix(s, q) && |q| <= |p|
    ensures HasPrefix(p, q)
  {}

  /** A file name or an md5 value: one segment of a path. */
  predicate IsSegment(s: string) {
    '/' !in s
  }

  /** A directory as the protocol writes it: it ends in a slash. */
  predicate IsDir(d: string) {
    |d| > 0 && d[|d| - 1] == '/'
  }

  /** The path of the folder `name` inside `dir`. */
  function Child(dir: string, name: string): (path: string)
    ensures |path| == |dir| + |name| + 1
    ensures IsDir(path)
    ensures HasPrefix(path, dir)
  {
    dir + name + "/"
  }

  /** Where the first segment below `d` sits in a path under it. */
  lemma ChildAt(s: string, d: string, n: string)
    requires IsSegment(n) && HasPrefix(s, Child(d, n))
    ensures s[|d| + |n|] == '/'
    ensures forall k :: |d| <= k < |d| + |n| ==> s[k] != '/'
    ensures s[|d|..|d| + |n|] == n
  {}

  /** A path below a directory determines the segment that leads to it. */
  lemma ChildPrefixDetermines(s: string, d: string, n: string, m: string)
    requires IsSegment(n) && IsSegment(m)
    requires HasPrefix(s, Child(d, n)) && HasPrefix(s, Child(d, m))
    ensures n == m
  {
    ChildAt(s, d, n);
    ChildAt(s, d, m);
  }

  /** Where the last segment of a path starts. */
  lemma LastSegmentAt(s: string, d: string, n: string)
    requires IsDir(d) && IsSegment(n) && s == d + n
    ensures s[|d| - 1] == '/' && s[|d|..] == n && s[..|d|] == d
    ensures forall k :: |d| <= k < |s| ==> s[k] != '/'
  {}

  /** The directory and the last segment of a path are determined by the path. */
  lemma LastSegmentUnique(d: string, n: string, e: string, m: string)
    requires IsDir(d) && IsDir(e) && IsSegment(n) && IsSegment(m)
    requires d + n == e + m
    ensures n == m && d == e
  {
    LastSegmentAt(d + n, d, n);
    LastSegmentAt(d + n, e, m);
  }

  function Digit(n: nat): (c: char)
    requires n < 10
    ensures '0' <= c <= '9'
  {
    '0' + n as char
  }

  /** sprintf("%d") and std::to_string for a non-negative number. */
  function Decimal(n: nat): (s: string)
    ensures s != [] && forall i :: 0 <= i < |s| ==> '0' <= s[i] <= '9'
  {
    if n < 10 then [Digit(n)] else Decimal(n / 10) + [Digit(n % 10)]
  }

  /** sprintf("%d") and std::to_string. */
  function ToString(n: int): (s: string) {
    if n < 0 then "-" + Decimal(-n) else Decimal(n)
  }

  predicate IsDigits(s: string) {
    forall i :: 0 <= i < |s| ==> '0' <= s[i] <= '9'
  }

  function DigitsValue(s: string): nat
    requires IsDigits(s)
  {
    if s == [] then 0 else 10 * DigitsValue(s[..|s| - 1]) + (s[|s| - 1] - '0') as nat
  }

  predicate IsNumber(s: string) {
    if |s| > 0 && s[0] == '-' then IsDigits(s[1..]) else IsDigits(s)
  }

  /** std::stoi on an optional sign and digits. */
  function Stoi(s: string): int
    requires IsNumber(s)
  {
    if |s| > 0 && s[0] == '-' then -(DigitsValue(s[1..]) as int) else DigitsValue(s)
  }

  lemma {:induction false} DecimalValue(n: nat)
    ensures DigitsValue(Decimal(n)) == n
  {
    if n < 10 {
      assert Decimal(n)[..0] == [];
    } else {
      DecimalValue(n / 10);
      assert Decimal(n)[..|Decimal(n)| - 1] == Decimal(n / 10);
    }
  }

  /** A number printed into a column is read back by stoi. */
  lemma NumberRoundTrip(n: int)
    ensures IsNumber(ToString(n)) && Stoi(ToString(n)) == n
  {
    if n < 0 {
      DecimalValue(-n);
      assert ToString(n)[1..] == Decimal(-n);
    } else {
      DecimalValue(n);
    }
  }
}
