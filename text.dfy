/** The parts of Go's `strings`, `strconv`, `fmt`, `net` and `net/url` that the
    registration hook relies on, written out over `seq<char>`. */
module Text {
  import opened Wrappers

  // ---------------------------------------------------------------------------
  // Substrings and prefixes (strings.Contains, strings.HasPrefix)

  /** `sub` occurs in `s` starting at index `i`. */
  predicate OccursAt(s: string, sub: string, i: nat) {
    i + |sub| <= |s| && s[i..i + |sub|] == sub
  }

  /** strings.Contains: `sub` occurs somewhere in `s`. */
  predicate Contains(s: string, sub: string) {
    exists i: nat | i <= |s| :: OccursAt(s, sub, i)
  }

  /** strings.HasPrefix */
  predicate HasPrefix(s: string, prefix: string) {
    |prefix| <= |s| && s[..|prefix|] == prefix
  }

  /** Whatever is appended, the appended string occurs in the result. */
  lemma ContainsSuffix(a: string, b: string)
    ensures Contains(a + b, b)
  {
    assert OccursAt(a + b, b, |a|);
  }

  /** A string shorter than `sub` cannot contain it. */
  lemma ShortNotContains(s: string, sub: string)
    requires |s| < |sub|
    ensures !Contains(s, sub)
  {
  }

  // ---------------------------------------------------------------------------
  // Decimal rendering (fmt's %d, strconv.Itoa, fmt.Sprint of an int)

  predicate IsDigit(c: char) {
    '0' <= c <= '9'
  }

  predicate AllDigits(s: string) {
    forall k | 0 <= k < |s| :: IsDigit(s[k])
  }

  function DigitChar(d: nat): (c: char)
    requires d < 10
    ensures IsDigit(c)
  {
    (('0' as int) + d) as char
  }

  function DigitValue(c: char): (d: nat)
    requires IsDigit(c)
    ensures d < 10
  {
    (c as int) - ('0' as int)
  }

  /** The shortest decimal numeral of `n`. */
  function NatToString(n: nat): (s: string)
    ensures |s| >= 1 && AllDigits(s)
    decreases n
  {
    if n < 10 then [DigitChar(n)] else NatToString(n / 10) + [DigitChar(n % 10)]
  }

  /** Go's `%d` on an int: a minus sign before the digits of a negative number. */
  function IntToString(n: int): string {
    if n < 0 then "-" + NatToString(-n) else NatToString(n)
  }

  /** The value of a numeral read left to right, most significant digit first. */
  function DigitsValue(s: string): nat
    requires AllDigits(s)
  {
    if s == [] then 0 else DigitsValue(s[..|s| - 1]) * 10 + DigitValue(s[|s| - 1])
  }

  /** strconv.Atoi restricted to what `%d` produces: an optional minus sign
      followed by at least one digit. */
  function ParseInt(s: string): Option<int> {
    if |s| > 0 && s[0] == '-' then
      if |s| > 1 && AllDigits(s[1..]) then Some(0 - DigitsValue(s[1..]) as int) else None
    else if |s| > 0 && AllDigits(s) then Some(DigitsValue(s))
    else None
  }

  lemma {:induction false} NatToStringRoundTrip(n: nat)
    ensures DigitsValue(NatToString(n)) == n
    decreases n
  {
    if n >= 10 {
      var s := NatToString(n);
      var prefix := NatToString(n / 10);
      assert s == prefix + [DigitChar(n % 10)];
      assert s[..|s| - 1] == prefix;
      NatToStringRoundTrip(n / 10);
    }
  }

  /** Reading back what `%d` wrote gives the number: the rendering loses nothing. */
  lemma IntToStringRoundTrip(n: int)
    ensures ParseInt(IntToString(n)) == Some(n)
  {
    if n < 0 {
      var d := NatToString(-n);
      assert ("-" + d)[1..] == d;
      NatToStringRoundTrip(-n);
      assert ParseInt("-" + d) == Some(0 - DigitsValue(d) as int);
    } else {
      var d := NatToString(n);
      assert IsDigit(d[0]);
      NatToStringRoundTrip(n);
      assert ParseInt(d) == Some(DigitsValue(d));
    }
  }

  /** Two numbers render the same only when they are equal. */
  lemma IntToStringInjective(a: int, b: int)
    requires IntToString(a) == IntToString(b)
    ensures a == b
  {
    IntToStringRoundTrip(a);
    IntToStringRoundTrip(b);
  }

  /** A rendered number holds no colon and no opening brace. */
  lemma IntToStringChars(n: int)
    ensures forall k | 0 <= k < |IntToString(n)| :: IntToString(n)[k] != ':' && IntToString(n)[k] != '{'
    ensures |IntToString(n)| >= 1 && IsDigit(IntToString(n)[|IntToString(n)| - 1])
  {
    var d := NatToString(if n < 0 then -n else n);
    assert IntToString(n) == (if n < 0 then "-" else "") + d;
  }

  // ---------------------------------------------------------------------------
  // strings.Split and strings.Join with a non-empty separator

  /** strings.Split: the pieces between the leftmost non-overlapping occurrences of `sep`. */
  function Split(s: string, sep: string): (r: seq<string>)
    requires |sep| > 0
    ensures |r| >= 1
    decreases |s|
  {
    if |s| < |sep| then [s]
    else if s[..|sep|] == sep then [""] + Split(s[|sep|..], sep)
    else
      var rest := Split(s[1..], sep);
      [[s[0]] + rest[0]] + rest[1..]
  }

  /** strings.Join */
  function Join(parts: seq<string>, sep: string): string {
    if |parts| == 0 then ""
    else if |parts| == 1 then parts[0]
    else parts[0] + sep + Join(parts[1..], sep)
  }

  /** Prepending one character to the first piece prepends it to the joined string. */
  lemma JoinConsHead(c: char, rest: seq<string>, sep: string)
    requires |rest| >= 1
    ensures Join([[c] + rest[0]] + rest[1..], sep) == [c] + Join(rest, sep)
  {
    var parts := [[c] + rest[0]] + rest[1..];
    if |rest| > 1 {
      assert parts[1..] == rest[1..];
    }
  }

  /** An empty first piece puts the separator first in the joined string. */
  lemma JoinConsEmpty(rest: seq<string>, sep: string)
    requires |rest| >= 1
    ensures Join([""] + rest, sep) == sep + Join(rest, sep)
  {
    assert ([""] + rest)[1..] == rest;
  }

  /** Splitting and joining back with the same separator gives the original string. */
  lemma {:induction false} JoinSplit(s: string, sep: string)
    requires |sep| > 0
    ensures Join(Split(s, sep), sep) == s
    decreases |s|
  {
    if |s| < |sep| {
    } else if s[..|sep|] == sep {
      JoinSplit(s[|sep|..], sep);
      JoinConsEmpty(Split(s[|sep|..], sep), sep);
      assert s == sep + s[|sep|..];
    } else {
      var rest := Split(s[1..], sep);
      JoinSplit(s[1..], sep);
      JoinConsHead(s[0], rest, sep);
      assert s == [s[0]] + s[1..];
    }
  }

  /** With a one-character separator, no piece contains that character. */
  lemma {:induction false} SplitPiecesAvoidSeparator(s: string, c: char)
    ensures forall p | p in Split(s, [c]) :: c !in p
    decreases |s|
  {
    if |s| < 1 {
    } else if s[..1] == [c] {
      SplitPiecesAvoidSeparator(s[1..], c);
    } else {
      SplitPiecesAvoidSeparator(s[1..], c);
      var rest := Split(s[1..], [c]);
      assert s[0] != c by { assert s[..1] == [s[0]]; }
      assert rest[0] in rest;
      forall p | p in rest[1..] ensures c !in p {
        assert p in rest;
      }
    }
  }

  /** A string without the separator is a single piece. */
  lemma {:induction false} SplitWithoutSeparator(s: string, c: char)
    requires c !in s
    ensures Split(s, [c]) == [s]
    decreases |s|
  {
    if |s| >= 1 {
      assert s[..1] == [s[0]];
      SplitWithoutSeparator(s[1..], c);
      assert [s[0]] + s[1..] == s;
    }
  }

  /** A single occurrence of the separator splits a string into the part
      before it and the part after it. */
  lemma {:induction false} SplitAtOnlySeparator(a: string, b: string, c: char)
    requires c !in a && c !in b
    ensures Split(a + [c] + b, [c]) == [a, b]
    decreases |a|
  {
    var s := a + [c] + b;
    if a == [] {
      assert s[..1] == [c];
      assert s[1..] == b;
      SplitWithoutSeparator(b, c);
    } else {
      assert s[..1] == [a[0]];
      assert s[1..] == a[1..] + [c] + b;
      SplitAtOnlySeparator(a[1..], b, c);
      assert [a[0]] + a[1..] == a;
    }
  }

  /** The first occurrence of the separator ends the first piece. */
  lemma {:induction false} SplitAtFirstSeparator(a: string, b: string, c: char)
    requires c !in a
    ensures Split(a + [c] + b, [c]) == [a] + Split(b, [c])
    decreases |a|
  {
    var s := a + [c] + b;
    if a == [] {
      assert s[..1] == [c];
      assert s[1..] == b;
    } else {
      assert s[..1] == [a[0]];
      assert s[1..] == a[1..] + [c] + b;
      SplitAtFirstSeparator(a[1..], b, c);
      assert [a[0]] + a[1..] == a;
    }
  }

  /** Split undoes Join when no piece holds the one-character separator. */
  lemma {:induction false} SplitJoin(parts: seq<string>, c: char)
    requires |parts| >= 1
    requires forall p | p in parts :: c !in p
    ensures Split(Join(parts, [c]), [c]) == parts
    decreases |parts|
  {
    assert parts[0] in parts;
    if |parts| == 1 {
      SplitWithoutSeparator(parts[0], c);
    } else {
      forall p | p in parts[1..] ensures c !in p {
        assert p in parts;
      }
      SplitJoin(parts[1..], c);
      SplitAtFirstSeparator(parts[0], Join(parts[1..], [c]), c);
      assert [parts[0]] + parts[1..] == parts;
    }
  }

  /** A string that holds the separator splits into at least two pieces. */
  lemma SplitFindsSeparator(s: string, c: char)
    requires c in s
    ensures |Split(s, [c])| >= 2
  {
    var parts := Split(s, [c]);
    JoinSplit(s, [c]);
    SplitPiecesAvoidSeparator(s, c);
    var first := parts[0];
    assert first in parts;
    assert Join([first], [c]) == first;
  }

  // ---------------------------------------------------------------------------
  // strings.Replace(s, old, new, -1)

  /** Replace every leftmost non-overlapping occurrence of `pat` by `rep`. */
  function ReplaceAll(s: string, pat: string, rep: string): string
    requires |pat| > 0
    decreases |s|
  {
    if |s| < |pat| then s
    else if s[..|pat|] == pat then rep + ReplaceAll(s[|pat|..], pat, rep)
    else [s[0]] + ReplaceAll(s[1..], pat, rep)
  }

  /** Replacing is splitting on the pattern and joining with the replacement. */
  lemma {:induction false} ReplaceAllIsJoinOfSplit(s: string, pat: string, rep: string)
    requires |pat| > 0
    ensures ReplaceAll(s, pat, rep) == Join(Split(s, pat), rep)
    decreases |s|
  {
    if |s| < |pat| {
    } else if s[..|pat|] == pat {
      var rest := Split(s[|pat|..], pat);
      ReplaceAllIsJoinOfSplit(s[|pat|..], pat, rep);
      assert ([""] + rest)[1..] == rest;
    } else {
      var rest := Split(s[1..], pat);
      ReplaceAllIsJoinOfSplit(s[1..], pat, rep);
      JoinConsHead(s[0], rest, rep);
    }
  }

  /** A string without the pattern is left as it is. */
  lemma {:induction false} ReplaceAllAbsent(s: string, pat: string, rep: string)
    requires |pat| > 0 && !Contains(s, pat)
    ensures ReplaceAll(s, pat, rep) == s
    decreases |s|
  {
    if |s| < |pat| {
    } else {
      assert !OccursAt(s, pat, 0);
      assert !Contains(s[1..], pat) by {
        forall i: nat | i <= |s[1..]| ensures !OccursAt(s[1..], pat, i) {
          assert !OccursAt(s, pat, i + 1);
          if i + |pat| <= |s[1..]| {
            assert s[1..][i..i + |pat|] == s[i + 1..i + 1 + |pat|];
          }
        }
      }
      ReplaceAllAbsent(s[1..], pat, rep);
      assert s == [s[0]] + s[1..];
    }
  }

  /** A string that lacks the first character of `pat` does not contain `pat`. */
  lemma NoFirstCharNoContains(s: string, pat: string)
    requires |pat| > 0 && pat[0] !in s
    ensures !Contains(s, pat)
  {
    forall i: nat | i <= |s| ensures !OccursAt(s, pat, i) {
      if i + |pat| <= |s| {
        assert s[i..i + |pat|][0] == s[i];
      }
    }
  }

  /** Replacing passes over a prefix that lacks the first character of the pattern. */
  lemma {:induction false} ReplaceAllSkipsPrefix(a: string, t: string, pat: string, rep: string)
    requires |pat| > 0 && pat[0] !in a
    ensures ReplaceAll(a + t, pat, rep) == a + ReplaceAll(t, pat, rep)
    decreases |a|
  {
    if a != [] {
      var s := a + t;
      if |s| >= |pat| {
        assert s[..|pat|] != pat by {
          assert s[..|pat|][0] == a[0];
        }
        assert s[1..] == a[1..] + t;
        ReplaceAllSkipsPrefix(a[1..], t, pat, rep);
        assert ReplaceAll(s, pat, rep) == [a[0]] + (a[1..] + ReplaceAll(t, pat, rep));
        assert [a[0]] + a[1..] == a;
      } else {
        assert ReplaceAll(t, pat, rep) == t;
      }
    } else {
      assert a + t == t;
    }
  }

  /** A single occurrence of the pattern, with its first character nowhere
      else, is replaced and the rest is kept. */
  lemma ReplaceAllSingle(a: string, pat: string, b: string, rep: string)
    requires |pat| > 0 && pat[0] !in a && pat[0] !in b
    ensures ReplaceAll(a + pat + b, pat, rep) == a + rep + b
  {
    ReplaceAllSkipsPrefix(a, pat + b, pat, rep);
    assert a + pat + b == a + (pat + b);
    assert (pat + b)[..|pat|] == pat;
    assert (pat + b)[|pat|..] == b;
    NoFirstCharNoContains(b, pat);
    ReplaceAllAbsent(b, pat, rep);
  }

  // ---------------------------------------------------------------------------
  // strings.Trim with a one-character cut set

  function TrimLeft(s: string, c: char): string
    decreases |s|
  {
    if |s| > 0 && s[0] == c then TrimLeft(s[1..], c) else s
  }

  function TrimRight(s: string, c: char): string
    decreases |s|
  {
    if |s| > 0 && s[|s| - 1] == c then TrimRight(s[..|s| - 1], c) else s
  }

  /** strings.Trim(s, [c]) */
  function Trim(s: string, c: char): string {
    TrimRight(TrimLeft(s, c), c)
  }

  /** Every character of `s` is `c`. */
  predicate AllChar(s: string, c: char) {
    forall k | 0 <= k < |s| :: s[k] == c
  }

  /** `t` is `s` with only copies of `c` removed from its two ends. */
  ghost predicate IsTrimmedSlice(s: string, t: string, c: char) {
    exists i, j | 0 <= i <= j <= |s| :: t == s[i..j] && AllChar(s[..i], c) && AllChar(s[j..], c)
  }

  lemma {:induction false} TrimLeftSpec(s: string, c: char) returns (i: nat)
    ensures i <= |s| && TrimLeft(s, c) == s[i..] && AllChar(s[..i], c)
    ensures TrimLeft(s, c) == [] || TrimLeft(s, c)[0] != c
    decreases |s|
  {
    if |s| > 0 && s[0] == c {
      var i' := TrimLeftSpec(s[1..], c);
      i := i' + 1;
      assert s[1..][i'..] == s[i..];
      assert s[..i] == [c] + s[1..][..i'];
    } else {
      i := 0;
    }
  }

  lemma {:induction false} TrimRightSpec(s: string, c: char) returns (j: nat)
    ensures j <= |s| && TrimRight(s, c) == s[..j] && AllChar(s[j..], c)
    ensures TrimRight(s, c) == [] || TrimRight(s, c)[|TrimRight(s, c)| - 1] != c
    decreases |s|
  {
    if |s| > 0 && s[|s| - 1] == c {
      var s' := s[..|s| - 1];
      j := TrimRightSpec(s', c);
      assert s'[..j] == s[..j];
      assert s[j..] == s'[j..] + [c];
    } else {
      j := |s|;
    }
  }

  /** Trimming removes every copy of `c` from both ends and nothing else. */
  lemma TrimSpec(s: string, c: char)
    ensures var t := Trim(s, c); t == [] || (t[0] != c && t[|t| - 1] != c)
    ensures IsTrimmedSlice(s, Trim(s, c), c)
  {
    var l := TrimLeft(s, c);
    var i := TrimLeftSpec(s, c);
    var j := TrimRightSpec(l, c);
    var t := Trim(s, c);
    assert t == s[i..i + j];
    assert s[i + j..] == l[j..];
    if t != [] {
      assert t[0] == l[0];
    }
  }

  // ---------------------------------------------------------------------------
  // net.JoinHostPort, net.SplitHostPort and url.URL.String for an http URL

  /** net.JoinHostPort: a host holding a colon (an IPv6 literal) is bracketed. */
  function JoinHostPort(host: string, port: string): string {
    if ':' in host then "[" + host + "]:" + port else host + ":" + port
  }

  /** Index of the last colon of `s`, or -1. */
  function LastColon(s: string): (i: int)
    ensures -1 <= i < |s|
    ensures i >= 0 ==> s[i] == ':'
    ensures forall k | i < k < |s| :: s[k] != ':'
  {
    if |s| == 0 then -1
    else if s[|s| - 1] == ':' then |s| - 1
    else LastColon(s[..|s| - 1])
  }

  /** net.SplitHostPort on well-formed input: split at the last colon and drop
      the brackets around an IPv6 host. */
  function SplitHostPort(hostport: string): Option<(string, string)> {
    var i := LastColon(hostport);
    if i < 0 then None
    else
      var h := hostport[..i];
      var p := hostport[i + 1..];
      if |h| >= 2 && h[0] == '[' && h[|h| - 1] == ']' then Some((h[1..|h| - 1], p))
      else Some((h, p))
  }

  /** Joining a host and a colon-free port and splitting the result again gives
      both back (for a host that holds no bracket). */
  lemma SplitJoinHostPort(host: string, port: string)
    requires ':' !in port && '[' !in host
    ensures SplitHostPort(JoinHostPort(host, port)) == Some((host, port))
  {
    var hp := JoinHostPort(host, port);
    var h := if ':' in host then "[" + host + "]" else host;
    assert hp == h + ":" + port;
    assert hp[|h|] == ':';
    forall k | |h| < k < |hp| ensures hp[k] != ':' {
      assert hp[k] == port[k - |h| - 1];
    }
    assert LastColon(hp) == |h|;
    assert hp[..|h|] == h;
    assert hp[|h| + 1..] == port;
    if ':' in host {
      assert h[1..|h| - 1] == host;
    } else if |h| >= 2 {
      assert h[0] != '[' by { assert h[0] in host; }
    }
  }

  /** A host without a bracket, a colon and a colon-free port split back into
      that host and port, whatever colons the host holds. */
  lemma SplitHostPortAtColon(host: string, port: string)
    requires ':' !in port && '[' !in host
    ensures SplitHostPort(host + ":" + port) == Some((host, port))
  {
    var hp := host + ":" + port;
    assert hp[|host|] == ':';
    forall k | |host| < k < |hp| ensures hp[k] != ':' {
      assert hp[k] == port[k - |host| - 1];
    }
    assert LastColon(hp) == |host|;
    assert hp[..|host|] == host;
    assert hp[|host| + 1..] == port;
    if |host| >= 2 {
      assert host[0] != '[' by { assert host[0] in host; }
    }
  }

  /** url.URL{Scheme: "http", Host: host, Path: path}.String(), for a path that
      needs no escaping: a relative path gets a separating slash. */
  function HttpUrl(host: string, path: string): string {
    "http://" + host + (if path != "" && path[0] != '/' && host != "" then "/" else "") + path
  }

  /** A URL starts with the scheme and the host. */
  lemma HttpUrlPrefix(host: string, path: string)
    ensures HasPrefix(HttpUrl(host, path), "http://" + host)
  {
    var u := HttpUrl(host, path);
    var head := "http://" + host;
    assert u == head + ((if path != "" && path[0] != '/' && host != "" then "/" else "") + path);
    assert u[..|head|] == head;
  }
}
