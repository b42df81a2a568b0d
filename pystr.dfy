/**
 * The Python string built-ins the modelled code relies on: str.split (with a
 * separator, on whitespace, with a maximum number of splits), str.rstrip(),
 * str.join, int() on a decimal literal, str() and "%d" on an int, and
 * os.path.join / os.path.basename for POSIX paths.
 */
module PyStr {
  import opened Wrappers

  // ---------------------------------------------------------------------------
  // Characters

  /** The characters for which Python's str.isspace() holds. */
  predicate IsSpace(c: char) {
    || c == ' '
    || ('\t' <= c <= '\r')
    || ('\U{1C}' <= c <= '\U{1F}')
    || c == '\U{85}' || c == '\U{A0}' || c == '\U{1680}'
    || ('\U{2000}' <= c <= '\U{200A}')
    || c == '\U{2028}' || c == '\U{2029}' || c == '\U{202F}' || c == '\U{205F}' || c == '\U{3000}'
  }

  predicate IsDigit(c: char) {
    '0' <= c <= '9'
  }

  predicate AllDigits(s: string) {
    forall k :: 0 <= k < |s| ==> IsDigit(s[k])
  }

  predicate NoSpace(s: string) {
    forall k :: 0 <= k < |s| ==> !IsSpace(s[k])
  }

  // ---------------------------------------------------------------------------
  // Prefixes, suffixes, searching

  predicate StartsWith(s: string, prefix: string) {
    |prefix| <= |s| && s[..|prefix|] == prefix
  }

  predicate EndsWith(s: string, suffix: string) {
    |suffix| <= |s| && s[|s| - |suffix|..] == suffix
  }

  lemma {:induction false} StartsWithConcat(a: string, b: string)
    ensures StartsWith(a + b, a)
  {
    assert (a + b)[..|a|] == a;
  }

  lemma {:induction false} EndsWithConcat(a: string, b: string)
    ensures EndsWith(a + b, b)
  {
    assert (a + b)[|a + b| - |b|..] == b;
  }

  /** The first index of x in s, as list.index(x) finds it (None where Python raises ValueError). */
  function IndexOf<T(==)>(s: seq<T>, x: T): (r: Option<nat>)
    ensures r.Some? ==> r.value < |s| && s[r.value] == x && x !in s[..r.value]
    ensures r.None? <==> x !in s
  {
    if s == [] then None
    else if s[0] == x then Some(0)
    else match IndexOf(s[1..], x)
      case None => None
      case Some(i) => Some(i + 1)
  }

  /** The first index is pinned down by the element before it being absent. */
  lemma {:induction false} IndexOfAt<T>(a: seq<T>, x: T, b: seq<T>)
    requires x !in a
    ensures IndexOf(a + [x] + b, x) == Some(|a|)
  {
    if a != [] {
      assert a == [a[0]] + a[1..];
      assert (a + [x] + b)[1..] == a[1..] + [x] + b;
      IndexOfAt(a[1..], x, b);
    }
  }

  /** sep occurs in s starting at position j. */
  predicate OccursAt(s: string, sep: string, j: int) {
    0 <= j && j + |sep| <= |s| && s[j..j + |sep|] == sep
  }

  /** The first occurrence of sep in s, as str.find finds it. */
  function Find(s: string, sep: string): (r: Option<nat>)
    requires |sep| > 0
    ensures r.Some? ==> OccursAt(s, sep, r.value)
    ensures r.Some? ==> forall j :: 0 <= j < r.value ==> !OccursAt(s, sep, j)
    ensures r.None? ==> forall j :: !OccursAt(s, sep, j)
    decreases |s|
  {
    if |s| < |sep| then None
    else if s[..|sep|] == sep then Some(0)
    else
      var rest := Find(s[1..], sep);
      assert forall j :: 1 <= j ==> (OccursAt(s, sep, j) <==> OccursAt(s[1..], sep, j - 1)) by {
        forall j | 1 <= j ensures OccursAt(s, sep, j) <==> OccursAt(s[1..], sep, j - 1) {
          if j + |sep| <= |s| {
            assert s[1..][j - 1..j - 1 + |sep|] == s[j..j + |sep|];
          }
        }
      }
      match rest
      case None => None
      case Some(i) => Some(i + 1)
  }

  // ---------------------------------------------------------------------------
  // Joining

  /** sep.join(parts). */
  function Join(sep: string, parts: seq<string>): string {
    if |parts| == 0 then ""
    else if |parts| == 1 then parts[0]
    else parts[0] + sep + Join(sep, parts[1..])
  }

  /** Every part followed by the terminator: ''.join(p + term for p in parts). */
  function Terminated(parts: seq<string>, term: string): string {
    if parts == [] then "" else parts[0] + term + Terminated(parts[1..], term)
  }

  /** The `sep.join(parts) + sep` idiom of the source is the terminated form. */
  lemma {:induction false} JoinThenSeparator(parts: seq<string>, sep: string)
    requires |parts| > 0
    ensures Join(sep, parts) + sep == Terminated(parts, sep)
  {
    if |parts| > 1 {
      JoinThenSeparator(parts[1..], sep);
      assert Terminated(parts[1..][1..], sep) == Terminated(parts[2..], sep);
    }
  }

  lemma {:induction false} TerminatedAppend(a: seq<string>, b: seq<string>, term: string)
    ensures Terminated(a + b, term) == Terminated(a, term) + Terminated(b, term)
  {
    if a == [] {
      assert a + b == b;
    } else {
      assert (a + b)[0] == a[0];
      assert (a + b)[1..] == a[1..] + b;
      TerminatedAppend(a[1..], b, term);
    }
  }

  /** No line holds a newline. */
  predicate NoNewlines(lines: seq<string>) {
    forall k :: 0 <= k < |lines| ==> '\n' !in lines[k]
  }

  lemma {:induction false} JoinAppend(sep: string, a: seq<string>, b: seq<string>)
    requires |a| > 0 && |b| > 0
    ensures Join(sep, a + b) == Join(sep, a) + sep + Join(sep, b)
  {
    if |a| == 1 {
      assert (a + b)[1..] == b;
    } else {
      assert (a + b)[1..] == a[1..] + b;
      JoinAppend(sep, a[1..], b);
    }
  }

  /** A character in neither the separator nor any part is not in the joined text. */
  lemma {:induction false} JoinWithout(c: char, sep: string, parts: seq<string>)
    requires c !in sep
    requires forall k :: 0 <= k < |parts| ==> c !in parts[k]
    ensures c !in Join(sep, parts)
  {
    if |parts| > 1 {
      JoinWithout(c, sep, parts[1..]);
    }
  }

  /** The text split back into its '\n'-terminated lines. */
  function Lines(s: string): seq<string>
    decreases |s|
  {
    if s == "" then []
    else match IndexOf(s, '\n')
      case None => [s]
      case Some(i) => [s[..i]] + Lines(s[i + 1..])
  }

  /** Writing lines that hold no newline, each followed by '\n', and reading them back gives the lines. */
  lemma {:induction false} LinesOfTerminated(lines: seq<string>)
    requires forall k :: 0 <= k < |lines| ==> '\n' !in lines[k]
    ensures Lines(Terminated(lines, "\n")) == lines
  {
    if lines != [] {
      var rest := Terminated(lines[1..], "\n");
      var s := Terminated(lines, "\n");
      assert s == lines[0] + ['\n'] + rest;
      IndexOfAt(lines[0], '\n', rest);
      assert s[..|lines[0]|] == lines[0];
      assert s[|lines[0]| + 1..] == rest;
      LinesOfTerminated(lines[1..]);
    }
  }

  /** Two runs of terminated lines read back as the lines of both, in order. */
  lemma {:induction false} LinesOfAppend(a: seq<string>, b: seq<string>)
    requires NoNewlines(a) && NoNewlines(b)
    ensures Lines(Terminated(a, "\n") + Terminated(b, "\n")) == a + b
  {
    TerminatedAppend(a, b, "\n");
    NoNewlinesAppend(a, b);
    LinesOfTerminated(a + b);
  }

  lemma {:induction false} NoNewlinesAppend(a: seq<string>, b: seq<string>)
    requires NoNewlines(a) && NoNewlines(b)
    ensures NoNewlines(a + b)
  {
    forall k | |a| <= k < |a + b| ensures (a + b)[k] == b[k - |a|] {}
  }

  /** Number of occurrences of c in s. */
  function CountChar(s: string, c: char): nat {
    if s == [] then 0 else (if s[0] == c then 1 else 0) + CountChar(s[1..], c)
  }

  lemma {:induction false} CountCharAppend(a: string, b: string, c: char)
    ensures CountChar(a + b, c) == CountChar(a, c) + CountChar(b, c)
  {
    if a != [] {
      assert (a + b)[0] == a[0];
      assert (a + b)[1..] == a[1..] + b;
      CountCharAppend(a[1..], b, c);
    } else {
      assert a + b == b;
    }
  }

  lemma {:induction false} CountCharAbsent(s: string, c: char)
    requires c !in s
    ensures CountChar(s, c) == 0
  {
    if s != [] {
      assert s == [s[0]] + s[1..];
      CountCharAbsent(s[1..], c);
    }
  }

  /** Lines without a newline, each followed by '\n', put exactly one '\n' per line into the text. */
  lemma {:induction false} NewlinesOfTerminated(lines: seq<string>)
    requires forall k :: 0 <= k < |lines| ==> '\n' !in lines[k]
    ensures CountChar(Terminated(lines, "\n"), '\n') == |lines|
  {
    if lines != [] {
      NewlinesOfTerminated(lines[1..]);
      CountCharAppend(lines[0], "\n" + Terminated(lines[1..], "\n"), '\n');
      CountCharAppend("\n", Terminated(lines[1..], "\n"), '\n');
      CountCharAbsent(lines[0], '\n');
      assert lines[0] + "\n" + Terminated(lines[1..], "\n") == lines[0] + ("\n" + Terminated(lines[1..], "\n"));
    }
  }

  // ---------------------------------------------------------------------------
  // str.split(sep)

  /** s.split(sep) for a non-empty separator. */
  function SplitOn(s: string, sep: string): (r: seq<string>)
    requires |sep| > 0
    ensures |r| > 0
    decreases |s|
  {
    match Find(s, sep)
    case None => [s]
    case Some(i) => [s[..i]] + SplitOn(s[i + |sep|..], sep)
  }

  /** Joining the pieces with the separator gives back the text. */
  lemma {:induction false} JoinSplitOn(s: string, sep: string)
    requires |sep| > 0
    ensures Join(sep, SplitOn(s, sep)) == s
    decreases |s|
  {
    match Find(s, sep)
    case None =>
    case Some(i) =>
      var rest := s[i + |sep|..];
      JoinSplitOn(rest, sep);
      assert SplitOn(s, sep) == [s[..i]] + SplitOn(rest, sep);
      assert s == s[..i] + sep + rest by {
        assert s[i..i + |sep|] == sep;
      }
  }

  /** No piece contains the separator. */
  lemma {:induction false} SplitOnPiecesFree(s: string, sep: string, k: nat, j: int)
    requires |sep| > 0
    requires k < |SplitOn(s, sep)|
    ensures !OccursAt(SplitOn(s, sep)[k], sep, j)
    decreases |s|
  {
    match Find(s, sep)
    case None =>
    case Some(i) =>
      if k == 0 {
        if OccursAt(s[..i], sep, j) {
          assert s[..i][j..j + |sep|] == s[j..j + |sep|];
          assert OccursAt(s, sep, j);
        }
      } else {
        SplitOnPiecesFree(s[i + |sep|..], sep, k - 1, j);
      }
  }

  // ---------------------------------------------------------------------------
  // str.split() on whitespace, str.rstrip()

  /** Number of leading whitespace characters of s. */
  function LeadingSpaces(s: string): (i: nat)
    ensures i <= |s|
    ensures i == |s| || !IsSpace(s[i])
  {
    if s != [] && IsSpace(s[0]) then 1 + LeadingSpaces(s[1..]) else 0
  }

  lemma {:induction false} LeadingSpacesAreSpace(s: string)
    ensures forall k :: 0 <= k < LeadingSpaces(s) ==> IsSpace(s[k])
  {
    if s != [] && IsSpace(s[0]) {
      LeadingSpacesAreSpace(s[1..]);
      assert forall k :: 1 <= k < LeadingSpaces(s) ==> s[k] == s[1..][k - 1];
    }
  }

  /** Length of the leading run of non-whitespace characters. */
  function TokenLength(s: string): (n: nat)
    ensures n <= |s|
    ensures n == |s| || IsSpace(s[n])
    ensures |s| > 0 && !IsSpace(s[0]) ==> n > 0
  {
    if s == [] || IsSpace(s[0]) then 0 else 1 + TokenLength(s[1..])
  }

  lemma {:induction false} TokenHasNoSpace(s: string)
    ensures NoSpace(s[..TokenLength(s)])
  {
    if s != [] && !IsSpace(s[0]) {
      TokenHasNoSpace(s[1..]);
      var n := TokenLength(s);
      assert forall k :: 1 <= k < n ==> s[..n][k] == s[1..][..n - 1][k - 1];
    }
  }

  /** s.split() when maxsplit is None, s.split(None, m) when it is Some(m). */
  function SplitWs(s: string, maxsplit: Option<nat>): seq<string>
    decreases |s|
  {
    var i := LeadingSpaces(s);
    if i == |s| then []
    else if maxsplit == Some(0) then [s[i..]]
    else
      var n := TokenLength(s[i..]);
      [s[i..i + n]] + SplitWs(s[i + n..], if maxsplit.Some? then Some(maxsplit.value - 1) else None)
  }

  /** The characters of s that are not whitespace, in order. */
  function WithoutSpace(s: string): string {
    if s == [] then [] else (if IsSpace(s[0]) then [] else [s[0]]) + WithoutSpace(s[1..])
  }

  lemma {:induction false} WithoutSpaceAppend(a: string, b: string)
    ensures WithoutSpace(a + b) == WithoutSpace(a) + WithoutSpace(b)
  {
    if a != [] {
      assert (a + b)[0] == a[0];
      assert (a + b)[1..] == a[1..] + b;
      WithoutSpaceAppend(a[1..], b);
    } else {
      assert a + b == b;
    }
  }

  lemma {:induction false} WithoutSpaceOfSpaces(s: string)
    requires forall k :: 0 <= k < |s| ==> IsSpace(s[k])
    ensures WithoutSpace(s) == []
  {
    if s != [] {
      WithoutSpaceOfSpaces(s[1..]);
    }
  }

  lemma {:induction false} WithoutSpaceOfToken(s: string)
    requires NoSpace(s)
    ensures WithoutSpace(s) == s
  {
    if s != [] {
      WithoutSpaceOfToken(s[1..]);
    }
  }

  /** The whitespace split of a line yields non-empty tokens free of whitespace. */
  lemma {:induction false} SplitWsTokensNonEmpty(s: string)
    ensures forall k :: 0 <= k < |SplitWs(s, None)| ==> SplitWs(s, None)[k] != "" && NoSpace(SplitWs(s, None)[k])
    decreases |s|
  {
    var i := LeadingSpaces(s);
    if i < |s| {
      var n := TokenLength(s[i..]);
      TokenHasNoSpace(s[i..]);
      assert s[i..][..n] == s[i..i + n];
      SplitWsTokensNonEmpty(s[i + n..]);
      var rest := SplitWs(s[i + n..], None);
      assert SplitWs(s, None) == [s[i..i + n]] + rest;
    }
  }

  /** The token length of a token followed by nothing or by whitespace is the token's length. */
  lemma {:induction false} TokenLengthOfToken(t: string, rest: string)
    requires NoSpace(t)
    requires rest == [] || IsSpace(rest[0])
    ensures TokenLength(t + rest) == |t|
  {
    if t != [] {
      assert (t + rest)[1..] == t[1..] + rest;
      TokenLengthOfToken(t[1..], rest);
    } else {
      assert t + rest == rest;
    }
  }

  /** Whitespace-free, non-empty tokens joined by single spaces split back into the same tokens. */
  lemma {:induction false} SplitWsOfJoinedTokens(ts: seq<string>)
    requires forall k :: 0 <= k < |ts| ==> ts[k] != "" && NoSpace(ts[k])
    ensures SplitWs(Join(" ", ts), None) == ts
  {
    if |ts| == 1 {
      SplitWsTokenThen(ts[0], "");
      assert ts[0] + "" == ts[0];
    } else if |ts| > 1 {
      var tail := ts[1..];
      assert forall k :: 0 <= k < |tail| ==> tail[k] == ts[k + 1];
      SplitWsOfJoinedTokens(tail);
      SplitWsOfJoinedStep(ts, ts[0], tail);
    }
  }

  /** One token in front of a non-empty joined tail: the split takes it off first. */
  lemma {:induction false} SplitWsOfJoinedStep(ts: seq<string>, t: string, tail: seq<string>)
    requires |ts| > 1 && t == ts[0] && tail == ts[1..]
    requires t != "" && NoSpace(t)
    ensures SplitWs(Join(" ", ts), None) == [t] + SplitWs(Join(" ", tail), None)
  {
    var rest := Join(" ", tail);
    var spaced := " " + rest;
    assert spaced[0] == ' ';
    assert Join(" ", ts) == t + spaced;
    SplitWsTokenThen(t, spaced);
    SplitWsSkipsSpace(rest);
  }

  /** A token at the head of a text, followed by nothing or whitespace, is the first part of its split. */
  lemma {:induction false} SplitWsTokenThen(t: string, rest: string)
    requires t != "" && NoSpace(t)
    requires rest == [] || IsSpace(rest[0])
    ensures SplitWs(t + rest, None) == [t] + SplitWs(rest, None)
  {
    var s := t + rest;
    assert s[0] == t[0];
    assert LeadingSpaces(s) == 0;
    TokenLengthOfToken(t, rest);
    assert s[0..] == s;
    SplitWsStep(s, 0, s);
    assert s[..|t|] == t;
    assert s[|t|..] == rest;
  }

  /** A leading space does not change the whitespace split. */
  lemma {:induction false} SplitWsSkipsSpace(s: string)
    ensures SplitWs(" " + s, None) == SplitWs(s, None)
  {
    var t := " " + s;
    assert t[1..] == s && IsSpace(t[0]);
    var i := LeadingSpaces(s);
    assert LeadingSpaces(t) == 1 + i;
    assert t[1 + i..] == s[i..];
    SplitWsAfterLeadingSpaces(s);
    SplitWsAfterLeadingSpaces(t);
  }

  /** The whitespace split depends only on the text after the leading whitespace. */
  lemma {:induction false} SplitWsAfterLeadingSpaces(s: string)
    ensures SplitWs(s, None) == SplitWs(s[LeadingSpaces(s)..], None)
  {
    var i := LeadingSpaces(s);
    var u := s[i..];
    if u != [] {
      assert LeadingSpaces(u) == 0 by {
        assert u[0] == s[i];
      }
      var n := TokenLength(u);
      SplitWsStep(s, i, u);
      SplitWsStep(u, 0, u);
    }
  }

  /** One step of the whitespace split, for a text u that follows the leading whitespace. */
  lemma {:induction false} SplitWsStep(s: string, i: nat, u: string)
    requires i == LeadingSpaces(s) && i <= |s| && u == s[i..] && u != []
    ensures SplitWs(s, None) == [u[..TokenLength(u)]] + SplitWs(u[TokenLength(u)..], None)
  {
    var n := TokenLength(u);
    assert s[i..i + n] == u[..n];
    assert s[i + n..] == u[n..];
  }

  lemma {:induction false} DropSpaces(a: string, b: string)
    requires forall k :: 0 <= k < |a| ==> IsSpace(a[k])
    ensures WithoutSpace(a + b) == WithoutSpace(b)
  {
    WithoutSpaceAppend(a, b);
    WithoutSpaceOfSpaces(a);
  }

  lemma {:induction false} KeepToken(a: string, b: string)
    requires NoSpace(a)
    ensures WithoutSpace(a + b) == a + WithoutSpace(b)
  {
    WithoutSpaceAppend(a, b);
    WithoutSpaceOfToken(a);
  }

  /** Leading whitespace and the first token account for the first part of WithoutSpace. */
  lemma {:induction false} WithoutSpaceFirstToken(s: string, i: nat, n: nat)
    requires i == LeadingSpaces(s) < |s|
    requires n == TokenLength(s[i..])
    ensures WithoutSpace(s) == s[i..i + n] + WithoutSpace(s[i + n..])
  {
    var t := s[i..];
    assert t[..n] == s[i..i + n];
    assert t[n..] == s[i + n..];
    assert s == s[..i] + t;
    assert t == t[..n] + t[n..];
    assert WithoutSpace(s) == WithoutSpace(t) by {
      LeadingSpacesAreSpace(s);
      DropSpaces(s[..i], t);
    }
    assert WithoutSpace(t) == t[..n] + WithoutSpace(t[n..]) by {
      TokenHasNoSpace(t);
      KeepToken(t[..n], t[n..]);
    }
  }

  /** A text of whitespace only has no non-whitespace characters. */
  lemma {:induction false} WithoutSpaceAllSpace(s: string)
    requires LeadingSpaces(s) == |s|
    ensures WithoutSpace(s) == []
  {
    LeadingSpacesAreSpace(s);
    WithoutSpaceOfSpaces(s);
  }

  /** Together the tokens hold exactly the line's non-whitespace characters, in order. */
  lemma {:induction false} SplitWsConcat(s: string)
    ensures Concat(SplitWs(s, None)) == WithoutSpace(s)
    decreases |s|
  {
    var i := LeadingSpaces(s);
    if i < |s| {
      var n := TokenLength(s[i..]);
      var rest := SplitWs(s[i + n..], None);
      SplitWsConcat(s[i + n..]);
      WithoutSpaceFirstToken(s, i, n);
      assert SplitWs(s, None) == [s[i..i + n]] + rest;
      assert Concat([s[i..i + n]] + rest) == s[i..i + n] + Concat(rest);
    } else {
      WithoutSpaceAllSpace(s);
    }
  }

  /** Flattening a sequence of sequences. */
  function Concat<T>(xss: seq<seq<T>>): seq<T> {
    if xss == [] then [] else xss[0] + Concat(xss[1..])
  }

  lemma {:induction false} ConcatAppend<T>(a: seq<seq<T>>, b: seq<seq<T>>)
    ensures Concat(a + b) == Concat(a) + Concat(b)
  {
    if a != [] {
      assert (a + b)[0] == a[0];
      assert (a + b)[1..] == a[1..] + b;
      ConcatAppend(a[1..], b);
    } else {
      assert a + b == b;
    }
  }

  /** s.rstrip(): s without its trailing whitespace. */
  function RStrip(s: string): (r: string)
    ensures |r| <= |s| && r == s[..|r|]
    ensures r == "" || !IsSpace(r[|r| - 1])
    ensures forall k :: |r| <= k < |s| ==> IsSpace(s[k])
  {
    if s != [] && IsSpace(s[|s| - 1]) then RStrip(s[..|s| - 1]) else s
  }

  // ---------------------------------------------------------------------------
  // Integers and their decimal text

  function DigitChar(d: nat): (c: char)
    requires d < 10
    ensures IsDigit(c)
  {
    "0123456789"[d]
  }

  function DigitValue(c: char): nat
    requires IsDigit(c)
  {
    (c as int - '0' as int) as nat
  }

  /** Decimal digits of n, without leading zeros. */
  function NatToString(n: nat): (r: string)
    ensures |r| > 0 && AllDigits(r)
  {
    if n < 10 then [DigitChar(n)] else NatToString(n / 10) + [DigitChar(n % 10)]
  }

  /** str(n) and "%d" % n for a Python int. */
  function IntToString(n: int): (r: string)
    ensures |r| > 0
  {
    if n < 0 then "-" + NatToString(-n) else NatToString(n)
  }

  /** str(n) is a single token: no whitespace, no newline. */
  lemma {:induction false} IntToStringIsToken(n: int)
    ensures NoSpace(IntToString(n)) && '\n' !in IntToString(n)
  {
    var d := NatToString(if n < 0 then -n else n);
    assert forall k :: 0 <= k < |d| ==> IsDigit(d[k]) && !IsSpace(d[k]);
    if n < 0 {
      assert IntToString(n) == "-" + d;
      assert forall k :: 1 <= k < |IntToString(n)| ==> IntToString(n)[k] == d[k - 1];
    }
  }

  /** The value of a run of decimal digits. */
  function DigitsValue(s: string): nat
    requires AllDigits(s)
  {
    if s == [] then 0 else DigitsValue(s[..|s| - 1]) * 10 + DigitValue(s[|s| - 1])
  }

  lemma {:induction false} DigitsValueOfNat(n: nat)
    ensures DigitsValue(NatToString(n)) == n
  {
    if n >= 10 {
      DigitsValueOfNat(n / 10);
      var s := NatToString(n);
      assert s[..|s| - 1] == NatToString(n / 10);
    }
  }

  /** A decimal literal as int() accepts it: digits, single underscores only between digits. */
  predicate ValidDigitGroups(s: string) {
    && |s| > 0
    && IsDigit(s[0]) && IsDigit(s[|s| - 1])
    && (forall k :: 0 <= k < |s| ==> IsDigit(s[k]) || s[k] == '_')
    && (forall k :: 0 <= k < |s| - 1 ==> !(s[k] == '_' && s[k + 1] == '_'))
  }

  function RemoveUnderscores(s: string): (r: string)
    requires forall k :: 0 <= k < |s| ==> IsDigit(s[k]) || s[k] == '_'
    ensures AllDigits(r)
  {
    if s == [] then [] else (if s[0] == '_' then [] else [s[0]]) + RemoveUnderscores(s[1..])
  }

  lemma {:induction false} RemoveUnderscoresOfDigits(s: string)
    requires AllDigits(s)
    ensures RemoveUnderscores(s) == s
  {
    if s != [] {
      RemoveUnderscoresOfDigits(s[1..]);
    }
  }

  /** The value of a decimal literal without sign; None where int() raises ValueError. */
  function ParseDigits(s: string): Option<nat> {
    if ValidDigitGroups(s) then Some(DigitsValue(RemoveUnderscores(s))) else None
  }

  /** int(s) for a token without surrounding whitespace; None where Python raises ValueError. */
  function ParseInt(s: string): Option<int> {
    if |s| > 0 && (s[0] == '-' || s[0] == '+') then
      match ParseDigits(s[1..])
      case None => None
      case Some(v) => Some(if s[0] == '-' then -(v as int) else v)
    else ParseDigits(s)
  }

  lemma {:induction false} ParseDigitsOfNat(n: nat)
    ensures ParseDigits(NatToString(n)) == Some(n)
  {
    var d := NatToString(n);
    assert ValidDigitGroups(d) by {
      assert forall k :: 0 <= k < |d| - 1 ==> IsDigit(d[k]);
    }
    RemoveUnderscoresOfDigits(d);
    DigitsValueOfNat(n);
  }

  /** int(str(n)) == n. */
  lemma {:induction false} ParseIntToString(n: int)
    ensures ParseInt(IntToString(n)) == Some(n)
  {
    var s := IntToString(n);
    if n < 0 {
      assert s[1..] == NatToString(-n);
      ParseDigitsOfNat(-n);
    } else {
      ParseDigitsOfNat(n);
      assert IsDigit(s[0]);
    }
  }

  // ---------------------------------------------------------------------------
  // POSIX paths

  /** os.path.join(a, b) on POSIX. */
  function PathJoin(a: string, b: string): string {
    if StartsWith(b, "/") then b
    else if a == "" || EndsWith(a, "/") then a + b
    else a + "/" + b
  }

  /** Index just after the last '/', or 0. */
  function AfterLastSlash(p: string): (i: nat)
    ensures i <= |p|
    ensures '/' !in p[i..]
    ensures i > 0 ==> p[i - 1] == '/'
  {
    if p == [] then 0
    else if p[|p| - 1] == '/' then |p|
    else
      var i := AfterLastSlash(p[..|p| - 1]);
      assert p[i..] == p[..|p| - 1][i..] + [p[|p| - 1]];
      i
  }

  /** os.path.basename(p) on POSIX. */
  function Basename(p: string): string {
    p[AfterLastSlash(p)..]
  }

  lemma {:induction false} BasenameOfAppend(a: string, c: string)
    requires '/' !in c
    requires a == "" || a[|a| - 1] == '/'
    ensures Basename(a + c) == c
    decreases |c|
  {
    if c == [] {
      assert a + c == a;
    } else {
      var p := a + c;
      assert p[..|p| - 1] == a + c[..|c| - 1];
      assert c == c[..|c| - 1] + [c[|c| - 1]];
      BasenameOfAppend(a, c[..|c| - 1]);
    }
  }

  /** The last component of a joined path is the component that was joined. */
  lemma {:induction false} BasenameOfJoin(a: string, c: string)
    requires '/' !in c
    ensures Basename(PathJoin(a, c)) == c
  {
    if |c| > 0 {
      assert c[0] in c;
    }
    if a == "" || EndsWith(a, "/") {
      if a != "" {
        assert a[|a| - 1] == a[|a| - 1..][0];
      }
      BasenameOfAppend(a, c);
    } else {
      assert a + "/" + c == (a + "/") + c;
      BasenameOfAppend(a + "/", c);
    }
  }

  // ---------------------------------------------------------------------------
  // Python sequence indexing

  /** seq[i] with Python's negative indices; None where Python raises IndexError. */
  function PyIndex(n: nat, i: int): (r: Option<nat>)
    ensures r.Some? ==> r.value < n
    ensures r.Some? <==> -(n as int) <= i < n
  {
    if 0 <= i < n then Some(i) else if -(n as int) <= i < 0 then Some(n + i) else None
  }
}
