/** The string operations of Python that the modelled code relies on:
    character classes of `re` (`\d`, `\s`), `str.startswith`/`endswith`,
    `str.lower`, `str.split`, `str.join`, `str.replace`, `int()` on digit
    strings, `"%d"`/`"%02d"` formatting and `os.path.basename`/`join`.
    Character classes are the ASCII ones. */
module Strings {

  import opened Wrappers

  /** `\d` in a regular expression. */
  predicate IsDigit(c: char) {
    '0' <= c <= '9'
  }

  /** `\s` in a regular expression: space, tab, newline, carriage return,
      vertical tab, form feed. */
  predicate IsSpace(c: char) {
    c == ' ' || c == '\t' || c == '\n' || c == '\r' || c == '\U{B}' || c == '\U{C}'
  }

  predicate AllDigits(s: string) {
    forall i :: 0 <= i < |s| ==> IsDigit(s[i])
  }

  /** Every character matches `\S`. */
  predicate NonSpace(s: string) {
    forall i :: 0 <= i < |s| ==> !IsSpace(s[i])
  }

  predicate StartsWith(s: string, prefix: string) {
    |prefix| <= |s| && s[..|prefix|] == prefix
  }

  predicate EndsWith(s: string, suffix: string) {
    |suffix| <= |s| && s[|s| - |suffix|..] == suffix
  }

  /** Length of the run of digits that starts `t` (how far a greedy `\d+`
      or `\d*` reaches). */
  function DigitRun(t: string): (n: nat)
    ensures n <= |t| && AllDigits(t[..n])
    ensures n < |t| ==> !IsDigit(t[n])
  {
    if t == [] || !IsDigit(t[0]) then 0 else 1 + DigitRun(t[1..])
  }

  function DigitValue(c: char): (d: nat)
    requires IsDigit(c)
    ensures d < 10
  {
    c as int - '0' as int
  }

  function DigitChar(d: nat): (c: char)
    requires d < 10
    ensures IsDigit(c) && DigitValue(c) == d
  {
    ('0' as int + d) as char
  }

  /** The value of a decimal digit string (`int(s)` for a non-empty `s`). */
  function ParseDigits(s: string): nat
    requires AllDigits(s)
  {
    if s == [] then 0 else ParseDigits(s[..|s| - 1]) * 10 + DigitValue(s[|s| - 1])
  }

  /** Python's `int(s)` on a string made of digits only: it fails on the
      empty string and on anything that is not a digit. */
  function ParseInt(s: string): (r: Option<nat>)
    ensures r.Some? <==> |s| > 0 && AllDigits(s)
  {
    if |s| > 0 && AllDigits(s) then Some(ParseDigits(s)) else None
  }

  /** `str(n)` for a natural number. */
  function NatToString(n: nat): (s: string)
    ensures |s| > 0 && AllDigits(s)
    ensures n < 10 <==> |s| == 1
  {
    if n < 10 then [DigitChar(n)] else NatToString(n / 10) + [DigitChar(n % 10)]
  }

  /** Reading back what `str(n)` wrote gives `n`. */
  lemma {:induction false} ParseNatToString(n: nat)
    ensures ParseDigits(NatToString(n)) == n
  {
    if n >= 10 {
      var s := NatToString(n);
      assert s[..|s| - 1] == NatToString(n / 10);
      ParseNatToString(n / 10);
    }
  }

  /** `"%02d" % n`: at least two characters, zero-padded for 0..9; a negative
      number already has two characters (`"-5"`), so it is not padded. */
  function Format02(n: int): (s: string)
    ensures |s| >= 2
    ensures n >= 0 ==> AllDigits(s)
    ensures n < 0 ==> s[0] == '-'
  {
    if n < 0 then "-" + NatToString(-n)
    else if n < 10 then "0" + NatToString(n)
    else NatToString(n)
  }

  /** `int("%02d" % n) == n` for every non-negative `n`. */
  lemma ParseFormat02(n: nat)
    ensures ParseDigits(Format02(n)) == n
  {
    ParseNatToString(n);
    if n < 10 {
      var s := Format02(n);
      assert s[..|s| - 1] == "0";
    }
  }

  /** `str.lower()` on ASCII letters. */
  function Lower(s: string): (r: string)
    ensures |r| == |s|
    ensures forall i :: 0 <= i < |s| ==>
      r[i] == (if 'A' <= s[i] <= 'Z' then (s[i] as int + 32) as char else s[i])
  {
    seq(|s|, i requires 0 <= i < |s| => if 'A' <= s[i] <= 'Z' then (s[i] as int + 32) as char else s[i])
  }

  /** `sep.join(parts)`. */
  function Join(sep: string, parts: seq<string>): (r: string)
    ensures parts == [] ==> r == ""
  {
    if parts == [] then ""
    else if |parts| == 1 then parts[0]
    else parts[0] + sep + Join(sep, parts[1..])
  }

  /** `s.split(sep)` for a one-character separator. */
  function Split(s: string, sep: char): (parts: seq<string>)
    ensures |parts| > 0
    ensures forall i :: 0 <= i < |parts| ==> sep !in parts[i]
    decreases |s|
  {
    if sep !in s then [s]
    else
      var i := IndexOf(s, sep);
      [s[..i]] + Split(s[i + 1..], sep)
  }

  /** Position of the first occurrence of `c` in `s`. */
  function IndexOf(s: string, c: char): (i: nat)
    requires c in s
    ensures i < |s| && s[i] == c && c !in s[..i]
  {
    if s[0] == c then 0 else 1 + IndexOf(s[1..], c)
  }

  /** Splitting and re-joining with the same separator gives back the input. */
  lemma {:induction false} JoinSplit(s: string, sep: char)
    ensures Join([sep], Split(s, sep)) == s
    decreases |s|
  {
    if sep in s {
      var i := IndexOf(s, sep);
      var rest := Split(s[i + 1..], sep);
      var parts := Split(s, sep);
      assert parts == [s[..i]] + rest;
      assert |parts| > 1 && parts[0] == s[..i] && parts[1..] == rest;
      calc {
        Join([sep], parts);
        s[..i] + [sep] + Join([sep], rest);
        { JoinSplit(s[i + 1..], sep); }
        s[..i] + [sep] + s[i + 1..];
        s;
      }
    }
  }

  /** `s.replace(target, repl)`: every non-overlapping occurrence of `target`,
      scanning from the left, is replaced by `repl`. */
  function Replace(s: string, target: string, repl: string): string
    requires |target| > 0
    decreases |s|
  {
    if |s| < |target| then s
    else if s[..|target|] == target then repl + Replace(s[|target|..], target, repl)
    else [s[0]] + Replace(s[1..], target, repl)
  }

  /** Replacing a string whose first character does not occur in `s`
      changes nothing. */
  lemma {:induction false} ReplaceAbsent(s: string, target: string, repl: string)
    requires |target| > 0 && target[0] !in s
    ensures Replace(s, target, repl) == s
    decreases |s|
  {
    if |s| >= |target| {
      assert s[0] != target[0];
      ReplaceAbsent(s[1..], target, repl);
    }
  }

  /** `os.path.basename(p)`: the part after the last `/`. */
  function PathBasename(p: string): (b: string)
    ensures '/' !in b
    ensures EndsWith(p, b)
    decreases |p|
  {
    if p == [] then []
    else if p[|p| - 1] == '/' then []
    else PathBasename(p[..|p| - 1]) + [p[|p| - 1]]
  }

  /** A path with no `/` is its own basename. */
  lemma {:induction false} BasenameOfPlain(x: string)
    requires '/' !in x
    ensures PathBasename(x) == x
    decreases |x|
  {
    if x != [] {
      assert x[..|x| - 1] + [x[|x| - 1]] == x;
      BasenameOfPlain(x[..|x| - 1]);
    }
  }

  /** Whatever precedes the last `/` does not matter to the basename. */
  lemma {:induction false} BasenameAfterSlash(a: string, c: string)
    ensures PathBasename(a + "/" + c) == PathBasename(c)
    decreases |c|
  {
    var p := a + "/" + c;
    if c != [] {
      assert p[..|p| - 1] == a + "/" + c[..|c| - 1];
      assert p[|p| - 1] == c[|c| - 1];
      BasenameAfterSlash(a, c[..|c| - 1]);
    }
  }

  /** A string is what comes before a position, the character there, and
      what follows it. */
  lemma CutAt(s: string, i: nat)
    requires i < |s|
    ensures s == s[..i] + [s[i]] + s[i + 1..]
  {
  }

  /** `path.split('/')[-1]` is `os.path.basename(path)`. */
  lemma {:induction false} SplitLastIsBasename(p: string)
    ensures var parts := Split(p, '/'); parts[|parts| - 1] == PathBasename(p)
    decreases |p|
  {
    if '/' in p {
      var i := IndexOf(p, '/');
      var a, rest := p[..i], p[i + 1..];
      var parts, tail := Split(p, '/'), Split(rest, '/');
      assert parts == [a] + tail;
      SplitLastIsBasename(rest);
      CutAt(p, i);
      assert p == a + "/" + rest;
      BasenameAfterSlash(a, rest);
    } else {
      BasenameOfPlain(p);
    }
  }

  /** `os.path.join(a, b)` for two components. */
  function JoinPath(a: string, b: string): string {
    if StartsWith(b, "/") then b
    else if a == [] || EndsWith(a, "/") then a + b
    else a + "/" + b
  }
}
