/** GroupPatterns: extra groups for a client, chosen by its hostname. A
    `NamePattern` is a regular expression whose captures may be spliced
    into the group names as `$1`, `$2`, ...; a `NameRange` is a hostname
    template in which every `[[...]]` stands for a number drawn from a
    packed digit range such as `1-5,7`. */
module GroupPatterns {

  import opened Wrappers
  import opened Strings

  // ---------------------------------------------------------------------
  // PackedDigitRange

  /** One comma-separated item of a digit range: a single number, or the
      numbers of an item that contains `-` (a pair for `start-end`). */
  datatype Item = Single(value: nat) | Span(bounds: seq<nat>)

  /** A parsed `PackedDigitRange`: its single numbers (`sparse`) and its
      spans (`ranges`), each in input order. */
  datatype DigitRange = DigitRange(sparse: seq<nat>, ranges: seq<seq<nat>>)

  /** `[int(x) for x in parts]`: every part must be a number. */
  function ParseNats(parts: seq<string>): (r: Option<seq<nat>>)
    ensures r.Some? <==> forall i :: 0 <= i < |parts| ==> ParseInt(parts[i]).Some?
    ensures r.Some? ==> |r.value| == |parts| && forall i :: 0 <= i < |parts| ==> r.value[i] == ParseInt(parts[i]).value
  {
    if parts == [] then Some([])
    else
      var init := parts[..|parts| - 1];
      match ParseNats(init)
      case None => None
      case Some(ns) =>
        match ParseInt(parts[|parts| - 1])
        case None => None
        case Some(n) => Some(ns + [n])
  }

  /** An item with a `-` is split on every `-`; any other item is one
      number. */
  function ParseItem(item: string): Option<Item>
  {
    if '-' in item then
      match ParseNats(Split(item, '-'))
      case None => None
      case Some(ns) => Some(Span(ns))
    else
      match ParseInt(item)
      case None => None
      case Some(n) => Some(Single(n))
  }

  /** The items parsed in order; one item that is not a number makes the
      whole range fail (`int()` raises `ValueError`). */
  function ParseItems(items: seq<string>): (r: Option<seq<Item>>)
    ensures r.Some? <==> forall i :: 0 <= i < |items| ==> ParseItem(items[i]).Some?
    ensures r.Some? ==> |r.value| == |items| && forall i :: 0 <= i < |items| ==> Some(r.value[i]) == ParseItem(items[i])
  {
    if items == [] then Some([])
    else
      match ParseItems(items[..|items| - 1])
      case None => None
      case Some(its) =>
        match ParseItem(items[|items| - 1])
        case None => None
        case Some(it) => Some(its + [it])
  }

  /** The single numbers among the items, in order. */
  function Sparse(its: seq<Item>): seq<nat>
  {
    if its == [] then []
    else Sparse(its[..|its| - 1]) + (match its[|its| - 1] case Single(n) => [n] case Span(_) => [])
  }

  /** The spans among the items, in order. */
  function Ranges(its: seq<Item>): seq<seq<nat>>
  {
    if its == [] then []
    else Ranges(its[..|its| - 1]) + (match its[|its| - 1] case Single(_) => [] case Span(b) => [b])
  }

  /** What `PackedDigitRange(s)` builds, `None` where it raises. */
  function DigitRangeOf(s: string): Option<DigitRange>
  {
    match ParseItems(Split(s, ','))
    case None => None
    case Some(its) => Some(DigitRange(Sparse(its), Ranges(its)))
  }

  /** `PackedDigitRange.__init__`: split on commas and append each item to
      `ranges` or `sparse`. */
  method NewPackedDigitRange(s: string) returns (r: Option<DigitRange>)
    ensures r == DigitRangeOf(s)
  {
    var items := Split(s, ',');
    var sparse: seq<nat> := [];
    var ranges: seq<seq<nat>> := [];
    var i := 0;
    while i < |items|
      invariant 0 <= i <= |items|
      invariant ParseItems(items[..i]).Some?
      invariant sparse == Sparse(ParseItems(items[..i]).value)
      invariant ranges == Ranges(ParseItems(items[..i]).value)
    {
      assert items[..i + 1][..i] == items[..i];
      var its := ParseItems(items[..i]).value;
      var item := items[i];
      if '-' in item {
        var ns := ParseNats(Split(item, '-'));
        if ns.None? {
          assert ParseItem(items[i]).None?;
          return None;
        }
        assert ParseItems(items[..i + 1]) == Some(its + [Span(ns.value)]);
        assert (its + [Span(ns.value)])[..|its|] == its;
        ranges := ranges + [ns.value];
      } else {
        var n := ParseInt(item);
        if n.None? {
          assert ParseItem(items[i]).None?;
          return None;
        }
        assert ParseItems(items[..i + 1]) == Some(its + [Single(n.value)]);
        assert (its + [Single(n.value)])[..|its|] == its;
        sparse := sparse + [n.value];
      }
      i := i + 1;
    }
    assert items[..|items|] == items;
    return Some(DigitRange(sparse, ranges));
  }

  /** The single numbers and the spans are exactly those of the items. */
  lemma {:induction false} SparseRangesMembers(its: seq<Item>)
    ensures forall n :: n in Sparse(its) <==> Single(n) in its
    ensures forall b :: b in Ranges(its) <==> Span(b) in its
  {
    if its != [] {
      var init := its[..|its| - 1];
      SparseRangesMembers(init);
      assert its == init + [its[|its| - 1]];
    }
  }

  /** An item with a `-` always yields a span of at least two numbers. */
  lemma SpanLength(item: string)
    requires ParseItem(item).Some? && ParseItem(item).value.Span?
    ensures |ParseItem(item).value.bounds| >= 2
  {
    var i := IndexOf(item, '-');
    assert Split(item, '-') == [item[..i]] + Split(item[i + 1..], '-');
  }

  /** A span `b` contains `n`: `n in range(start, end + 1)`. */
  predicate InSpan(b: seq<nat>, n: nat)
    requires |b| == 2
  {
    b[0] <= n <= b[1]
  }

  /** The loop of `includes` over the spans: `None` where unpacking a span
      that is not a pair raises. */
  function RangesInclude(ranges: seq<seq<nat>>, n: nat): Option<bool>
  {
    if ranges == [] then Some(false)
    else if |ranges[0]| != 2 then None
    else if InSpan(ranges[0], n) then Some(true)
    else RangesInclude(ranges[1..], n)
  }

  /** `PackedDigitRange.includes(n)`. */
  function Includes(r: DigitRange, n: nat): Option<bool>
  {
    if n in r.sparse then Some(true) else RangesInclude(r.ranges, n)
  }

  predicate Pairs(ranges: seq<seq<nat>>) {
    forall j :: 0 <= j < |ranges| ==> |ranges[j]| == 2
  }

  lemma {:induction false} RangesIncludeIff(ranges: seq<seq<nat>>, n: nat)
    requires Pairs(ranges)
    ensures RangesInclude(ranges, n) == Some(exists j :: 0 <= j < |ranges| && InSpan(ranges[j], n))
  {
    if ranges != [] && !InSpan(ranges[0], n) {
      RangesIncludeIff(ranges[1..], n);
      if exists j :: 0 <= j < |ranges| && InSpan(ranges[j], n) {
        var j :| 0 <= j < |ranges| && InSpan(ranges[j], n);
        assert ranges[1..][j - 1] == ranges[j];
      }
    }
  }

  /** With well-formed spans, `n` is included exactly when it is one of
      the single numbers or lies in one of the spans, ends included (so a
      span whose start exceeds its end contains nothing). */
  lemma IncludesIff(r: DigitRange, n: nat)
    requires Pairs(r.ranges)
    ensures Includes(r, n) == Some(n in r.sparse || exists j :: 0 <= j < |r.ranges| && InSpan(r.ranges[j], n))
  {
    RangesIncludeIff(r.ranges, n);
  }

  /** A span that is not a pair raises once `includes` reaches it: when `n`
      is not a single number and no earlier span contains it. */
  lemma {:induction false} IncludesMalformed(r: DigitRange, n: nat, j: nat)
    requires n !in r.sparse && j < |r.ranges| && |r.ranges[j]| != 2
    requires forall k :: 0 <= k < j ==> |r.ranges[k]| == 2 && !InSpan(r.ranges[k], n)
    ensures Includes(r, n).None?
  {
    RangesIncludeNone(r.ranges, n, j);
  }

  lemma {:induction false} RangesIncludeNone(ranges: seq<seq<nat>>, n: nat, j: nat)
    requires j < |ranges| && |ranges[j]| != 2
    requires forall k :: 0 <= k < j ==> |ranges[k]| == 2 && !InSpan(ranges[k], n)
    ensures RangesInclude(ranges, n).None?
  {
    if j > 0 {
      assert |ranges[0]| == 2 && !InSpan(ranges[0], n);
      forall k | 0 <= k < j - 1
        ensures |ranges[1..][k]| == 2 && !InSpan(ranges[1..][k], n)
      {
        assert ranges[1..][k] == ranges[k + 1];
      }
      RangesIncludeNone(ranges[1..], n, j - 1);
    }
  }

  /** An item covers `n`: it is the number `n`, or a `start-end` pair with
      `start <= n <= end`. */
  ghost predicate ItemCovers(item: string, n: nat) {
    match ParseItem(item)
    case None => false
    case Some(Single(m)) => m == n
    case Some(Span(b)) => |b| == 2 && InSpan(b, n)
  }

  /** An item that covers `n` puts `n` in the parsed range. */
  lemma CoveredIncluded(s: string, n: nat, i: nat)
    requires DigitRangeOf(s).Some? && i < |Split(s, ',')| && ItemCovers(Split(s, ',')[i], n)
    ensures var r := DigitRangeOf(s).value;
      n in r.sparse || exists j :: 0 <= j < |r.ranges| && |r.ranges[j]| == 2 && InSpan(r.ranges[j], n)
  {
    var its := ParseItems(Split(s, ',')).value;
    var r := DigitRangeOf(s).value;
    SparseRangesMembers(its);
    assert its[i] in its;
    if its[i].Span? {
      assert its[i].bounds in r.ranges;
    }
  }

  /** A single number of the parsed range, or a number in one of its
      pairs, is covered by some item. */
  lemma IncludedCovered(s: string, n: nat)
    requires DigitRangeOf(s).Some?
    requires var r := DigitRangeOf(s).value;
      n in r.sparse || exists j :: 0 <= j < |r.ranges| && |r.ranges[j]| == 2 && InSpan(r.ranges[j], n)
    ensures exists i :: 0 <= i < |Split(s, ',')| && ItemCovers(Split(s, ',')[i], n)
  {
    var items := Split(s, ',');
    var its := ParseItems(items).value;
    var r := DigitRangeOf(s).value;
    SparseRangesMembers(its);
    if n in r.sparse {
      var i :| 0 <= i < |its| && its[i] == Single(n);
      assert ItemCovers(items[i], n);
    } else {
      var j :| 0 <= j < |r.ranges| && |r.ranges[j]| == 2 && InSpan(r.ranges[j], n);
      assert Span(r.ranges[j]) in its;
      var i :| 0 <= i < |its| && its[i] == Span(r.ranges[j]);
      assert ItemCovers(items[i], n);
    }
  }

  /** The range parsed from `s` includes `n` exactly when some item of `s`
      covers it, provided every item has at most one `-`. */
  lemma DigitRangeIncludes(s: string, n: nat)
    requires DigitRangeOf(s).Some? && Pairs(DigitRangeOf(s).value.ranges)
    ensures Includes(DigitRangeOf(s).value, n) == Some(exists i :: 0 <= i < |Split(s, ',')| && ItemCovers(Split(s, ',')[i], n))
  {
    var r := DigitRangeOf(s).value;
    IncludesIff(r, n);
    if exists i :: 0 <= i < |Split(s, ',')| && ItemCovers(Split(s, ',')[i], n) {
      var i :| 0 <= i < |Split(s, ',')| && ItemCovers(Split(s, ',')[i], n);
      CoveredIncluded(s, n, i);
    }
    if n in r.sparse || exists j :: 0 <= j < |r.ranges| && InSpan(r.ranges[j], n) {
      IncludedCovered(s, n);
    }
  }

  // ---------------------------------------------------------------------
  // NameRange templates

  /** A template, read left to right: a literal character, or a
      `[[...]]` digit-range slot with the text between the brackets. */
  datatype Piece = Lit(c: char) | Slot(spec: string)

  /** A character of `[\d\-,]`. */
  predicate IsRangeChar(c: char) {
    IsDigit(c) || c == '-' || c == ','
  }

  /** Length of the run of range characters that starts `t`. */
  function RangeRun(t: string): (n: nat)
    ensures n <= |t|
    ensures forall i :: 0 <= i < n ==> IsRangeChar(t[i])
    ensures n < |t| ==> !IsRangeChar(t[n])
  {
    if t == [] || !IsRangeChar(t[0]) then 0 else 1 + RangeRun(t[1..])
  }

  /** `\[\[[\d\-,]+\]\]` tried at the start of `t` (the run is greedy and
      must be followed by `]]`, so only the whole run can match). */
  function SlotAt(t: string): (r: Option<string>)
    ensures r.Some? ==> |r.value| > 0 && |r.value| + 4 <= |t| && t[..|r.value| + 4] == "[[" + r.value + "]]"
  {
    if StartsWith(t, "[[") then
      var n := RangeRun(t[2..]);
      if n > 0 && StartsWith(t[2 + n..], "]]") then
        assert t[..n + 4] == "[[" + t[2..2 + n] + "]]";
        Some(t[2..2 + n])
      else None
    else None
  }

  /** The template cut into pieces the way `re.sub` scans it for slots:
      leftmost first, without overlap. */
  function Tokenize(t: string): seq<Piece>
    decreases |t|
  {
    if t == [] then []
    else match SlotAt(t)
      case Some(spec) => [Slot(spec)] + Tokenize(t[|spec| + 4..])
      case None => [Lit(t[0])] + Tokenize(t[1..])
  }

  /** The text of the pieces. */
  function Render(ps: seq<Piece>): string
  {
    if ps == [] then ""
    else (match ps[0] case Lit(c) => [c] case Slot(spec) => "[[" + spec + "]]") + Render(ps[1..])
  }

  /** Cutting a template into pieces loses nothing. */
  lemma {:induction false} RenderTokenize(t: string)
    ensures Render(Tokenize(t)) == t
    decreases |t|
  {
    if t != [] {
      match SlotAt(t)
      case Some(spec) =>
        RenderTokenize(t[|spec| + 4..]);
        assert t == t[..|spec| + 4] + t[|spec| + 4..];
      case None =>
        RenderTokenize(t[1..]);
        assert t == [t[0]] + t[1..];
    }
  }

  /** The digit-range texts of the slots, in order: what the second
      regex (`dmatcher`) captures from the template itself. */
  function Specs(ps: seq<Piece>): (r: seq<string>)
    ensures |r| <= |ps|
  {
    if ps == [] then []
    else (match ps[0] case Lit(_) => [] case Slot(spec) => [spec]) + Specs(ps[1..])
  }

  /** One template character against one hostname character: `.` is the
      regular-expression wildcard (anything but a newline), every other
      character stands for itself. */
  predicate CharMatches(c: char, x: char) {
    if c == '.' then x != '\n' else x == c
  }

  /** `re.match('^' + template, name)` with each slot compiled to `(\d+)`:
      anchored at the start only, `\d+` greedy with backtracking; the
      captured digit strings. */
  function MatchPieces(ps: seq<Piece>, s: string): (r: Option<seq<string>>)
    ensures r.Some? ==> |r.value| == |Specs(ps)|
    ensures r.Some? ==> forall j :: 0 <= j < |r.value| ==> |r.value[j]| > 0 && AllDigits(r.value[j])
    decreases |ps|, 0
  {
    if ps == [] then Some([])
    else match ps[0]
      case Lit(c) => if |s| > 0 && CharMatches(c, s[0]) then MatchPieces(ps[1..], s[1..]) else None
      case Slot(_) => TrySlot(ps[1..], s, DigitRun(s))
  }

  /** The slot takes the first `k` digits, then fewer, until the rest of
      the template matches. */
  function TrySlot(rest: seq<Piece>, s: string, k: nat): (r: Option<seq<string>>)
    requires k <= |s| && forall i :: 0 <= i < k ==> IsDigit(s[i])
    ensures r.Some? ==> |r.value| == 1 + |Specs(rest)|
    ensures r.Some? ==> forall j :: 0 <= j < |r.value| ==> |r.value[j]| > 0 && AllDigits(r.value[j])
    decreases |rest|, k
  {
    if k == 0 then None
    else match MatchPieces(rest, s[k..])
      case Some(caps) => Some([s[..k]] + caps)
      case None => TrySlot(rest, s, k - 1)
  }

  /** `s` begins with the template whose slots are filled with `caps`,
      each a non-empty digit string: the language of the compiled regex. */
  ghost predicate Fits(ps: seq<Piece>, caps: seq<string>, s: string)
    decreases |ps|
  {
    if ps == [] then caps == []
    else match ps[0]
      case Lit(c) => |s| > 0 && CharMatches(c, s[0]) && Fits(ps[1..], caps, s[1..])
      case Slot(_) =>
        && |caps| > 0 && 0 < |caps[0]| <= |s| && AllDigits(caps[0]) && s[..|caps[0]|] == caps[0]
        && Fits(ps[1..], caps[1..], s[|caps[0]|..])
  }

  /** What the matcher captures fills the template into a prefix of the
      name. */
  lemma {:induction false} MatchPiecesSound(ps: seq<Piece>, s: string)
    requires MatchPieces(ps, s).Some?
    ensures Fits(ps, MatchPieces(ps, s).value, s)
    decreases |ps|, 0
  {
    if ps != [] {
      match ps[0]
      case Lit(c) =>
        MatchPiecesSound(ps[1..], s[1..]);
      case Slot(_) =>
        TrySlotSound(ps[1..], s, DigitRun(s));
    }
  }

  lemma {:induction false} TrySlotSound(rest: seq<Piece>, s: string, k: nat)
    requires k <= |s| && forall i :: 0 <= i < k ==> IsDigit(s[i])
    requires TrySlot(rest, s, k).Some?
    ensures var caps := TrySlot(rest, s, k).value;
      |caps| > 0 && 0 < |caps[0]| <= |s| && AllDigits(caps[0]) && s[..|caps[0]|] == caps[0]
      && Fits(rest, caps[1..], s[|caps[0]|..])
    decreases |rest|, k
  {
    match MatchPieces(rest, s[k..])
    case Some(caps) =>
      MatchPiecesSound(rest, s[k..]);
      assert TrySlot(rest, s, k).value == [s[..k]] + caps;
    case None =>
      TrySlotSound(rest, s, k - 1);
  }

  /** Whenever some filling of the template is a prefix of the name, the
      matcher finds a match: backtracking misses nothing. */
  lemma {:induction false} MatchPiecesComplete(ps: seq<Piece>, caps: seq<string>, s: string)
    requires Fits(ps, caps, s)
    ensures MatchPieces(ps, s).Some?
    decreases |ps|
  {
    if ps != [] {
      match ps[0]
      case Lit(c) =>
        MatchPiecesComplete(ps[1..], caps, s[1..]);
      case Slot(_) =>
        var n := |caps[0]|;
        MatchPiecesComplete(ps[1..], caps[1..], s[n..]);
        assert forall i :: 0 <= i < n ==> s[i] == caps[0][i];
        if DigitRun(s) < n {
          assert s[DigitRun(s)] == caps[0][DigitRun(s)];
        }
        TrySlotComplete(ps[1..], s, DigitRun(s), n);
    }
  }

  lemma {:induction false} TrySlotComplete(rest: seq<Piece>, s: string, k: nat, n: nat)
    requires k <= |s| && forall i :: 0 <= i < k ==> IsDigit(s[i])
    requires 0 < n <= k && MatchPieces(rest, s[n..]).Some?
    ensures TrySlot(rest, s, k).Some?
    decreases k
  {
    if n < k && MatchPieces(rest, s[k..]).None? {
      TrySlotComplete(rest, s, k - 1, n);
    }
  }

  // ---------------------------------------------------------------------
  // PatternMap

  datatype PatternError =
    | NoPatternOrRange
    | Backslash
    | BadRegex
    | BadDigitRange

  /** The compiled matcher: a regular expression, or a template with one
      digit range per slot. */
  datatype Matcher =
    | ReMatcher(pattern: string)
    | RangeMatcher(rangestr: string, pieces: seq<Piece>, dranges: seq<DigitRange>)

  datatype PatternMap = PatternMap(matcher: Matcher, groups: seq<string>)

  /** Every slot has its digit range. */
  predicate WellFormed(pm: PatternMap) {
    pm.matcher.RangeMatcher? ==> |pm.matcher.dranges| == |Specs(pm.matcher.pieces)|
  }

  /** The regular-expression engine, outside the model: whether a pattern
      compiles, and `re.search` giving the captures (`None` for a group
      that took no part in the match). */
  datatype RegexEngine = RegexEngine(
    compiles: string -> bool,
    search: (string, string) -> Option<seq<Option<string>>>)

  /** `[PackedDigitRange(x) for x in specs]`. */
  function DigitRanges(specs: seq<string>): (r: Option<seq<DigitRange>>)
    ensures r.Some? <==> forall i :: 0 <= i < |specs| ==> DigitRangeOf(specs[i]).Some?
    ensures r.Some? ==> |r.value| == |specs| && forall i :: 0 <= i < |specs| ==> Some(r.value[i]) == DigitRangeOf(specs[i])
  {
    if specs == [] then Some([])
    else
      var init, last := specs[..|specs| - 1], specs[|specs| - 1];
      assert forall i :: 0 <= i < |init| ==> specs[i] == init[i];
      match DigitRanges(init)
      case None => None
      case Some(drs) =>
        match DigitRangeOf(last)
        case None => None
        case Some(d) => Some(drs + [d])
  }

  /** `PatternMap(pattern, rangestr, groups)`. */
  function NewPatternMap(pattern: Option<string>, rangestr: Option<string>, groups: seq<string>, re: RegexEngine): (r: Result<PatternMap, PatternError>)
    ensures r.Success? ==> WellFormed(r.value) && r.value.groups == groups
  {
    if pattern.Some? then
      if re.compiles(pattern.value) then Success(PatternMap(ReMatcher(pattern.value), groups)) else Failure(BadRegex)
    else if rangestr.Some? then
      if '\\' in rangestr.value then Failure(Backslash)
      else
        var ps := Tokenize(rangestr.value);
        match DigitRanges(Specs(ps))
        case None => Failure(BadDigitRange)
        case Some(drs) => Success(PatternMap(RangeMatcher(rangestr.value, ps, drs), groups))
    else Failure(NoPatternOrRange)
  }

  /** Neither a pattern nor a range, or a range with a backslash, is
      refused; a pattern takes precedence over a range. */
  lemma NewPatternMapErrors(pattern: Option<string>, rangestr: Option<string>, groups: seq<string>, re: RegexEngine)
    ensures pattern.None? && rangestr.None? ==> NewPatternMap(pattern, rangestr, groups, re) == Failure(NoPatternOrRange)
    ensures pattern.None? && rangestr.Some? && '\\' in rangestr.value ==> NewPatternMap(pattern, rangestr, groups, re) == Failure(Backslash)
    ensures pattern.Some? ==> (NewPatternMap(pattern, rangestr, groups, re).Success? <==> re.compiles(pattern.value))
    ensures pattern.Some? && re.compiles(pattern.value) ==> NewPatternMap(pattern, rangestr, groups, re).value.matcher == ReMatcher(pattern.value)
  {
  }

  /** A range without a pattern is built exactly when it has no backslash
      and every slot holds a valid digit range; the pieces kept are the
      template's own, one digit range per slot in slot order. */
  lemma NewPatternMapRange(rangestr: string, groups: seq<string>, re: RegexEngine)
    ensures var r := NewPatternMap(None, Some(rangestr), groups, re);
      var specs := Specs(Tokenize(rangestr));
      && (r.Success? <==> '\\' !in rangestr && forall i :: 0 <= i < |specs| ==> DigitRangeOf(specs[i]).Some?)
      && (r.Success? ==>
           && r.value.matcher.RangeMatcher?
           && Render(r.value.matcher.pieces) == rangestr
           && forall i :: 0 <= i < |specs| ==> Some(r.value.matcher.dranges[i]) == DigitRangeOf(specs[i]))
  {
    RenderTokenize(rangestr);
  }

  /** The outcome of matching one pattern: the groups to add, no match, or
      an exception (which the caller catches and logs). */
  datatype Outcome = Matched(groups: seq<string>) | NoMatch | Raised

  /** The loop of `process_range` over the captures: `None` where
      `includes` raises, `Some(false)` at the first number outside its
      range. */
  function CheckCaptures(caps: seq<string>, drs: seq<DigitRange>): Option<bool>
    requires |caps| <= |drs|
    requires forall j :: 0 <= j < |caps| ==> AllDigits(caps[j])
  {
    if caps == [] then Some(true)
    else match Includes(drs[0], ParseDigits(caps[0]))
      case None => None
      case Some(false) => Some(false)
      case Some(true) => CheckCaptures(caps[1..], drs[1..])
  }

  /** `process_range(name)`. */
  function ProcessRange(pm: PatternMap, name: string): Outcome
    requires pm.matcher.RangeMatcher? && WellFormed(pm)
  {
    match MatchPieces(pm.matcher.pieces, name)
    case None => NoMatch
    case Some(caps) =>
      match CheckCaptures(caps, pm.matcher.dranges)
      case None => Raised
      case Some(false) => NoMatch
      case Some(true) => Matched(pm.groups)
  }

  lemma {:induction false} CheckCapturesIff(caps: seq<string>, drs: seq<DigitRange>)
    requires |caps| <= |drs|
    requires forall j :: 0 <= j < |caps| ==> AllDigits(caps[j])
    requires forall j :: 0 <= j < |caps| ==> Pairs(drs[j].ranges)
    ensures CheckCaptures(caps, drs) == Some(forall j :: 0 <= j < |caps| ==> Includes(drs[j], ParseDigits(caps[j])) == Some(true))
  {
    if caps != [] {
      IncludesIff(drs[0], ParseDigits(caps[0]));
      CheckCapturesIff(caps[1..], drs[1..]);
      forall j | 1 <= j < |caps|
        ensures caps[1..][j - 1] == caps[j] && drs[1..][j - 1] == drs[j]
      {
      }
    }
  }

  /** With well-formed spans, a range pattern yields its groups, unchanged,
      exactly when the name starts with the template (slots matched by
      digit runs) and every captured number lies in its slot's range;
      otherwise it yields no match. */
  lemma ProcessRangeIff(pm: PatternMap, name: string)
    requires pm.matcher.RangeMatcher? && WellFormed(pm)
    requires forall j :: 0 <= j < |pm.matcher.dranges| ==> Pairs(pm.matcher.dranges[j].ranges)
    ensures var m := MatchPieces(pm.matcher.pieces, name);
      && !ProcessRange(pm, name).Raised?
      && (ProcessRange(pm, name).Matched? ==> ProcessRange(pm, name).groups == pm.groups)
      && (ProcessRange(pm, name).Matched? <==>
           m.Some? && forall j :: 0 <= j < |m.value| ==> Includes(pm.matcher.dranges[j], ParseDigits(m.value[j])) == Some(true))
  {
    var m := MatchPieces(pm.matcher.pieces, name);
    if m.Some? {
      CheckCapturesIff(m.value, pm.matcher.dranges);
    }
  }

  /** `'$%s' % k`. */
  function Placeholder(k: nat): (p: string)
    ensures |p| > 0 && p[0] == '$'
  {
    "$" + NatToString(k)
  }

  /** The inner loop of `process_re`: `$1`, then `$2`, ..., then `$k`
      replaced in `g` by the matching captures. */
  function Substitute(g: string, sub: seq<Option<string>>, k: nat): string
    requires k <= |sub| && forall i :: 0 <= i < k ==> sub[i].Some?
  {
    if k == 0 then g else Replace(Substitute(g, sub, k - 1), Placeholder(k), sub[k - 1].value)
  }

  predicate AllPresent(sub: seq<Option<string>>) {
    forall i :: 0 <= i < |sub| ==> sub[i].Some?
  }

  /** `process_re(name)` given what `re.search` found: no match gives
      nothing; a group that took no part in the match makes `str.replace`
      raise as soon as there is a group name to rewrite. */
  function ProcessReSpec(groups: seq<string>, m: Option<seq<Option<string>>>): Outcome
  {
    match m
    case None => NoMatch
    case Some(sub) =>
      if groups == [] then Matched([])
      else if !AllPresent(sub) then Raised
      else Matched(seq(|groups|, i requires 0 <= i < |groups| => Substitute(groups[i], sub, |sub|)))
  }

  /** `process_re(name)`: every group name rewritten in turn. */
  method ProcessRe(groups: seq<string>, m: Option<seq<Option<string>>>) returns (r: Outcome)
    ensures r == ProcessReSpec(groups, m)
  {
    if m.None? {
      return NoMatch;
    }
    var sub := m.value;
    var ret: seq<string> := [];
    for gi := 0 to |groups|
      invariant gi > 0 ==> AllPresent(sub)
      invariant |ret| == gi && forall i :: 0 <= i < gi ==> ret[i] == Substitute(groups[i], sub, |sub|)
    {
      var newg := groups[gi];
      for idx := 0 to |sub|
        invariant forall i :: 0 <= i < idx ==> sub[i].Some?
        invariant newg == Substitute(groups[gi], sub, idx)
      {
        if sub[idx].None? {
          return Raised;
        }
        newg := Replace(newg, Placeholder(idx + 1), sub[idx].value);
      }
      ret := ret + [newg];
    }
    return Matched(ret);
  }

  /** A group name without `$` comes out unchanged. */
  lemma {:induction false} SubstituteNoDollar(g: string, sub: seq<Option<string>>, k: nat)
    requires k <= |sub| && forall i :: 0 <= i < k ==> sub[i].Some?
    requires '$' !in g
    ensures Substitute(g, sub, k) == g
  {
    if k > 0 {
      SubstituteNoDollar(g, sub, k - 1);
      ReplaceAbsent(g, Placeholder(k), sub[k - 1].value);
    }
  }

  /** A regex pattern yields no match exactly when the search fails; it
      raises exactly when some capture is missing and there are groups;
      otherwise it yields one name per group, in order, each rewritten by
      the captures, and a name without `$` as it was. */
  lemma ProcessReShape(groups: seq<string>, m: Option<seq<Option<string>>>)
    ensures var r := ProcessReSpec(groups, m);
      && (r == NoMatch <==> m.None?)
      && (r == Raised <==> m.Some? && groups != [] && !AllPresent(m.value))
      && (r.Matched? ==> |r.groups| == |groups|)
      && (r.Matched? ==> forall i :: 0 <= i < |groups| && '$' !in groups[i] ==> r.groups[i] == groups[i])
  {
    var r := ProcessReSpec(groups, m);
    if r.Matched? && groups != [] {
      forall i | 0 <= i < |groups| && '$' !in groups[i]
        ensures r.groups[i] == groups[i]
      {
        SubstituteNoDollar(groups[i], m.value, |m.value|);
      }
    }
  }

  /** `pattern.process(name)`: the regex or the range matcher. */
  function Process(pm: PatternMap, name: string, re: RegexEngine): Outcome
    requires WellFormed(pm)
  {
    match pm.matcher
    case ReMatcher(p) => ProcessReSpec(pm.groups, re.search(p, name))
    case RangeMatcher(_, _, _) => ProcessRange(pm, name)
  }

  /** `pattern.process(name)` as the pattern file calls it. */
  method ProcessOne(pm: PatternMap, name: string, re: RegexEngine) returns (r: Outcome)
    requires WellFormed(pm)
    ensures r == Process(pm, name, re)
  {
    if pm.matcher.ReMatcher? {
      r := ProcessRe(pm.groups, re.search(pm.matcher.pattern, name));
    } else {
      r := ProcessRange(pm, name);
    }
  }

  // ---------------------------------------------------------------------
  // PatternFile

  /** A `GroupPattern` element of `config.xml`: the texts of its `Group`,
      `NamePattern` and `NameRange` children (`None` for an empty
      element). */
  datatype GroupPatternElement = GroupPatternElement(
    groups: seq<string>,
    namePatterns: seq<Option<string>>,
    nameRanges: seq<Option<string>>)

  /** The constructor arguments of the element's pattern maps: its name
      patterns first, then its name ranges. */
  function Sources(e: GroupPatternElement): (r: seq<(Option<string>, Option<string>)>)
    ensures |r| == |e.namePatterns| + |e.nameRanges|
    ensures forall i :: 0 <= i < |e.namePatterns| ==> r[i] == (e.namePatterns[i], None)
    ensures forall i :: 0 <= i < |e.nameRanges| ==> r[|e.namePatterns| + i] == (None, e.nameRanges[i])
  {
    seq(|e.namePatterns|, i requires 0 <= i < |e.namePatterns| => (e.namePatterns[i], None))
    + seq(|e.nameRanges|, i requires 0 <= i < |e.nameRanges| => (None, e.nameRanges[i]))
  }

  /** Pattern maps built in order until the first constructor that raises;
      the exception abandons the rest of the element. */
  function BuildUntilFailure(srcs: seq<(Option<string>, Option<string>)>, groups: seq<string>, re: RegexEngine): seq<PatternMap>
  {
    if srcs == [] then []
    else match NewPatternMap(srcs[0].0, srcs[0].1, groups, re)
      case Failure(_) => []
      case Success(pm) => [pm] + BuildUntilFailure(srcs[1..], groups, re)
  }

  /** What one element contributes to `patterns`. */
  function ElementPatterns(e: GroupPatternElement, re: RegexEngine): seq<PatternMap> {
    BuildUntilFailure(Sources(e), e.groups, re)
  }

  /** `patterns` after `Index`: the contributions of the elements in
      document order. */
  function IndexSpec(doc: seq<GroupPatternElement>, re: RegexEngine): seq<PatternMap>
  {
    if doc == [] then [] else IndexSpec(doc[..|doc| - 1], re) + ElementPatterns(doc[|doc| - 1], re)
  }

  /** Indexing a document made of two parts indexes each in turn. */
  lemma {:induction false} IndexSpecConcat(d1: seq<GroupPatternElement>, d2: seq<GroupPatternElement>, re: RegexEngine)
    ensures IndexSpec(d1 + d2, re) == IndexSpec(d1, re) + IndexSpec(d2, re)
  {
    if d2 != [] {
      var init := d2[..|d2| - 1];
      IndexSpecConcat(d1, init, re);
      assert (d1 + d2)[..|d1 + d2| - 1] == d1 + init;
    } else {
      assert d1 + d2 == d1;
    }
  }

  /** Every pattern map built is well formed and carries the element's
      groups; when no constructor raises, the element yields one map per
      source, in order. */
  lemma {:induction false} BuildUntilFailureSpec(srcs: seq<(Option<string>, Option<string>)>, groups: seq<string>, re: RegexEngine)
    ensures var r := BuildUntilFailure(srcs, groups, re);
      && |r| <= |srcs|
      && (forall i :: 0 <= i < |r| ==> WellFormed(r[i]) && r[i].groups == groups)
      && (forall i :: 0 <= i < |r| ==> Success(r[i]) == NewPatternMap(srcs[i].0, srcs[i].1, groups, re))
      && ((forall i :: 0 <= i < |srcs| ==> NewPatternMap(srcs[i].0, srcs[i].1, groups, re).Success?) ==> |r| == |srcs|)
  {
    if srcs != [] {
      BuildUntilFailureSpec(srcs[1..], groups, re);
      var r := BuildUntilFailure(srcs, groups, re);
      if NewPatternMap(srcs[0].0, srcs[0].1, groups, re).Success? {
        forall i | 0 < i < |r|
          ensures r[i] == BuildUntilFailure(srcs[1..], groups, re)[i - 1] && srcs[i] == srcs[1..][i - 1]
        {
        }
        if forall i :: 0 <= i < |srcs| ==> NewPatternMap(srcs[i].0, srcs[i].1, groups, re).Success? {
          forall i | 0 <= i < |srcs[1..]|
            ensures NewPatternMap(srcs[1..][i].0, srcs[1..][i].1, groups, re).Success?
          {
            assert srcs[1..][i] == srcs[i + 1];
          }
        }
      }
    }
  }

  /** Every indexed pattern map is well formed and shares the groups of
      the element it came from. */
  lemma {:induction false} IndexSpecGroups(doc: seq<GroupPatternElement>, re: RegexEngine)
    ensures forall i :: 0 <= i < |IndexSpec(doc, re)| ==>
      WellFormed(IndexSpec(doc, re)[i]) && exists e :: e in doc && IndexSpec(doc, re)[i].groups == e.groups
  {
    if doc != [] {
      var init := doc[..|doc| - 1];
      var last := doc[|doc| - 1];
      IndexSpecGroups(init, re);
      BuildUntilFailureSpec(Sources(last), last.groups, re);
      var a, b := IndexSpec(init, re), ElementPatterns(last, re);
      forall i | 0 <= i < |a + b|
        ensures WellFormed((a + b)[i]) && exists e :: e in doc && (a + b)[i].groups == e.groups
      {
        if i < |a| {
          var e :| e in init && a[i].groups == e.groups;
          assert e in doc;
        } else {
          assert (a + b)[i] == b[i - |a|];
          assert last in doc;
        }
      }
    }
  }

  /** `process_patterns(hostname)` over a list of pattern maps: the groups
      of every pattern that matched, concatenated in pattern order;
      patterns that match nothing or raise add nothing. */
  function Combined(pms: seq<PatternMap>, name: string, re: RegexEngine): seq<string>
    requires forall i :: 0 <= i < |pms| ==> WellFormed(pms[i])
  {
    if pms == [] then []
    else
      Combined(pms[..|pms| - 1], name, re)
      + (match Process(pms[|pms| - 1], name, re) case Matched(g) => g case _ => [])
  }

  /** A group is added exactly when some pattern matched and listed it. */
  lemma {:induction false} CombinedMember(pms: seq<PatternMap>, name: string, re: RegexEngine, x: string)
    requires forall i :: 0 <= i < |pms| ==> WellFormed(pms[i])
    ensures x in Combined(pms, name, re) <==>
      exists i :: 0 <= i < |pms| && Process(pms[i], name, re).Matched? && x in Process(pms[i], name, re).groups
  {
    if pms != [] {
      var init := pms[..|pms| - 1];
      CombinedMember(init, name, re, x);
      if exists i :: 0 <= i < |pms| && Process(pms[i], name, re).Matched? && x in Process(pms[i], name, re).groups {
        var i :| 0 <= i < |pms| && Process(pms[i], name, re).Matched? && x in Process(pms[i], name, re).groups;
        if i < |init| {
          assert init[i] == pms[i];
        }
      }
      if x in Combined(init, name, re) {
        var i :| 0 <= i < |init| && Process(init[i], name, re).Matched? && x in Process(init[i], name, re).groups;
        assert init[i] == pms[i];
      }
    }
  }

  /** Processing two lists of patterns one after the other concatenates
      their results. */
  lemma {:induction false} CombinedConcat(p1: seq<PatternMap>, p2: seq<PatternMap>, name: string, re: RegexEngine)
    requires forall i :: 0 <= i < |p1| ==> WellFormed(p1[i])
    requires forall i :: 0 <= i < |p2| ==> WellFormed(p2[i])
    ensures forall i :: 0 <= i < |p1 + p2| ==> WellFormed((p1 + p2)[i])
    ensures Combined(p1 + p2, name, re) == Combined(p1, name, re) + Combined(p2, name, re)
  {
    assert forall i :: 0 <= i < |p1 + p2| ==> WellFormed((p1 + p2)[i]) by {
      forall i | 0 <= i < |p1 + p2|
        ensures WellFormed((p1 + p2)[i])
      {
        if i >= |p1| {
          assert (p1 + p2)[i] == p2[i - |p1|];
        }
      }
    }
    if p2 != [] {
      var init := p2[..|p2| - 1];
      CombinedConcat(p1, init, name, re);
      assert (p1 + p2)[..|p1 + p2| - 1] == p1 + init;
    } else {
      assert p1 + p2 == p1;
    }
  }

  /** The parsed `config.xml` of GroupPatterns. */
  class PatternFile {
    var patterns: seq<PatternMap>

    ghost predicate Valid()
      reads this
    {
      forall i :: 0 <= i < |patterns| ==> WellFormed(patterns[i])
    }

    constructor ()
      ensures Valid() && patterns == []
    {
      patterns := [];
    }

    /** `Index()` over the parsed document: rebuild `patterns` element by
        element; an element whose pattern map raises keeps the maps built
        before it and loses the rest. */
    method Index(doc: seq<GroupPatternElement>, re: RegexEngine)
      modifies this
      ensures Valid()
      ensures patterns == IndexSpec(doc, re)
    {
      patterns := [];
      for i := 0 to |doc|
        invariant patterns == IndexSpec(doc[..i], re)
      {
        assert doc[..i + 1][..i] == doc[..i];
        var e := doc[i];
        var srcs := Sources(e);
        ghost var before := patterns;
        ghost var built: seq<PatternMap> := [];
        var j := 0;
        while j < |srcs|
          invariant 0 <= j <= |srcs|
          invariant patterns == before + built
          invariant ElementPatterns(e, re) == built + BuildUntilFailure(srcs[j..], e.groups, re)
        {
          var r := NewPatternMap(srcs[j].0, srcs[j].1, e.groups, re);
          if r.Failure? {
            break;
          }
          assert srcs[j..][1..] == srcs[j + 1..];
          patterns := patterns + [r.value];
          built := built + [r.value];
          j := j + 1;
        }
      }
      assert doc[..|doc|] == doc;
      IndexSpecGroups(doc, re);
    }

    /** `process_patterns(hostname)`. */
    method ProcessPatterns(hostname: string, re: RegexEngine) returns (ret: seq<string>)
      requires Valid()
      ensures ret == Combined(patterns, hostname, re)
    {
      ret := [];
      for i := 0 to |patterns|
        invariant ret == Combined(patterns[..i], hostname, re)
      {
        assert patterns[..i + 1][..i] == patterns[..i];
        var grpname := ProcessOne(patterns[i], hostname, re);
        if grpname.Matched? {
          ret := ret + grpname.groups;
        }
      }
      assert patterns[..|patterns|] == patterns;
    }
  }
}
