/** The Cfg filename grammar: which handler class claims a file, what the
    match captures, which files a class ignores, and the inverse formatter
    used to name pulled files.

    A handler class builds the regular expression
      ^(?P<basename>b1|b2|...)(|\.H_(?P<hostname>\S+?)|\.G(?P<prio>\d+)_(?P<group>\S+?))(\.(?P<extension>e1|e2|...))$
    where the specificity group is present only for specific classes and
    the extension group only for classes with extensions. Basenames and
    extensions are spliced in unescaped; this model reads them as literal
    text. The matcher below follows the regular-expression engine's search
    order, so that what it captures is what the engine captures. */
module CfgGrammar {

  import opened Wrappers
  import opened Strings
  import opened Specificity

  /** The four handler roles: the base class a handler class derives from. */
  datatype Role = CfgGenerator | CfgFilter | CfgInfo | CfgVerifier

  /** The class attributes of a Cfg handler class. */
  datatype HandlerClass = HandlerClass(
    name: string,            // the class name (`__class__.__name__`)
    role: Role,
    basenames: seq<string>,  // `__basenames__`
    extensions: seq<string>, // `__extensions__`
    ignore: seq<string>,     // `__ignore__`
    specific: bool,          // `__specific__`
    deprecated: bool)

  /** What the specificity group captured. */
  datatype Token = NoToken | HostToken(hostname: string) | GroupToken(prio: string, group: string)

  /** A successful match: the named groups `basename`, `hostname`/`prio`/
      `group` and `extension`. */
  datatype FileMatch = FileMatch(basename: string, token: Token, extension: Option<string>)

  // ---------------------------------------------------------------------
  // The matcher

  /** `$` without MULTILINE: at the end, or before one final newline. */
  predicate AtEnd(t: string) {
    t == "" || t == "\n"
  }

  /** `\.(?P<extension>e1|e2|...)$` on the rest `t`: the first alternative
      after which `$` matches. */
  function MatchExtension(exts: seq<string>, t: string): (r: Option<string>)
  {
    if exts == [] then None
    else if t == "." + exts[0] || t == "." + exts[0] + "\n" then Some(exts[0])
    else MatchExtension(exts[1..], t)
  }

  /** Everything after the specificity group: the extension group (only
      when the class has extensions) and `$`. `Some(e)` is a match whose
      extension group captured `e`. */
  function MatchTail(cls: HandlerClass, t: string): Option<Option<string>>
  {
    if cls.extensions == [] then (if AtEnd(t) then Some(None) else None)
    else match MatchExtension(cls.extensions, t)
      case Some(e) => Some(Some(e))
      case None => None
  }

  /** `\S+?` followed by the tail, tried lazily: the shortest run of at
      least `k` non-space characters after which the tail matches. */
  function Lazy(cls: HandlerClass, t: string, k: nat): Option<(string, Option<string>)>
    requires 1 <= k
    decreases |t| - k
  {
    if k > |t| || IsSpace(t[k - 1]) then None
    else match MatchTail(cls, t[k..])
      case Some(e) => Some((t[..k], e))
      case None => Lazy(cls, t, k + 1)
  }

  /** The specificity group and the tail, alternatives in pattern order:
      nothing, then `.H_<hostname>`, then `.G<prio>_<group>`. */
  function MatchSpecific(cls: HandlerClass, r: string): Option<(Token, Option<string>)>
  {
    match MatchTail(cls, r)
    case Some(e) => Some((NoToken, e))
    case None =>
      if StartsWith(r, ".H_") then MatchHost(cls, r[3..])
      else if StartsWith(r, ".G") then MatchGroup(cls, r[2..])
      else None
  }

  /** `(?P<hostname>\S+?)` and the tail, after `.H_`. */
  function MatchHost(cls: HandlerClass, t: string): Option<(Token, Option<string>)>
  {
    match Lazy(cls, t, 1)
    case Some((h, e)) => Some((HostToken(h), e))
    case None => None
  }

  /** `(?P<prio>\d+)_(?P<group>\S+?)` and the tail, after `.G`. */
  function MatchGroup(cls: HandlerClass, t: string): Option<(Token, Option<string>)>
  {
    var d := DigitRun(t);
    if d > 0 && d < |t| && t[d] == '_' then
      match Lazy(cls, t[d + 1..], 1)
      case Some((g, e)) => Some((GroupToken(t[..d], g), e))
      case None => None
    else None
  }

  /** Everything after the basename. */
  function MatchRest(cls: HandlerClass, r: string): Option<(Token, Option<string>)>
  {
    if cls.specific then MatchSpecific(cls, r)
    else match MatchTail(cls, r)
      case Some(e) => Some((NoToken, e))
      case None => None
  }

  /** The basename alternatives: `'|'.join([])` is the empty pattern. */
  function Alternatives(basenames: seq<string>): (alts: seq<string>)
    ensures |alts| > 0
  {
    if basenames == [] then [""] else basenames
  }

  /** The first alternative, in order, after which the rest matches. */
  function MatchFrom(cls: HandlerClass, alts: seq<string>, s: string): Option<FileMatch>
  {
    if alts == [] then None
    else if StartsWith(s, alts[0]) && MatchRest(cls, s[|alts[0]|..]).Some? then
      var (tok, ext) := MatchRest(cls, s[|alts[0]|..]).value;
      Some(FileMatch(alts[0], tok, ext))
    else MatchFrom(cls, alts[1..], s)
  }

  /** `cls.get_regex(basenames).match(s)`. */
  function MatchFilename(cls: HandlerClass, basenames: seq<string>, s: string): Option<FileMatch>
  {
    MatchFrom(cls, Alternatives(basenames), s)
  }

  /** `cls.handles(event, basename=path)`: the class's own basenames, or
      the last component of the entry set's directory. */
  function Handles(cls: HandlerClass, filename: string, path: string): bool
  {
    MatchFilename(cls, if cls.basenames != [] then cls.basenames else [PathBasename(path)], filename).Some?
  }

  /** `cls.ignore(event)`: the filename ends with `.e` for an `e` in
      `__ignore__`. */
  function Ignores(cls: HandlerClass, filename: string): (r: bool)
    ensures r <==> exists j :: 0 <= j < |cls.ignore| && EndsWith(filename, "." + cls.ignore[j])
  {
    AnySuffix(filename, cls.ignore)
  }

  function AnySuffix(filename: string, exts: seq<string>): (r: bool)
    ensures r <==> exists j :: 0 <= j < |exts| && EndsWith(filename, "." + exts[j])
  {
    if exts == [] then false
    else EndsWith(filename, "." + exts[0]) || AnySuffix(filename, exts[1..])
  }

  // ---------------------------------------------------------------------
  // The grammar, stated declaratively

  /** The text of a captured specificity token. */
  function TokenText(t: Token): string {
    match t
    case NoToken => ""
    case HostToken(h) => ".H_" + h
    case GroupToken(p, g) => ".G" + p + "_" + g
  }

  function ExtensionText(e: Option<string>): string {
    match e
    case None => ""
    case Some(x) => "." + x
  }

  /** A well-formed specificity token: nothing, `.H_` and a non-empty
      non-space hostname, or `.G`, digits, `_` and a non-empty non-space
      group. */
  ghost predicate TokenWellFormed(t: Token) {
    match t
    case NoToken => true
    case HostToken(h) => |h| > 0 && NonSpace(h)
    case GroupToken(p, g) => |p| > 0 && AllDigits(p) && |g| > 0 && NonSpace(g)
  }

  /** What may follow the specificity token: `.e` for one of the class's
      extensions (nothing when it has none), then at most one newline. */
  ghost predicate TailInLanguage(cls: HandlerClass, t: string) {
    if cls.extensions == [] then AtEnd(t)
    else exists j :: 0 <= j < |cls.extensions| && (t == "." + cls.extensions[j] || t == "." + cls.extensions[j] + "\n")
  }

  /** What may follow the basename. */
  ghost predicate RestInLanguage(cls: HandlerClass, r: string) {
    if cls.specific then
      exists tok: Token :: TokenWellFormed(tok) && StartsWith(r, TokenText(tok)) && TailInLanguage(cls, r[|TokenText(tok)|..])
    else TailInLanguage(cls, r)
  }

  /** The language of `get_regex(basenames)`: one of the basenames, then (if
      the class is specific) a well-formed token, then the tail. */
  ghost predicate InLanguage(cls: HandlerClass, basenames: seq<string>, s: string) {
    var alts := Alternatives(basenames);
    exists i :: 0 <= i < |alts| && StartsWith(s, alts[i]) && RestInLanguage(cls, s[|alts[i]|..])
  }

  // ---------------------------------------------------------------------
  // The matcher accepts exactly the grammar

  lemma {:induction false} MatchExtensionIff(exts: seq<string>, t: string)
    ensures MatchExtension(exts, t).Some? <==> exists j :: 0 <= j < |exts| && (t == "." + exts[j] || t == "." + exts[j] + "\n")
    ensures MatchExtension(exts, t).Some? ==>
      var e := MatchExtension(exts, t).value; e in exts && (t == "." + e || t == "." + e + "\n")
  {
    if exts != [] {
      MatchExtensionIff(exts[1..], t);
      if t != "." + exts[0] && t != "." + exts[0] + "\n" {
        forall j | 0 <= j < |exts| && (t == "." + exts[j] || t == "." + exts[j] + "\n")
          ensures 0 <= j - 1 < |exts[1..]| && (t == "." + exts[1..][j - 1] || t == "." + exts[1..][j - 1] + "\n")
        {
        }
      }
    }
  }

  /** The tail matcher decides the tail language, and a match reassembles
      the tail. */
  lemma MatchTailIff(cls: HandlerClass, t: string)
    ensures MatchTail(cls, t).Some? <==> TailInLanguage(cls, t)
    ensures MatchTail(cls, t).Some? ==>
      var e := MatchTail(cls, t).value;
      (e.Some? <==> cls.extensions != []) && (e.Some? ==> e.value in cls.extensions)
      && (t == ExtensionText(e) || t == ExtensionText(e) + "\n")
  {
    MatchExtensionIff(cls.extensions, t);
  }

  /** What the lazy run returns is a non-space prefix of length at least
      `k`, after which the tail matches. */
  lemma {:induction false} LazySound(cls: HandlerClass, t: string, k: nat)
    requires 1 <= k && k - 1 <= |t| && NonSpace(t[..k - 1])
    requires Lazy(cls, t, k).Some?
    ensures var (h, e) := Lazy(cls, t, k).value;
      k <= |h| <= |t| && h == t[..|h|] && NonSpace(h) && MatchTail(cls, t[|h|..]) == Some(e)
    decreases |t| - k
  {
    assert t[..k] == t[..k - 1] + [t[k - 1]];
    if MatchTail(cls, t[k..]).None? {
      LazySound(cls, t, k + 1);
    }
  }

  /** The lazy run finds something whenever some non-space prefix of length
      at least `k` is followed by a matching tail. */
  lemma {:induction false} LazyComplete(cls: HandlerClass, t: string, k: nat, n: nat)
    requires 1 <= k <= n <= |t| && NonSpace(t[..n]) && MatchTail(cls, t[n..]).Some?
    ensures Lazy(cls, t, k).Some?
    decreases n - k
  {
    assert t[..n][k - 1] == t[k - 1];
    if k < n && MatchTail(cls, t[k..]).None? {
      LazyComplete(cls, t, k + 1, n);
    }
  }


  lemma {:induction false} DigitRunExact(t: string, n: nat)
    requires n < |t| && AllDigits(t[..n]) && !IsDigit(t[n])
    ensures DigitRun(t) == n
  {
    if n > 0 {
      assert t[1..][..n - 1] == t[..n][1..];
      DigitRunExact(t[1..], n - 1);
    }
  }

  lemma PrefixExtend(a: string, t: string, h: string)
    requires StartsWith(t, h)
    ensures StartsWith(a + t, a + h) && (a + t)[|a + h|..] == t[|h|..]
  {
    assert (a + t)[..|a + h|] == a + t[..|h|];
  }

  lemma PrefixSplit(r: string, a: string, h: string)
    requires StartsWith(r, a + h)
    ensures StartsWith(r, a) && StartsWith(r[|a|..], h) && r[|a|..][|h|..] == r[|a + h|..]
  {
    assert r[..|a|] == r[..|a + h|][..|a|];
    assert r[|a|..][..|h|] == r[..|a + h|][|a|..];
  }

  lemma MatchHostSound(cls: HandlerClass, t: string)
    requires MatchHost(cls, t).Some?
    ensures var (tok, e) := MatchHost(cls, t).value;
      tok.HostToken? && TokenWellFormed(tok) && StartsWith(t, tok.hostname)
      && MatchTail(cls, t[|tok.hostname|..]) == Some(e)
  {
    LazySound(cls, t, 1);
  }

  lemma MatchGroupSound(cls: HandlerClass, t: string)
    requires MatchGroup(cls, t).Some?
    ensures var (tok, e) := MatchGroup(cls, t).value;
      tok.GroupToken? && TokenWellFormed(tok) && StartsWith(t, tok.prio + "_" + tok.group)
      && MatchTail(cls, t[|tok.prio + "_" + tok.group|..]) == Some(e)
  {
    var d := DigitRun(t);
    LazySound(cls, t[d + 1..], 1);
    var g := MatchGroup(cls, t).value.0.group;
    assert t == t[..d] + "_" + t[d + 1..];
    PrefixExtend(t[..d] + "_", t[d + 1..], g);
  }

  /** What the specificity matcher captures is a well-formed token followed
      by a tail that matches. */
  lemma MatchSpecificSound(cls: HandlerClass, r: string)
    requires MatchSpecific(cls, r).Some?
    ensures var (tok, e) := MatchSpecific(cls, r).value;
      TokenWellFormed(tok) && StartsWith(r, TokenText(tok))
      && MatchTail(cls, r[|TokenText(tok)|..]) == Some(e)
  {
    if MatchTail(cls, r).None? {
      if StartsWith(r, ".H_") {
        MatchHostSound(cls, r[3..]);
        var h := MatchHost(cls, r[3..]).value.0.hostname;
        assert r == ".H_" + r[3..];
        PrefixExtend(".H_", r[3..], h);
      } else {
        MatchGroupSound(cls, r[2..]);
        var tok := MatchGroup(cls, r[2..]).value.0;
        assert r == ".G" + r[2..];
        PrefixExtend(".G", r[2..], tok.prio + "_" + tok.group);
        assert ".G" + (tok.prio + "_" + tok.group) == TokenText(tok);
      }
    }
  }

  lemma MatchHostComplete(cls: HandlerClass, t: string, h: string)
    requires |h| > 0 && NonSpace(h) && StartsWith(t, h) && MatchTail(cls, t[|h|..]).Some?
    ensures MatchHost(cls, t).Some?
  {
    LazyComplete(cls, t, 1, |h|);
  }

  lemma MatchGroupComplete(cls: HandlerClass, t: string, p: string, g: string)
    requires |p| > 0 && AllDigits(p) && |g| > 0 && NonSpace(g)
    requires StartsWith(t, p + "_" + g) && MatchTail(cls, t[|p + "_" + g|..]).Some?
    ensures MatchGroup(cls, t).Some?
  {
    PrefixSplit(t, p + "_", g);
    PrefixSplit(t, p, "_");
    assert t[..|p|] == p;
    assert t[|p|] == '_';
    DigitRunExact(t, |p|);
    LazyComplete(cls, t[|p| + 1..], 1, |g|);
  }

  /** Every well-formed token followed by a valid tail is found by the
      specificity matcher. */
  lemma MatchSpecificComplete(cls: HandlerClass, r: string, tok: Token)
    requires TokenWellFormed(tok) && StartsWith(r, TokenText(tok)) && TailInLanguage(cls, r[|TokenText(tok)|..])
    ensures MatchSpecific(cls, r).Some?
  {
    MatchTailIff(cls, r[|TokenText(tok)|..]);
    match tok
    case NoToken =>
    case HostToken(h) =>
      if MatchTail(cls, r).None? {
        PrefixSplit(r, ".H_", h);
        MatchHostComplete(cls, r[3..], h);
      }
    case GroupToken(p, g) =>
      if MatchTail(cls, r).None? {
        assert TokenText(tok) == ".G" + (p + "_" + g);
        PrefixSplit(r, ".G", p + "_" + g);
        assert !StartsWith(r, ".H_") by {
          assert r[..|TokenText(tok)|][1] == r[1];
        }
        MatchGroupComplete(cls, r[2..], p, g);
      }
  }

  lemma MatchRestIff(cls: HandlerClass, r: string)
    ensures MatchRest(cls, r).Some? <==> RestInLanguage(cls, r)
  {
    MatchTailIff(cls, r);
    if cls.specific {
      if MatchRest(cls, r).Some? {
        MatchSpecificSound(cls, r);
        var (tok, e) := MatchSpecific(cls, r).value;
        MatchTailIff(cls, r[|TokenText(tok)|..]);
      }
      if RestInLanguage(cls, r) {
        var tok: Token :| TokenWellFormed(tok) && StartsWith(r, TokenText(tok)) && TailInLanguage(cls, r[|TokenText(tok)|..]);
        MatchSpecificComplete(cls, r, tok);
      }
    }
  }

  lemma {:induction false} MatchFromIff(cls: HandlerClass, alts: seq<string>, s: string)
    ensures MatchFrom(cls, alts, s).Some? <==>
      exists i :: 0 <= i < |alts| && StartsWith(s, alts[i]) && RestInLanguage(cls, s[|alts[i]|..])
  {
    if alts != [] {
      if StartsWith(s, alts[0]) {
        MatchRestIff(cls, s[|alts[0]|..]);
      }
      MatchFromIff(cls, alts[1..], s);
      if MatchFrom(cls, alts, s).None? {
        forall i | 0 <= i < |alts| && StartsWith(s, alts[i])
          ensures !RestInLanguage(cls, s[|alts[i]|..])
        {
          if i > 0 {
            assert alts[1..][i - 1] == alts[i];
          }
        }
      }
    }
  }

  /** `get_regex(basenames).match(s)` succeeds exactly for the filenames
      of the grammar: a basename, then, only for a specific class, nothing,
      `.H_<host>` or `.G<digits>_<group>`, then, only for a class with
      extensions, `.<ext>` with `ext` among them, then the end (or one
      final newline). */
  lemma MatchFilenameIff(cls: HandlerClass, basenames: seq<string>, s: string)
    ensures MatchFilename(cls, basenames, s).Some? <==> InLanguage(cls, basenames, s)
  {
    MatchFromIff(cls, Alternatives(basenames), s);
  }

  /** What follows the basename, reassembled from the captured token and
      extension. */
  ghost predicate RestReassembles(cls: HandlerClass, r: string, tok: Token, e: Option<string>) {
    && TokenWellFormed(tok) && (!cls.specific ==> tok == NoToken)
    && (e.Some? <==> cls.extensions != []) && (e.Some? ==> e.value in cls.extensions)
    && (r == TokenText(tok) + ExtensionText(e) || r == TokenText(tok) + ExtensionText(e) + "\n")
  }

  lemma MatchRestSound(cls: HandlerClass, r: string)
    requires MatchRest(cls, r).Some?
    ensures RestReassembles(cls, r, MatchRest(cls, r).value.0, MatchRest(cls, r).value.1)
  {
    var (tok, e) := MatchRest(cls, r).value;
    if cls.specific {
      MatchSpecificSound(cls, r);
      var rest := r[|TokenText(tok)|..];
      MatchTailIff(cls, rest);
      assert r == TokenText(tok) + rest;
    } else {
      MatchTailIff(cls, r);
    }
  }

  /** A match that reassembles the filename from its captures: the
      basename is one of the alternatives, the token is well formed (and
      absent for a non-specific class), the extension is one of the
      class's (present exactly when the class has extensions), and nothing
      but one newline is left over. */
  ghost predicate Reassembles(cls: HandlerClass, alts: seq<string>, s: string, m: FileMatch) {
    && m.basename in alts
    && TokenWellFormed(m.token)
    && (!cls.specific ==> m.token == NoToken)
    && (m.extension.Some? <==> cls.extensions != [])
    && (m.extension.Some? ==> m.extension.value in cls.extensions)
    && var text := m.basename + TokenText(m.token) + ExtensionText(m.extension);
       (s == text || s == text + "\n")
  }

  lemma ReassembleConcat(cls: HandlerClass, alts: seq<string>, b: string, r: string, tok: Token, e: Option<string>)
    requires b in alts && RestReassembles(cls, r, tok, e)
    ensures Reassembles(cls, alts, b + r, FileMatch(b, tok, e))
  {
    var body := TokenText(tok) + ExtensionText(e);
    assert b + TokenText(tok) + ExtensionText(e) == b + body;
    assert b + body + "\n" == b + (body + "\n");
  }

  lemma MatchFromHeadSound(cls: HandlerClass, alts: seq<string>, s: string)
    requires alts != [] && StartsWith(s, alts[0]) && MatchRest(cls, s[|alts[0]|..]).Some?
    ensures Reassembles(cls, alts, s, MatchFrom(cls, alts, s).value)
  {
    var r := s[|alts[0]|..];
    MatchRestSound(cls, r);
    var (tok, e) := MatchRest(cls, r).value;
    assert s == alts[0] + r;
    ReassembleConcat(cls, alts, alts[0], r, tok, e);
  }

  /** Every match the matcher returns reassembles the filename. */
  lemma {:induction false} MatchFromSound(cls: HandlerClass, alts: seq<string>, s: string)
    requires MatchFrom(cls, alts, s).Some?
    ensures Reassembles(cls, alts, s, MatchFrom(cls, alts, s).value)
  {
    if StartsWith(s, alts[0]) && MatchRest(cls, s[|alts[0]|..]).Some? {
      MatchFromHeadSound(cls, alts, s);
    } else {
      MatchFromSound(cls, alts[1..], s);
    }
  }

  // ---------------------------------------------------------------------
  // Specificity from a match, and the inverse formatter

  /** The specificity a match describes: host if a hostname was captured,
      else group with `int(prio)`, else every client. */
  function SpecificityOf(t: Token): Specificity
    requires t.GroupToken? ==> AllDigits(t.prio)
  {
    match t
    case NoToken => All
    case HostToken(h) => Host(h)
    case GroupToken(p, g) => Group(g, ParseDigits(p))
  }

  /** The specificity of a file, read from its name with
      `get_regex([basename])`; `None` where the name does not match. */
  function SpecificityFromFilename(cls: HandlerClass, basename: string, filename: string): Option<Specificity>
  {
    var m := MatchFilename(cls, [basename], filename);
    if m.None? then None
    else
      MatchFromSound(cls, Alternatives([basename]), filename);
      Some(SpecificityOf(m.value.token))
  }

  /** The suffix `build_filename` writes after the basename; `None` where
      it falls through all three branches (an empty group or host name is
      false in Python). */
  function SpecificitySuffix(spec: Specificity): Option<string> {
    match spec
    case All => Some("")
    case Group(g, prio) => if g != "" then Some(".G" + Format02(prio) + "_" + g) else None
    case Host(h) => if h != "" then Some(".H_" + h) else None
  }

  /** `CfgEntrySet.build_filename(specific)`: the entry set's directory,
      `/`, its last component, and the specificity suffix. */
  function BuildFilename(path: string, spec: Specificity): Option<string> {
    var parts := Split(path, '/');
    var bfname := path + "/" + parts[|parts| - 1];
    match SpecificitySuffix(spec)
    case Some(suffix) => Some(bfname + suffix)
    case None => None
  }

  /** The names that `build_filename` can write in a form the grammar reads
      back: non-empty, without whitespace or `/`, and a priority that
      prints as digits. */
  ghost predicate Writable(spec: Specificity) {
    match spec
    case All => true
    case Group(g, prio) => |g| > 0 && NonSpace(g) && '/' !in g && prio >= 0
    case Host(h) => |h| > 0 && NonSpace(h) && '/' !in h
  }

  lemma {:induction false} LazyWhole(cls: HandlerClass, t: string, k: nat)
    requires cls.extensions == [] && NonSpace(t) && 1 <= k <= |t|
    ensures Lazy(cls, t, k) == Some((t, None))
    decreases |t| - k
  {
    if k < |t| {
      assert !IsSpace(t[k]);
      assert !AtEnd(t[k..]);
      LazyWhole(cls, t, k + 1);
    } else {
      assert t[..k] == t;
    }
  }

  lemma HostSuffixRoundTrip(cls: HandlerClass, h: string)
    requires cls.specific && cls.extensions == [] && |h| > 0 && NonSpace(h)
    ensures MatchRest(cls, ".H_" + h) == Some((HostToken(h), None))
  {
    var suffix := ".H_" + h;
    assert !AtEnd(suffix);
    assert suffix[3..] == h;
    LazyWhole(cls, h, 1);
  }

  lemma GroupSuffixRoundTrip(cls: HandlerClass, p: string, g: string)
    requires cls.specific && cls.extensions == [] && |p| > 0 && AllDigits(p) && |g| > 0 && NonSpace(g)
    ensures MatchRest(cls, ".G" + p + "_" + g) == Some((GroupToken(p, g), None))
  {
    var t := p + "_" + g;
    var suffix := ".G" + p + "_" + g;
    assert suffix == ".G" + t;
    assert !AtEnd(suffix);
    assert !StartsWith(suffix, ".H_") by {
      assert suffix[1] == 'G';
    }
    assert suffix[2..] == t;
    assert t[..|p|] == p;
    DigitRunExact(t, |p|);
    assert t[|p| + 1..] == g;
    LazyWhole(cls, g, 1);
  }

  /** The suffix written for a writable specificity is read back, by a
      specific extension-less class, as that specificity. */
  lemma SuffixRoundTrip(cls: HandlerClass, spec: Specificity)
    requires cls.specific && cls.extensions == [] && Writable(spec)
    ensures SpecificitySuffix(spec).Some? && '/' !in SpecificitySuffix(spec).value
    ensures var m := MatchRest(cls, SpecificitySuffix(spec).value);
      m.Some? && m.value.1 == None
      && (m.value.0.GroupToken? ==> AllDigits(m.value.0.prio))
      && SpecificityOf(m.value.0) == spec
  {
    match spec
    case All =>
    case Host(h) =>
      HostSuffixRoundTrip(cls, h);
    case Group(g, prio) =>
      var p := Format02(prio);
      GroupSuffixRoundTrip(cls, p, g);
      ParseFormat02(prio);
      assert '/' !in p by {
        assert forall i :: 0 <= i < |p| ==> IsDigit(p[i]);
      }
  }

  /** The last component of what `build_filename` writes is the entry
      set's basename followed by the suffix. */
  lemma BuildFilenameBasename(path: string, spec: Specificity)
    requires SpecificitySuffix(spec).Some? && '/' !in SpecificitySuffix(spec).value
    ensures BuildFilename(path, spec).Some?
    ensures PathBasename(BuildFilename(path, spec).value) == PathBasename(path) + SpecificitySuffix(spec).value
  {
    SplitLastIsBasename(path);
    var b := PathBasename(path);
    var suffix := SpecificitySuffix(spec).value;
    assert BuildFilename(path, spec).value == path + "/" + (b + suffix);
    BasenameAfterSlash(path, b + suffix);
    BasenameOfPlain(b + suffix);
  }

  /** Round trip: the last component of the file `build_filename` names is
      claimed by the specific, extension-less handler of the entry set's
      basename, and the match captures exactly the specificity written. */
  lemma BuildFilenameRoundTrip(cls: HandlerClass, path: string, spec: Specificity)
    requires cls.specific && cls.extensions == [] && Writable(spec)
    ensures BuildFilename(path, spec).Some?
    ensures var b := PathBasename(path);
      var f := PathBasename(BuildFilename(path, spec).value);
      && MatchFilename(cls, [b], f).Some?
      && var m := MatchFilename(cls, [b], f).value;
         && m.basename == b && m.extension == None
         && (m.token.GroupToken? ==> AllDigits(m.token.prio))
         && SpecificityOf(m.token) == spec
    ensures SpecificityFromFilename(cls, PathBasename(path), PathBasename(BuildFilename(path, spec).value)) == Some(spec)
  {
    SuffixRoundTrip(cls, spec);
    BuildFilenameBasename(path, spec);
    var b := PathBasename(path);
    var f := b + SpecificitySuffix(spec).value;
    assert StartsWith(f, b) && f[|b|..] == SpecificitySuffix(spec).value;
  }
}
