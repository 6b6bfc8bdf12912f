/** The base of the `bcfg2-admin` modes: the table printer, the lazily
    read configuration file, and the plugin selection of the modes that
    load the server core. */
module Admin {

  import opened Wrappers
  import opened Strings
  import opened Seqs

  // ---------------------------------------------------------------------
  // print_table

  /** `str.ljust`, `str.center` and `str.rjust`. */
  datatype Justify = Left | Center | Right

  /** The `KeyError` of the justify lookup. */
  datatype TableError = UnknownJustify(name: string)

  /** The justify argument, looked up by its lower-case form. */
  function JustifyOf(name: string): Result<Justify, TableError>
  {
    var l := Lower(name);
    if l == "left" then Success(Left)
    else if l == "center" then Success(Center)
    else if l == "right" then Success(Right)
    else Failure(UnknownJustify(name))
  }

  /** Lowering twice is lowering once. */
  lemma LowerIdempotent(s: string)
    ensures Lower(Lower(s)) == Lower(s)
  {
  }

  /** Only `left`, `center` and `right` are accepted, in any case: the
      argument and its lower-case form are read alike. */
  lemma JustifyOfCaseless(name: string)
    ensures JustifyOf(name).Success? <==> Lower(name) == "left" || Lower(name) == "center" || Lower(name) == "right"
    ensures JustifyOf(name).Success? ==> JustifyOf(Lower(name)) == JustifyOf(name)
  {
    LowerIdempotent(name);
  }

  /** `n * c`: `n` copies of `c`, none when `n` is not positive. */
  function Repeat(c: char, n: int): (r: string)
    ensures |r| == if n > 0 then n else 0
    ensures forall i :: 0 <= i < |r| ==> r[i] == c
    decreases n
  {
    if n <= 0 then [] else [c] + Repeat(c, n - 1)
  }

  /** Spaces on the left of `s` when `str.center` widens it to `width`:
      half the margin, rounded up when both the margin and the width are
      odd. */
  function CenterLeft(len: nat, width: int): nat
    requires width > len
  {
    var marg := width - len;
    marg / 2 + (if marg % 2 == 1 && width % 2 == 1 then 1 else 0)
  }

  /** One cell justified to a width; a cell already as wide is kept. */
  function JustifyCell(j: Justify, s: string, width: int): string
  {
    if width <= |s| then s
    else match j
      case Left => s + Repeat(' ', width - |s|)
      case Right => Repeat(' ', width - |s|) + s
      case Center =>
        var left := CenterLeft(|s|, width);
        Repeat(' ', left) + s + Repeat(' ', width - |s| - left)
  }

  /** `r` is `s` with spaces only around it, `left` of them on its left. */
  predicate PaddedAt(r: string, s: string, left: int) {
    && 0 <= left <= |r| - |s|
    && r[left..left + |s|] == s
    && (forall i :: 0 <= i < left ==> r[i] == ' ')
    && (forall i :: left + |s| <= i < |r| ==> r[i] == ' ')
  }

  /** A justified cell is as wide as the wider of the text and the width,
      and holds the text with spaces only around it: on the right for
      `left`, on the left for `right`, and on both sides, evenly to within
      one space, for `center`. */
  lemma JustifyCellSpec(j: Justify, s: string, width: int)
    ensures var r := JustifyCell(j, s, width);
      && |r| == (if width > |s| then width else |s|)
      && (j == Left ==> PaddedAt(r, s, 0))
      && (j == Right ==> PaddedAt(r, s, |r| - |s|))
      && (j == Center ==> exists left :: PaddedAt(r, s, left) && -1 <= |r| - |s| - 2 * left <= 1)
  {
    var r := JustifyCell(j, s, width);
    if width <= |s| {
      assert r[0..0 + |s|] == s;
      assert PaddedAt(r, s, 0);
    } else {
      var left := match j case Left => 0 case Right => width - |s| case Center => CenterLeft(|s|, width);
      var pre, post := Repeat(' ', left), Repeat(' ', width - |s| - left);
      assert r == pre + s + post;
      assert r[left..left + |s|] == s;
      assert forall i :: 0 <= i < left ==> r[i] == pre[i];
      assert forall i :: left + |s| <= i < |r| ==> r[i] == post[i - left - |s|];
      assert PaddedAt(r, s, left);
    }
  }

  function Min(a: nat, b: nat): nat {
    if a <= b then a else b
  }

  /** `len(zip(*rows))`: the length of the shortest row. */
  function NumCols(rows: seq<seq<string>>): (n: nat)
    ensures forall r :: 0 <= r < |rows| ==> n <= |rows[r]|
  {
    if rows == [] then 0
    else if |rows| == 1 then |rows[0]|
    else Min(|rows[0]|, NumCols(rows[1..]))
  }

  /** There are as many columns as the shortest row has items, and none
      without rows. */
  lemma {:induction false} NumColsShortest(rows: seq<seq<string>>)
    ensures rows == [] ==> NumCols(rows) == 0
    ensures rows != [] ==> exists r :: 0 <= r < |rows| && NumCols(rows) == |rows[r]|
  {
    if |rows| == 1 {
      assert NumCols(rows) == |rows[0]|;
    } else if |rows| > 1 {
      NumColsShortest(rows[1..]);
      if NumCols(rows) == |rows[0]| {
        assert 0 < |rows|;
      } else {
        var r :| 0 <= r < |rows[1..]| && NumCols(rows[1..]) == |rows[1..][r]|;
        assert rows[1..][r] == rows[r + 1];
      }
    }
  }

  /** `max(len(str(item)) + 2 * padding for item in col)` for column `c`. */
  function ColumnMax(rows: seq<seq<string>>, c: nat, padding: int): int
    requires rows != [] && forall r :: 0 <= r < |rows| ==> c < |rows[r]|
  {
    var w := |rows[0][c]| + 2 * padding;
    if |rows| == 1 then w
    else
      var m := ColumnMax(rows[1..], c, padding);
      if w >= m then w else m
  }

  /** The width of a column is the widest of its items plus the padding on
      both sides. */
  lemma {:induction false} ColumnMaxSpec(rows: seq<seq<string>>, c: nat, padding: int)
    requires rows != [] && forall r :: 0 <= r < |rows| ==> c < |rows[r]|
    ensures forall r :: 0 <= r < |rows| ==> |rows[r][c]| + 2 * padding <= ColumnMax(rows, c, padding)
    ensures exists r :: 0 <= r < |rows| && |rows[r][c]| + 2 * padding == ColumnMax(rows, c, padding)
  {
    if |rows| > 1 {
      var tail := rows[1..];
      ColumnMaxSpec(tail, c, padding);
      forall r | 0 < r < |rows|
        ensures rows[r] == tail[r - 1]
      {
      }
      if ColumnMax(rows, c, padding) != |rows[0][c]| + 2 * padding {
        var r :| 0 <= r < |tail| && |tail[r][c]| + 2 * padding == ColumnMax(tail, c, padding);
        assert rows[r + 1] == tail[r];
      }
    }
  }

  /** `col_widths`. */
  function ColumnWidths(rows: seq<seq<string>>, padding: int): (ws: seq<int>)
    ensures |ws| == NumCols(rows)
  {
    seq(NumCols(rows), c requires 0 <= c < NumCols(rows) => ColumnMax(rows, c, padding))
  }

  /** `borderline`: one run of `=` per column, joined by `vdelim`. */
  function Borderline(ws: seq<int>, vdelim: string): string
  {
    Join(vdelim, seq(|ws|, i requires 0 <= i < |ws| => Repeat('=', ws[i])))
  }

  /** The printed line of one row: its first cells justified to the
      column widths, joined by `vdelim`. */
  function RowLine(row: seq<string>, ws: seq<int>, j: Justify, vdelim: string): string
    requires |ws| <= |row|
  {
    Join(vdelim, seq(|ws|, i requires 0 <= i < |ws| => JustifyCell(j, row[i], ws[i])))
  }

  /** The lines after the first borderline: each row, and the borderline
      once more after the first row when there is a header. */
  function BodyLines(rows: seq<seq<string>>, ws: seq<int>, j: Justify, hdr: bool, vdelim: string, border: string): seq<string>
    requires forall r :: 0 <= r < |rows| ==> |ws| <= |rows[r]|
  {
    if rows == [] then []
    else
      var first := [RowLine(rows[0], ws, j, vdelim)] + (if hdr then [border] else []);
      first + BodyLines(rows[1..], ws, j, false, vdelim, border)
  }

  /** Everything `print_table` prints, line by line. */
  function TableLines(rows: seq<seq<string>>, j: Justify, hdr: bool, vdelim: string, padding: int): seq<string>
  {
    var ws := ColumnWidths(rows, padding);
    var border := Borderline(ws, vdelim);
    [border] + BodyLines(rows, ws, j, hdr, vdelim, border)
  }

  /** `print_table(rows, justify, hdr, vdelim, padding)`, with the lines
      returned instead of printed. */
  method PrintTable(rows: seq<seq<string>>, justify: string, hdr: bool, vdelim: string, padding: int)
    returns (r: Result<seq<string>, TableError>)
    ensures JustifyOf(justify).Failure? ==> r == Failure(JustifyOf(justify).error)
    ensures JustifyOf(justify).Success? ==> r == Success(TableLines(rows, JustifyOf(justify).value, hdr, vdelim, padding))
  {
    var jr := JustifyOf(justify);
    if jr.Failure? {
      return Failure(jr.error);
    }
    var j := jr.value;
    var ws := ColumnWidths(rows, padding);
    var border := Borderline(ws, vdelim);
    var lines := [border];
    var h := hdr;
    ghost var table := TableLines(rows, j, hdr, vdelim, padding);
    assert rows[0..] == rows;
    for i := 0 to |rows|
      invariant h == (hdr && i == 0)
      invariant lines + BodyLines(rows[i..], ws, j, h, vdelim, border) == table
    {
      var step := [RowLine(rows[i], ws, j, vdelim)] + (if h then [border] else []);
      ghost var rest := BodyLines(rows[i + 1..], ws, j, false, vdelim, border);
      BodyLinesStep(rows, i, ws, j, h, vdelim, border);
      assert (lines + step) + rest == lines + (step + rest);
      lines := lines + step;
      h := false;
    }
    assert BodyLines(rows[|rows|..], ws, j, h, vdelim, border) == [];
    assert lines + [] == lines;
    return Success(lines);
  }

  lemma BodyLinesStep(rows: seq<seq<string>>, i: nat, ws: seq<int>, j: Justify, hdr: bool, vdelim: string, border: string)
    requires i < |rows| && forall r :: 0 <= r < |rows| ==> |ws| <= |rows[r]|
    ensures BodyLines(rows[i..], ws, j, hdr, vdelim, border)
      == [RowLine(rows[i], ws, j, vdelim)] + (if hdr then [border] else []) + BodyLines(rows[i + 1..], ws, j, false, vdelim, border)
  {
    assert rows[i..][1..] == rows[i + 1..];
  }

  lemma {:induction false} BodyLinesCount(rows: seq<seq<string>>, ws: seq<int>, j: Justify, hdr: bool, vdelim: string, border: string)
    requires forall r :: 0 <= r < |rows| ==> |ws| <= |rows[r]|
    ensures |BodyLines(rows, ws, j, hdr, vdelim, border)| == |rows| + (if hdr && rows != [] then 1 else 0)
    ensures forall k :: 0 <= k < |BodyLines(rows, ws, j, hdr, vdelim, border)| ==>
      BodyLines(rows, ws, j, hdr, vdelim, border)[k] == border ||
      exists r :: 0 <= r < |rows| && BodyLines(rows, ws, j, hdr, vdelim, border)[k] == RowLine(rows[r], ws, j, vdelim)
  {
    if rows != [] {
      var tail := rows[1..];
      BodyLinesCount(tail, ws, j, false, vdelim, border);
      var head := [RowLine(rows[0], ws, j, vdelim)] + (if hdr then [border] else []);
      var rest := BodyLines(tail, ws, j, false, vdelim, border);
      forall k | 0 <= k < |head + rest|
        ensures (head + rest)[k] == border || exists r :: 0 <= r < |rows| && (head + rest)[k] == RowLine(rows[r], ws, j, vdelim)
      {
        if k >= |head| {
          assert (head + rest)[k] == rest[k - |head|];
          if rest[k - |head|] != border {
            var r :| 0 <= r < |tail| && rest[k - |head|] == RowLine(tail[r], ws, j, vdelim);
            assert tail[r] == rows[r + 1];
          }
        }
      }
    }
  }

  /** Row `r` is line `r` of the body, or line `r + 1` after the header's
      borderline. */
  lemma {:induction false} BodyLinesAt(rows: seq<seq<string>>, ws: seq<int>, j: Justify, hdr: bool, vdelim: string, border: string)
    requires forall r :: 0 <= r < |rows| ==> |ws| <= |rows[r]|
    ensures |BodyLines(rows, ws, j, hdr, vdelim, border)| == |rows| + (if hdr && rows != [] then 1 else 0)
    ensures forall r :: 0 <= r < |rows| ==>
      BodyLines(rows, ws, j, hdr, vdelim, border)[r + (if hdr && r > 0 then 1 else 0)] == RowLine(rows[r], ws, j, vdelim)
  {
    if rows != [] {
      var tail := rows[1..];
      BodyLinesAt(tail, ws, j, false, vdelim, border);
      var head := [RowLine(rows[0], ws, j, vdelim)] + (if hdr then [border] else []);
      var rest := BodyLines(tail, ws, j, false, vdelim, border);
      assert BodyLines(rows, ws, j, hdr, vdelim, border) == head + rest;
      forall r | 0 < r < |rows|
        ensures (head + rest)[r + (if hdr then 1 else 0)] == RowLine(rows[r], ws, j, vdelim)
      {
        assert (head + rest)[r + (if hdr then 1 else 0)] == rest[r - 1];
        assert tail[r - 1] == rows[r];
      }
    }
  }

  /** The table is the borderline, then the rows in order, with one more
      borderline right after the first row when there is a header: one
      line per row plus one, plus one more for a header over at least one
      row. */
  lemma TableShape(rows: seq<seq<string>>, j: Justify, hdr: bool, vdelim: string, padding: int)
    ensures var lines := TableLines(rows, j, hdr, vdelim, padding);
      var border := Borderline(ColumnWidths(rows, padding), vdelim);
      && |lines| == |rows| + 1 + (if hdr && rows != [] then 1 else 0)
      && lines[0] == border
      && (rows != [] ==> lines[1] == RowLine(rows[0], ColumnWidths(rows, padding), j, vdelim))
      && (hdr && rows != [] ==> lines[2] == border)
      && forall r :: 0 <= r < |rows| ==>
           lines[1 + r + (if hdr && r > 0 then 1 else 0)] == RowLine(rows[r], ColumnWidths(rows, padding), j, vdelim)
  {
    var ws := ColumnWidths(rows, padding);
    var border := Borderline(ws, vdelim);
    var body := BodyLines(rows, ws, j, hdr, vdelim, border);
    BodyLinesCount(rows, ws, j, hdr, vdelim, border);
    BodyLinesAt(rows, ws, j, hdr, vdelim, border);
    assert TableLines(rows, j, hdr, vdelim, padding) == [border] + body;
  }

  /** Joining parts of the same lengths gives strings of the same length. */
  lemma {:induction false} JoinSameLengths(sep: string, a: seq<string>, b: seq<string>)
    requires |a| == |b| && forall i :: 0 <= i < |a| ==> |a[i]| == |b[i]|
    ensures |Join(sep, a)| == |Join(sep, b)|
  {
    if |a| > 1 {
      JoinSameLengths(sep, a[1..], b[1..]);
    }
  }

  /** With a non-negative padding every column is at least as wide as its
      items, so every row line is exactly as long as the borderline. */
  lemma RowLineWidth(rows: seq<seq<string>>, r: nat, j: Justify, vdelim: string, padding: int)
    requires padding >= 0 && r < |rows|
    ensures var ws := ColumnWidths(rows, padding);
      |RowLine(rows[r], ws, j, vdelim)| == |Borderline(ws, vdelim)|
  {
    var ws := ColumnWidths(rows, padding);
    var cells := seq(|ws|, i requires 0 <= i < |ws| => JustifyCell(j, rows[r][i], ws[i]));
    var runs := seq(|ws|, i requires 0 <= i < |ws| => Repeat('=', ws[i]));
    forall i | 0 <= i < |ws|
      ensures |cells[i]| == |runs[i]|
    {
      ColumnMaxSpec(rows, i, padding);
      JustifyCellSpec(j, rows[r][i], ws[i]);
    }
    JoinSameLengths(vdelim, cells, runs);
  }

  /** With a non-negative padding all lines of the table have the same
      length. */
  lemma TableAligned(rows: seq<seq<string>>, j: Justify, hdr: bool, vdelim: string, padding: int)
    requires padding >= 0
    ensures var lines := TableLines(rows, j, hdr, vdelim, padding);
      forall k :: 0 <= k < |lines| ==> |lines[k]| == |lines[0]|
  {
    var ws := ColumnWidths(rows, padding);
    var border := Borderline(ws, vdelim);
    var body := BodyLines(rows, ws, j, hdr, vdelim, border);
    BodyLinesCount(rows, ws, j, hdr, vdelim, border);
    forall k | 0 <= k < |body|
      ensures |body[k]| == |border|
    {
      if body[k] != border {
        var r :| 0 <= r < |rows| && body[k] == RowLine(rows[r], ws, j, vdelim);
        RowLineWidth(rows, r, j, vdelim, padding);
      }
    }
    assert forall k :: 0 < k < |[border] + body| ==> ([border] + body)[k] == body[k - 1];
  }

  /** Each column is as wide as its widest item plus twice the padding. */
  lemma ColumnWidthsSpec(rows: seq<seq<string>>, padding: int, c: nat)
    requires c < NumCols(rows)
    ensures var ws := ColumnWidths(rows, padding);
      && (forall r :: 0 <= r < |rows| ==> |rows[r][c]| + 2 * padding <= ws[c])
      && (exists r :: 0 <= r < |rows| && |rows[r][c]| + 2 * padding == ws[c])
  {
    NumColsShortest(rows);
    ColumnMaxSpec(rows, c, padding);
  }

  // ---------------------------------------------------------------------
  // Mode and MetadataCore

  /** The plugins a mode keeps: with a whitelist, those on it; otherwise,
      with a blacklist, those not on it; otherwise all. */
  function SelectPlugins(plugins: seq<string>, whitelist: Option<seq<string>>, blacklist: Option<seq<string>>): seq<string>
  {
    match whitelist
    case Some(w) => Filter(plugins, (p: string) => p in w)
    case None =>
      match blacklist
      case Some(b) => Filter(plugins, (p: string) => p !in b)
      case None => plugins
  }

  /** The whitelist takes precedence over the blacklist; the plugins kept
      stay in their configured order. */
  lemma SelectPluginsSpec(plugins: seq<string>, whitelist: Option<seq<string>>, blacklist: Option<seq<string>>)
    ensures var r := SelectPlugins(plugins, whitelist, blacklist);
      && IsSubsequence(r, plugins)
      && (whitelist.Some? ==> forall p :: p in r <==> p in plugins && p in whitelist.value)
      && (whitelist.None? && blacklist.Some? ==> forall p :: p in r <==> p in plugins && p !in blacklist.value)
      && (whitelist.None? && blacklist.None? ==> r == plugins)
  {
    match whitelist
    case Some(w) =>
      FilterIsSubsequence(plugins, (p: string) => p in w);
    case None =>
      match blacklist
      case Some(b) =>
        FilterIsSubsequence(plugins, (p: string) => p !in b);
      case None =>
        SubsequenceRefl(plugins);
  }

  /** The option dictionary the admin modes share. */
  class Setup {
    const configfile: string
    var plugins: seq<string>
    var filemonitor: string

    constructor (configfile: string, plugins: seq<string>, filemonitor: string)
      ensures this.configfile == configfile && this.plugins == plugins && this.filemonitor == filemonitor
    {
      this.configfile := configfile;
      this.plugins := plugins;
      this.filemonitor := filemonitor;
    }
  }

  /** `read` raised on a malformed file (a missing section header, or
      lines it could not parse); `partial` is what the parser holds then. */
  datatype ReadError = ReadError(partial: map<string, map<string, string>>)

  /** What reading the file gives: its sections, or the error `read`
      raises with what was parsed before it. */
  function ReadSections(contents: Result<map<string, map<string, string>>, ReadError>): map<string, map<string, string>>
  {
    match contents
    case Success(s) => s
    case Failure(e) => e.partial
  }

  /** A parsed configuration file: its sections and their options. */
  class ConfigParser {
    var sections: map<string, map<string, string>>

    constructor ()
      ensures sections == map[]
    {
      sections := map[];
    }

    /** `read(filename)`, with `contents` what parsing the file gives; the
        error is the one `read` raises. */
    method Read(contents: Result<map<string, map<string, string>>, ReadError>) returns (r: Result<(), ReadError>)
      modifies this
      ensures sections == ReadSections(contents)
      ensures r.Success? <==> contents.Success?
      ensures contents.Failure? ==> r.error == contents.error
    {
      sections := ReadSections(contents);
      if contents.Failure? {
        return Failure(contents.error);
      }
      return Success(());
    }
  }

  /** `Mode`: the configuration file named in the setup, parsed on first
      use and kept. `fileReads` counts the reads of the file. */
  class Mode {
    const setup: Setup
    const configfile: string
    var cfp: ConfigParser?
    ghost var fileReads: nat

    ghost predicate Valid()
      reads this
    {
      fileReads == if cfp == null then 0 else 1
    }

    constructor (setup: Setup)
      ensures Valid()
      ensures this.setup == setup && configfile == setup.configfile && cfp == null
    {
      this.setup := setup;
      configfile := setup.configfile;
      cfp := null;
      fileReads := 0;
    }

    /** `getCFP()`, with `parse` what parsing a file gives. The parser is
        cached before the file is read, so the file is read on the first
        call only: when that read raises, the first call reports the error
        and later calls return the partly filled parser. */
    method GetCFP(parse: string -> Result<map<string, map<string, string>>, ReadError>) returns (r: Result<ConfigParser, ReadError>)
      requires Valid()
      modifies this
      ensures Valid() && fileReads <= 1 && cfp != null
      ensures old(cfp) != null ==> r == Success(old(cfp)) && cfp == old(cfp) && fileReads == old(fileReads)
      ensures old(cfp) == null ==>
        && fresh(cfp) && cfp.sections == ReadSections(parse(configfile)) && fileReads == old(fileReads) + 1
        && (parse(configfile).Success? ==> r == Success(cfp))
        && (parse(configfile).Failure? ==> r == Failure(parse(configfile).error))
    {
      if cfp == null {
        var p := new ConfigParser();
        cfp := p;
        fileReads := fileReads + 1;
        var read := p.Read(parse(configfile));
        if read.Failure? {
          return Failure(read.error);
        }
      }
      return Success(cfp);
    }
  }

  /** `MetadataCore`: a mode that loads the server core with the plugins
      it allows, and with the pseudo file monitor (one pass over the
      repository is enough). */
  class MetadataCore {
    const mode: Mode
    const whitelist: Option<seq<string>>
    const blacklist: Option<seq<string>>

    constructor (setup: Setup, whitelist: Option<seq<string>>, blacklist: Option<seq<string>>)
      modifies setup
      ensures mode.Valid() && fresh(mode) && mode.setup == setup && mode.cfp == null
      ensures mode.configfile == setup.configfile
      ensures this.whitelist == whitelist && this.blacklist == blacklist
      ensures setup.plugins == SelectPlugins(old(setup.plugins), whitelist, blacklist)
      ensures setup.filemonitor == "pseudo"
    {
      mode := new Mode(setup);
      this.whitelist := whitelist;
      this.blacklist := blacklist;
      if whitelist.Some? {
        setup.plugins := Filter(setup.plugins, (p: string) => p in whitelist.value);
      } else if blacklist.Some? {
        setup.plugins := Filter(setup.plugins, (p: string) => p !in blacklist.value);
      }
      setup.filemonitor := "pseudo";
    }
  }
}
