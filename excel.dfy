/** The startup import: the text of an uploaded CSV/TSV file becomes a list
    of startups. The first non-blank line is the header; the separator is
    guessed from it; the name and description columns are found by fixed
    header spellings; every later line gives at most one startup. */
module Excel {
  import opened Types

  datatype ParsedStartup = ParsedStartup(name: string, description: string)

  /* ------------------------------------------------------------------ */
  /* Trimming and quote stripping                                        */
  /* ------------------------------------------------------------------ */

  /** The ASCII white space that `trim` removes. */
  predicate IsSpace(c: char) {
    c == ' ' || c == '\t' || c == '\n' || c == '\r' || c == '\U{0B}' || c == '\U{0C}'
  }

  predicate AllSpace(s: string) {
    forall k :: 0 <= k < |s| ==> IsSpace(s[k])
  }

  /** Positions lo .. hi-1 of `s` hold white space. */
  predicate SpaceBetween(s: string, lo: int, hi: int)
    requires 0 <= lo && hi <= |s|
  {
    forall k :: lo <= k < hi ==> IsSpace(s[k])
  }

  /** The index of the first character at or after `k` that is not white
      space, or |s| when there is none. */
  function TextStart(s: string, k: nat): (i: nat)
    requires k <= |s|
    ensures k <= i <= |s| && SpaceBetween(s, k, i)
    ensures i < |s| ==> !IsSpace(s[i])
    decreases |s| - k
  {
    if k < |s| && IsSpace(s[k]) then TextStart(s, k + 1) else k
  }

  /** The index just past the last character before `k` that is not white
      space, but never below `lo`. */
  function TextEnd(s: string, lo: nat, k: nat): (j: nat)
    requires lo <= k <= |s|
    ensures lo <= j <= k && SpaceBetween(s, j, k)
    ensures j > lo ==> !IsSpace(s[j - 1])
    decreases k - lo
  {
    if k > lo && IsSpace(s[k - 1]) then TextEnd(s, lo, k - 1) else k
  }

  /** JavaScript's `trim`: the text between the leading and the trailing
      white space. */
  function Trim(s: string): (r: string) {
    var i := TextStart(s, 0);
    s[i..TextEnd(s, i, |s|)]
  }

  /** Trim keeps one contiguous slice of `s`, drops only white space around
      it, and leaves no white space at either end. */
  lemma TrimIsInnerSlice(s: string)
    ensures exists i, j ::
      && 0 <= i <= j <= |s| && Trim(s) == s[i..j]
      && SpaceBetween(s, 0, i) && SpaceBetween(s, j, |s|)
      && (i < j ==> !IsSpace(s[i]) && !IsSpace(s[j - 1]))
  {
    var i := TextStart(s, 0);
    var j := TextEnd(s, i, |s|);
    assert Trim(s) == s[i..j];
  }

  /** A string trims to nothing exactly when it is all white space. */
  lemma TrimEmptyIffBlank(s: string)
    ensures Trim(s) == [] <==> AllSpace(s)
  {
    var i := TextStart(s, 0);
    var j := TextEnd(s, i, |s|);
    if Trim(s) == [] {
      assert i == j;
    }
  }

  predicate IsQuote(c: char) {
    c == '"' || c == '\''
  }

  /** `replace(/^["']|["']$/g, '')`: one leading and one trailing quote
      (either kind) go; a lone quote character is removed once. */
  function StripQuotes(s: string): (r: string) {
    var a := if |s| > 0 && IsQuote(s[0]) then 1 else 0;
    var b := if |s| > a && IsQuote(s[|s| - 1]) then |s| - 1 else |s|;
    s[a..b]
  }

  /** Stripping loses at most one character at each end, each of them a
      quote, and keeps the rest in place. */
  lemma StripQuotesLosesAtMostTheEnds(s: string)
    ensures exists a, b :: (0 <= a <= 1 && |s| - 1 <= b <= |s| && a <= b && StripQuotes(s) == s[a..b] &&
      (a == 1 ==> IsQuote(s[0])) && (b == |s| - 1 ==> IsQuote(s[|s| - 1])))
    ensures |s| >= 2 && IsQuote(s[0]) && IsQuote(s[|s| - 1]) ==> StripQuotes(s) == s[1..|s| - 1]
    ensures |s| > 0 && !IsQuote(s[0]) && !IsQuote(s[|s| - 1]) ==> StripQuotes(s) == s
  {
    var a := if |s| > 0 && IsQuote(s[0]) then 1 else 0;
    var b := if |s| > a && IsQuote(s[|s| - 1]) then |s| - 1 else |s|;
    assert StripQuotes(s) == s[a..b];
  }

  /** What every header and cell goes through: trim, then strip quotes.
      Only characters of the raw text survive, and it never grows. */
  function Clean(s: string): (r: string)
    ensures |r| <= |s|
    ensures forall c :: c in r ==> c in s
  {
    var i := TextStart(s, 0);
    var j := TextEnd(s, i, |s|);
    var t := s[i..j];
    var a := if |t| > 0 && IsQuote(t[0]) then 1 else 0;
    var b := if |t| > a && IsQuote(t[|t| - 1]) then |t| - 1 else |t|;
    SliceHasOnlyItsChars(s, i, j);
    SliceHasOnlyItsChars(t, a, b);
    StripQuotes(Trim(s))
  }

  /** A slice holds only characters of the whole. */
  lemma SliceHasOnlyItsChars(s: string, i: int, j: int)
    requires 0 <= i <= j <= |s|
    ensures forall c :: c in s[i..j] ==> c in s
  {
    forall c | c in s[i..j]
      ensures c in s
    {
      var k :| 0 <= k < j - i && s[i..j][k] == c;
      assert s[i + k] == c;
    }
  }

  /* ------------------------------------------------------------------ */
  /* Splitting                                                           */
  /* ------------------------------------------------------------------ */

  /** JavaScript's `split` on a one-character separator: the pieces between
      separators, at least one, none containing the separator. */
  function SplitOn(s: string, d: char): (parts: seq<string>)
    ensures |parts| >= 1
    ensures forall i :: 0 <= i < |parts| ==> d !in parts[i]
    decreases |s|
  {
    if s == [] then [[]]
    else
      var rest := SplitOn(s[1..], d);
      if s[0] == d then [[]] + rest else [[s[0]] + rest[0]] + rest[1..]
  }

  /** The pieces of white space are white space. */
  lemma {:induction false} SplitOfBlank(s: string, d: char)
    ensures AllSpace(s) ==> forall i :: 0 <= i < |SplitOn(s, d)| ==> AllSpace(SplitOn(s, d)[i])
    decreases |s|
  {
    if s != [] && AllSpace(s) {
      SplitOfBlank(s[1..], d);
      var rest := SplitOn(s[1..], d);
      if s[0] != d {
        assert AllSpace([s[0]] + rest[0]);
        assert SplitOn(s, d)[1..] == rest[1..];
      }
    }
  }

  /** Pieces glued back with the separator between them. */
  function Join(parts: seq<string>, d: char): (r: string)
    requires |parts| >= 1
  {
    if |parts| == 1 then parts[0] else parts[0] + [d] + Join(parts[1..], d)
  }

  /** Splitting loses nothing: joining the pieces gives the text back. */
  lemma {:induction false} SplitJoinRoundTrip(s: string, d: char)
    ensures Join(SplitOn(s, d), d) == s
    decreases |s|
  {
    if s != [] {
      var rest := SplitOn(s[1..], d);
      SplitJoinRoundTrip(s[1..], d);
      if s[0] == d {
        assert SplitOn(s, d)[1..] == rest;
      } else if |rest| == 1 {
        assert SplitOn(s, d) == [[s[0]] + rest[0]];
      } else {
        var parts := SplitOn(s, d);
        assert parts[1..] == rest[1..];
        assert Join(rest, d) == rest[0] + [d] + Join(rest[1..], d);
      }
    }
  }

  predicate EndsInCR(p: string) {
    p != [] && p[|p| - 1] == '\r'
  }

  /** A '\r' that ended a line split off before a '\n': the piece keeps a
      prefix at most one character shorter, shorter exactly when it ends in
      '\r'. */
  function DropCR(p: string): (r: string)
    ensures r <= p && |p| - 1 <= |r|
    ensures r != p <==> EndsInCR(p)
  {
    if EndsInCR(p) then p[..|p| - 1] else p
  }

  /** `text.split(/\r?\n/)`: lines end at '\n', and a '\r' just before a
      '\n' belongs to the line break; the last piece keeps its '\r'. */
  function SplitLines(text: string): (lines: seq<string>)
    ensures |lines| >= 1
    ensures forall i :: 0 <= i < |lines| ==> '\n' !in lines[i]
  {
    var parts := SplitOn(text, '\n');
    seq(|parts|, i requires 0 <= i < |parts| => if i < |parts| - 1 then DropCR(parts[i]) else parts[i])
  }

  /** The lines are the '\n'-separated pieces of the text (which glue back
      into the text, by SplitJoinRoundTrip). A piece followed by a '\n'
      loses its final '\r', if it has one, and only that; the last piece is
      kept whole. */
  lemma SplitLinesRecoversText(text: string)
    ensures var lines, parts := SplitLines(text), SplitOn(text, '\n');
      && |lines| == |parts|
      && lines[|lines| - 1] == parts[|parts| - 1]
      && (forall i :: 0 <= i < |parts| - 1 && EndsInCR(parts[i]) ==> lines[i] + ['\r'] == parts[i])
      && (forall i :: 0 <= i < |parts| - 1 && !EndsInCR(parts[i]) ==> lines[i] == parts[i])
  {
    var lines, parts := SplitLines(text), SplitOn(text, '\n');
    assert |lines| == |parts|;
    forall i | 0 <= i < |parts| - 1
      ensures lines[i] == DropCR(parts[i])
    {
    }
    forall i | 0 <= i < |parts| - 1 && EndsInCR(parts[i])
      ensures lines[i] + ['\r'] == parts[i]
    {
      DropCRUndone(parts[i]);
    }
  }

  /** Dropping a final '\r' is undone by putting it back. */
  lemma DropCRUndone(p: string)
    requires EndsInCR(p)
    ensures DropCR(p) + ['\r'] == p
  {
    assert p == p[..|p| - 1] + [p[|p| - 1]];
  }

  /** `.filter(line => line.trim() !== '')`. */
  function NonBlank(lines: seq<string>): (r: seq<string>)
    ensures |r| <= |lines|
    ensures forall x :: x in r ==> x in lines && Trim(x) != []
  {
    if lines == [] then []
    else if Trim(lines[0]) != [] then [lines[0]] + NonBlank(lines[1..])
    else NonBlank(lines[1..])
  }

  /** The non-blank lines of the file, in order. */
  function Lines(text: string): (r: seq<string>) {
    NonBlank(SplitLines(text))
  }

  /** The filter drops a run of blank lines entirely. */
  lemma {:induction false} NonBlankOfBlankLines(lines: seq<string>)
    requires forall i :: 0 <= i < |lines| ==> Trim(lines[i]) == []
    ensures NonBlank(lines) == []
    decreases |lines|
  {
    if lines != [] {
      NonBlankOfBlankLines(lines[1..]);
    }
  }

  /** White-space text has no non-blank line. */
  lemma BlankTextHasNoLines(text: string)
    ensures AllSpace(text) ==> Lines(text) == []
  {
    if AllSpace(text) {
      var parts, split := SplitOn(text, '\n'), SplitLines(text);
      SplitOfBlank(text, '\n');
      forall i | 0 <= i < |split|
        ensures Trim(split[i]) == []
      {
        assert AllSpace(parts[i]);
        TrimEmptyIffBlank(split[i]);
      }
      NonBlankOfBlankLines(split);
    }
  }

  /** Every retained line is a whole line: it holds no line break and is
      not blank. */
  lemma LinesAreNonBlankSingleLines(text: string)
    ensures forall line :: line in Lines(text) ==> '\n' !in line && Trim(line) != []
  {
    var split := SplitLines(text);
    forall line | line in Lines(text)
      ensures '\n' !in line
    {
      var i :| 0 <= i < |split| && split[i] == line;
    }
  }

  /* ------------------------------------------------------------------ */
  /* Header                                                              */
  /* ------------------------------------------------------------------ */

  /** The separator: ';' if the header line has one, else a tab if it has
      one, else ','. */
  function Delimiter(firstLine: string): (r: char) {
    if ';' in firstLine then ';' else if '\t' in firstLine then '\t' else ','
  }

  /** A semicolon wins over a tab; a tab wins over the default comma. */
  lemma DelimiterPriority(firstLine: string)
    ensures ';' in firstLine ==> Delimiter(firstLine) == ';'
    ensures ';' !in firstLine && '\t' in firstLine ==> Delimiter(firstLine) == '\t'
    ensures Delimiter(firstLine) == ',' <==> ';' !in firstLine && '\t' !in firstLine
  {
  }

  /** A line cut at the separator, every cell cleaned: one cell per piece,
      none holding the separator, none longer than its piece. */
  function Cells(line: string, d: char): (cells: seq<string>)
    ensures |cells| == |SplitOn(line, d)|
    ensures forall i :: 0 <= i < |cells| ==> d !in cells[i] && |cells[i]| <= |SplitOn(line, d)[i]|
  {
    var parts := SplitOn(line, d);
    seq(|parts|, i requires 0 <= i < |parts| => Clean(parts[i]))
  }

  const NameKeys: seq<string> := ["name", "Name", "NAME", "Startup Name", "startup name",
                                  "Startup", "startup", "Company", "company", "COMPANY"]
  const DescKeys: seq<string> := ["description", "Description", "DESCRIPTION", "desc", "Desc", "DESC"]

  /** The first position at or after `from` whose header is one of `keys`,
      or -1. */
  function FirstFrom(headers: seq<string>, keys: seq<string>, from: nat): (r: int)
    decreases |headers| - from
  {
    if from >= |headers| then -1
    else if headers[from] in keys then from
    else FirstFrom(headers, keys, from + 1)
  }

  lemma {:induction false} FirstFromIsFirst(headers: seq<string>, keys: seq<string>, from: nat)
    ensures var r := FirstFrom(headers, keys, from);
      (r == -1 && forall j :: from <= j < |headers| ==> headers[j] !in keys) ||
      (from <= r < |headers| && headers[r] in keys && forall j :: from <= j < r ==> headers[j] !in keys)
    decreases |headers| - from
  {
    if from < |headers| && headers[from] !in keys {
      FirstFromIsFirst(headers, keys, from + 1);
    }
  }

  /** The name column: the first header spelled as a name key, else column 0. */
  function NameColumn(headers: seq<string>): (r: nat) {
    var f := FirstFrom(headers, NameKeys, 0);
    if f < 0 then 0 else f
  }

  /** The description column: the first header spelled as a description
      key, else -1 (none). */
  function DescColumn(headers: seq<string>): (r: int) {
    FirstFrom(headers, DescKeys, 0)
  }

  /** The columns are the first exact matches among the headers. */
  lemma ColumnsAreFirstMatches(headers: seq<string>)
    ensures (exists i :: 0 <= i < |headers| && headers[i] in NameKeys) ==>
      NameColumn(headers) < |headers| && headers[NameColumn(headers)] in NameKeys &&
      forall j :: 0 <= j < NameColumn(headers) ==> headers[j] !in NameKeys
    ensures (forall i :: 0 <= i < |headers| ==> headers[i] !in NameKeys) ==> NameColumn(headers) == 0
    ensures DescColumn(headers) == -1 <==> forall i :: 0 <= i < |headers| ==> headers[i] !in DescKeys
    ensures DescColumn(headers) >= 0 ==>
      DescColumn(headers) < |headers| && headers[DescColumn(headers)] in DescKeys &&
      forall j :: 0 <= j < DescColumn(headers) ==> headers[j] !in DescKeys
  {
    FirstFromIsFirst(headers, NameKeys, 0);
    FirstFromIsFirst(headers, DescKeys, 0);
  }

  /** The header loop: the first name and description positions, with the
      name falling back to column 0. */
  method FindColumns(headers: seq<string>) returns (nameIndex: nat, descIndex: int)
    ensures nameIndex == NameColumn(headers) && descIndex == DescColumn(headers)
  {
    var ni, di := -1, -1;
    for i := 0 to |headers|
      invariant ni == -1 ==> forall j :: 0 <= j < i ==> headers[j] !in NameKeys
      invariant ni != -1 ==> 0 <= ni < i && headers[ni] in NameKeys &&
                             forall j :: 0 <= j < ni ==> headers[j] !in NameKeys
      invariant di == -1 ==> forall j :: 0 <= j < i ==> headers[j] !in DescKeys
      invariant di != -1 ==> 0 <= di < i && headers[di] in DescKeys &&
                             forall j :: 0 <= j < di ==> headers[j] !in DescKeys
    {
      var header := headers[i];
      if ni == -1 && header in NameKeys {
        ni := i;
      }
      if di == -1 && header in DescKeys {
        di := i;
      }
    }
    FirstFromIsFirst(headers, NameKeys, 0);
    FirstFromIsFirst(headers, DescKeys, 0);
    if ni == -1 {
      ni := 0;
    }
    nameIndex, descIndex := ni, di;
  }

  /* ------------------------------------------------------------------ */
  /* Rows                                                                */
  /* ------------------------------------------------------------------ */

  /** One data line: its name cell (missing reads as empty) and its
      description cell ('' without a description column or cell); no
      startup when the name is empty or the text "undefined". */
  function Row(line: string, d: char, nameIndex: nat, descIndex: int): (r: Option<ParsedStartup>) {
    var values := Cells(line, d);
    var name := if nameIndex < |values| then values[nameIndex] else "";
    var description := if descIndex >= 0 then (if descIndex < |values| then values[descIndex] else "") else "";
    if name != "" && name != "undefined" then Some(ParsedStartup(name, description)) else None
  }

  /** A line is skipped exactly when its name cell is missing, empty or
      "undefined"; a kept line's description is its description cell or ''. */
  lemma RowSkippedIff(line: string, d: char, nameIndex: nat, descIndex: int)
    ensures var values := Cells(line, d);
      Row(line, d, nameIndex, descIndex).None? <==>
        nameIndex >= |values| || values[nameIndex] == "" || values[nameIndex] == "undefined"
    ensures var values := Cells(line, d);
      Row(line, d, nameIndex, descIndex).Some? ==>
        Row(line, d, nameIndex, descIndex).value.name == values[nameIndex] &&
        Row(line, d, nameIndex, descIndex).value.description ==
          (if 0 <= descIndex < |values| then values[descIndex] else "")
  {
  }

  /** The startups among a run of row results, in order. */
  function Kept(results: seq<Option<ParsedStartup>>): (r: seq<ParsedStartup>)
    decreases |results|
  {
    if results == [] then []
    else
      var last := results[|results| - 1];
      Kept(results[..|results| - 1]) + (if last.Some? then [last.value] else [])
  }

  /** `f` applied to every element, in order. */
  function Map<A, B>(f: A -> B, xs: seq<A>): (ys: seq<B>) {
    seq(|xs|, j requires 0 <= j < |xs| => f(xs[j]))
  }

  /** Mapping two runs one after the other maps each run. */
  lemma MapOfConcatenation<A, B>(f: A -> B, a: seq<A>, b: seq<A>)
    ensures Map(f, a + b) == Map(f, a) + Map(f, b)
  {
    var m := Map(f, a + b);
    forall j | 0 <= j < |a|
      ensures m[j] == f(a[j])
    {
      assert (a + b)[j] == a[j];
    }
    forall j | 0 <= j < |b|
      ensures m[|a| + j] == f(b[j])
    {
      assert (a + b)[|a| + j] == b[j];
    }
  }

  /** The row reader for one separator and pair of columns. */
  function RowReader(d: char, nameIndex: nat, descIndex: int): (read: string -> Option<ParsedStartup>) {
    line => Row(line, d, nameIndex, descIndex)
  }

  /** The row of every line of a run. */
  function RowResults(rows: seq<string>, d: char, nameIndex: nat, descIndex: int): (r: seq<Option<ParsedStartup>>) {
    Map(RowReader(d, nameIndex, descIndex), rows)
  }

  /** The startups of a run of data lines, in line order. */
  function Rows(rows: seq<string>, d: char, nameIndex: nat, descIndex: int): (r: seq<ParsedStartup>) {
    Kept(RowResults(rows, d, nameIndex, descIndex))
  }

  /** Each result gives at most one startup. */
  lemma {:induction false} KeptAtMostOnePerResult(results: seq<Option<ParsedStartup>>)
    ensures |Kept(results)| <= |results|
    decreases |results|
  {
    if results != [] {
      KeptAtMostOnePerResult(results[..|results| - 1]);
    }
  }

  /** Each line gives at most one startup. */
  lemma RowsAtMostOnePerLine(rows: seq<string>, d: char, nameIndex: nat, descIndex: int)
    ensures |Rows(rows, d, nameIndex, descIndex)| <= |rows|
  {
    KeptAtMostOnePerResult(RowResults(rows, d, nameIndex, descIndex));
  }

  /** Order is kept: the startups of two runs of results are those of the
      first followed by those of the second. */
  lemma {:induction false} KeptOfConcatenation(a: seq<Option<ParsedStartup>>, b: seq<Option<ParsedStartup>>)
    ensures Kept(a + b) == Kept(a) + Kept(b)
    decreases |b|
  {
    if b == [] {
      assert a + b == a;
    } else {
      KeptOfConcatenation(a, b[..|b| - 1]);
      assert (a + b)[..|a + b| - 1] == a + b[..|b| - 1];
    }
  }

  /** The row results of two runs of lines, one after the other, are those
      of the first run followed by those of the second. */
  lemma RowResultsOfConcatenation(a: seq<string>, b: seq<string>, d: char, nameIndex: nat, descIndex: int)
    ensures RowResults(a + b, d, nameIndex, descIndex)
         == RowResults(a, d, nameIndex, descIndex) + RowResults(b, d, nameIndex, descIndex)
  {
    MapOfConcatenation(RowReader(d, nameIndex, descIndex), a, b);
  }

  /** The rows of two runs of lines, one after the other, are the rows of
      the first run followed by those of the second. */
  lemma RowsOfConcatenation(a: seq<string>, b: seq<string>, d: char, nameIndex: nat, descIndex: int)
    ensures Rows(a + b, d, nameIndex, descIndex) == Rows(a, d, nameIndex, descIndex) + Rows(b, d, nameIndex, descIndex)
  {
    RowResultsOfConcatenation(a, b, d, nameIndex, descIndex);
    KeptOfConcatenation(RowResults(a, d, nameIndex, descIndex), RowResults(b, d, nameIndex, descIndex));
  }

  /** Every startup kept is one of the results. */
  lemma {:induction false} KeptComeFromResults(results: seq<Option<ParsedStartup>>)
    ensures forall p :: p in Kept(results) ==> Some(p) in results
    decreases |results|
  {
    if results != [] {
      var init := results[..|results| - 1];
      KeptComeFromResults(init);
      assert forall x :: x in init ==> x in results;
    }
  }

  /** Every startup comes from one of the lines and has a usable name. */
  lemma RowsComeFromLines(rows: seq<string>, d: char, nameIndex: nat, descIndex: int)
    ensures forall p :: p in Rows(rows, d, nameIndex, descIndex) ==>
      p.name != "" && p.name != "undefined" && Some(p) in RowResults(rows, d, nameIndex, descIndex)
  {
    var results := RowResults(rows, d, nameIndex, descIndex);
    KeptComeFromResults(results);
    forall p | p in Rows(rows, d, nameIndex, descIndex)
      ensures p.name != "" && p.name != "undefined"
    {
      var j :| 0 <= j < |results| && results[j] == Some(p);
    }
  }

  /** One more turn of the row loop adds line i's row, if any. */
  lemma RowsStep(lines: seq<string>, i: nat, d: char, nameIndex: nat, descIndex: int)
    requires 1 <= i < |lines|
    ensures var row := Row(lines[i], d, nameIndex, descIndex);
      Rows(lines[1..i + 1], d, nameIndex, descIndex)
        == Rows(lines[1..i], d, nameIndex, descIndex) + (if row.Some? then [row.value] else [])
  {
    var before := RowResults(lines[1..i], d, nameIndex, descIndex);
    var after := RowResults(lines[1..i + 1], d, nameIndex, descIndex);
    assert after[..|after| - 1] == before;
  }

  /** The row loop: every line after the header, in order, pushes at most
      one startup. */
  method ParseRows(lines: seq<string>, d: char, nameIndex: nat, descIndex: int)
      returns (startups: seq<ParsedStartup>)
    requires |lines| >= 1
    ensures startups == Rows(lines[1..], d, nameIndex, descIndex)
  {
    startups := [];
    var i := 1;
    while i < |lines|
      invariant 1 <= i <= |lines|
      invariant startups == Rows(lines[1..i], d, nameIndex, descIndex)
    {
      RowsStep(lines, i, d, nameIndex, descIndex);
      var row := Row(lines[i], d, nameIndex, descIndex);
      if row.Some? {
        startups := startups + [row.value];
      }
      i := i + 1;
    }
    assert lines[1..i] == lines[1..];
  }

  /* ------------------------------------------------------------------ */
  /* The whole file                                                      */
  /* ------------------------------------------------------------------ */

  /** The startups a file's text yields. */
  function Parse(text: string): (r: seq<ParsedStartup>) {
    if text == [] || Trim(text) == [] then []
    else
      var lines := Lines(text);
      if |lines| == 0 then []
      else
        var d := Delimiter(lines[0]);
        var headers := Cells(lines[0], d);
        Rows(lines[1..], d, NameColumn(headers), DescColumn(headers))
  }

  /** The body of the reader's load handler. */
  method ParseText(text: string) returns (startups: seq<ParsedStartup>)
    ensures startups == Parse(text)
  {
    if text == [] || Trim(text) == [] {
      return [];
    }
    var lines := Lines(text);
    if |lines| == 0 {
      return [];
    }
    var firstLine := lines[0];
    var delimiter := ',';
    if ';' in firstLine {
      delimiter := ';';
    } else if '\t' in firstLine {
      delimiter := '\t';
    }
    var headers := Cells(lines[0], delimiter);
    var nameIndex, descIndex := FindColumns(headers);
    startups := ParseRows(lines, delimiter, nameIndex, descIndex);
  }

  /** Empty or all-white text yields no startup. */
  lemma BlankTextYieldsNothing(text: string)
    requires AllSpace(text)
    ensures Parse(text) == []
  {
    TrimEmptyIffBlank(text);
  }

  /** The header never yields a startup and every later line at most one,
      so there are fewer startups than non-blank lines. */
  lemma AtMostOnePerDataLine(text: string)
    ensures |Lines(text)| == 0 ==> Parse(text) == []
    ensures |Lines(text)| > 0 ==> |Parse(text)| <= |Lines(text)| - 1
  {
    var lines := Lines(text);
    if |lines| > 0 {
      var d := Delimiter(lines[0]);
      var headers := Cells(lines[0], d);
      RowsAtMostOnePerLine(lines[1..], d, NameColumn(headers), DescColumn(headers));
    } else if !(text == [] || Trim(text) == []) {
      assert Parse(text) == [];
    }
  }

  /** The startups of a file with lines are the rows of the lines after
      the first, read with the first line's separator and columns. */
  lemma ParseOfLines(text: string)
    requires |Lines(text)| > 0
    ensures var lines := Lines(text);
      var d := Delimiter(lines[0]);
      var headers := Cells(lines[0], d);
      Parse(text) == Rows(lines[1..], d, NameColumn(headers), DescColumn(headers))
  {
    TrimEmptyIffBlank(text);
    BlankTextHasNoLines(text);
  }

  /** Every startup has a usable name and is the row of some line after the
      header, read with the header's separator and columns. */
  lemma ParsedStartupsComeFromDataLines(text: string)
    ensures forall p :: p in Parse(text) ==> p.name != "" && p.name != "undefined"
    ensures |Lines(text)| > 0 ==>
      var lines := Lines(text);
      var d := Delimiter(lines[0]);
      var headers := Cells(lines[0], d);
      forall p :: p in Parse(text) ==> Some(p) in RowResults(lines[1..], d, NameColumn(headers), DescColumn(headers))
  {
    var lines := Lines(text);
    if |lines| == 0 {
      assert Parse(text) == [];
    } else {
      var d := Delimiter(lines[0]);
      var headers := Cells(lines[0], d);
      ParseOfLines(text);
      RowsComeFromLines(lines[1..], d, NameColumn(headers), DescColumn(headers));
    }
  }
}
