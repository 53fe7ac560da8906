/** Reading the MACS2 output: classifying lines into header and data lines,
    Python's str.strip() and str.split(), and detecting the MACS version. */
module Lines {
  import opened Wrappers

  type Line = seq<char>

  /** The characters Python 2's str.strip() and str.split() treat as whitespace. */
  predicate IsSpace(c: char) {
    c == ' ' || c == '\t' || c == '\n' || c == '\r' || c as int == 11 || c as int == 12
  }

  /** A line that strip() leaves as it is: no whitespace at either end. */
  predicate Stripped(s: Line) {
    s == [] || (!IsSpace(s[0]) && !IsSpace(s[|s| - 1]))
  }

  predicate AllSpace(s: Line) {
    forall i :: 0 <= i < |s| ==> IsSpace(s[i])
  }

  /** s[lo..hi] is all whitespace. */
  predicate SpaceBetween(s: Line, lo: int, hi: int)
    requires 0 <= lo <= hi <= |s|
  {
    forall i :: lo <= i < hi ==> IsSpace(s[i])
  }

  function TrimLeft(s: Line): (r: Line)
    ensures |r| <= |s| && r == s[|s| - |r|..]
    ensures r == [] || !IsSpace(r[0])
    ensures SpaceBetween(s, 0, |s| - |r|)
  {
    if s != [] && IsSpace(s[0]) then TrimLeft(s[1..]) else s
  }

  function TrimRight(s: Line): (r: Line)
    ensures r <= s
    ensures r == [] || !IsSpace(r[|r| - 1])
    ensures SpaceBetween(s, |r|, |s|)
  {
    if s != [] && IsSpace(s[|s| - 1]) then TrimRight(s[..|s| - 1]) else s
  }

  /** Python's s.strip(): s with the whitespace at both ends removed. */
  function Strip(s: Line): (r: Line)
    ensures Stripped(r)
    ensures r == [] <==> AllSpace(s)
  {
    var l := TrimLeft(s);
    var r := TrimRight(l);
    assert r == [] ==> l == [] && AllSpace(s);
    r
  }

  /** The number of whitespace characters strip() removes at the front. */
  function LeadingSpace(s: Line): (n: nat)
    ensures n <= |s|
  {
    |s| - |TrimLeft(s)|
  }

  lemma TrimSlice(s: Line, l: Line, r: Line)
    requires |l| <= |s| && l == s[|s| - |l|..]
    requires r <= l && SpaceBetween(l, |r|, |l|)
    ensures |s| - |l| + |r| <= |s|
    ensures r == s[|s| - |l|..|s| - |l| + |r|]
    ensures SpaceBetween(s, |s| - |l| + |r|, |s|)
  {
    var i := |s| - |l|;
    assert l == s[i..];
    assert r <= l;
    forall k | 0 <= k < |r| ensures r[k] == s[i + k] {
      assert r[k] == l[k];
    }
    assert r == s[i..i + |r|];
    forall k | i + |r| <= k < |s| ensures IsSpace(s[k]) {
      assert s[k] == l[k - i];
    }
  }

  /** strip() only removes whitespace, and only at the two ends. */
  lemma StripSlice(s: Line)
    ensures LeadingSpace(s) + |Strip(s)| <= |s|
    ensures Strip(s) == s[LeadingSpace(s)..LeadingSpace(s) + |Strip(s)|]
    ensures SpaceBetween(s, 0, LeadingSpace(s))
    ensures SpaceBetween(s, LeadingSpace(s) + |Strip(s)|, |s|)
  {
    var l := TrimLeft(s);
    var r := TrimRight(l);
    assert Strip(s) == r && LeadingSpace(s) == |s| - |l|;
    TrimSlice(s, l, r);
  }

  /** A header line starts with '#' or is blank once stripped. */
  predicate IsHeader(line: Line) {
    "#" <= line || Strip(line) == []
  }

  /** The header list the reading loop builds: the header lines, stripped,
      in input order. */
  function HeaderLines(lines: seq<Line>): seq<Line>
  {
    if lines == [] then []
    else
      var last := lines[|lines| - 1];
      HeaderLines(lines[..|lines| - 1]) + (if IsHeader(last) then [Strip(last)] else [])
  }

  /** The data lines the reading loop hands to the table: the other lines,
      stripped, in input order. */
  function DataLines(lines: seq<Line>): seq<Line>
  {
    if lines == [] then []
    else
      var last := lines[|lines| - 1];
      DataLines(lines[..|lines| - 1]) + (if IsHeader(last) then [] else [Strip(last)])
  }

  /** The reading loop: every line goes to the header list or to the data. */
  method SplitLines(lines: seq<Line>) returns (header: seq<Line>, data: seq<Line>)
    ensures header == HeaderLines(lines)
    ensures data == DataLines(lines)
  {
    header, data := [], [];
    var i := 0;
    while i < |lines|
      invariant 0 <= i <= |lines|
      invariant header == HeaderLines(lines[..i])
      invariant data == DataLines(lines[..i])
    {
      var line := lines[i];
      assert lines[..i + 1][..i] == lines[..i];
      assert HeaderLines(lines[..i + 1]) == header + (if IsHeader(line) then [Strip(line)] else []);
      assert DataLines(lines[..i + 1]) == data + (if IsHeader(line) then [] else [Strip(line)]);
      if IsHeader(line) {
        header := header + [Strip(line)];
      } else {
        data := data + [Strip(line)];
      }
      i := i + 1;
    }
    assert lines[..|lines|] == lines;
  }

  /** Every line is counted exactly once. */
  lemma {:induction false} SplitCount(lines: seq<Line>)
    ensures |HeaderLines(lines)| + |DataLines(lines)| == |lines|
  {
    if lines != [] {
      SplitCount(lines[..|lines| - 1]);
    }
  }

  /** Both lists keep input order: splitting a concatenation concatenates the splits. */
  lemma HeaderLinesSnoc(l: seq<Line>, x: Line)
    ensures HeaderLines(l + [x]) == HeaderLines(l) + (if IsHeader(x) then [Strip(x)] else [])
  {
    assert (l + [x])[..|l|] == l && (l + [x])[|l|] == x;
  }

  lemma {:induction false} HeaderLinesAppend(a: seq<Line>, b: seq<Line>)
    ensures HeaderLines(a + b) == HeaderLines(a) + HeaderLines(b)
  {
    if b == [] {
      assert a + b == a;
    } else {
      var b', x := b[..|b| - 1], b[|b| - 1];
      assert b == b' + [x] && a + b == (a + b') + [x];
      HeaderLinesSnoc(a + b', x);
      HeaderLinesSnoc(b', x);
      HeaderLinesAppend(a, b');
    }
  }

  lemma DataLinesSnoc(l: seq<Line>, x: Line)
    ensures DataLines(l + [x]) == DataLines(l) + (if IsHeader(x) then [] else [Strip(x)])
  {
    assert (l + [x])[..|l|] == l && (l + [x])[|l|] == x;
  }

  lemma {:induction false} DataLinesAppend(a: seq<Line>, b: seq<Line>)
    ensures DataLines(a + b) == DataLines(a) + DataLines(b)
  {
    if b == [] {
      assert a + b == a;
    } else {
      var b', x := b[..|b| - 1], b[|b| - 1];
      assert b == b' + [x] && a + b == (a + b') + [x];
      DataLinesSnoc(a + b', x);
      DataLinesSnoc(b', x);
      DataLinesAppend(a, b');
    }
  }

  /** A single line goes to exactly one of the two lists, stripped. */
  lemma SplitOne(line: Line)
    ensures HeaderLines([line]) == (if IsHeader(line) then [Strip(line)] else [])
    ensures DataLines([line]) == (if IsHeader(line) then [] else [Strip(line)])
  {
    var l := [line];
    assert l[..0] == [] && l[0] == line;
    assert HeaderLines(l) == [] + (if IsHeader(line) then [Strip(line)] else []);
    assert DataLines(l) == [] + (if IsHeader(line) then [] else [Strip(line)]);
  }

  /** Every stored header line is stripped, and every data line is a
      non-empty stripped line. */
  lemma {:induction false} SplitStripped(lines: seq<Line>)
    ensures forall i :: 0 <= i < |HeaderLines(lines)| ==> Stripped(HeaderLines(lines)[i])
    ensures forall i :: 0 <= i < |DataLines(lines)| ==>
              Stripped(DataLines(lines)[i]) && DataLines(lines)[i] != []
  {
    if lines != [] {
      SplitStripped(lines[..|lines| - 1]);
    }
  }

  /** The first whitespace-free run at the start of s. */
  function Word(s: Line): (w: Line)
    ensures w <= s
    ensures forall j :: 0 <= j < |w| ==> !IsSpace(w[j])
    ensures |w| == |s| || IsSpace(s[|w|])
  {
    if s == [] || IsSpace(s[0]) then [] else [s[0]] + Word(s[1..])
  }

  /** Python's s.split() with no argument: the maximal runs of non-whitespace. */
  function Words(s: Line): seq<Line>
    decreases |s|
  {
    if s == [] then []
    else if IsSpace(s[0]) then Words(s[1..])
    else
      var w := Word(s);
      [w] + Words(s[|w|..])
  }

  /** split() yields non-empty fields free of whitespace. */
  lemma {:induction false} WordsAreWords(s: Line)
    ensures forall i :: 0 <= i < |Words(s)| ==> Words(s)[i] != []
    ensures forall i, j :: 0 <= i < |Words(s)| && 0 <= j < |Words(s)[i]| ==> !IsSpace(Words(s)[i][j])
    decreases |s|
  {
    if s != [] {
      if IsSpace(s[0]) {
        WordsAreWords(s[1..]);
      } else {
        var w := Word(s);
        WordsAreWords(s[|w|..]);
      }
    }
  }

  lemma {:induction false} WordOf(w: Line, rest: Line)
    requires forall j :: 0 <= j < |w| ==> !IsSpace(w[j])
    requires rest == [] || IsSpace(rest[0])
    ensures Word(w + rest) == w
  {
    if w != [] {
      assert (w + rest)[1..] == w[1..] + rest;
      WordOf(w[1..], rest);
    } else {
      assert w + rest == rest;
    }
  }

  /** A word followed by a space contributes exactly itself to split(). */
  lemma WordsCons(w: Line, rest: Line)
    requires IsWord(w)
    ensures Words(w + " " + rest) == [w] + Words(rest)
  {
    var s := w + " " + rest;
    WordOf(w, " " + rest);
    assert w + (" " + rest) == s;
    assert s[|w|..] == " " + rest;
    assert (" " + rest)[1..] == rest;
  }

  /** Any text with a non-whitespace character has at least one word. */
  lemma {:induction false} WordsNonEmpty(s: Line, k: nat)
    requires k < |s| && !IsSpace(s[k])
    ensures Words(s) != []
  {
    if IsSpace(s[0]) {
      WordsNonEmpty(s[1..], k - 1);
    }
  }

  predicate IsWord(w: Line) {
    w != [] && forall j :: 0 <= j < |w| ==> !IsSpace(w[j])
  }

  /** The words, each followed by one space. */
  function Spaced(ws: seq<Line>): Line {
    if ws == [] then [] else ws[0] + " " + Spaced(ws[1..])
  }

  /** A non-empty list of spaced words ends in a space. */
  lemma {:induction false} SpacedEndsInSpace(ws: seq<Line>)
    requires ws != []
    ensures |Spaced(ws)| > 0 && Spaced(ws)[|Spaced(ws)| - 1] == ' '
  {
    if ws[1..] != [] {
      SpacedEndsInSpace(ws[1..]);
    }
  }

  /** Space-terminated words contribute exactly themselves to split(). */
  lemma {:induction false} WordsSpaced(ws: seq<Line>, rest: Line)
    requires forall i :: 0 <= i < |ws| ==> IsWord(ws[i])
    ensures Words(Spaced(ws) + rest) == ws + Words(rest)
  {
    if ws == [] {
      assert Spaced(ws) + rest == rest;
    } else {
      WordsSpaced(ws[1..], rest);
      WordsSpacedStep(ws[0], ws[1..], rest);
      assert ws == [ws[0]] + ws[1..];
    }
  }

  lemma WordsSpacedStep(w: Line, ws: seq<Line>, rest: Line)
    requires IsWord(w) && Words(Spaced(ws) + rest) == ws + Words(rest)
    ensures Words(Spaced([w] + ws) + rest) == [w] + ws + Words(rest)
  {
    var x := Spaced(ws) + rest;
    calc {
      Words(Spaced([w] + ws) + rest);
      { SpacedCons(w, ws); assert Spaced([w] + ws) + rest == w + " " + x; }
      Words(w + " " + x);
      { WordsCons(w, x); }
      [w] + Words(x);
      [w] + (ws + Words(rest));
      [w] + ws + Words(rest);
    }
  }

  lemma SpacedCons(w: Line, ws: seq<Line>)
    ensures Spaced([w] + ws) == w + " " + Spaced(ws)
  {
    assert ([w] + ws)[0] == w && ([w] + ws)[1..] == ws;
  }

  /** The fields of the line MACS writes in front of its version number. */
  const VersionFields: seq<Line> := ["#", "This", "file", "is", "generated", "by", "MACS", "version"]

  /** The prefix the detection loop looks for. */
  const VersionPrefix: Line := Spaced(VersionFields)

  lemma {:induction false} SpacedAppend(a: seq<Line>, b: seq<Line>)
    ensures Spaced(a + b) == Spaced(a) + Spaced(b)
  {
    if a == [] {
      assert a + b == b;
    } else {
      assert (a + b)[1..] == a[1..] + b;
      SpacedAppend(a[1..], b);
    }
  }

  lemma SpacedPair(a: Line, b: Line)
    ensures Spaced([a, b]) == a + " " + b + " "
  {
    assert [a, b][1..] == [b];
    assert [b][1..] == [];
    assert Spaced([b]) == b + " ";
  }

  lemma VersionPrefixPairs()
    ensures Spaced(["#", "This"]) == "# This "
    ensures Spaced(["file", "is"]) == "file is "
    ensures Spaced(["generated", "by"]) == "generated by "
    ensures Spaced(["MACS", "version"]) == "MACS version "
  {
    SpacedPair("#", "This");
    SpacedPair("file", "is");
    SpacedPair("generated", "by");
    SpacedPair("MACS", "version");
  }

  lemma VersionPrefixHead()
    ensures Spaced(["#", "This", "file", "is"]) == "# This file is "
  {
    assert ["#", "This", "file", "is"] == ["#", "This"] + ["file", "is"];
    SpacedAppend(["#", "This"], ["file", "is"]);
    VersionPrefixPairs();
    assert "# This " + "file is " == "# This file is ";
  }

  lemma VersionPrefixTail()
    ensures Spaced(["generated", "by", "MACS", "version"]) == "generated by MACS version "
  {
    assert ["generated", "by", "MACS", "version"] == ["generated", "by"] + ["MACS", "version"];
    SpacedAppend(["generated", "by"], ["MACS", "version"]);
    VersionPrefixPairs();
    assert "generated by " + "MACS version " == "generated by MACS version ";
  }

  lemma VersionPrefixHalves()
    ensures VersionPrefix == "# This file is " + "generated by MACS version "
  {
    assert VersionFields == ["#", "This", "file", "is"] + ["generated", "by", "MACS", "version"];
    SpacedAppend(["#", "This", "file", "is"], ["generated", "by", "MACS", "version"]);
    VersionPrefixHead();
    VersionPrefixTail();
  }

  lemma JoinHalves()
    ensures "# This file is " + "generated by MACS version " == "# This file is generated by MACS version "
  {
  }

  /** The prefix is the text "# This file is generated by MACS version ". */
  lemma VersionPrefixText()
    ensures VersionPrefix == "# This file is generated by MACS version "
  {
    VersionPrefixHalves();
    JoinHalves();
  }

  lemma VersionFieldsAreWords()
    ensures forall i :: 0 <= i < |VersionFields| ==> IsWord(VersionFields[i])
  {
    assert IsWord("generated") && IsWord("by") && IsWord("MACS") && IsWord("version");
    assert IsWord("#") && IsWord("This") && IsWord("file") && IsWord("is");
  }

  /** The eight fields of the version prefix come first in split(). */
  lemma PrefixWords(rest: Line)
    ensures Words(VersionPrefix + rest) == VersionFields + Words(rest)
  {
    VersionFieldsAreWords();
    WordsSpaced(VersionFields, rest);
  }

  /** A stripped line that starts with the version prefix has a ninth
      field, and it is the first word after the prefix. */
  lemma VersionField(line: Line)
    requires Stripped(line) && VersionPrefix <= line
    ensures |Words(line)| > 8 && |Words(line[|VersionPrefix|..])| > 0
    ensures Words(line)[8] == Words(line[|VersionPrefix|..])[0]
  {
    var n := |VersionPrefix|;
    SpacedEndsInSpace(VersionFields);
    assert line[n - 1] == VersionPrefix[n - 1];
    WordAfterSpace(line, n);
    var rest := line[n..];
    assert line == VersionPrefix + rest;
    PrefixWords(rest);
  }

  /** In a stripped line, a space is always followed by another word. */
  lemma WordAfterSpace(line: Line, n: nat)
    requires Stripped(line) && 0 < n <= |line| && IsSpace(line[n - 1])
    ensures n < |line| && Words(line[n..]) != []
  {
    var rest := line[n..];
    assert rest[|rest| - 1] == line[|line| - 1];
    WordsNonEmpty(rest, |rest| - 1);
  }

  predicate IsVersionLine(line: Line) {
    VersionPrefix <= line
  }

  /** header[i] is the first line carrying the version prefix, and v is both
      its whitespace-split field 8 and the first word after the prefix. */
  predicate VersionAt(header: seq<Line>, i: int, v: Line) {
    && 0 <= i < |header|
    && IsVersionLine(header[i])
    && (forall j :: 0 <= j < i ==> !IsVersionLine(header[j]))
    && |Words(header[i])| > 8
    && |Words(header[i][|VersionPrefix|..])| > 0
    && v == Words(header[i])[8]
    && v == Words(header[i][|VersionPrefix|..])[0]
  }

  /** The version the detection loop finds: field 8 of the first header
      line with the version prefix, or None when there is no such line. */
  function FindVersion(header: seq<Line>): (r: Option<Line>)
    requires forall i :: 0 <= i < |header| ==> Stripped(header[i])
    ensures r.None? <==> forall i :: 0 <= i < |header| ==> !IsVersionLine(header[i])
    ensures r.Some? ==> exists i :: VersionAt(header, i, r.value)
    ensures r.Some? ==> IsWord(r.value)
  {
    if header == [] then None
    else if IsVersionLine(header[0]) then
      VersionField(header[0]);
      WordsAreWords(header[0]);
      assert VersionAt(header, 0, Words(header[0])[8]);
      Some(Words(header[0])[8])
    else
      var r := FindVersion(header[1..]);
      if r.Some? then
        var i :| VersionAt(header[1..], i, r.value);
        VersionAtTail(header, i, r.value);
        r
      else
        assert forall i :: 1 <= i < |header| ==> header[i] == header[1..][i - 1];
        r
  }

  /** A version line found after a line without the prefix is still the first. */
  lemma VersionAtTail(header: seq<Line>, i: int, v: Line)
    requires header != [] && !IsVersionLine(header[0])
    requires VersionAt(header[1..], i, v)
    ensures VersionAt(header, i + 1, v)
  {
    assert header[1..][i] == header[i + 1];
    forall j | 0 <= j < i + 1 ensures !IsVersionLine(header[j]) {
      if j > 0 { assert header[1..][j - 1] == header[j]; }
    }
  }

  /** The detection loop, stopping at the first match. */
  method DetectVersion(header: seq<Line>) returns (version: Option<Line>)
    requires forall i :: 0 <= i < |header| ==> Stripped(header[i])
    ensures version == FindVersion(header)
  {
    version := None;
    var i := 0;
    while i < |header|
      invariant 0 <= i <= |header|
      invariant FindVersion(header) == FindVersion(header[i..])
    {
      var line := header[i];
      if VersionPrefix <= line {
        VersionField(line);
        version := Some(Words(line)[8]);
        break;
      }
      assert header[i..][1..] == header[i + 1..];
      i := i + 1;
    }
  }
}
