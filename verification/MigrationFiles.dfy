/**
 Migration files: the number in a file name, the order the files are run in, and
 the up and down sections of a file.
 */
module MigrationFiles {
  import opened Wrappers
  import opened Text

  /* ----- file names ----- */

  function LeadingDigits(s: string): (r: string)
    ensures AllDigits(r)
  {
    if s != "" && IsDigit(s[0]) then [s[0]] + LeadingDigits(s[1..]) else ""
  }

  function ExtractSequenceNumber(filename: string): Option<nat> {
    var ds := LeadingDigits(filename);
    if ds == "" then None else Some(DecimalValue(ds))
  }

  lemma {:induction false} LeadingDigitsStop(ds: string, rest: string)
    requires AllDigits(ds) && (rest != "" ==> !IsDigit(rest[0]))
    ensures LeadingDigits(ds + rest) == ds
  {
    if ds == "" {
      assert ds + rest == rest;
    } else {
      LeadingDigitsStop(ds[1..], rest);
      assert (ds + rest)[1..] == ds[1..] + rest;
    }
  }

  /** A number printed with any padding is read back, whatever name follows it. */
  lemma PaddedNumberIsRead(zeros: nat, n: nat, rest: string)
    requires rest != "" ==> !IsDigit(rest[0])
    ensures ExtractSequenceNumber(Zeros(zeros) + Decimal(n) + rest) == Some(n)
  {
    LeadingDigitsStop(Zeros(zeros) + Decimal(n), rest);
    ZerosDoNotCount(zeros, Decimal(n));
    DecimalRoundTrip(n);
  }

  /* ----- order of the files ----- */

  const MAX_SIZE: nat := 0x7FFF_FFFF_FFFF_FFFF

  function SortNumber(filename: string): nat {
    match ExtractSequenceNumber(filename)
    case Some(n) => n
    case None => MAX_SIZE
  }

  predicate LexLeq(a: string, b: string) {
    a == "" || (b != "" && (a[0] < b[0] || (a[0] == b[0] && LexLeq(a[1..], b[1..]))))
  }

  /** The order of the sort keys (number, name). */
  predicate FileLeq(a: string, b: string) {
    SortNumber(a) < SortNumber(b) || (SortNumber(a) == SortNumber(b) && LexLeq(a, b))
  }

  lemma {:induction false} LexTotal(a: string, b: string)
    ensures LexLeq(a, b) || LexLeq(b, a)
  {
    if a != "" && b != "" && a[0] == b[0] { LexTotal(a[1..], b[1..]); }
  }

  lemma {:induction false} LexAntisymmetric(a: string, b: string)
    requires LexLeq(a, b) && LexLeq(b, a)
    ensures a == b
  {
    if a != "" && b != "" { LexAntisymmetric(a[1..], b[1..]); }
  }

  lemma {:induction false} LexTransitive(a: string, b: string, c: string)
    requires LexLeq(a, b) && LexLeq(b, c)
    ensures LexLeq(a, c)
  {
    if a != "" && a[0] == b[0] == c[0] { LexTransitive(a[1..], b[1..], c[1..]); }
  }

  function Insert(f: string, sorted: seq<string>): seq<string> {
    if sorted == [] || FileLeq(f, sorted[0]) then [f] + sorted
    else [sorted[0]] + Insert(f, sorted[1..])
  }

  function SortFiles(fs: seq<string>): seq<string> {
    if fs == [] then [] else Insert(fs[0], SortFiles(fs[1..]))
  }

  predicate EndsWithSql(f: string) {
    |f| >= 4 && f[|f| - 4..] == ".sql"
  }

  function SqlFiles(listing: seq<string>): seq<string> {
    if listing == [] then []
    else (if EndsWithSql(listing[0]) then [listing[0]] else []) + SqlFiles(listing[1..])
  }

  /** get_sorted_migration_files on the names found in the directory. */
  function SortedMigrationFiles(listing: seq<string>): seq<string> {
    SortFiles(SqlFiles(listing))
  }

  predicate Sorted(fs: seq<string>) {
    forall i, j :: 0 <= i < j < |fs| ==> FileLeq(fs[i], fs[j])
  }

  lemma {:induction false} InsertSorts(f: string, fs: seq<string>)
    requires Sorted(fs)
    ensures Sorted(Insert(f, fs)) && multiset(Insert(f, fs)) == multiset(fs) + multiset{f}
  {
    if fs == [] {
    } else if FileLeq(f, fs[0]) {
      forall j | 0 <= j < |fs| ensures FileLeq(f, fs[j]) {
        if SortNumber(f) == SortNumber(fs[0]) == SortNumber(fs[j]) && j > 0 {
          assert FileLeq(fs[0], fs[j]);
          LexTransitive(f, fs[0], fs[j]);
        }
      }
    } else {
      LexTotal(f, fs[0]);
      InsertSorts(f, fs[1..]);
      assert fs == [fs[0]] + fs[1..];
      var rest := Insert(f, fs[1..]);
      forall j | 0 <= j < |rest| ensures FileLeq(fs[0], rest[j]) {
        assert rest[j] in multiset(rest);
        if rest[j] != f {
          assert rest[j] in fs[1..];
          var k :| 1 <= k < |fs| && fs[k] == rest[j];
        }
      }
    }
  }

  /** Sorting keeps every file, with its multiplicity, and orders them. */
  lemma {:induction false} SortFilesSorts(fs: seq<string>)
    ensures Sorted(SortFiles(fs)) && multiset(SortFiles(fs)) == multiset(fs)
  {
    if fs != [] {
      SortFilesSorts(fs[1..]);
      InsertSorts(fs[0], SortFiles(fs[1..]));
      assert fs == [fs[0]] + fs[1..];
    }
  }

  lemma {:induction false} SqlFilesAre(listing: seq<string>, f: string)
    ensures multiset(SqlFiles(listing))[f] == if EndsWithSql(f) then multiset(listing)[f] else 0
  {
    if listing != [] {
      SqlFilesAre(listing[1..], f);
      assert listing == [listing[0]] + listing[1..];
    }
  }

  /** The files run are exactly the .sql files of the directory, each as often as it is listed, in key order. */
  lemma SortedMigrationFilesAre(listing: seq<string>)
    ensures Sorted(SortedMigrationFiles(listing))
    ensures forall f :: multiset(SortedMigrationFiles(listing))[f] == if EndsWithSql(f) then multiset(listing)[f] else 0
  {
    SortFilesSorts(SqlFiles(listing));
    forall f ensures multiset(SortedMigrationFiles(listing))[f] == if EndsWithSql(f) then multiset(listing)[f] else 0 {
      SqlFilesAre(listing, f);
    }
  }

  lemma FileAntisymmetric(a: string, b: string)
    requires FileLeq(a, b) && FileLeq(b, a)
    ensures a == b
  {
    LexAntisymmetric(a, b);
  }

  lemma LeastComesFirst(a: seq<string>, f: string)
    requires Sorted(a) && f in a
    ensures FileLeq(a[0], f)
  {
    var i :| 0 <= i < |a| && a[i] == f;
    if i == 0 { LexTotal(f, f); }
  }

  /** The run order does not depend on the order in which the directory lists its files. */
  lemma {:induction false} SortedIsUnique(a: seq<string>, b: seq<string>)
    requires Sorted(a) && Sorted(b) && multiset(a) == multiset(b)
    ensures a == b
  {
    hide FileLeq;
    assert |multiset(a)| == |a| && |multiset(b)| == |b|;
    if a != [] {
      assert a[0] in multiset(b) && b[0] in multiset(a);
      LeastComesFirst(a, b[0]);
      LeastComesFirst(b, a[0]);
      FileAntisymmetric(a[0], b[0]);
      TailsAgree(a, b);
      SortedIsUnique(a[1..], b[1..]);
      assert a == [a[0]] + a[1..] && b == [b[0]] + b[1..];
    }
  }

  lemma TailsAgree(a: seq<string>, b: seq<string>)
    requires a != [] && b != [] && a[0] == b[0] && multiset(a) == multiset(b)
    ensures multiset(a[1..]) == multiset(b[1..])
  {
    assert a == [a[0]] + a[1..] && b == [b[0]] + b[1..];
    assert multiset(a[1..]) == multiset(a) - multiset{a[0]};
    assert multiset(b[1..]) == multiset(b) - multiset{b[0]};
  }

  /* ----- sections of a file ----- */

  predicate Mentions(line: string, word: string) {
    var stripped := Lower(Strip(line));
    "--" <= stripped && Contains(stripped, word)
  }

  predicate IsDownMarker(line: string) {
    Mentions(line, "down")
  }

  /** How many lines come before the first down marker. */
  function FirstDown(lines: seq<string>): (d: nat)
    ensures d <= |lines|
  {
    if lines == [] || IsDownMarker(lines[0]) then 0 else 1 + FirstDown(lines[1..])
  }

  /** The lines that are not comments mentioning the word. */
  function Without(lines: seq<string>, word: string): seq<string> {
    if lines == [] then []
    else (if Mentions(lines[0], word) then [] else [lines[0]]) + Without(lines[1..], word)
  }

  function UpLines(lines: seq<string>): seq<string> {
    Without(lines[..FirstDown(lines)], "up")
  }

  function DownLines(lines: seq<string>): seq<string> {
    Without(lines[FirstDown(lines)..], "down")
  }

  /** parse_migration_sql, for a direction already known to be "up" or "down". */
  function Section(sql: string, down: bool): string {
    var lines := SplitLines(sql);
    Strip(JoinLines(if down then DownLines(lines) else UpLines(lines)))
  }

  datatype ParseError = InvalidDirection

  lemma {:induction false} WithoutAppend(a: seq<string>, b: seq<string>, word: string)
    ensures Without(a + b, word) == Without(a, word) + Without(b, word)
  {
    if a == [] {
      assert a + b == b;
    } else {
      assert (a + b)[1..] == a[1..] + b;
      WithoutAppend(a[1..], b, word);
    }
  }

  lemma {:induction false} FirstDownIs(lines: seq<string>, d: nat)
    requires d <= |lines|
    requires forall i :: 0 <= i < d ==> !IsDownMarker(lines[i])
    requires d < |lines| ==> IsDownMarker(lines[d])
    ensures FirstDown(lines) == d
  {
    if d > 0 { FirstDownIs(lines[1..], d - 1); }
  }

  lemma FirstDownIsFirst(lines: seq<string>)
    ensures var d := FirstDown(lines);
      && (forall i :: 0 <= i < d ==> !IsDownMarker(lines[i]))
      && (d < |lines| ==> IsDownMarker(lines[d]))
  {
    if lines != [] && !IsDownMarker(lines[0]) {
      hide IsDownMarker;
      FirstDownIsFirst(lines[1..]);
      assert forall i :: 1 <= i < |lines| ==> lines[i] == lines[1..][i - 1];
    }
  }

  /** The two lists and the current section of the line loop. */
  datatype Sections = Sections(up: seq<string>, down: seq<string>, inUp: bool)

  function Place(s: Sections, line: string): Sections {
    if IsDownMarker(line) then s.(inUp := false)
    else if Mentions(line, "up") && s.inUp then s
    else if s.inUp then s.(up := s.up + [line])
    else s.(down := s.down + [line])
  }

  function Scan(lines: seq<string>): Sections {
    if lines == [] then Sections([], [], true)
    else Place(Scan(lines[..|lines| - 1]), lines[|lines| - 1])
  }

  lemma {:induction false} ScanWithoutDown(lines: seq<string>)
    requires FirstDown(lines) == |lines|
    ensures Scan(lines) == Sections(Without(lines, "up"), [], true)
  {
    if lines != [] {
      var n := |lines| - 1;
      FirstDownIsFirst(lines);
      FirstDownIs(lines[..n], n);
      ScanWithoutDown(lines[..n]);
      WithoutAppend(lines[..n], [lines[n]], "up");
      assert lines == lines[..n] + [lines[n]];
    }
  }

  lemma WithoutOne(line: string, word: string)
    ensures Without([line], word) == if Mentions(line, word) then [] else [line]
  {
  }

  lemma {:induction false} ScanAfterDown(lines: seq<string>, d: nat)
    requires d < |lines| && FirstDown(lines) == d
    ensures Scan(lines) == Sections(Without(lines[..d], "up"), Without(lines[d..], "down"), false)
  {
    hide Mentions, FirstDown, Without;
    var n := |lines| - 1;
    FirstDownIsFirst(lines);
    FirstDownIs(lines[..n], d);
    if d == n {
      ScanWithoutDown(lines[..n]);
      WithoutOne(lines[n], "down");
      assert lines[d..] == [lines[n]];
    } else {
      ScanAfterDown(lines[..n], d);
      assert lines[..n][..d] == lines[..d];
      WithoutAppend(lines[d..n], [lines[n]], "down");
      WithoutOne(lines[n], "down");
      assert lines[d..] == lines[d..n] + [lines[n]];
    }
  }

  /**
   One pass over the lines splits them at the first down marker: what is kept before
   it are the up lines, what is kept after it the down lines, in their order.
   */
  lemma ScanSplitsAtFirstDown(lines: seq<string>)
    ensures Scan(lines) == Sections(UpLines(lines), DownLines(lines), FirstDown(lines) == |lines|)
  {
    if FirstDown(lines) == |lines| {
      ScanWithoutDown(lines);
      assert lines[..|lines|] == lines && lines[|lines|..] == [];
    } else {
      ScanAfterDown(lines, FirstDown(lines));
    }
  }

  /** The line loop: one pass, two lists, one switch of section. */
  method ParseMigrationSql(sql: string, direction: string) returns (r: Result<string, ParseError>)
    ensures r.Err? <==> Lower(direction) != "up" && Lower(direction) != "down"
    ensures r.Ok? ==> r.value == Section(sql, Lower(direction) == "down")
  {
    var dir := Lower(direction);
    if dir != "up" && dir != "down" {
      return Err(InvalidDirection);
    }
    var lines := SplitLines(sql);
    var upLines, downLines: seq<string> := [], [];
    var inUp := true;
    for i := 0 to |lines|
      invariant Sections(upLines, downLines, inUp) == Scan(lines[..i])
    {
      var line := lines[i];
      assert lines[..i + 1][..i] == lines[..i];
      if IsDownMarker(line) {
        inUp := false;
      } else if Mentions(line, "up") && inUp {
      } else if inUp {
        upLines := upLines + [line];
      } else {
        downLines := downLines + [line];
      }
    }
    assert lines[..|lines|] == lines;
    ScanSplitsAtFirstDown(lines);
    return Ok(Strip(JoinLines(if dir == "up" then upLines else downLines)));
  }

  /* ----- a file printed as two sections ----- */

  function Printed(up: string, down: string): string {
    "-- up\n" + up + "\n-- down\n" + down
  }

  lemma {:induction false} WithoutNothing(lines: seq<string>, word: string)
    requires forall i :: 0 <= i < |lines| ==> !Mentions(lines[i], word)
    ensures Without(lines, word) == lines
  {
    if lines != [] { WithoutNothing(lines[1..], word); }
  }

  lemma MarkersAreMarkers()
    ensures Mentions("-- up", "up") && !IsDownMarker("-- up") && IsDownMarker("-- down")
  {
    StripKeeps("-- up");
    StripKeeps("-- down");
    LowerKeeps("-- up");
    LowerKeeps("-- down");
    hide Strip, Lower;
    ContainsAt("-- up", 3, "up");
    ContainsAt("-- down", 3, "down");
    NoLetterNoWord("-- up", "down");
  }

  lemma StripKeeps(s: string)
    requires s != "" && !IsSpace(s[0]) && !IsSpace(s[|s| - 1])
    ensures Strip(s) == s
  {
  }

  lemma {:induction false} NoLetterNoWord(s: string, word: string)
    requires word != "" && word[0] !in s
    ensures !Contains(s, word)
  {
    if s != "" {
      assert s[0] in s;
      NoLetterNoWord(s[1..], word);
    }
  }

  lemma {:induction false} LowerKeeps(s: string)
    requires forall i :: 0 <= i < |s| ==> !('A' <= s[i] <= 'Z')
    ensures Lower(s) == s
  {
    if s != "" { LowerKeeps(s[1..]); }
  }

  lemma {:induction false} ContainsAt(s: string, k: nat, needle: string)
    requires k + |needle| <= |s| && s[k..k + |needle|] == needle
    ensures Contains(s, needle)
  {
    if k > 0 {
      assert s[1..][k - 1..k - 1 + |needle|] == needle;
      ContainsAt(s[1..], k - 1, needle);
    }
  }

  /** Whether the last piece of a file is an empty line does not show in its sections. */
  lemma EmptyLastLine(lines: seq<string>, down: bool)
    ensures
      Strip(JoinLines(if down then DownLines(lines + [""]) else UpLines(lines + [""])))
      == Strip(JoinLines(if down then DownLines(lines) else UpLines(lines)))
  {
    var longer := lines + [""];
    assert !Mentions("", "down") && !Mentions("", "up") by { assert StripLeft("") == ""; }
    ScanSplitsAtFirstDown(longer);
    ScanSplitsAtFirstDown(lines);
    assert longer[..|longer| - 1] == lines;
    JoinEmptyLast(UpLines(lines));
    JoinEmptyLast(DownLines(lines));
  }

  lemma {:induction false} JoinEmptyLast(lines: seq<string>)
    ensures Strip(JoinLines(lines + [""])) == Strip(JoinLines(lines))
  {
    JoinAppendEmpty(lines);
    if lines != [] { StripRightSpace(JoinLines(lines), '\n'); }
  }

  lemma {:induction false} JoinAppendEmpty(lines: seq<string>)
    ensures JoinLines(lines + [""]) == if lines == [] then "" else JoinLines(lines) + "\n"
  {
    if |lines| > 0 {
      assert (lines + [""])[1..] == lines[1..] + [""];
      JoinAppendEmpty(lines[1..]);
    }
  }

  lemma SectionOfPieces(sql: string, down: bool)
    ensures Section(sql, down) == Strip(JoinLines(if down then DownLines(Pieces(sql)) else UpLines(Pieces(sql))))
  {
    var p := Pieces(sql);
    if p[|p| - 1] == "" {
      assert p == p[..|p| - 1] + [""];
      EmptyLastLine(p[..|p| - 1], down);
    }
  }

  /** No comment line of the up body mentions "up" or "down" and none of the down body "down". */
  predicate Printable(up: string, down: string) {
    && (forall line :: line in Pieces(up) ==> !Mentions(line, "up") && !IsDownMarker(line))
    && (forall line :: line in Pieces(down) ==> !IsDownMarker(line))
  }

  /** A file printed as an up section and a down section is parsed into both bodies. */
  lemma PrintedFileIsParsed(up: string, down: string)
    requires Printable(up, down)
    ensures Section(Printed(up, down), false) == Strip(up)
    ensures Section(Printed(up, down), true) == Strip(down)
  {
    PiecesOfPrinted(up, down);
    MarkersAreMarkers();
    SectionsBetweenMarkers("-- up", Pieces(up), "-- down", Pieces(down));
    SectionOfPieces(Printed(up, down), false);
    SectionOfPieces(Printed(up, down), true);
    JoinPieces(up);
    JoinPieces(down);
  }

  lemma SectionsBetweenMarkers(upMarker: string, u: seq<string>, downMarker: string, d: seq<string>)
    requires Mentions(upMarker, "up") && !IsDownMarker(upMarker) && IsDownMarker(downMarker)
    requires forall line :: line in u ==> !Mentions(line, "up") && !IsDownMarker(line)
    requires forall line :: line in d ==> !IsDownMarker(line)
    ensures var lines := [upMarker] + u + [downMarker] + d; UpLines(lines) == u && DownLines(lines) == d
  {
    var lines := [upMarker] + u + [downMarker] + d;
    FirstDownIs(lines, 1 + |u|);
    assert lines[..1 + |u|] == [upMarker] + u;
    assert lines[1 + |u|..] == [downMarker] + d;
    WithoutAppend([upMarker], u, "up");
    WithoutAppend([downMarker], d, "down");
    forall i | 0 <= i < |u| ensures !Mentions(u[i], "up") { assert u[i] in u; }
    forall i | 0 <= i < |d| ensures !Mentions(d[i], "down") { assert d[i] in d && !IsDownMarker(d[i]); }
    WithoutNothing(u, "up");
    WithoutNothing(d, "down");
  }

  lemma PiecesOfPrinted(up: string, down: string)
    ensures Pieces(Printed(up, down)) == ["-- up"] + Pieces(up) + ["-- down"] + Pieces(down)
  {
    var u, d, n := "-- up", "-- down", ['\n'];
    OnePiece(u);
    OnePiece(d);
    PrintedIs(up, down);
    hide *;
    PiecesAppend(u, up + n + (d + n + down));
    PiecesAppend(up, d + n + down);
    PiecesAppend(d, down);
    Regroup([u], Pieces(up), [d], Pieces(down));
  }

  lemma Regroup<T>(a: seq<T>, b: seq<T>, c: seq<T>, d: seq<T>)
    ensures a + (b + (c + d)) == a + b + c + d
  {
  }

  lemma PrintedIs(up: string, down: string)
    ensures
      var u, d, n := "-- up", "-- down", ['\n'];
      Printed(up, down) == u + n + (up + n + (d + n + down))
  {
  }

  lemma {:induction false} OnePiece(s: string)
    requires '\n' !in s
    ensures Pieces(s) == [s]
  {
    if s != "" {
      assert s[0] in s && s == [s[0]] + s[1..];
      OnePiece(s[1..]);
    }
  }
}
