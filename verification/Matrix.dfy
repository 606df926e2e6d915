/** The conformance matrix (conformance/report.go): every accepted report, grouped by what it
    was tested against. The matrix is modelled as its header and row records. */
module Matrix {
  import opened ConformanceTypes
  import opened Wrappers
  import opened Catalog
  import opened Report
  import opened Acceptance
  import opened Ordering

  /** A file of the walked directory; `None` when it cannot be read as one report. */
  datatype File = File(path: string, report: Option<ConformanceReport>)
  datatype Entry = Entry(report: ConformanceReport, path: string)

  /** The exact specification, suite, and API tuple a report was tested against. */
  datatype Group = Group(spec: string, suite: string, api: string)

  datatype Line = NoReports | Header(group: Group, groupVersion: GroupVersion) | Row(entry: Entry, cells: seq<Cell>)
  datatype Generation = Written(lines: seq<Line>) | Rejected(path: string)

  // ----- the sort key -----

  /** `cmp.Or` over the comparisons of corresponding texts. */
  predicate KeyLe(a: seq<string>, b: seq<string>) {
    a == [] || (b != [] && if a[0] == b[0] then KeyLe(a[1..], b[1..]) else StrLe(a[0], b[0]))
  }

  lemma {:induction false} KeyLeTotal(a: seq<string>, b: seq<string>)
    ensures KeyLe(a, b) || KeyLe(b, a)
  {
    if a != [] && b != [] {
      StrLeTotal(a[0], b[0]);
      KeyLeTotal(a[1..], b[1..]);
    }
  }

  lemma {:induction false} KeyLeAntisymmetric(a: seq<string>, b: seq<string>)
    requires KeyLe(a, b) && KeyLe(b, a)
    ensures a == b
  {
    if a != [] {
      if a[0] == b[0] {
        KeyLeAntisymmetric(a[1..], b[1..]);
        assert a == [a[0]] + a[1..] && b == [b[0]] + b[1..];
      } else {
        StrLeAntisymmetric(a[0], b[0]);
      }
    }
  }

  lemma {:induction false} KeyLeTransitive(a: seq<string>, b: seq<string>, c: seq<string>)
    requires KeyLe(a, b) && KeyLe(b, c)
    ensures KeyLe(a, c)
  {
    if a != [] {
      if a[0] == b[0] == c[0] {
        KeyLeTransitive(a[1..], b[1..], c[1..]);
      } else {
        if a[0] == b[0] { StrLeTotal(a[0], a[0]); }
        if b[0] == c[0] { StrLeTotal(b[0], b[0]); }
        StrLeTransitive(a[0], b[0], c[0]);
        if a[0] == c[0] {
          StrLeAntisymmetric(a[0], b[0]);
        }
      }
    }
  }

  /** Keys that begin alike enclose only keys that begin so too. */
  lemma {:induction false} KeyPrefixConvex(a: seq<string>, b: seq<string>, c: seq<string>, n: nat)
    requires n <= |a| && n <= |b| && n <= |c|
    requires KeyLe(a, b) && KeyLe(b, c)
    requires a[..n] == c[..n]
    ensures b[..n] == a[..n]
  {
    if n > 0 {
      assert a[0] == a[..n][0] == c[..n][0] == c[0];
      if a[0] != b[0] {
        StrLeAntisymmetric(a[0], b[0]);
      }
      assert a[1..][..n - 1] == a[..n][1..] && c[1..][..n - 1] == c[..n][1..];
      KeyPrefixConvex(a[1..], b[1..], c[1..], n - 1);
      assert b[..n] == [b[0]] + b[1..][..n - 1] && a[..n] == [a[0]] + a[1..][..n - 1];
    }
  }

  function Key(e: Entry): (k: seq<string>)
    ensures |k| == 9
  {
    var r := e.report;
    [ RevisionText(r.specification.revision), r.suite.source.revision, RevisionText(r.api.revision),
      r.implementation.organization, r.implementation.project, r.implementation.source.version, r.implementation.mode,
      r.date.text, e.path ]
  }

  function GroupOf(e: Entry): Group {
    Group(RevisionText(e.report.specification.revision), e.report.suite.source.revision,
        RevisionText(e.report.api.revision))
  }

  predicate ByKey(a: Entry, b: Entry) {
    KeyLe(Key(a), Key(b))
  }

  lemma ByKeyOrder()
    ensures TotalPreorder(ByKey)
  {
    forall a, b ensures ByKey(a, b) || ByKey(b, a) { KeyLeTotal(Key(a), Key(b)); }
    forall a, b, c | ByKey(a, b) && ByKey(b, c) ensures ByKey(a, c) { KeyLeTransitive(Key(a), Key(b), Key(c)); }
  }

  ghost predicate DistinctPaths(entries: seq<Entry>) {
    forall i, j :: 0 <= i < j < |entries| ==> entries[i].path != entries[j].path
  }

  lemma PathsDistinguish(entries: seq<Entry>)
    requires DistinctPaths(entries)
    ensures Distinguishes(ByKey, entries)
  {
    forall a, b | a in entries && b in entries && ByKey(a, b) && ByKey(b, a) ensures a == b {
      KeyLeAntisymmetric(Key(a), Key(b));
      assert a.path == Key(a)[8] == Key(b)[8] == b.path;
      var i :| 0 <= i < |entries| && entries[i] == a;
      var j :| 0 <= j < |entries| && entries[j] == b;
    }
  }

  // ----- writing -----

  function Cells(p: ProfileReport): seq<Cell> {
    seq(|FEATURES|, i requires 0 <= i < |FEATURES| => FeatureStatus(p, FEATURES[i]))
  }

  function RowOf(e: Entry): Line
    requires e.report.profiles != []
  {
    Row(e, Cells(e.report.profiles[0]))
  }

  predicate HaveProfile(entries: seq<Entry>) {
    forall e :: e in entries ==> e.report.profiles != []
  }

  /** The lines for the entries when `group` is the group of the header above. */
  function Lines(entries: seq<Entry>, group: Group): seq<Line>
    requires HaveProfile(entries)
  {
    if entries == [] then []
    else
      var e := entries[0];
      var below := [RowOf(e)] + Lines(entries[1..], GroupOf(e));
      if GroupOf(e) != group then [Header(GroupOf(e), e.report.api.groupVersion)] + below else below
  }

  const NO_GROUP := Group("", "", "")

  function Document(entries: seq<Entry>): seq<Line>
    requires HaveProfile(entries)
  {
    if entries == [] then [NoReports] else Lines(entries, NO_GROUP)
  }

  ghost predicate AcceptedFile(f: File) {
    f.report.Some? && ReportProblem(f.report.value, true).None?
  }

  /** The entries are the reports of the files, in walk order. */
  predicate ReportsOf(entries: seq<Entry>, files: seq<File>) {
    |entries| == |files| && forall i :: 0 <= i < |files| ==> files[i] == File(entries[i].path, Some(entries[i].report))
  }

  /** One file of the walk: its entry, unless it is not an accepted report. */
  method ReadEntry(f: File) returns (e: Option<Entry>)
    ensures e.Some? <==> AcceptedFile(f)
    ensures e.Some? ==> f == File(e.value.path, Some(e.value.report)) && AcceptedEntry(e.value)
  {
    if f.report.None? {
      return None;
    }
    var err := ValidateReport(f.report.value, true);
    if err.Some? {
      return None;
    }
    e := Some(Entry(f.report.value, f.path));
    AcceptedGroup(e.value);
  }

  /** What the matrix relies on in an accepted report. */
  predicate AcceptedEntry(e: Entry) {
    e.report.profiles != [] && GroupOf(e) != NO_GROUP
  }

  lemma AcceptedGroup(e: Entry)
    requires ReportProblem(e.report, true).None?
    ensures AcceptedEntry(e)
  {
    ReportProblemMeaning(e.report, true);
    assert RevisionText(PinnedSpecification)[0] == '3';
  }

  /** The entries are those of the files, all accepted. */
  ghost predicate Walked(entries: seq<Entry>, files: seq<File>) {
    && ReportsOf(entries, files)
    && (forall f :: f in files ==> AcceptedFile(f))
    && (forall e :: e in entries ==> AcceptedEntry(e))
  }

  lemma WalkedNext(entries: seq<Entry>, files: seq<File>, e: Entry)
    requires Walked(entries, files) && AcceptedEntry(e) && AcceptedFile(File(e.path, Some(e.report)))
    ensures Walked(entries + [e], files + [File(e.path, Some(e.report))])
  {
  }

  /** The walk: it stops at the first file that is not accepted. */
  method Walk(files: seq<File>) returns (entries: seq<Entry>, bad: Option<File>)
    ensures bad.None? ==> Walked(entries, files)
    ensures bad.Some? ==> bad.value in files && !AcceptedFile(bad.value)
  {
    entries := [];
    for i := 0 to |files|
      invariant Walked(entries, files[..i])
    {
      var e := ReadEntry(files[i]);
      if e.None? {
        return entries, Some(files[i]);
      }
      WalkedNext(entries, files[..i], e.value);
      PrefixNext(files, i);
      entries := entries + [e.value];
    }
    assert files[..|files|] == files;
    bad := None;
  }

  /** What generating answers for these files: the document of their reports in some sorted order,
      or a file that is not accepted. */
  ghost predicate Generates(files: seq<File>, out: Generation) {
    match out
    case Written(lines) =>
      exists entries, sorted ::
        && Walked(entries, files) && SortOf(ByKey, sorted, entries)
        && HaveProfile(sorted) && lines == Document(sorted)
    case Rejected(path) => exists f :: f in files && f.path == path && !AcceptedFile(f)
  }

  /** Writes the matrix when every file is accepted; otherwise names one that is not and writes
      nothing. */
  method GenerateMatrix(files: seq<File>) returns (out: Generation)
    ensures Generates(files, out)
    ensures out.Written? <==> forall f :: f in files ==> AcceptedFile(f)
  {
    var found, bad := Walk(files);
    if bad.Some? {
      return Rejected(bad.value.path);
    }
    ByKeyOrder();
    var ordered := SortFunc(found, ByKey);
    SameElements(ordered, found);
    var lines := WriteLines(ordered);
    out := Written(lines);
  }

  method WriteCells(p: ProfileReport, columns: seq<Feature>) returns (cells: seq<Cell>)
    requires columns == FEATURES
    ensures cells == Cells(p)
  {
    cells := [];
    for k := 0 to |columns|
      invariant cells == Cells(p)[..k]
    {
      cells := cells + [FeatureStatus(p, columns[k])];
    }
  }

  /** The lines of one entry under the header of `group`. */
  function EntryLines(e: Entry, group: Group): seq<Line>
    requires e.report.profiles != []
  {
    (if GroupOf(e) != group then [Header(GroupOf(e), e.report.api.groupVersion)] else []) + [RowOf(e)]
  }

  lemma LinesNext(out: seq<Line>, entries: seq<Entry>, i: nat, group: Group)
    requires i < |entries| && HaveProfile(entries[i..])
    ensures entries[i] in entries[i..] && HaveProfile(entries[i + 1..])
    ensures out + Lines(entries[i..], group)
            == out + EntryLines(entries[i], group) + Lines(entries[i + 1..], GroupOf(entries[i]))
  {
    var e := entries[i];
    assert entries[i..][0] == e && entries[i..][1..] == entries[i + 1..];
    TailMultiset(entries[i..]);
    assert Lines(entries[i..], group) == EntryLines(e, group) + Lines(entries[i + 1..], GroupOf(e));
  }

  method WriteLines(entries: seq<Entry>) returns (out: seq<Line>)
    requires HaveProfile(entries)
    ensures out == Document(entries)
  {
    var columns := Features();
    out := [];
    if |entries| == 0 {
      out := out + [NoReports];
    }
    var group := NO_GROUP;
    assert entries[0..] == entries;
    for i := 0 to |entries|
      invariant HaveProfile(entries[i..])
      invariant entries == [] ==> out == [NoReports]
      invariant entries != [] ==> out + Lines(entries[i..], group) == Lines(entries, NO_GROUP)
    {
      var e := entries[i];
      LinesNext(out, entries, i, group);
      ghost var next := out + EntryLines(e, group);
      if GroupOf(e) != group {
        group := GroupOf(e);
        out := out + [Header(group, e.report.api.groupVersion)];
      }
      var cells := WriteCells(e.report.profiles[0], columns);
      out := out + [Row(e, cells)];
      assert out == next;
    }
  }

  // ----- what the matrix shows -----

  /** Entries of one group stand together. */
  ghost predicate Contiguous(entries: seq<Entry>) {
    forall i, j, k :: 0 <= i < j < k < |entries| && GroupOf(entries[i]) == GroupOf(entries[k]) ==>
        GroupOf(entries[j]) == GroupOf(entries[i])
  }

  lemma GroupBetween(a: Entry, b: Entry, c: Entry)
    requires ByKey(a, b) && ByKey(b, c) && GroupOf(a) == GroupOf(c)
    ensures GroupOf(b) == GroupOf(a)
  {
    var x, y, z := Key(a), Key(b), Key(c);
    assert x[..3] == z[..3];
    KeyPrefixConvex(x, y, z, 3);
    assert y[0] == y[..3][0] == x[..3][0] && y[1] == y[..3][1] == x[..3][1] && y[2] == y[..3][2] == x[..3][2];
  }

  lemma SortedContiguous(entries: seq<Entry>)
    requires SortedBy(ByKey, entries)
    ensures Contiguous(entries)
  {
    forall i, j, k | 0 <= i < j < k < |entries| && GroupOf(entries[i]) == GroupOf(entries[k])
      ensures GroupOf(entries[j]) == GroupOf(entries[i])
    {
      assert ByKey(entries[i], entries[j]) && ByKey(entries[j], entries[k]);
      GroupBetween(entries[i], entries[j], entries[k]);
    }
  }

  function Headers(lines: seq<Line>): seq<Group> {
    if lines == [] then [] else (if lines[0].Header? then [lines[0].group] else []) + Headers(lines[1..])
  }

  function Rows(lines: seq<Line>): seq<Entry> {
    if lines == [] then [] else (if lines[0].Row? then [lines[0].entry] else []) + Rows(lines[1..])
  }

  /** Every row stands under the header of its own group, `above` being the header in force. */
  predicate Placed(lines: seq<Line>, above: Group) {
    lines == []
    || match lines[0]
       case Header(g, _) => Placed(lines[1..], g)
       case Row(e, _) => GroupOf(e) == above && Placed(lines[1..], above)
       case NoReports => Placed(lines[1..], above)
  }

  /** Entries of the group in force, if any, come first. */
  ghost predicate OpensWith(entries: seq<Entry>, group: Group) {
    forall j, k :: 0 <= j <= k < |entries| && GroupOf(entries[k]) == group ==> GroupOf(entries[j]) == group
  }

  lemma ConsLine(line: Line, rest: seq<Line>, above: Group)
    ensures Rows([line] + rest) == (if line.Row? then [line.entry] else []) + Rows(rest)
    ensures Headers([line] + rest) == (if line.Header? then [line.group] else []) + Headers(rest)
    ensures line.Header? ==> Placed([line] + rest, above) == Placed(rest, line.group)
    ensures line.Row? && GroupOf(line.entry) == above ==> Placed([line] + rest, above) == Placed(rest, above)
  {
    assert ([line] + rest)[1..] == rest;
  }

  lemma LinesStep(entries: seq<Entry>, group: Group)
    requires HaveProfile(entries) && entries != []
    ensures var e := entries[0]; var lines, below := Lines(entries, group), Lines(entries[1..], GroupOf(e));
            && Rows(lines) == [e] + Rows(below)
            && Headers(lines) == (if GroupOf(e) != group then [GroupOf(e)] else []) + Headers(below)
            && (Placed(lines, group) <==> Placed(below, GroupOf(e)))
  {
    var e := entries[0];
    var below := Lines(entries[1..], GroupOf(e));
    var rows := [RowOf(e)] + below;
    ConsLine(RowOf(e), below, GroupOf(e));
    assert Rows(rows) == [e] + Rows(below) && Headers(rows) == Headers(below);
    if GroupOf(e) != group {
      var header := Header(GroupOf(e), e.report.api.groupVersion);
      ConsLine(header, rows, group);
      assert Lines(entries, group) == [header] + rows;
    } else {
      assert Lines(entries, group) == rows;
    }
  }

  /** Every entry has one row, in order, under a header of its group. */
  lemma {:induction false} LinesRows(entries: seq<Entry>, group: Group)
    requires HaveProfile(entries)
    ensures Rows(Lines(entries, group)) == entries && Placed(Lines(entries, group), group)
  {
    if entries != [] {
      LinesStep(entries, group);
      LinesRows(entries[1..], GroupOf(entries[0]));
      assert entries == [entries[0]] + entries[1..];
    }
  }

  lemma ContiguousTail(entries: seq<Entry>, group: Group)
    requires entries != [] && Contiguous(entries) && OpensWith(entries, group)
    ensures Contiguous(entries[1..]) && OpensWith(entries[1..], GroupOf(entries[0]))
    ensures GroupOf(entries[0]) != group ==> forall x :: x in entries ==> GroupOf(x) != group
  {
    var rest := entries[1..];
    assert forall i :: 0 <= i < |rest| ==> rest[i] == entries[i + 1];
    forall j, k | 0 <= j <= k < |rest| && GroupOf(rest[k]) == GroupOf(entries[0])
      ensures GroupOf(rest[j]) == GroupOf(entries[0])
    {
      assert j < k ==> GroupOf(entries[j + 1]) == GroupOf(entries[0]);
    }
  }

  /** Each group other than the one in force gets exactly one header. */
  lemma {:induction false} LinesHeaders(entries: seq<Entry>, group: Group)
    requires HaveProfile(entries) && Contiguous(entries) && OpensWith(entries, group)
    ensures var headers := Headers(Lines(entries, group));
            && NoDuplicates(headers)
            && forall g :: g in headers <==> g != group && exists e :: e in entries && GroupOf(e) == g
  {
    if entries != [] {
      var g, rest := GroupOf(entries[0]), entries[1..];
      ContiguousTail(entries, group);
      LinesStep(entries, group);
      LinesHeaders(rest, g);
      TailMultiset(entries);
      NoDuplicatesPrepend(g, Headers(Lines(rest, g)));
      assert forall e :: e in entries <==> e == entries[0] || e in rest;
    }
  }

  /** For accepted reports the matrix has one row per report, one header per distinct tuple, and
      every row stands under the header of its tuple. */
  lemma MatrixMeaning(entries: seq<Entry>, sorted: seq<Entry>)
    requires forall e :: e in entries ==> AcceptedEntry(e)
    requires SortOf(ByKey, sorted, entries) && HaveProfile(sorted)
    ensures var lines := Document(sorted);
            && multiset(Rows(lines)) == multiset(entries)
            && NoDuplicates(Headers(lines))
            && (forall g :: g in Headers(lines) <==> exists e :: e in entries && GroupOf(e) == g)
            && Placed(lines, NO_GROUP)
  {
    SameElements(sorted, entries);
    SortedContiguous(sorted);
    forall k | 0 <= k < |sorted| ensures GroupOf(sorted[k]) != NO_GROUP {
      assert AcceptedEntry(sorted[k]);
    }
    LinesRows(sorted, NO_GROUP);
    LinesHeaders(sorted, NO_GROUP);
    if sorted == [] {
      assert [NoReports][1..] == [];
    }
  }

  lemma EntryOrderIrrelevant(first: seq<Entry>, second: seq<Entry>, sortedFirst: seq<Entry>, sortedSecond: seq<Entry>)
    requires DistinctPaths(first) && multiset(first) == multiset(second)
    requires SortOf(ByKey, sortedFirst, first) && SortOf(ByKey, sortedSecond, second)
    ensures sortedFirst == sortedSecond
  {
    PathsDistinguish(first);
    SameElements(sortedFirst, first);
    SortUnique(ByKey, sortedFirst, sortedSecond);
  }

  ghost predicate DistinctFiles(files: seq<File>) {
    forall i, j :: 0 <= i < j < |files| ==> files[i].path != files[j].path
  }

  lemma EntryOfFile(entries: seq<Entry>, files: seq<File>, e: Entry)
    requires ReportsOf(entries, files)
    ensures e in entries <==> File(e.path, Some(e.report)) in files
  {
    if e in entries {
      var i :| 0 <= i < |entries| && entries[i] == e;
      assert files[i] == File(e.path, Some(e.report));
    }
    if File(e.path, Some(e.report)) in files {
      var i :| 0 <= i < |files| && files[i] == File(e.path, Some(e.report));
      assert entries[i] == e;
    }
  }

  lemma EntriesOfFiles(entries: seq<Entry>, files: seq<File>)
    requires ReportsOf(entries, files) && NoDuplicates(files)
    ensures NoDuplicates(entries)
  {
    forall i, j | 0 <= i < j < |entries| ensures entries[i] != entries[j] {
      assert files[i] != files[j];
    }
  }

  /** Files in another order have their reports in another order. */
  lemma EntriesPermutation(a: seq<Entry>, first: seq<File>, b: seq<Entry>, second: seq<File>)
    requires ReportsOf(a, first) && ReportsOf(b, second) && multiset(first) == multiset(second) && NoDuplicates(first)
    ensures multiset(a) == multiset(b)
  {
    SameElements(first, second);
    NoDuplicatesPermutation(first, second);
    EntriesOfFiles(a, first);
    EntriesOfFiles(b, second);
    forall e ensures e in a <==> e in b {
      EntryOfFile(a, first, e);
      EntryOfFile(b, second, e);
    }
    NoDuplicatesMultiset(a);
    NoDuplicatesMultiset(b);
    assert (set e | e in a) == (set e | e in b);
  }

  lemma WrittenAlike(first: seq<File>, second: seq<File>, a: Generation, b: Generation)
    requires DistinctFiles(first) && multiset(first) == multiset(second)
    requires Generates(first, a) && Generates(second, b) && a.Written? && b.Written?
    ensures a == b
  {
    var x, sortedX :| && Walked(x, first) && SortOf(ByKey, sortedX, x)
                      && HaveProfile(sortedX) && a.lines == Document(sortedX);
    var y, sortedY :| && Walked(y, second) && SortOf(ByKey, sortedY, y)
                      && HaveProfile(sortedY) && b.lines == Document(sortedY);
    EntriesPermutation(x, first, y, second);
    EntryOrderIrrelevant(x, y, sortedX, sortedY);
  }

  /** The order of the walk does not matter: two walks over the same files, whose paths are
      distinct, both write the same matrix or both write none. */
  lemma WalkOrderIrrelevant(first: seq<File>, second: seq<File>, a: Generation, b: Generation)
    requires DistinctFiles(first) && multiset(first) == multiset(second)
    requires Generates(first, a) && Generates(second, b)
    ensures a.Written? <==> b.Written?
    ensures a.Written? ==> a == b
  {
    SameElements(first, second);
    if a.Written? && b.Written? {
      WrittenAlike(first, second, a, b);
    }
  }

  // ----- the cells -----

  /** The k-th cell of a report: unclaimed exactly when the feature is not claimed, else the outcome
      of the one test about it, passed or skipped, and passed if the report is a success. */
  ghost predicate CellShows(r: ConformanceReport, feature: Feature, cell: Cell) {
    && r.profiles != []
    && (cell == Unclaimed <==> feature !in r.profiles[0].supportedFeatures)
    && (cell != Unclaimed ==>
          && cell in {Cell(Passed), Cell(Skipped)} && (r.result == Success ==> cell == Cell(Passed))
          && exists t :: t in r.profiles[0].tests && t.requirement.feature == feature && cell == Cell(t.outcome))
  }

  ghost predicate RowShows(e: Entry, cells: seq<Cell>) {
    |cells| == |FEATURES| && forall k :: 0 <= k < |FEATURES| ==> CellShows(e.report, FEATURES[k], cells[k])
  }

  lemma RowCells(e: Entry)
    requires ReportProblem(e.report, true).None? && e.report.profiles != []
    ensures RowShows(e, Cells(e.report.profiles[0]))
  {
    var p := e.report.profiles[0];
    forall k | 0 <= k < |FEATURES| ensures CellShows(e.report, FEATURES[k], Cells(p)[k]) {
      if FEATURES[k] in p.supportedFeatures {
        ClaimedCell(e.report, FEATURES[k]);
      }
    }
  }

  lemma {:induction false} LinesAreRows(entries: seq<Entry>, group: Group)
    requires HaveProfile(entries)
    ensures forall l :: l in Lines(entries, group) && l.Row? ==> l.entry in entries && l == RowOf(l.entry)
  {
    if entries != [] {
      TailMultiset(entries);
      LinesAreRows(entries[1..], GroupOf(entries[0]));
    }
  }

  /** In a written matrix every row is that of an accepted file, and each of its cells shows what
      became of the feature. */
  lemma RowsMeaning(files: seq<File>, lines: seq<Line>)
    requires Generates(files, Written(lines))
    ensures forall l :: l in lines && l.Row? ==>
              File(l.entry.path, Some(l.entry.report)) in files && RowShows(l.entry, l.cells)
  {
    var entries, sorted :| && Walked(entries, files) && SortOf(ByKey, sorted, entries)
                           && HaveProfile(sorted) && lines == Document(sorted);
    SameElements(sorted, entries);
    LinesAreRows(sorted, NO_GROUP);
    forall l | l in lines && l.Row?
      ensures File(l.entry.path, Some(l.entry.report)) in files && RowShows(l.entry, l.cells)
    {
      EntryOfFile(entries, files, l.entry);
      RowCells(l.entry);
    }
  }

  /** In a written matrix the rows are the files' reports, each once, and each tuple has one header,
      under which its rows stand. */
  lemma WrittenMeaning(files: seq<File>, lines: seq<Line>)
    requires Generates(files, Written(lines))
    ensures |Rows(lines)| == |files|
    ensures forall e :: e in Rows(lines) <==> File(e.path, Some(e.report)) in files
    ensures NoDuplicates(Headers(lines)) && Placed(lines, NO_GROUP)
    ensures forall g :: g in Headers(lines) <==> exists e :: e in Rows(lines) && GroupOf(e) == g
  {
    var entries, sorted :| && Walked(entries, files) && SortOf(ByKey, sorted, entries)
                           && HaveProfile(sorted) && lines == Document(sorted);
    MatrixMeaning(entries, sorted);
    SameElements(Rows(lines), entries);
    forall e ensures e in Rows(lines) <==> File(e.path, Some(e.report)) in files {
      EntryOfFile(entries, files, e);
    }
  }
}
