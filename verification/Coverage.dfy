/** The coverage gate: totals per production crate, floors, and the ratchet on floors. Percentages are exact. */
module Coverage {
  import opened Base
  import opened TextLines

  /** The production crates, in the order the gate reports them. */
  type Crates = seq<string>

  type Floors = map<string, real>

  ghost predicate FullTable(crates: Crates, floors: Floors) {
    forall crate :: crate in floors <==> crate in crates
  }

  // -------------------------------------------------------------------- floors

  /** A line of the floor table: the crate and the percentage, when it reads as a finite number. */
  datatype Row = Row(crate: string, percent: Option<real>)

  /** How a finite number is read. Infinities and what is no number at all are refused alike. */
  type Reader = string -> Option<real>

  /** Empty lines, comments and the header are skipped. */
  predicate IsData(line: string) {
    line != "" && line[0] != '#' && line != "crate\tminimum_percent"
  }

  /** Exactly two fields; any other number of them is no row. */
  function RowOf(parse: Reader, line: string): Row {
    var n := FirstTab(line);
    if n < |line| && FirstTab(line[n + 1..]) == |line| - n - 1 then Row(line[..n], parse(line[n + 1..]))
    else Row(line, None)
  }

  function RowsOf(parse: Reader, lines: seq<string>): seq<Row> {
    if lines == [] then []
    else
      var last := lines[|lines| - 1];
      RowsOf(parse, lines[..|lines| - 1]) + if IsData(last) then [RowOf(parse, last)] else []
  }

  predicate RowOk(row: Row) {
    row.percent.Some? && 80.0 <= row.percent.value <= 100.0
  }

  /** What is skipped: an empty line, a comment, the header. */
  lemma {:induction false} SkippedAre(line: string)
    ensures !IsData(line) <==>
              line == "" || (exists rest :: line == "#" + rest) || line == "crate" + "\t" + "minimum_percent"
  {
    if line != "" && line[0] == '#' {
      assert line == "#" + line[1..];
    }
  }

  ghost predicate TwoFields(line: string, name: string, text: string) {
    '\t' !in name && '\t' !in text && line == name + "\t" + text
  }

  /** Two fields are a name and a number; a line that is not two fields is no row. */
  lemma {:induction false} RowsAre(parse: Reader, line: string)
    ensures forall name, text :: TwoFields(line, name, text) ==> RowOf(parse, line) == Row(name, parse(text))
    ensures (forall name, text :: !TwoFields(line, name, text)) ==> RowOf(parse, line).percent == None
  {
    var n := FirstTab(line);
    forall name, text | TwoFields(line, name, text) ensures RowOf(parse, line) == Row(name, parse(text)) {
      assert line[|name|] == '\t' && forall i :: 0 <= i < |name| ==> line[i] == name[i];
      assert n == |name| && line[..n] == name && line[n + 1..] == text;
    }
    if n < |line| && FirstTab(line[n + 1..]) == |line| - n - 1 {
      var name, text := line[..n], line[n + 1..];
      assert forall i :: 0 <= i < |text| ==> text[i] != '\t';
      assert TwoFields(line, name, text);
    }
  }

  /** So a data line is accepted exactly when it is a name and a number from 80 to 100, both included. */
  lemma {:induction false} AcceptedAre(parse: Reader, line: string)
    ensures RowOk(RowOf(parse, line)) <==> exists name, text, p :: IsRow(parse, line, name, text, p)
  {
    RowsAre(parse, line);
    if RowOk(RowOf(parse, line)) {
      var name, text :| TwoFields(line, name, text);
      assert IsRow(parse, line, name, text, parse(text).value);
    }
  }

  ghost predicate IsRow(parse: Reader, line: string, name: string, text: string, p: real) {
    TwoFields(line, name, text) && parse(text) == Some(p) && !(p < 80.0) && !(p > 100.0)
  }

  ghost predicate NamesDistinct(rows: seq<Row>) {
    forall i, j :: 0 <= i < j < |rows| ==> rows[i].crate != rows[j].crate
  }

  /** Every production crate exactly once, with a percentage between 80 and 100. */
  ghost predicate TableOk(crates: Crates, rows: seq<Row>) {
    && NamesDistinct(rows)
    && (forall i :: 0 <= i < |rows| ==> RowOk(rows[i]))
    && (forall crate :: crate in crates <==> exists i :: 0 <= i < |rows| && rows[i].crate == crate)
  }

  /** The floors hold the rows, each acceptable and under its own name. */
  ghost predicate Entered(rows: seq<Row>, floors: Floors) {
    && NamesDistinct(rows)
    && (forall i :: 0 <= i < |rows| ==>
          RowOk(rows[i]) && rows[i].crate in floors && Some(floors[rows[i].crate]) == rows[i].percent)
    && (forall crate :: crate in floors ==> exists i :: 0 <= i < |rows| && rows[i].crate == crate)
  }

  lemma {:induction false} RowEnters(rows: seq<Row>, floors: Floors, row: Row)
    requires Entered(rows, floors)
    ensures row.crate !in floors && RowOk(row) ==> Entered(rows + [row], floors[row.crate := row.percent.value])
    ensures row.crate in floors ==> !NamesDistinct(rows + [row])
  {
    var more := rows + [row];
    if row.crate in floors {
      var i :| 0 <= i < |rows| && rows[i].crate == row.crate;
      assert more[i].crate == more[|rows|].crate;
    } else if RowOk(row) {
      assert more[|rows|] == row;
      forall crate | crate in floors ensures exists i :: 0 <= i < |more| && more[i].crate == crate {
        var i :| 0 <= i < |rows| && rows[i].crate == crate;
        assert more[i].crate == crate;
      }
    }
  }

  lemma {:induction false} RowsPrefix(parse: Reader, lines: seq<string>, i: nat)
    requires i <= |lines|
    ensures RowsOf(parse, lines[..i]) <= RowsOf(parse, lines)
    decreases |lines| - i
  {
    if i == |lines| {
      assert lines[..i] == lines;
    } else {
      RowsPrefix(parse, lines, i + 1);
      assert lines[..i + 1][..i] == lines[..i];
    }
  }

  /** A row that cannot be entered spoils every table it is in. */
  lemma {:induction false} RowSpoils(crates: Crates, rows: seq<Row>, row: Row, all: seq<Row>)
    requires rows + [row] <= all && (!RowOk(row) || !NamesDistinct(rows + [row]))
    ensures !TableOk(crates, all)
  {
    assert all[|rows|] == (rows + [row])[|rows|] == row;
    if !NamesDistinct(rows + [row]) {
      var i, j :| 0 <= i < j < |rows + [row]| && (rows + [row])[i].crate == (rows + [row])[j].crate;
      assert all[i].crate == all[j].crate;
    }
  }

  lemma {:induction false} RowsNext(parse: Reader, lines: seq<string>, i: nat)
    requires i < |lines|
    ensures RowsOf(parse, lines[..i + 1]) ==
              RowsOf(parse, lines[..i]) + if IsData(lines[i]) then [RowOf(parse, lines[i])] else []
  {
    assert lines[..i + 1][..i] == lines[..i];
  }

  /** One line of the table: skipped, entered, or refused. */
  method EnterLine(parse: Reader, line: string, floors: Floors, ghost rows: seq<Row>) returns (r: Option<Floors>)
    requires Entered(rows, floors)
    ensures r.Some? ==> Entered(rows + if IsData(line) then [RowOf(parse, line)] else [], r.value)
    ensures r.None? ==> IsData(line) && (!RowOk(RowOf(parse, line)) || !NamesDistinct(rows + [RowOf(parse, line)]))
  {
    if !IsData(line) {
      assert rows + [] == rows;
      return Some(floors);
    }
    var row := RowOf(parse, line);
    RowEnters(rows, floors, row);
    return if !RowOk(row) || row.crate in floors then None else Some(floors[row.crate := row.percent.value]);
  }

  /** `read_floors`, on any text. */
  method ReadFloors(crates: Crates, parse: Reader, text: string) returns (r: Option<Floors>)
    ensures r.Some? <==> TableOk(crates, RowsOf(parse, SplitLines(text)))
    ensures r.Some? ==> FullTable(crates, r.value) && Entered(RowsOf(parse, SplitLines(text)), r.value)
  {
    r := ReadTable(crates, parse, SplitLines(text));
  }

  method ReadTable(crates: Crates, parse: Reader, lines: seq<string>) returns (r: Option<Floors>)
    ensures r.Some? <==> TableOk(crates, RowsOf(parse, lines))
    ensures r.Some? ==> FullTable(crates, r.value) && Entered(RowsOf(parse, lines), r.value)
  {
    var floors: Floors := map[];
    for i := 0 to |lines|
      invariant Entered(RowsOf(parse, lines[..i]), floors)
    {
      ghost var rows := RowsOf(parse, lines[..i]);
      RowsNext(parse, lines, i);
      var entered := EnterLine(parse, lines[i], floors, rows);
      if entered.None? {
        RowsPrefix(parse, lines, i + 1);
        RowSpoils(crates, rows, RowOf(parse, lines[i]), RowsOf(parse, lines));
        return None;
      }
      floors := entered.value;
    }
    assert lines[..|lines|] == lines;
    r := CheckNames(crates, RowsOf(parse, lines), floors);
  }

  /** The final comparison of names. */
  method CheckNames(crates: Crates, ghost rows: seq<Row>, floors: Floors) returns (r: Option<Floors>)
    requires Entered(rows, floors)
    ensures r.Some? <==> TableOk(crates, rows)
    ensures r.Some? ==> r.value == floors && FullTable(crates, floors)
  {
    var production := set crate | crate in crates;
    assert floors.Keys == production <==> forall crate :: crate in floors <==> crate in crates;
    assert forall crate :: crate in floors <==> exists i :: 0 <= i < |rows| && rows[i].crate == crate;
    if floors.Keys != production {
      return None;
    }
    r := Some(floors);
  }

  /** `check_ratchet`: no floor may be lower than before; a floor that is gone counts as zero. */
  method CheckRatchet(current: Floors, previous: Floors) returns (ok: bool)
    ensures ok <==> Ratchets(current, previous)
  {
    var left := previous.Keys;
    while left != {}
      invariant left <= previous.Keys
      invariant forall crate :: crate in previous.Keys - left ==> FloorOf(current, crate) >= previous[crate]
      decreases |left|
    {
      var crate :| crate in left;
      if FloorOf(current, crate) < previous[crate] {
        return false;
      }
      left := left - {crate};
    }
    return true;
  }

  function FloorOf(floors: Floors, crate: string): real {
    if crate in floors then floors[crate] else 0.0
  }

  ghost predicate Ratchets(current: Floors, previous: Floors) {
    forall crate :: crate in previous ==> FloorOf(current, crate) >= previous[crate]
  }

  /** A chain of accepted ratchets between full tables never lowers a floor, end to end. */
  lemma {:induction false} RatchetChain(crates: Crates, tables: seq<Floors>, crate: string)
    requires tables != [] && (forall i :: 0 <= i < |tables| ==> FullTable(crates, tables[i])) && crate in crates
    requires forall i :: 0 <= i < |tables| - 1 ==> Ratchets(tables[i + 1], tables[i])
    ensures FloorOf(tables[0], crate) <= FloorOf(tables[|tables| - 1], crate)
  {
    if |tables| > 1 {
      RatchetChain(crates, tables[..|tables| - 1], crate);
      assert Ratchets(tables[|tables| - 2 + 1], tables[|tables| - 2]);
    }
  }

  // -------------------------------------------------------------------- totals

  /** A file of the coverage report: its path components and line counts. */
  datatype File = File(parts: seq<string>, covered: int, count: int)

  datatype Lines = Lines(covered: int, count: int)

  type Totals = map<string, Lines>

  function IndexOfCrates(parts: seq<string>): (i: nat)
    ensures i <= |parts|
  {
    if parts == [] || parts[0] == "crates" then 0 else 1 + IndexOfCrates(parts[1..])
  }

  /** The component after the first `crates`, when there is one. */
  function CrateOf(file: File): Option<string> {
    var i := IndexOfCrates(file.parts);
    if i + 1 < |file.parts| then Some(file.parts[i + 1]) else None
  }

  ghost predicate LiesIn(parts: seq<string>, crate: string, front: seq<string>, rest: seq<string>) {
    "crates" !in front && parts == front + ["crates", crate] + rest
  }

  /** The crate of a file is what follows the first `crates` in its path. */
  lemma {:induction false} CrateIs(file: File, crate: string)
    ensures CrateOf(file) == Some(crate) <==> exists front, rest :: LiesIn(file.parts, crate, front, rest)
  {
    IndexIsFirst(file.parts);
    var i := IndexOfCrates(file.parts);
    if CrateOf(file) == Some(crate) {
      assert file.parts == file.parts[..i] + ["crates", crate] + file.parts[i + 2..];
      assert LiesIn(file.parts, crate, file.parts[..i], file.parts[i + 2..]);
    }
    forall front, rest | LiesIn(file.parts, crate, front, rest) ensures CrateOf(file) == Some(crate) {
      assert file.parts[|front|] == "crates" && file.parts[|front| + 1] == crate;
      assert forall j :: 0 <= j < |front| ==> file.parts[j] == front[j];
      assert i == |front|;
    }
  }

  lemma {:induction false} IndexIsFirst(parts: seq<string>)
    ensures var i := IndexOfCrates(parts);
            "crates" !in parts[..i] && (i < |parts| ==> parts[i] == "crates")
  {
    if parts != [] && parts[0] != "crates" {
      IndexIsFirst(parts[1..]);
      var i := IndexOfCrates(parts);
      assert parts[..i] == [parts[0]] + parts[1..][..i - 1];
    }
  }

  predicate IsProduction(crates: Crates, file: File) {
    CrateOf(file).Some? && CrateOf(file).value in crates
  }

  predicate CountsOk(file: File) {
    0 <= file.covered <= file.count
  }

  /** The lines of the given files that belong to `crate`. */
  ghost function LinesOf(files: seq<File>, crate: string): Lines {
    if files == [] then Lines(0, 0)
    else
      var rest, last := LinesOf(files[..|files| - 1], crate), files[|files| - 1];
      if CrateOf(last) == Some(crate) then Lines(rest.covered + last.covered, rest.count + last.count) else rest
  }

  ghost predicate TotalsOf(crates: Crates, files: seq<File>, totals: Totals) {
    && (forall crate :: crate in totals <==> crate in crates)
    && (forall crate :: crate in crates ==> totals[crate] == LinesOf(files, crate))
  }

  /** `coverage_totals`. */
  method CoverageTotals(crates: Crates, files: seq<File>) returns (r: Option<Totals>)
    ensures r.Some? <==>
              forall i :: 0 <= i < |files| && IsProduction(crates, files[i]) ==>
                0 <= files[i].covered && files[i].covered <= files[i].count
    ensures r.Some? ==> TotalsOf(crates, files, r.value)
  {
    var totals: Totals := map crate | crate in crates :: Lines(0, 0);
    for i := 0 to |files|
      invariant forall j :: 0 <= j < i && IsProduction(crates, files[j]) ==> CountsOk(files[j])
      invariant TotalsOf(crates, files[..i], totals)
    {
      assert files[..i + 1][..i] == files[..i];
      var crate := CrateOf(files[i]);
      if crate.Some? && crate.value in crates {
        if !CountsOk(files[i]) {
          return None;
        }
        var before := totals[crate.value];
        totals := totals[crate.value := Lines(before.covered + files[i].covered, before.count + files[i].count)];
      }
    }
    assert files[..|files|] == files;
    r := Some(totals);
  }

  lemma {:induction false} LinesOfConcat(a: seq<File>, b: seq<File>, crate: string)
    ensures LinesOf(a + b, crate).covered == LinesOf(a, crate).covered + LinesOf(b, crate).covered
    ensures LinesOf(a + b, crate).count == LinesOf(a, crate).count + LinesOf(b, crate).count
    decreases |b|
  {
    if b == [] {
      assert a + b == a;
    } else {
      LinesOfConcat(a, b[..|b| - 1], crate);
      assert (a + b)[..|a + b| - 1] == a + b[..|b| - 1];
    }
  }

  /** The totals do not depend on the order of the files. */
  lemma {:induction false} LinesIgnoreOrder(a: seq<File>, b: seq<File>, crate: string)
    requires multiset(a) == multiset(b)
    ensures LinesOf(a, crate) == LinesOf(b, crate)
    decreases |a|
  {
    if a == [] {
      assert |multiset(b)| == 0;
    } else {
      var last := a[|a| - 1];
      assert last in multiset(b);
      var i :| 0 <= i < |b| && b[i] == last;
      var a' := Take(a, |a| - 1, crate);
      var b' := Take(b, i, crate);
      LinesIgnoreOrder(a', b', crate);
    }
  }

  /** Taking one file out takes its lines out. */
  lemma {:induction false} Take(files: seq<File>, i: nat, crate: string) returns (rest: seq<File>)
    requires i < |files|
    ensures |rest| == |files| - 1 && multiset(rest) == multiset(files) - multiset{files[i]}
    ensures LinesOf(files, crate).covered == LinesOf(rest, crate).covered + LinesOf([files[i]], crate).covered
    ensures LinesOf(files, crate).count == LinesOf(rest, crate).count + LinesOf([files[i]], crate).count
  {
    rest := Without(files, i);
    WithoutOne(files, i);
    LinesWithoutOne(files, i, crate);
  }

  ghost function Without(files: seq<File>, i: nat): seq<File>
    requires i < |files|
  {
    files[..i] + files[i + 1..]
  }

  lemma {:induction false} WithoutOne(files: seq<File>, i: nat)
    requires i < |files|
    ensures multiset(Without(files, i)) == multiset(files) - multiset{files[i]}
  {
    assert files == files[..i] + [files[i]] + files[i + 1..];
  }

  lemma {:induction false} LinesWithoutOne(files: seq<File>, i: nat, crate: string)
    requires i < |files|
    ensures LinesOf(files, crate).covered ==
            LinesOf(Without(files, i), crate).covered + LinesOf([files[i]], crate).covered
    ensures LinesOf(files, crate).count == LinesOf(Without(files, i), crate).count + LinesOf([files[i]], crate).count
  {
    assert files == files[..i] + [files[i]] + files[i + 1..];
    LinesOfConcat(files[..i], files[i + 1..], crate);
    LinesOfConcat(files[..i] + [files[i]], files[i + 1..], crate);
    LinesOfConcat(files[..i], [files[i]], crate);
  }

  // ---------------------------------------------------------------- conservation

  /** The sum over the first `k` production crates. */
  ghost function SumLines(crates: Crates, totals: Totals, k: nat): Lines
    requires k <= |crates| && forall crate :: crate in crates ==> crate in totals
  {
    if k == 0 then Lines(0, 0)
    else
      var rest, next := SumLines(crates, totals, k - 1), totals[crates[k - 1]];
      Lines(rest.covered + next.covered, rest.count + next.count)
  }

  /** All lines of production files. */
  ghost function ProductionLines(crates: Crates, files: seq<File>): Lines {
    if files == [] then Lines(0, 0)
    else
      var rest, last := ProductionLines(crates, files[..|files| - 1]), files[|files| - 1];
      if IsProduction(crates, last) then Lines(rest.covered + last.covered, rest.count + last.count) else rest
  }

  /** What a file adds to each of the first `k` crates adds up to the file, once, when its crate is among them. */
  lemma {:induction false} AddingAFile(crates: Crates, before: Totals, after: Totals, file: File, k: nat)
    requires Distinct(crates) && k <= |crates|
    requires forall crate :: crate in crates ==> crate in before && crate in after
    requires forall crate :: crate in crates ==>
               after[crate] == if CrateOf(file) == Some(crate)
                               then Lines(before[crate].covered + file.covered, before[crate].count + file.count)
                               else before[crate]
    ensures var a, b, adds := SumLines(crates, after, k), SumLines(crates, before, k),
                              CrateOf(file).Some? && CrateOf(file).value in crates[..k];
            && a.covered == b.covered + (if adds then file.covered else 0)
            && a.count == b.count + if adds then file.count else 0
  {
    if k > 0 {
      AddingAFile(crates, before, after, file, k - 1);
      assert crates[..k] == crates[..k - 1] + [crates[k - 1]];
      assert crates[k - 1] !in crates[..k - 1];
      assert crates[k - 1] in crates;
    }
  }

  lemma {:induction false} SumOfNothing(crates: Crates, totals: Totals, k: nat)
    requires k <= |crates| && forall crate :: crate in crates ==> crate in totals && totals[crate] == Lines(0, 0)
    ensures SumLines(crates, totals, k) == Lines(0, 0)
  {
    if k > 0 {
      SumOfNothing(crates, totals, k - 1);
      assert crates[k - 1] in crates;
    }
  }

  /** Conservation: the totals of the crates add up to the lines of the production files. */
  lemma {:induction false} TotalsConserveLines(crates: Crates, files: seq<File>, totals: Totals)
    requires Distinct(crates) && TotalsOf(crates, files, totals)
    ensures SumLines(crates, totals, |crates|) == ProductionLines(crates, files)
  {
    if files == [] {
      SumOfNothing(crates, totals, |crates|);
    } else {
      var front, last := files[..|files| - 1], files[|files| - 1];
      var before: Totals := map crate | crate in crates :: LinesOf(front, crate);
      TotalsConserveLines(crates, front, before);
      AddingAFile(crates, before, totals, last, |crates|);
      assert crates[..|crates|] == crates;
    }
  }

  // ------------------------------------------------------------------- the gate

  datatype Failure = NoData(crate: string) | BelowFloor(crate: string) | TotalBelowMinimum

  predicate MeetsFloor(lines: Lines, floor: real) {
    lines.count != 0 && (lines.covered * 100) as real >= floor * lines.count as real
  }

  predicate Fails(failures: seq<Failure>, crate: string) {
    NoData(crate) in failures || BelowFloor(crate) in failures
  }

  /** The failures so far name exactly the crates among the first `k` that do not meet their floors. */
  ghost predicate Reports(crates: Crates, meets: string -> bool, k: nat, failures: seq<Failure>)
    requires k <= |crates|
  {
    && TotalBelowMinimum !in failures
    && (forall crate :: Fails(failures, crate) ==> crate in crates && !meets(crate))
    && (forall j :: 0 <= j < k && !meets(crates[j]) ==> Fails(failures, crates[j]))
  }

  lemma {:induction false} ReportsNext(crates: Crates, meets: string -> bool, k: nat, failures: seq<Failure>,
                                       added: seq<Failure>)
    requires k < |crates| && Reports(crates, meets, k, failures)
    requires meets(crates[k]) ==> added == []
    requires !meets(crates[k]) ==> added == [NoData(crates[k])] || added == [BelowFloor(crates[k])]
    ensures Reports(crates, meets, k + 1, failures + added)
  {
  }

  lemma {:induction false} ReportsAll(crates: Crates, meets: string -> bool, failures: seq<Failure>,
                                      added: seq<Failure>, crate: string)
    requires Reports(crates, meets, |crates|, failures) && crate in crates
             && (added == [] || added == [TotalBelowMinimum])
    ensures meets(crate) <==> !Fails(failures + added, crate)
  {
  }

  ghost function Meets(totals: Totals, floors: Floors): string -> bool {
    (crate: string) => crate in totals && crate in floors && MeetsFloor(totals[crate], floors[crate])
  }

  /** `check_coverage`: the failing crates in order, then the production total. `None` is an invalid minimum. */
  method CheckCoverage(crates: Crates, totals: Totals, floors: Floors, minimum: real) returns (r: Option<seq<Failure>>)
    requires forall crate :: crate in crates ==> crate in totals && crate in floors
    ensures r.Some? <==> 80.0 <= minimum <= 100.0
    ensures r.Some? ==>
              (TotalBelowMinimum in r.value <==> !MeetsFloor(SumLines(crates, totals, |crates|), minimum))
    ensures r.Some? ==> forall crate :: crate in crates ==>
              (MeetsFloor(totals[crate], floors[crate]) <==> !Fails(r.value, crate))
    ensures r.Some? ==> forall crate :: Fails(r.value, crate) ==> crate in crates
  {
    if !(80.0 <= minimum <= 100.0) {
      return None;
    }
    ghost var meets := Meets(totals, floors);
    var failures: seq<Failure> := [];
    var covered, count := 0, 0;
    for i := 0 to |crates|
      invariant Lines(covered, count) == SumLines(crates, totals, i)
      invariant Reports(crates, meets, i, failures)
    {
      var crate := crates[i];
      assert crate in crates;
      var lines := totals[crate];
      var added := CheckCrate(crate, lines, floors[crate]);
      ReportsNext(crates, meets, i, failures, added);
      failures := failures + added;
      covered, count := covered + lines.covered, count + lines.count;
    }
    var added := if MeetsFloor(Lines(covered, count), minimum) then [] else [TotalBelowMinimum];
    forall crate | crate in crates ensures meets(crate) <==> !Fails(failures + added, crate) {
      ReportsAll(crates, meets, failures, added, crate);
    }
    forall crate | Fails(failures + added, crate) ensures crate in crates {
      assert Fails(failures, crate);
    }
    r := Some(failures + added);
  }

  /** One crate against its floor. */
  method CheckCrate(crate: string, lines: Lines, floor: real) returns (added: seq<Failure>)
    ensures MeetsFloor(lines, floor) ==> added == []
    ensures !MeetsFloor(lines, floor) ==> added == [if lines.count == 0 then NoData(crate) else BelowFloor(crate)]
  {
    if lines.count == 0 {
      return [NoData(crate)];
    }
    if (lines.covered * 100) as real < floor * lines.count as real {
      return [BelowFloor(crate)];
    }
    return [];
  }

  lemma {:induction false} MeanStep(minimum: real, floor: real, rest: Lines, next: Lines)
    requires (rest.covered * 100) as real >= minimum * rest.count as real
    requires MeetsFloor(next, floor) && next.count >= 0 && minimum <= floor
    ensures ((rest.covered + next.covered) * 100) as real >= minimum * (rest.count + next.count) as real
  {
  }

  lemma {:induction false} WeightedMean(crates: Crates, totals: Totals, floors: Floors, minimum: real, k: nat)
    requires k <= |crates| && forall crate :: crate in crates ==> crate in totals && crate in floors
    requires forall crate :: crate in crates ==>
               MeetsFloor(totals[crate], floors[crate]) && totals[crate].count >= 0 && minimum <= floors[crate]
    ensures var sum := SumLines(crates, totals, k);
            sum.count >= k && (sum.covered * 100) as real >= minimum * sum.count as real
  {
    if k > 0 {
      WeightedMean(crates, totals, floors, minimum, k - 1);
      var rest, next := SumLines(crates, totals, k - 1), totals[crates[k - 1]];
      assert crates[k - 1] in crates;
      MeanStep(minimum, floors[crates[k - 1]], rest, next);
    }
  }

  /** If no crate is below its floor and the minimum is no higher than any floor, the total cannot fail. */
  lemma {:induction false} FloorsCarryTheTotal(crates: Crates, totals: Totals, floors: Floors, minimum: real)
    requires crates != [] && forall crate :: crate in crates ==> crate in totals && crate in floors
    requires forall crate :: crate in crates ==>
               MeetsFloor(totals[crate], floors[crate]) && totals[crate].count >= 0 && minimum <= floors[crate]
    ensures MeetsFloor(SumLines(crates, totals, |crates|), minimum)
  {
    WeightedMean(crates, totals, floors, minimum, |crates|);
  }
}
