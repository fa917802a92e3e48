/** Reading `git diff -M --name-status`: every path an answer names, both sides of a rename. */
module NameStatus {
  import opened TextLines
  import opened Planner

  /** The tab-separated fields of a line that are not empty. */
  function Fields(line: string): seq<string>
    decreases |line|
  {
    var n := FirstTab(line);
    (if n == 0 then [] else [line[..n]]) + if n == |line| then [] else Fields(line[n + 1..])
  }

  /** A tab divides the fields of a line, text without one is a field, and empty fields do not count. */
  lemma {:induction false} FieldsAre(a: string, b: string)
    requires '\t' !in a
    ensures Fields(a) == if a == "" then [] else [a]
    ensures Fields(a + "\t" + b) == Fields(a) + Fields(b)
  {
    assert FirstTab(a) == |a| && a[..|a|] == a;
    var line := a + "\t" + b;
    assert line[|a|] == '\t' && forall i :: 0 <= i < |a| ==> line[i] == a[i];
    assert FirstTab(line) == |a| && line[..|a|] == a && line[|a| + 1..] == b;
  }

  function PathsOf(line: string): seq<string> {
    if Fields(line) == [] then [] else Fields(line)[1..]
  }

  function Paths(lines: seq<string>): seq<string> {
    if lines == [] then [] else PathsOf(lines[0]) + Paths(lines[1..])
  }

  /** `parse_name_status`. */
  method ParseNameStatus(output: string) returns (paths: seq<string>)
    ensures paths == Paths(SplitLines(output))
  {
    var lines := SplitLines(output);
    paths := [];
    for i := 0 to |lines|
      invariant paths == Paths(lines[..i])
    {
      PathsNext(lines, i);
      paths := paths + PathsOf(lines[i]);
    }
    assert lines[..|lines|] == lines;
  }

  lemma {:induction false} PathsConcat(a: seq<string>, b: seq<string>)
    ensures Paths(a + b) == Paths(a) + Paths(b)
  {
    if a == [] {
      assert a + b == b;
    } else {
      assert (a + b)[1..] == a[1..] + b;
      PathsConcat(a[1..], b);
    }
  }

  lemma {:induction false} PathsNext(lines: seq<string>, i: nat)
    requires i < |lines|
    ensures Paths(lines[..i + 1]) == Paths(lines[..i]) + PathsOf(lines[i])
  {
    assert lines[..i + 1] == lines[..i] + [lines[i]];
    PathsConcat(lines[..i], [lines[i]]);
    assert [lines[i]][1..] == [];
  }

  // ------------------------------------------------------------- what git writes

  /** One line of the answer: a status and the paths it names, two for a rename or a copy. */
  datatype Entry = Entry(status: string, paths: seq<string>)

  ghost predicate IsField(s: string) {
    s != [] && forall i :: 0 <= i < |s| ==> s[i] != '\t' && !IsBreak(s[i])
  }

  ghost predicate WellFormed(e: Entry) {
    IsField(e.status) && forall i :: 0 <= i < |e.paths| ==> IsField(e.paths[i])
  }

  function Tabbed(fields: seq<string>): string {
    if fields == [] then [] else "\t" + fields[0] + Tabbed(fields[1..])
  }

  function Line(e: Entry): string {
    e.status + Tabbed(e.paths)
  }

  function Render(entries: seq<Entry>): string {
    if entries == [] then [] else Line(entries[0]) + "\n" + Render(entries[1..])
  }

  function Named(entries: seq<Entry>): seq<string> {
    if entries == [] then [] else entries[0].paths + Named(entries[1..])
  }

  lemma {:induction false} FirstTabAfter(field: string, rest: string)
    requires IsField(field) && (rest == [] || rest[0] == '\t')
    ensures FirstTab(field + rest) == |field|
  {
    assert forall i :: 0 <= i < |field| ==> (field + rest)[i] == field[i];
    assert rest != [] ==> (field + rest)[|field|] == rest[0];
  }

  lemma {:induction false} FieldsOfTabbed(field: string, fields: seq<string>)
    requires IsField(field) && forall i :: 0 <= i < |fields| ==> IsField(fields[i])
    ensures Fields(field + Tabbed(fields)) == [field] + fields
    decreases |fields|
  {
    var line := field + Tabbed(fields);
    FirstTabAfter(field, Tabbed(fields));
    assert line[..|field|] == field;
    if fields != [] {
      assert line[|field| + 1..] == fields[0] + Tabbed(fields[1..]);
      FieldsOfTabbed(fields[0], fields[1..]);
      assert fields == [fields[0]] + fields[1..];
    }
  }

  lemma {:induction false} TabbedHasNoBreak(fields: seq<string>)
    requires forall i :: 0 <= i < |fields| ==> IsField(fields[i])
    ensures forall i :: 0 <= i < |Tabbed(fields)| ==> !IsBreak(Tabbed(fields)[i])
  {
    if fields != [] {
      TabbedHasNoBreak(fields[1..]);
      assert IsField(fields[0]);
    }
  }

  /** What git names is what the planner sees: every path of every entry, in order. */
  lemma {:induction false} ParseReadsRender(entries: seq<Entry>)
    requires forall i :: 0 <= i < |entries| ==> WellFormed(entries[i])
    ensures Paths(SplitLines(Render(entries))) == Named(entries)
  {
    if entries != [] {
      var e := entries[0];
      assert WellFormed(e);
      TabbedHasNoBreak(e.paths);
      LineSplits(Line(e), Render(entries[1..]));
      FieldsOfTabbed(e.status, e.paths);
      ParseReadsRender(entries[1..]);
    }
  }

  lemma {:induction false} NamedHolds(entries: seq<Entry>, i: nat, path: string)
    requires i < |entries| && path in entries[i].paths
    ensures path in Named(entries)
  {
    if i > 0 {
      NamedHolds(entries[1..], i - 1, path);
    }
  }

  /** A rename is planned as at least what each of its two paths would be planned as alone. */
  lemma {:induction false} RenamePlansBothSides(ws: Workspace, entries: seq<Entry>, i: nat, path: string, gate: Gate)
    requires forall j :: 0 <= j < |entries| ==> WellFormed(entries[j])
    requires i < |entries| && path in entries[i].paths
    ensures Planned(ws, [path], gate) ==> Planned(ws, Paths(SplitLines(Render(entries))), gate)
  {
    ParseReadsRender(entries);
    NamedHolds(entries, i, path);
    PlanIsMonotone(ws, [path], Named(entries), gate);
  }
}
