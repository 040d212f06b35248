/** The seed file: how the knowledge-base merge prints its rows and how the importing migration reads them. */
module SeedTsv {
  /** What the importer's parse comes to: its rows, or the line and field count it throws with. */
  datatype Parsed = Rows(rows: seq<seq<string>>) | Malformed(line: nat, fields: nat)

  // ----- printing -----

  /** One field with its tabs and newlines blanked. */
  function Clean(field: string): (clean: string)
    ensures |clean| == |field| && '\t' !in clean && '\n' !in clean
    ensures forall i :: 0 <= i < |field| ==>
      clean[i] == if field[i] == '\t' || field[i] == '\n' then ' ' else field[i]
  {
    if field == "" then ""
    else [if field[0] == '\t' || field[0] == '\n' then ' ' else field[0]] + Clean(field[1..])
  }

  function CleanRow(row: seq<string>): (clean: seq<string>)
    ensures |clean| == |row|
    ensures forall i :: 0 <= i < |row| ==> clean[i] == Clean(row[i])
  {
    seq(|row|, i requires 0 <= i < |row| => Clean(row[i]))
  }

  function CleanRows(rows: seq<seq<string>>): (clean: seq<seq<string>>)
    ensures |clean| == |rows|
    ensures forall i :: 0 <= i < |rows| ==> clean[i] == CleanRow(rows[i])
  {
    if rows == [] then [] else [CleanRow(rows[0])] + CleanRows(rows[1..])
  }

  function Join(parts: seq<string>, sep: char): string {
    if parts == [] then ""
    else if |parts| == 1 then parts[0]
    else parts[0] + [sep] + Join(parts[1..], sep)
  }

  function Lines(rows: seq<seq<string>>): seq<string> {
    if rows == [] then [] else [Join(CleanRow(rows[0]), '\t')] + Lines(rows[1..])
  }

  function WriteTsv(rows: seq<seq<string>>): string {
    Join(Lines(rows), '\n') + "\n"
  }

  // ----- reading -----

  /** Splitting at a separator; a text without one is a single part. */
  function Split(text: string, sep: char): (parts: seq<string>)
    ensures parts != []
  {
    if text == "" then [""]
    else
      var rest := Split(text[1..], sep);
      if text[0] == sep then [""] + rest else [[text[0]] + rest[0]] + rest[1..]
  }

  /** A line that trims to nothing. */
  predicate Blank(space: char -> bool, line: string) {
    forall c :: c in line ==> space(c)
  }

  /** What the lines from `at` on parse to. */
  function Parse(space: char -> bool, fields: nat, lines: seq<string>, at: nat): Parsed {
    if lines == [] then Rows([])
    else if Blank(space, lines[0]) then Parse(space, fields, lines[1..], at + 1)
    else
      var parts := Split(lines[0], '\t');
      if |parts| != fields then Malformed(at + 1, |parts|)
      else Before([parts], Parse(space, fields, lines[1..], at + 1))
  }

  function Before(rows: seq<seq<string>>, rest: Parsed): Parsed {
    if rest.Rows? then Rows(rows + rest.rows) else rest
  }

  function ReadBack(space: char -> bool, fields: nat, text: string): Parsed {
    Parse(space, fields, Split(text, '\n'), 0)
  }

  method Read(space: char -> bool, fields: nat, text: string) returns (parsed: Parsed)
    ensures parsed == ReadBack(space, fields, text)
  {
    var lines := Split(text, '\n');
    var rows: seq<seq<string>> := [];
    for i := 0 to |lines|
      invariant ReadBack(space, fields, text) == Before(rows, Parse(space, fields, lines[i..], i))
    {
      var blank := IsBlank(space, lines[i]);
      if !blank {
        var parts := Split(lines[i], '\t');
        if |parts| != fields {
          return Malformed(i + 1, |parts|);
        }
        ghost var rest := Parse(space, fields, lines[i + 1..], i + 1);
        assert rest.Rows? ==> rows + ([parts] + rest.rows) == rows + [parts] + rest.rows;
        rows := rows + [parts];
      }
      assert lines[i..][1..] == lines[i + 1..];
    }
    return Rows(rows);
  }

  method IsBlank(space: char -> bool, line: string) returns (blank: bool)
    ensures blank <==> Blank(space, line)
  {
    for i := 0 to |line|
      invariant forall j :: 0 <= j < i ==> space(line[j])
    {
      if !space(line[i]) {
        return false;
      }
    }
    return true;
  }

  // ----- the round trip -----

  lemma {:induction false} SplitFirst(part: string, rest: string, sep: char)
    requires sep !in part
    ensures Split(part, sep) == [part]
    ensures Split(part + [sep] + rest, sep) == [part] + Split(rest, sep)
  {
    if part == "" {
      assert (part + [sep] + rest)[1..] == rest;
    } else {
      assert (part + [sep] + rest)[1..] == part[1..] + [sep] + rest;
      SplitFirst(part[1..], rest, sep);
      assert part == [part[0]] + part[1..];
    }
  }

  /** Splitting undoes joining. */
  lemma {:induction false} SplitUndoesJoin(parts: seq<string>, sep: char)
    requires parts != [] && forall p :: p in parts ==> sep !in p
    ensures Split(Join(parts, sep), sep) == parts
  {
    if |parts| == 1 {
      SplitFirst(parts[0], "", sep);
    } else {
      SplitUndoesJoin(parts[1..], sep);
      SplitFirst(parts[0], Join(parts[1..], sep), sep);
    }
  }

  lemma {:induction false} JoinHolds(parts: seq<string>, sep: char, c: char)
    ensures c in Join(parts, sep) <==> (c == sep && |parts| > 1) || exists i :: 0 <= i < |parts| && c in parts[i]
  {
    if |parts| > 1 {
      JoinHolds(parts[1..], sep, c);
      assert parts == [parts[0]] + parts[1..];
    }
  }

  /** The printed lines, and the empty one after the last newline. */
  lemma {:induction false} SplitsIntoLines(lines: seq<string>)
    requires lines != [] && forall l :: l in lines ==> '\n' !in l
    ensures Split(Join(lines, '\n') + "\n", '\n') == lines + [""]
  {
    if |lines| == 1 {
      SplitFirst(lines[0], "", '\n');
      assert Join(lines, '\n') + "\n" == lines[0] + ['\n'] + "";
    } else {
      SplitsIntoLines(lines[1..]);
      SplitFirst(lines[0], Join(lines[1..], '\n') + "\n", '\n');
      assert Join(lines, '\n') + "\n" == lines[0] + ['\n'] + (Join(lines[1..], '\n') + "\n");
    }
  }

  lemma {:induction false} LinesAreRows(rows: seq<seq<string>>)
    ensures |Lines(rows)| == |rows|
    ensures forall i :: 0 <= i < |rows| ==> Lines(rows)[i] == Join(CleanRow(rows[i]), '\t') && '\n' !in Lines(rows)[i]
  {
    if rows != [] {
      LinesAreRows(rows[1..]);
      JoinHolds(CleanRow(rows[0]), '\t', '\n');
    }
  }

  /** A row that prints as a blank line: every field is blank. */
  predicate BlankRow(space: char -> bool, row: seq<string>) {
    forall i :: 0 <= i < |row| ==> Blank(space, Clean(row[i]))
  }

  lemma BlankLine(space: char -> bool, row: seq<string>)
    requires space('\t')
    ensures Blank(space, Join(CleanRow(row), '\t')) <==> BlankRow(space, row)
  {
    var clean := CleanRow(row);
    forall c
      ensures c in Join(clean, '\t') <==> (c == '\t' && |clean| > 1) || exists i :: 0 <= i < |clean| && c in clean[i]
    {
      JoinHolds(clean, '\t', c);
    }
    if BlankRow(space, row) {
      assert Blank(space, Join(clean, '\t'));
    } else {
      var i :| 0 <= i < |row| && !Blank(space, Clean(row[i]));
      var c :| c in clean[i] && !space(c);
      assert c in Join(clean, '\t');
    }
  }

  /** What comes back of printed rows, row by row: a blank row is lost, a row of the wrong width stops the import. */
  function Returned(space: char -> bool, fields: nat, rows: seq<seq<string>>, at: nat): Parsed {
    if rows == [] then Rows([])
    else if BlankRow(space, rows[0]) then Returned(space, fields, rows[1..], at + 1)
    else if |rows[0]| != fields then Malformed(at + 1, |rows[0]|)
    else Before([CleanRow(rows[0])], Returned(space, fields, rows[1..], at + 1))
  }

  lemma {:induction false} ParsesTheLines(space: char -> bool, fields: nat, rows: seq<seq<string>>, at: nat)
    requires space('\t')
    ensures Parse(space, fields, Lines(rows) + [""], at) == Returned(space, fields, rows, at)
  {
    if rows == [] {
      assert Lines(rows) + [""] == [""];
    } else {
      assert (Lines(rows) + [""])[1..] == Lines(rows[1..]) + [""];
      ParsesTheLines(space, fields, rows[1..], at + 1);
      BlankLine(space, rows[0]);
      if rows[0] != [] {
        SplitUndoesJoin(CleanRow(rows[0]), '\t');
      }
    }
  }

  /** The importer reads, row by row, what the merge printed, for any rows of any width. */
  lemma {:induction false} ReadsWhatWasWritten(space: char -> bool, fields: nat, rows: seq<seq<string>>)
    requires space('\t')
    ensures ReadBack(space, fields, WriteTsv(rows)) == Returned(space, fields, rows, 0)
  {
    LinesAreRows(rows);
    if rows == [] {
      SplitFirst("", "", '\n');
      assert WriteTsv(rows) == "" + ['\n'] + "";
      assert Split(WriteTsv(rows), '\n') == ["", ""];
      assert ["", ""][1..] == [""];
      assert Parse(space, fields, [""], 1) == Rows([]);
    } else {
      SplitsIntoLines(Lines(rows));
      ParsesTheLines(space, fields, rows, 0);
    }
  }

  lemma {:induction false} BlankRowsAreLost(space: char -> bool, fields: nat, rows: seq<seq<string>>, at: nat)
    requires forall r :: r in rows ==> |r| == fields
    ensures var back := Returned(space, fields, rows, at);
      back.Rows? && |back.rows| <= |rows| && (|back.rows| == |rows| <==> forall r :: r in rows ==> !BlankRow(space, r))
  {
    if rows != [] {
      BlankRowsAreLost(space, fields, rows[1..], at + 1);
      assert rows == [rows[0]] + rows[1..];
    }
  }

  lemma {:induction false} OthersReturn(space: char -> bool, fields: nat, rows: seq<seq<string>>, at: nat)
    requires forall r :: r in rows ==> |r| == fields && !BlankRow(space, r)
    ensures Returned(space, fields, rows, at) == Rows(CleanRows(rows))
  {
    if rows != [] {
      OthersReturn(space, fields, rows[1..], at + 1);
      assert rows[0] in rows;
    }
  }

  /** Rows of the importer's width come back exactly, tabs and newlines as spaces, if and only if every row has
      a field that is not blank. */
  lemma {:induction false} RoundTrip(space: char -> bool, fields: nat, rows: seq<seq<string>>)
    requires space('\t') && forall r :: r in rows ==> |r| == fields
    ensures ReadBack(space, fields, WriteTsv(rows)) == Rows(CleanRows(rows))
      <==> forall r :: r in rows ==> !BlankRow(space, r)
  {
    ReadsWhatWasWritten(space, fields, rows);
    BlankRowsAreLost(space, fields, rows, 0);
    if forall r :: r in rows ==> !BlankRow(space, r) {
      OthersReturn(space, fields, rows, 0);
    }
  }

  /** A field comes back as itself exactly when it holds neither tab nor newline. */
  lemma {:induction false} CleanKeeps(field: string)
    ensures Clean(field) == field <==> '\t' !in field && '\n' !in field
  {
    if field != "" {
      CleanKeeps(field[1..]);
      assert field == [field[0]] + field[1..];
      assert Clean(field)[1..] == Clean(field[1..]);
    }
  }

  /** No field of the table holds a tab or a newline. */
  predicate Plain(rows: seq<seq<string>>) {
    forall i, j :: 0 <= i < |rows| && 0 <= j < |rows[i]| ==> '\t' !in rows[i][j] && '\n' !in rows[i][j]
  }

  lemma {:induction false} CleanRowsKeep(rows: seq<seq<string>>)
    ensures CleanRows(rows) == rows <==> Plain(rows)
  {
    forall i, j | 0 <= i < |rows| && 0 <= j < |rows[i]|
      ensures CleanRows(rows)[i][j] == rows[i][j] <==> '\t' !in rows[i][j] && '\n' !in rows[i][j]
    {
      CleanKeeps(rows[i][j]);
    }
    if Plain(rows) {
      assert forall i :: 0 <= i < |rows| ==> CleanRows(rows)[i] == rows[i];
    }
  }

  /** The very table comes back exactly when every row has a field that is not blank and no field holds a tab or a
      newline. */
  lemma ExactRoundTrip(space: char -> bool, fields: nat, rows: seq<seq<string>>)
    requires space('\t') && forall r :: r in rows ==> |r| == fields
    ensures ReadBack(space, fields, WriteTsv(rows)) == Rows(rows)
      <==> Plain(rows) && forall r :: r in rows ==> !BlankRow(space, r)
  {
    ReadsWhatWasWritten(space, fields, rows);
    BlankRowsAreLost(space, fields, rows, 0);
    CleanRowsKeep(rows);
    if forall r :: r in rows ==> !BlankRow(space, r) {
      OthersReturn(space, fields, rows, 0);
    }
  }
}
