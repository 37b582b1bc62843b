/** The state log of the restaurant: a title, a column header, and one
    fixed-width line per state-changing event. The file handle is abstracted
    into a `Streams` object that holds the text of standard output and of
    every named file. */
module Logging {
  import opened Format

  datatype Option<T> = None | Some(value: T)

  /** The fields of the shared full state that a log line shows. The group
      arrays hold (at least) `nGroups` entries; only those are printed. */
  datatype FullStat = FullStat(
    chefStat: int,
    waiterStat: int,
    receptionistStat: int,
    groupStat: seq<int>,
    nGroups: nat,
    groupsWaiting: int,
    assignedTable: seq<int>)

  predicate WellFormed(f: FullStat)
  {
    f.nGroups <= |f.groupStat| && f.nGroups <= |f.assignedTable|
  }

  /** printf's `%ws`. */
  function Text(s: string, w: nat): string
  {
    PadLeft(s, w, ' ')
  }

  /** The cell of one assigned table: the number, or a lone `.` for -1. */
  function TableCell(t: int): string
  {
    if t != -1 then Field(t, 4) else Text(".", 4)
  }

  function GroupCells(f: FullStat): (cells: seq<string>)
    requires WellFormed(f)
    ensures |cells| == f.nGroups
  {
    seq(f.nGroups, g requires 0 <= g < f.nGroups => Field(f.groupStat[g], 4))
  }

  function TableCells(f: FullStat): (cells: seq<string>)
    requires WellFormed(f)
    ensures |cells| == f.nGroups
  {
    seq(f.nGroups, g requires 0 <= g < f.nGroups => TableCell(f.assignedTable[g]))
  }

  function StatusCells(f: FullStat): string
  {
    Field(f.chefStat, 3) + Field(f.waiterStat, 3) + Field(f.receptionistStat, 3) + " "
  }

  /** The line `saveState` appends for the state `f`. */
  function FormatLine(f: FullStat): string
    requires WellFormed(f)
  {
    StatusCells(f) + Concat(GroupCells(f)) + Field(f.groupsWaiting, 5) + Concat(TableCells(f)) + "\n"
  }

  /** Column title of group `g`: a space, the letter, and `%02d` of `g`. */
  function GroupLabel(g: nat): string { " " + "G" + ZeroPadded(g, 2) }

  function TableLabel(g: nat): string { " " + "T" + ZeroPadded(g, 2) }

  function GroupLabels(n: nat): (labels: seq<string>)
    ensures |labels| == n
  {
    seq(n, g requires 0 <= g < n => GroupLabel(g))
  }

  function TableLabels(n: nat): (labels: seq<string>)
    ensures |labels| == n
  {
    seq(n, g requires 0 <= g < n => TableLabel(g))
  }

  /** The column header `printHeader` writes for `n` groups. */
  function FormatHeader(n: nat): string
  {
    Text("CH", 3) + Text("WT", 3) + Text("RC", 3) + " " + Concat(GroupLabels(n))
      + Text("gWT", 5) + Concat(TableLabels(n)) + "\n"
  }

  /** The title line and the blank line `createLog` writes before the header. */
  function TitleLines(): string
  {
    seq(31, _ => ' ') + "Restaurant - Description of the internal state\n\n"
  }

  /** The title is 31 blanks (`%31c` of a blank), the title text, the end of
      its line and one blank line. */
  lemma TitleLayout()
    ensures |TitleLines()| == 31 + 46 + 2
    ensures forall i :: 0 <= i < 31 ==> TitleLines()[i] == ' '
    ensures TitleLines()[31..77] == "Restaurant - Description of the internal state"
    ensures TitleLines()[77..] == "\n\n"
  {
    var blanks: string := seq(31, _ => ' ');
    assert TitleLines() == blanks + ("Restaurant - Description of the internal state" + "\n\n");
  }

  /** Every number of the line fits its column. */
  predicate LineFits(f: FullStat)
    requires WellFormed(f)
  {
    && Fits(f.chefStat, 3) && Fits(f.waiterStat, 3) && Fits(f.receptionistStat, 3)
    && (forall g :: 0 <= g < f.nGroups ==> Fits(f.groupStat[g], 4))
    && Fits(f.groupsWaiting, 5)
    && (forall g :: 0 <= g < f.nGroups ==> Fits(f.assignedTable[g], 4))
  }

  /** A table cell is the dot right-aligned in four columns exactly when the
      group holds no table. */
  lemma TableCellIsDot(t: int)
    ensures TableCell(t) == "   ." <==> t == -1
  {
    if t != -1 {
      var s, r := IntToString(t), TableCell(t);
      IntToStringShape(t);
      PadLeftContent(s, 4, ' ');
      assert r[|r| - 1] == r[|r| - |s|..][|s| - 1];
      assert r[|r| - 1] != '.';
    } else {
      DotCell();
    }
  }

  /** `%4s` of "." is three blanks and the dot. */
  lemma DotCell()
    ensures Text(".", 4) == "   ."
  {
    assert [' '] + "  ." == "   .";
    assert PadLeft("   .", 4, ' ') == "   .";
    assert [' '] + " ." == "  .";
    assert PadLeft("  .", 4, ' ') == "   .";
    assert [' '] + "." == " .";
    assert PadLeft(" .", 4, ' ') == "   .";
  }

  /** The cells of a line all have the width of their column. */
  lemma CellWidths(f: FullStat)
    requires WellFormed(f) && LineFits(f)
    ensures |StatusCells(f)| == 10
    ensures forall g :: 0 <= g < f.nGroups ==> |GroupCells(f)[g]| == 4
    ensures forall g :: 0 <= g < f.nGroups ==> |TableCells(f)[g]| == 4
    ensures |Field(f.groupsWaiting, 5)| == 5
  {
    forall g | 0 <= g < f.nGroups
      ensures |TableCells(f)[g]| == 4
    {
      var t := f.assignedTable[g];
      if t == -1 { TableCellIsDot(t); }
    }
  }

  /** Group `g < 100` gets a four-column label in each half of the header. */
  lemma LabelWidths(n: nat)
    requires n <= 100
    ensures forall g :: 0 <= g < n ==> |GroupLabels(n)[g]| == 4 && |TableLabels(n)[g]| == 4
  {
    forall g | 0 <= g < n
      ensures |GroupLabels(n)[g]| == 4 && |TableLabels(n)[g]| == 4
    {
      TwoDigitWidth(g);
      assert GroupLabels(n)[g] == GroupLabel(g) && TableLabels(n)[g] == TableLabel(g);
    }
  }

  /** Where the cells of group `g` sit in a state line: its status at column
      `10 + 4g` and its table at column `15 + 4n + 4g`; the line is
      `16 + 8n` characters long. */
  lemma LineColumns(f: FullStat, g: nat)
    requires WellFormed(f) && LineFits(f) && g < f.nGroups
    ensures |FormatLine(f)| == 16 + 8 * f.nGroups
    ensures FormatLine(f)[10 + 4 * g..10 + 4 * g + 4] == Field(f.groupStat[g], 4)
    ensures FormatLine(f)[15 + 4 * f.nGroups + 4 * g..15 + 4 * f.nGroups + 4 * g + 4] == TableCell(f.assignedTable[g])
  {
    LineLength(f);
    GroupColumn(f, g);
    TableColumn(f, g);
    assert GroupCells(f)[g] == Field(f.groupStat[g], 4);
    assert TableCells(f)[g] == TableCell(f.assignedTable[g]);
  }

  /** The column arithmetic of `LineColumns`, one column block at a time. */
  lemma LineLength(f: FullStat)
    requires WellFormed(f) && LineFits(f)
    ensures |FormatLine(f)| == 16 + 8 * f.nGroups
  {
    LineParts(f);
    ConcatLength(GroupCells(f));
    ConcatLength(TableCells(f));
  }

  lemma GroupColumn(f: FullStat, g: nat)
    requires WellFormed(f) && LineFits(f) && g < f.nGroups
    ensures 10 + 4 * g + 4 <= |FormatLine(f)|
    ensures FormatLine(f)[10 + 4 * g..10 + 4 * g + 4] == GroupCells(f)[g]
  {
    LineParts(f);
    CellColumns(FormatLine(f), StatusCells(f), GroupCells(f), Field(f.groupsWaiting, 5), TableCells(f), f.nGroups, g);
  }

  lemma TableColumn(f: FullStat, g: nat)
    requires WellFormed(f) && LineFits(f) && g < f.nGroups
    ensures 15 + 4 * f.nGroups + 4 * g + 4 <= |FormatLine(f)|
    ensures FormatLine(f)[15 + 4 * f.nGroups + 4 * g..15 + 4 * f.nGroups + 4 * g + 4] == TableCells(f)[g]
  {
    var pre := StatusCells(f) + Concat(GroupCells(f)) + Field(f.groupsWaiting, 5);
    LineParts(f);
    ConcatLength(GroupCells(f));
    BlockColumn(FormatLine(f), pre, TableCells(f), 15 + 4 * f.nGroups, g, 15 + 4 * f.nGroups + 4 * g);
  }

  /** A state line is the status block, the group cells, the waiting count,
      the table cells and a newline, each of its column's width. */
  lemma LineParts(f: FullStat)
    requires WellFormed(f) && LineFits(f)
    ensures FormatLine(f) == StatusCells(f) + Concat(GroupCells(f)) + Field(f.groupsWaiting, 5) + Concat(TableCells(f)) + "\n"
    ensures |StatusCells(f)| == 10 && |Field(f.groupsWaiting, 5)| == 5
    ensures |GroupCells(f)| == f.nGroups && |TableCells(f)| == f.nGroups
    ensures forall j :: 0 <= j < |GroupCells(f)| ==> |GroupCells(f)[j]| == 4
    ensures forall j :: 0 <= j < |TableCells(f)| ==> |TableCells(f)[j]| == 4
  {
    CellWidths(f);
  }

  /** Where the labels of group `g` sit in the header: the same columns as
      its cells in a state line, in a header of the same length. */
  lemma HeaderColumns(n: nat, g: nat)
    requires n <= 100 && g < n
    ensures |FormatHeader(n)| == 16 + 8 * n
    ensures FormatHeader(n)[10 + 4 * g..10 + 4 * g + 4] == GroupLabel(g)
    ensures FormatHeader(n)[15 + 4 * n + 4 * g..15 + 4 * n + 4 * g + 4] == TableLabel(g)
  {
    var a := Text("CH", 3) + Text("WT", 3) + Text("RC", 3) + " ";
    assert |a| == 10;
    LabelWidths(n);
    CellColumns(FormatHeader(n), a, GroupLabels(n), Text("gWT", 5), TableLabels(n), n, g);
  }

  /** When every value fits its column and there are at most 100 groups, the
      header and a state line have the same length. */
  lemma HeaderMatchesLine(f: FullStat)
    requires WellFormed(f) && LineFits(f) && f.nGroups <= 100
    ensures |FormatHeader(f.nGroups)| == |FormatLine(f)|
  {
    var n := f.nGroups;
    CellWidths(f);
    LabelWidths(n);
    ConcatLength(GroupCells(f));
    ConcatLength(TableCells(f));
    ConcatLength(GroupLabels(n));
    ConcatLength(TableLabels(n));
  }

  lemma FieldAvoidsNewline(n: int, w: nat)
    ensures Avoids(Field(n, w), '\n')
  {
    FieldChars(n, w);
  }

  lemma TableCellAvoidsNewline(t: int)
    ensures Avoids(TableCell(t), '\n')
  {
    if t == -1 {
      DotCell();
    } else {
      FieldAvoidsNewline(t, 4);
    }
  }

  /** A state line is exactly one line: it ends in a newline and holds no other. */
  lemma OneLinePerState(f: FullStat)
    requires WellFormed(f)
    ensures |FormatLine(f)| >= 1 && FormatLine(f)[|FormatLine(f)| - 1] == '\n'
    ensures Avoids(FormatLine(f)[..|FormatLine(f)| - 1], '\n')
  {
    var groups, tables := GroupCells(f), TableCells(f);
    forall g | 0 <= g < f.nGroups
      ensures Avoids(groups[g], '\n') && Avoids(tables[g], '\n')
    {
      FieldAvoidsNewline(f.groupStat[g], 4);
      TableCellAvoidsNewline(f.assignedTable[g]);
    }
    ConcatAvoids(groups, '\n');
    ConcatAvoids(tables, '\n');
    var a, b, c := Field(f.chefStat, 3), Field(f.waiterStat, 3), Field(f.receptionistStat, 3);
    FieldAvoidsNewline(f.chefStat, 3);
    FieldAvoidsNewline(f.waiterStat, 3);
    FieldAvoidsNewline(f.receptionistStat, 3);
    FieldAvoidsNewline(f.groupsWaiting, 5);
    AppendAvoids(a, b, '\n');
    AppendAvoids(a + b, c, '\n');
    AppendAvoids(a + b + c, " ", '\n');
    AppendAvoids(StatusCells(f), Concat(groups), '\n');
    AppendAvoids(StatusCells(f) + Concat(groups), Field(f.groupsWaiting, 5), '\n');
    var body := StatusCells(f) + Concat(groups) + Field(f.groupsWaiting, 5) + Concat(tables);
    AppendAvoids(StatusCells(f) + Concat(groups) + Field(f.groupsWaiting, 5), Concat(tables), '\n');
    assert FormatLine(f) == body + "\n";
    assert FormatLine(f)[..|FormatLine(f)| - 1] == body;
  }

  /** The text of a log that saved the states `fs` in order. */
  function Render(fs: seq<FullStat>): string
    requires forall i :: 0 <= i < |fs| ==> WellFormed(fs[i])
  {
    if fs == [] then [] else Render(fs[..|fs| - 1]) + FormatLine(fs[|fs| - 1])
  }

  /** `lines` holds one line per state of `fs`, in the same order. */
  predicate LinesOf(lines: seq<string>, fs: seq<FullStat>)
  {
    && (forall i :: 0 <= i < |fs| ==> WellFormed(fs[i]))
    && |lines| == |fs|
    && (forall i :: 0 <= i < |fs| ==> lines[i] == FormatLine(fs[i]))
  }

  /** Saving one more state adds its line at the end. */
  lemma LinesOfSnoc(lines: seq<string>, fs: seq<FullStat>, f: FullStat)
    requires LinesOf(lines, fs) && WellFormed(f)
    ensures LinesOf(lines + [FormatLine(f)], fs + [f])
  {
    var lines', fs' := lines + [FormatLine(f)], fs + [f];
    forall i | 0 <= i < |fs'|
      ensures WellFormed(fs'[i]) && lines'[i] == FormatLine(fs'[i])
    {
      if i < |fs| {
        assert fs'[i] == fs[i] && lines'[i] == lines[i];
      }
    }
  }

  /** Lines kept in step with the saved states, written one after the other,
      are the rendering of those states. */
  lemma {:induction false} LinesOfRender(lines: seq<string>, fs: seq<FullStat>)
    requires LinesOf(lines, fs)
    ensures Concat(lines) == Render(fs)
  {
    if fs != [] {
      var k := |fs| - 1;
      assert LinesOf(lines[..k], fs[..k]);
      LinesOfRender(lines[..k], fs[..k]);
    }
  }

  /** Number of positions of `s` that hold `ch`. */
  function Occurrences(s: string, ch: char): nat
  {
    if s == [] then 0 else Occurrences(s[..|s| - 1], ch) + (if s[|s| - 1] == ch then 1 else 0)
  }

  lemma {:induction false} OccurrencesAppend(a: string, b: string, ch: char)
    ensures Occurrences(a + b, ch) == Occurrences(a, ch) + Occurrences(b, ch)
  {
    if b != [] {
      assert (a + b)[..|a + b| - 1] == a + b[..|b| - 1];
      OccurrencesAppend(a, b[..|b| - 1], ch);
    } else {
      assert a + b == a;
    }
  }

  lemma {:induction false} OccurrencesNone(s: string, ch: char)
    requires Avoids(s, ch)
    ensures Occurrences(s, ch) == 0
  {
    if s != [] {
      OccurrencesNone(s[..|s| - 1], ch);
    }
  }

  /** A log that saved `k` states holds exactly `k` lines. */
  lemma {:induction false} RenderLines(fs: seq<FullStat>)
    requires forall i :: 0 <= i < |fs| ==> WellFormed(fs[i])
    ensures Occurrences(Render(fs), '\n') == |fs|
  {
    if fs != [] {
      var f := fs[|fs| - 1];
      var line := FormatLine(f);
      RenderLines(fs[..|fs| - 1]);
      OneLinePerState(f);
      OccurrencesNone(line[..|line| - 1], '\n');
      assert line == line[..|line| - 1] + "\n";
      OccurrencesAppend(line[..|line| - 1], "\n", '\n');
      OccurrencesAppend(Render(fs[..|fs| - 1]), line, '\n');
    }
  }

  /** `saveState`'s line, built field after field as the source writes it. */
  method WriteState(f: FullStat) returns (line: string)
    requires WellFormed(f)
    ensures line == FormatLine(f)
  {
    line := Field(f.chefStat, 3);
    line := line + Field(f.waiterStat, 3);
    line := line + Field(f.receptionistStat, 3);
    line := line + " ";
    line := WriteGroupCells(f, line);
    line := line + Field(f.groupsWaiting, 5);
    line := WriteTableCells(f, line);
    line := line + "\n";
  }

  /** The loop of `saveState` that writes each group's status. */
  method WriteGroupCells(f: FullStat, start: string) returns (line: string)
    requires WellFormed(f)
    ensures line == start + Concat(GroupCells(f))
  {
    ghost var cells := GroupCells(f);
    line := start;
    var g := 0;
    while g < f.nGroups
      invariant 0 <= g <= f.nGroups
      invariant line == start + Concat(cells[..g])
    {
      ConcatSnoc(cells, g);
      AppendAssoc(start, Concat(cells[..g]), cells[g]);
      line := line + Field(f.groupStat[g], 4);
      g := g + 1;
    }
    assert cells[..g] == cells;
  }

  /** The loop of `saveState` that writes each group's table, or a dot. */
  method WriteTableCells(f: FullStat, start: string) returns (line: string)
    requires WellFormed(f)
    ensures line == start + Concat(TableCells(f))
  {
    ghost var cells := TableCells(f);
    line := start;
    var g := 0;
    while g < f.nGroups
      invariant 0 <= g <= f.nGroups
      invariant line == start + Concat(cells[..g])
    {
      ConcatSnoc(cells, g);
      var cell: string;
      if f.assignedTable[g] != -1 {
        cell := Field(f.assignedTable[g], 4);
      } else {
        cell := Text(".", 4);
      }
      assert cell == TableCell(f.assignedTable[g]);
      assert cell == cells[g];
      AppendAssoc(start, Concat(cells[..g]), cell);
      line := line + cell;
      g := g + 1;
    }
    assert cells[..g] == cells;
  }

  /** `printHeader`'s text, built title after title as the source writes it. */
  method WriteHeader(n: nat) returns (header: string)
    ensures header == FormatHeader(n)
  {
    header := Text("CH", 3);
    header := header + Text("WT", 3);
    header := header + Text("RC", 3);
    header := header + " ";
    header := WriteLabels(n, "G", header);
    header := header + Text("gWT", 5);
    header := WriteLabels(n, "T", header);
    header := header + "\n";
  }

  /** A header loop of `printHeader`: `" %s%02d"` for each group. */
  method WriteLabels(n: nat, letter: string, start: string) returns (header: string)
    ensures letter == "G" ==> header == start + Concat(GroupLabels(n))
    ensures letter == "T" ==> header == start + Concat(TableLabels(n))
  {
    ghost var labels := seq(n, g requires 0 <= g < n => " " + letter + ZeroPadded(g, 2));
    assert letter == "G" ==> labels == GroupLabels(n);
    assert letter == "T" ==> labels == TableLabels(n);
    header := start;
    var g := 0;
    while g < n
      invariant 0 <= g <= n
      invariant header == start + Concat(labels[..g])
    {
      ConcatSnoc(labels, g);
      var heading := " " + letter + ZeroPadded(g, 2);
      AppendAssoc(start, Concat(labels[..g]), heading);
      header := header + heading;
      g := g + 1;
    }
    assert labels[..g] == labels;
  }

  /** Where the log goes: standard output for a missing or empty file name,
      the named file otherwise. */
  datatype Target = Stdout | File(name: string)

  function OpenLog(nFic: Option<string>): (t: Target)
    ensures t == Stdout <==> (nFic == None || nFic.value == [])
    ensures t.File? ==> nFic == Some(t.name)
  {
    if nFic == None || |nFic.value| == 0 then Stdout else File(nFic.value)
  }

  /** The text written so far to standard output and to each file. */
  class Streams {
    var stdout: string
    var files: map<string, string>

    constructor ()
      ensures stdout == [] && files == map[]
    {
      stdout := [];
      files := map[];
    }

    /** The text of a target; a file never opened is empty. */
    function Contents(t: Target): string
      reads this
    {
      match t
      case Stdout => stdout
      case File(name) => if name in files then files[name] else []
    }

    /** `createLog`: opens the target for writing, which empties a file but
        not standard output, and writes the title lines and the header. */
    method CreateLog(nFic: Option<string>, f: FullStat)
      modifies this
      ensures OpenLog(nFic) == Stdout ==>
        stdout == old(stdout) + TitleLines() + FormatHeader(f.nGroups) && files == old(files)
      ensures OpenLog(nFic).File? ==>
        stdout == old(stdout) && files == old(files)[OpenLog(nFic).name := TitleLines() + FormatHeader(f.nGroups)]
    {
      var header := WriteHeader(f.nGroups);
      var text := TitleLines() + header;
      var t := OpenLog(nFic);
      if t == Stdout {
        stdout := stdout + text;
      } else {
        files := files[t.name := text];
      }
    }

    /** `saveState`: opens the target for appending and adds one state line
        at its end; nothing else is written. */
    method SaveState(nFic: Option<string>, f: FullStat)
      requires WellFormed(f)
      modifies this
      ensures Contents(OpenLog(nFic)) == old(Contents(OpenLog(nFic))) + FormatLine(f)
      ensures OpenLog(nFic) == Stdout ==> files == old(files)
      ensures OpenLog(nFic).File? ==>
        stdout == old(stdout) && files == old(files)[OpenLog(nFic).name := Contents(OpenLog(nFic))]
    {
      var line := WriteState(f);
      var t := OpenLog(nFic);
      if t == Stdout {
        stdout := stdout + line;
      } else {
        files := files[t.name := Contents(t) + line];
      }
    }
  }
}
