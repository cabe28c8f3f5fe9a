/** Reshaping a wide marks sheet into one exam row per student, course and exam
    (apps/api/app/ingestion/wide_marks.py, the record loop of `reshape_marks_table`). Which columns hold courses, and
    how a cell reads as a blank or a number, is decided by patterns and comes in as data. */
module WideMarks {
  import opened Values
  import opened ColumnLetters
  import ExamNaming

  const MAX_ROWS: nat := 100_000

  /** A cell as `_blank`, `_number` and `_number(grace=False)` judge it, and its stripped text. */
  datatype Cell = Cell(blank: bool, mark: Option<real>, plain: Option<real>, text: string)

  /** A student's row: the cells of the course columns, in column order. A blank identifier is `None`. */
  datatype Row = Row(number: nat, locator: string, student: Option<string>, name: Option<string>, cells: seq<Cell>)

  /** A course column: its position in the sheet and the course and exam it holds. */
  datatype Column = Column(position: nat, code: string, subject: string, exam: string)

  datatype ExamRow = ExamRow(row: nat, locator: string, student: Option<string>, name: Option<string>, code: string,
                             course: Option<string>, exam: string, mark: Option<real>, status: Option<string>)

  predicate Fits(row: Row, columns: seq<Column>) {
    |row.cells| == |columns|
  }

  predicate HasMark(row: Row) {
    exists i :: 0 <= i < |row.cells| && row.cells[i].mark.Some?
  }

  /** A note or footer line: no identifier and no mark. */
  predicate Skipped(row: Row) {
    row.student.None? && !HasMark(row)
  }

  /** A cell that is not a plain number is a result, such as absent, besides the mark it may add up to. */
  function Status(cell: Cell): Option<string> {
    if cell.plain.Some? then None else Some(cell.text)
  }

  function ExamRowOf(row: Row, column: Column, cell: Cell): ExamRow {
    ExamRow(row.number, Locator(row.locator, column.position), row.student, row.name, column.code,
            if column.subject == "" then None else Some(column.subject), column.exam, cell.mark, Status(cell))
  }

  /** The exam rows that the first `n` course cells of a row give. */
  function RecordsUpTo(row: Row, columns: seq<Column>, n: nat): seq<ExamRow>
    requires Fits(row, columns) && n <= |columns|
  {
    if n == 0 then []
    else RecordsUpTo(row, columns, n - 1) + if row.cells[n - 1].blank then []
        else [ExamRowOf(row, columns[n - 1], row.cells[n - 1])]
  }

  /** The blank ones among the first `n` cells of a row. */
  function BlanksUpTo(row: Row, n: nat): nat
    requires n <= |row.cells|
  {
    if n == 0 then 0 else BlanksUpTo(row, n - 1) + if row.cells[n - 1].blank then 1 else 0
  }

  /** What becomes of one row: it is skipped, or its course cells are exam rows and blanks. */
  datatype Outcome =
    | Skip(number: nat)
    | Kept(number: nat, records: seq<ExamRow>, blanks: nat)

  function OutcomeOf(row: Row, columns: seq<Column>): Outcome
    requires Fits(row, columns)
  {
    if Skipped(row) then Skip(row.number)
    else Kept(row.number, RecordsUpTo(row, columns, |columns|), BlanksUpTo(row, |columns|))
  }

  lemma {:induction false} CellsCounted(row: Row, columns: seq<Column>, n: nat)
    requires Fits(row, columns) && n <= |columns|
    ensures |RecordsUpTo(row, columns, n)| + BlanksUpTo(row, n) == n
  {
    if n > 0 {
      CellsCounted(row, columns, n - 1);
    }
  }

  method ReadCell(row: Row, column: Column, cell: Cell) returns (record: ExamRow)
    ensures record == ExamRowOf(row, column, cell)
  {
    var letters := ColumnLetter(column.position);
    ColumnsWriteBack(letters);
    record := ExamRow(row.number, row.locator + COLUMN_KEY + letters, row.student, row.name, column.code,
                      if column.subject == "" then None else Some(column.subject), column.exam, cell.mark,
                      if cell.plain.Some? then None else Some(cell.text));
  }

  method ReadRow(row: Row, columns: seq<Column>) returns (outcome: Outcome)
    requires Fits(row, columns)
    ensures outcome == OutcomeOf(row, columns)
  {
    if Skipped(row) {
      return Skip(row.number);
    }
    var records: seq<ExamRow>, blanks := [], 0;
    for c := 0 to |columns|
      invariant records == RecordsUpTo(row, columns, c) && blanks == BlanksUpTo(row, c)
    {
      if row.cells[c].blank {
        blanks := blanks + 1;
      } else {
        var record := ReadCell(row, columns[c], row.cells[c]);
        records := records + [record];
      }
    }
    outcome := Kept(row.number, records, blanks);
  }

  // ------------------------------------------------------------------- the sheet

  /** The loop's results and counters. */
  datatype Progress = Progress(records: seq<ExamRow>, skipped: seq<nat>, withoutMarks: seq<nat>,
                               blankCells: nat, studentRows: nat, graceCells: nat)

  function GraceMarks(records: seq<ExamRow>): nat {
    if records == [] then 0
    else
      var last := records[|records| - 1];
      GraceMarks(records[..|records| - 1]) + if last.mark.Some? && last.status.Some? then 1 else 0
  }

  /** What one more outcome adds. */
  function Tally(progress: Progress, outcome: Outcome): Progress {
    match outcome
    case Skip(number) => progress.(skipped := progress.skipped + [number])
    case Kept(number, records, blanks) =>
      progress.(records := progress.records + records,
                blankCells := progress.blankCells + blanks,
                graceCells := progress.graceCells + GraceMarks(records),
                studentRows := progress.studentRows + if records == [] then 0 else 1,
                withoutMarks := progress.withoutMarks + if records == [] then [number] else [])
  }

  function TallyAll(outcomes: seq<Outcome>): Progress {
    if outcomes == [] then Progress([], [], [], 0, 0, 0)
    else Tally(TallyAll(outcomes[..|outcomes| - 1]), outcomes[|outcomes| - 1])
  }

  function Outcomes(rows: seq<Row>, columns: seq<Column>): (outcomes: seq<Outcome>)
    requires forall row | row in rows :: Fits(row, columns)
    ensures |outcomes| == |rows|
  {
    if rows == [] then [] else Outcomes(rows[..|rows| - 1], columns) + [OutcomeOf(rows[|rows| - 1], columns)]
  }

  method CountGrace(records: seq<ExamRow>) returns (n: nat)
    ensures n == GraceMarks(records)
  {
    n := 0;
    for i := 0 to |records|
      invariant n == GraceMarks(records[..i])
    {
      assert records[..i + 1][..i] == records[..i];
      if records[i].mark.Some? && records[i].status.Some? {
        n := n + 1;
      }
    }
    assert records[..|records|] == records;
  }

  /** The whole sheet. The loop reads rows until it has `MAX_ROWS` records, so `read` is all of them below the limit,
      and no fewer rows reach it. */
  method Reshape(rows: seq<Row>, columns: seq<Column>) returns (result: Progress, limited: bool, ghost read: nat)
    requires forall row | row in rows :: Fits(row, columns)
    ensures read <= |rows| && result == TallyAll(Outcomes(rows[..read], columns))
    ensures (limited <==> |result.records| >= MAX_ROWS) && (!limited ==> read == |rows|)
    ensures limited ==> read > 0 && |TallyAll(Outcomes(rows[..read - 1], columns)).records| < MAX_ROWS
    ensures Conserved(result, read, |columns|) && (columns != [] ==> |result.records| < MAX_ROWS + |columns|)
  {
    result, limited, read := Progress([], [], [], 0, 0, 0), false, 0;
    for i := 0 to |rows|
      invariant read == i && !limited && |result.records| < MAX_ROWS
      invariant result == TallyAll(Outcomes(rows[..i], columns))
    {
      var outcome := ReadRow(rows[i], columns);
      assert rows[..i + 1][..i] == rows[..i];
      LastOutcome(rows[..i + 1], columns);
      result := Add(result, outcome);
      read := i + 1;
      if |result.records| >= MAX_ROWS {
        assert rows[..read - 1] == rows[..i];
        limited := true;
        break;
      }
    }
    assert rows[..|rows|] == rows;
    ReshapeConserves(rows[..read], columns);
    if limited {
      assert rows[..read][..read - 1] == rows[..read - 1];
      LimitOvershoot(rows[..read], columns);
    }
  }

  method Add(progress: Progress, outcome: Outcome) returns (next: Progress)
    ensures next == Tally(progress, outcome)
  {
    if outcome.Skip? {
      return progress.(skipped := progress.skipped + [outcome.number]);
    }
    var grace := CountGrace(outcome.records);
    next := progress.(records := progress.records + outcome.records, blankCells := progress.blankCells + outcome.blanks,
                      graceCells := progress.graceCells + grace);
    if outcome.records != [] {
      next := next.(studentRows := next.studentRows + 1);
    } else {
      next := next.(withoutMarks := next.withoutMarks + [outcome.number]);
    }
  }

  lemma LastOutcome(rows: seq<Row>, columns: seq<Column>)
    requires rows != [] && forall row | row in rows :: Fits(row, columns)
    ensures TallyAll(Outcomes(rows, columns)) ==
            Tally(TallyAll(Outcomes(rows[..|rows| - 1], columns)), OutcomeOf(rows[|rows| - 1], columns))
  {
    LastTally(Outcomes(rows[..|rows| - 1], columns), OutcomeOf(rows[|rows| - 1], columns));
  }

  lemma LastTally(outcomes: seq<Outcome>, last: Outcome)
    ensures TallyAll(outcomes + [last]) == Tally(TallyAll(outcomes), last)
  {
    assert (outcomes + [last])[..|outcomes|] == outcomes;
  }

  // ------------------------------------------------------------------- conservation

  ghost predicate Complete(outcomes: seq<Outcome>, width: nat) {
    forall o | o in outcomes && o.Kept? :: |o.records| + o.blanks == width
  }

  /** The counters of `rows` rows with `width` course cells each add up. */
  ghost predicate Conserved(p: Progress, rows: nat, width: nat) {
    && |p.skipped| <= rows
    && |p.records| + p.blankCells == width * (rows - |p.skipped|)
    && p.studentRows + |p.withoutMarks| + |p.skipped| == rows
    && p.graceCells == GraceMarks(p.records)
  }

  lemma Distribute(n: nat, k: nat)
    ensures n * (k + 1) == n * k + n
  {
  }

  lemma {:induction false} GraceMarksAppend(a: seq<ExamRow>, b: seq<ExamRow>)
    ensures GraceMarks(a + b) == GraceMarks(a) + GraceMarks(b)
  {
    if b == [] {
      assert a + b == a;
    } else {
      assert (a + b)[..|a + b| - 1] == a + b[..|b| - 1];
      GraceMarksAppend(a, b[..|b| - 1]);
    }
  }

  lemma {:induction false} TallyConserves(outcomes: seq<Outcome>, width: nat)
    requires Complete(outcomes, width)
    ensures Conserved(TallyAll(outcomes), |outcomes|, width)
  {
    if outcomes != [] {
      var front, last := outcomes[..|outcomes| - 1], outcomes[|outcomes| - 1];
      TallyConserves(front, width);
      var p := TallyAll(front);
      if last.Kept? {
        Distribute(width, |front| - |p.skipped|);
        GraceMarksAppend(p.records, last.records);
      }
    }
  }

  lemma {:induction false} OutcomesComplete(rows: seq<Row>, columns: seq<Column>)
    requires forall row | row in rows :: Fits(row, columns)
    ensures Complete(Outcomes(rows, columns), |columns|)
  {
    if rows != [] {
      OutcomesComplete(rows[..|rows| - 1], columns);
      CellsCounted(rows[|rows| - 1], columns, |columns|);
    }
  }

  /** Nothing is lost or made up: every course cell of a kept row is an exam row or a blank, and every row is a
      student's, one without marks, or skipped. */
  lemma ReshapeConserves(rows: seq<Row>, columns: seq<Column>)
    requires forall row | row in rows :: Fits(row, columns)
    ensures Conserved(TallyAll(Outcomes(rows, columns)), |rows|, |columns|)
  {
    OutcomesComplete(rows, columns);
    TallyConserves(Outcomes(rows, columns), |columns|);
  }

  /** The row that reaches the limit brings at most one record a course column. */
  lemma LimitOvershoot(rows: seq<Row>, columns: seq<Column>)
    requires rows != [] && forall row | row in rows :: Fits(row, columns)
    requires |TallyAll(Outcomes(rows[..|rows| - 1], columns)).records| < MAX_ROWS
    ensures |TallyAll(Outcomes(rows, columns)).records| < MAX_ROWS + |columns| || columns == []
  {
    CellsCounted(rows[|rows| - 1], columns, |columns|);
    LastOutcome(rows, columns);
  }

  // ------------------------------------------------------------------- where every record comes from

  /** A row and a course column of the sheet. */
  type Origin = (nat, nat)

  function RowOrigins(r: nat, row: Row, n: nat): (origins: seq<Origin>)
    requires n <= |row.cells|
  {
    if n == 0 then [] else RowOrigins(r, row, n - 1) + if row.cells[n - 1].blank then [] else [(r, n - 1)]
  }

  function Origins(rows: seq<Row>): seq<Origin> {
    if rows == [] then []
    else
      var last := |rows| - 1;
      Origins(rows[..last]) + if Skipped(rows[last]) then [] else RowOrigins(last, rows[last], |rows[last].cells|)
  }

  ghost predicate Before(a: Origin, b: Origin) {
    a.0 < b.0 || (a.0 == b.0 && a.1 < b.1)
  }

  ghost predicate Increasing(origins: seq<Origin>) {
    forall i, j | 0 <= i < j < |origins| :: Before(origins[i], origins[j])
  }

  lemma {:induction false} RowOriginsExact(r: nat, row: Row, n: nat)
    requires n <= |row.cells|
    ensures forall o :: o in RowOrigins(r, row, n) <==> o.0 == r && o.1 < n && !row.cells[o.1].blank
    ensures Increasing(RowOrigins(r, row, n))
  {
    if n > 0 {
      RowOriginsExact(r, row, n - 1);
      assert forall o | o in RowOrigins(r, row, n - 1) :: o.1 < n - 1;
    }
  }

  /** The cell at an origin is a course cell with something in it, of a row with an identifier or a mark. */
  ghost predicate Holds(rows: seq<Row>, o: Origin) {
    && o.0 < |rows| && o.1 < |rows[o.0].cells| && !rows[o.0].cells[o.1].blank
    && (rows[o.0].student.Some? || exists i :: 0 <= i < |rows[o.0].cells| && rows[o.0].cells[i].mark.Some?)
  }

  lemma IncreasingAppend(a: seq<Origin>, b: seq<Origin>, r: nat)
    requires Increasing(a) && Increasing(b)
    requires (forall o | o in a :: o.0 < r) && (forall o | o in b :: o.0 == r)
    ensures Increasing(a + b)
  {
    forall i, j | 0 <= i < j < |a + b| ensures Before((a + b)[i], (a + b)[j]) {
      assert i < |a| ==> (a + b)[i] in a;
      assert j >= |a| ==> (a + b)[j] in b;
    }
  }

  /** The records come in sheet order from exactly the filled course cells of the kept rows, each cell once. */
  lemma {:induction false} OriginsExact(rows: seq<Row>)
    ensures forall o :: o in Origins(rows) <==> Holds(rows, o)
    ensures Increasing(Origins(rows))
  {
    if rows != [] {
      var last := |rows| - 1;
      var front := rows[..last];
      OriginsExact(front);
      assert forall o :: Holds(rows, o) <==> Holds(front, o) || (o.0 == last && Holds(rows, o));
      if !Skipped(rows[last]) {
        RowOriginsExact(last, rows[last], |rows[last].cells|);
        IncreasingAppend(Origins(front), RowOrigins(last, rows[last], |rows[last].cells|), last);
      }
    }
  }

  /** A record shows the cell it comes from, under its column's course and exam and its row's student. */
  ghost predicate Shows(record: ExamRow, rows: seq<Row>, columns: seq<Column>, o: Origin) {
    && o.0 < |rows| && o.1 < |columns| && o.1 < |rows[o.0].cells|
    && var row, column, cell := rows[o.0], columns[o.1], rows[o.0].cells[o.1];
      && record.row == row.number && record.student == row.student && record.name == row.name
      && record.locator == Locator(row.locator, column.position)
      && record.code == column.code && record.exam == column.exam
      && record.course == (if column.subject == "" then None else Some(column.subject))
      && record.mark == cell.mark
      && (record.status.None? <==> cell.plain.Some?) && (record.status.Some? ==> record.status.value == cell.text)
  }

  ghost predicate AllShow(records: seq<ExamRow>, origins: seq<Origin>, rows: seq<Row>, columns: seq<Column>) {
    |records| == |origins| && forall i | 0 <= i < |records| :: Shows(records[i], rows, columns, origins[i])
  }

  lemma {:induction false} RowRecordsShow(rows: seq<Row>, r: nat, columns: seq<Column>, n: nat)
    requires r < |rows| && Fits(rows[r], columns) && n <= |columns|
    ensures AllShow(RecordsUpTo(rows[r], columns, n), RowOrigins(r, rows[r], n), rows, columns)
  {
    if n > 0 {
      RowRecordsShow(rows, r, columns, n - 1);
    }
  }

  lemma {:induction false} RecordsShowTheirCells(rows: seq<Row>, columns: seq<Column>)
    requires forall row | row in rows :: Fits(row, columns)
    ensures AllShow(TallyAll(Outcomes(rows, columns)).records, Origins(rows), rows, columns)
  {
    if rows != [] {
      var last := |rows| - 1;
      var front := rows[..last];
      RecordsShowTheirCells(front, columns);
      LastOutcome(rows, columns);
      var before := TallyAll(Outcomes(front, columns)).records;
      StillShow(before, Origins(front), front, rows, columns);
      if !Skipped(rows[last]) {
        RowRecordsShow(rows, last, columns, |columns|);
        BothShow(before, Origins(front), RecordsUpTo(rows[last], columns, |columns|),
            RowOrigins(last, rows[last], |columns|), rows, columns);
      }
    }
  }

  lemma StillShow(records: seq<ExamRow>, origins: seq<Origin>, front: seq<Row>, rows: seq<Row>, columns: seq<Column>)
    requires AllShow(records, origins, front, columns) && front <= rows
    ensures AllShow(records, origins, rows, columns)
  {
    forall i | 0 <= i < |records| ensures Shows(records[i], rows, columns, origins[i]) {
      assert Shows(records[i], front, columns, origins[i]);
    }
  }

  lemma BothShow(a: seq<ExamRow>, from: seq<Origin>, b: seq<ExamRow>, more: seq<Origin>, rows: seq<Row>,
      columns: seq<Column>)
    requires AllShow(a, from, rows, columns) && AllShow(b, more, rows, columns)
    ensures AllShow(a + b, from + more, rows, columns)
  {
  }

  /** Columns hold pairwise different exams, which the naming of exams ensures, and stand at different positions. */
  ghost predicate Apart(columns: seq<Column>) {
    forall a, b | 0 <= a < b < |columns| ::
      (columns[a].code, columns[a].exam) != (columns[b].code, columns[b].exam)
          && columns[a].position != columns[b].position
  }

  /** No two exam rows of one student's row are for the same course and exam, so none replaces another. */
  lemma NoCollisionInARow(rows: seq<Row>, columns: seq<Column>, i: nat, j: nat)
    requires (forall row | row in rows :: Fits(row, columns)) && Apart(columns)
    requires i < j < |Origins(rows)| && Origins(rows)[i].0 == Origins(rows)[j].0
    ensures var records := TallyAll(Outcomes(rows, columns)).records;
            |records| == |Origins(rows)| && (records[i].code, records[i].exam) != (records[j].code, records[j].exam)
  {
    RecordsShowTheirCells(rows, columns);
    OriginsExact(rows);
    var records := TallyAll(Outcomes(rows, columns)).records;
    assert Shows(records[i], rows, columns, Origins(rows)[i]) && Shows(records[j], rows, columns, Origins(rows)[j]);
    assert Before(Origins(rows)[i], Origins(rows)[j]);
  }

  /** Where rows have locators of their own, so do the records: the letters at the end lead back to the column. */
  lemma LocatorsIdentifyCells(rows: seq<Row>, columns: seq<Column>, i: nat, j: nat)
    requires (forall row | row in rows :: Fits(row, columns)) && Apart(columns)
    requires forall a, b | 0 <= a < b < |rows| :: rows[a].locator != rows[b].locator
    requires i < j < |Origins(rows)|
    ensures var records := TallyAll(Outcomes(rows, columns)).records;
            |records| == |Origins(rows)| && records[i].locator != records[j].locator
  {
    RecordsShowTheirCells(rows, columns);
    OriginsExact(rows);
    var records := TallyAll(Outcomes(rows, columns)).records;
    var a, b := Origins(rows)[i], Origins(rows)[j];
    assert Shows(records[i], rows, columns, a) && Shows(records[j], rows, columns, b) && Before(a, b);
    if records[i].locator == records[j].locator {
      LocatorsAreUnique(rows[a.0].locator, columns[a.1].position, rows[b.0].locator, columns[b.1].position);
    }
  }

  /** The columns that `headers[picked[0]]`, `headers[picked[1]]`, ... become under the named exams. */
  ghost predicate Picked(columns: seq<Column>, headers: seq<string>, picked: seq<nat>, codes: map<string, string>,
      exams: map<string, string>) {
    && |columns| == |picked| && (forall a, b | 0 <= a < b < |picked| :: picked[a] < picked[b])
    && forall a | 0 <= a < |columns| ::
         && picked[a] < |headers| && headers[picked[a]] in codes && headers[picked[a]] in exams
         && columns[a].position == picked[a]
         && columns[a].code == codes[headers[picked[a]]] && columns[a].exam == exams[headers[picked[a]]]
  }

  /** The naming of exams is what keeps the columns, and so the exam rows of a student, apart. */
  lemma NamedColumnsAreApart(columns: seq<Column>, headers: seq<string>, picked: seq<nat>, codes: map<string, string>,
      exams: map<string, string>)
    requires Picked(columns, headers, picked, codes, exams)
    requires ExamNaming.Distinct(headers) && ExamNaming.Distinguished(exams, codes)
    ensures Apart(columns)
  {
    forall a, b | 0 <= a < b < |columns|
      ensures (columns[a].code, columns[a].exam) != (columns[b].code, columns[b].exam)
    {
      assert headers[picked[a]] != headers[picked[b]];
    }
  }

  // ------------------------------------------------------------------- the lists and counters of rows

  /** A row without identifier and without any mark. */
  predicate IsNote(row: Row) {
    row.student.None? && forall i | 0 <= i < |row.cells| :: row.cells[i].mark.None?
  }

  /** A student's row of blank course cells. */
  predicate IsBlankRow(row: Row) {
    !IsNote(row) && forall i | 0 <= i < |row.cells| :: row.cells[i].blank
  }

  lemma {:induction false} NoRecordsExactlyWhen(row: Row, columns: seq<Column>, n: nat)
    requires Fits(row, columns) && n <= |columns|
    ensures RecordsUpTo(row, columns, n) == [] <==> forall i | 0 <= i < n :: row.cells[i].blank
  {
    if n > 0 {
      NoRecordsExactlyWhen(row, columns, n - 1);
    }
  }

  /** Left out as notes are exactly the rows without identifier and mark, in order; listed as without marks exactly the
      students' rows whose course cells are blank. */
  lemma {:induction false} RowsAreListed(rows: seq<Row>, columns: seq<Column>)
    requires forall row | row in rows :: Fits(row, columns)
    ensures var p := TallyAll(Outcomes(rows, columns));
            p.skipped == Numbers(rows, IsNote) && p.withoutMarks == Numbers(rows, IsBlankRow)
  {
    if rows != [] {
      var last := rows[|rows| - 1];
      RowsAreListed(rows[..|rows| - 1], columns);
      LastOutcome(rows, columns);
      NoRecordsExactlyWhen(last, columns, |columns|);
      assert Skipped(last) <==> IsNote(last);
    }
  }

  /** The numbers of the rows with a property. */
  function Numbers(rows: seq<Row>, has: Row -> bool): seq<nat> {
    if rows == [] then []
    else Numbers(rows[..|rows| - 1], has) + if has(rows[|rows| - 1]) then [rows[|rows| - 1].number] else []
  }

  ghost function WithGrace(records: seq<ExamRow>): set<int> {
    set i | 0 <= i < |records| && records[i].mark.Some? && records[i].status.Some?
  }

  /** Grace marks are the records with both a mark and a result of their own. */
  lemma {:induction false} GraceIsCounted(records: seq<ExamRow>)
    ensures GraceMarks(records) == |WithGrace(records)|
  {
    if records != [] {
      var n := |records| - 1;
      GraceIsCounted(records[..n]);
      assert forall i | 0 <= i < n :: records[..n][i] == records[i];
      if records[n].mark.Some? && records[n].status.Some? {
        assert WithGrace(records) == WithGrace(records[..n]) + {n};
      } else {
        assert WithGrace(records) == WithGrace(records[..n]);
      }
    }
  }
}
