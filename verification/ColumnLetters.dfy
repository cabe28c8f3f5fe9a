/** Spreadsheet column letters (apps/api/app/ingestion/wide_marks.py and apps/api/app/actions/files.py,
    `_column_letter`) and the cell locators built with them. */
module ColumnLetters {

  predicate IsLetter(c: char) {
    'A' <= c <= 'Z'
  }

  predicate AllLetters(s: string) {
    forall i | 0 <= i < |s| :: IsLetter(s[i])
  }

  function LetterOf(digit: nat): (c: char)
    requires digit < 26
    ensures IsLetter(c) && c as int - 'A' as int == digit
  {
    ('A' as int + digit) as char
  }

  /** Bijective base 26: "" is 0, "A" is 1, "Z" is 26, "AA" is 27. */
  function Letters(n: nat): (s: string)
    ensures AllLetters(s) && (s == "" <==> n == 0)
  {
    if n == 0 then "" else Letters((n - 1) / 26) + [LetterOf((n - 1) % 26)]
  }

  /** The number that letters stand for, a reader's side of the same notation. */
  function Column(s: string): nat
    requires AllLetters(s)
  {
    if s == "" then 0
    else
      assert IsLetter(s[|s| - 1]);
      26 * Column(s[..|s| - 1]) + (s[|s| - 1] as int - 'A' as int) + 1
  }

  lemma {:induction false} LettersReadBack(n: nat)
    ensures Column(Letters(n)) == n
  {
    if n > 0 {
      LettersReadBack((n - 1) / 26);
      assert Letters(n)[..|Letters(n)| - 1] == Letters((n - 1) / 26);
    }
  }

  /** Every text of letters is the name of its own column, so no two columns share letters and none is unreachable. */
  lemma {:induction false} ColumnsWriteBack(s: string)
    requires AllLetters(s)
    ensures Letters(Column(s)) == s
  {
    if s != "" {
      var front, last := s[..|s| - 1], s[|s| - 1];
      ColumnsWriteBack(front);
      assert IsLetter(last);
      var digit := last as int - 'A' as int;
      assert (Column(s) - 1) / 26 == Column(front) && (Column(s) - 1) % 26 == digit;
      assert s == front + [last];
    }
  }

  /** The letters of the column at a zero-based position. */
  method ColumnLetter(position: nat) returns (letters: string)
    ensures AllLetters(letters) && letters != "" && Column(letters) == position + 1
  {
    letters := "";
    var index: nat := position + 1;
    while index > 0
      invariant Letters(index) + letters == Letters(position + 1)
      decreases index
    {
      var remainder := (index - 1) % 26;
      index := (index - 1) / 26;
      letters := [LetterOf(remainder)] + letters;
    }
    assert "" + letters == letters;
    LettersReadBack(position + 1);
  }

  // ------------------------------------------------------------------- locators

  const COLUMN_KEY := ";col="

  /** Where a record of a reshaped table came from: its row and its column. */
  function Locator(row: string, position: nat): string {
    row + COLUMN_KEY + Letters(position + 1)
  }

  /** How many letters a locator ends with. */
  function TrailingLetters(s: string): (n: nat)
    ensures n <= |s| && AllLetters(s[|s| - n..]) && (n < |s| ==> !IsLetter(s[|s| - n - 1]))
  {
    if s == "" || !IsLetter(s[|s| - 1]) then 0
    else
      var n := TrailingLetters(s[..|s| - 1]);
      assert s[|s| - 1 - n..] == s[..|s| - 1][|s| - 1 - n..] + [s[|s| - 1]];
      1 + n
  }

  lemma {:induction false} TrailingLettersOf(front: string, letters: string)
    requires AllLetters(letters) && front != "" && !IsLetter(front[|front| - 1])
    ensures TrailingLetters(front + letters) == |letters|
  {
    if letters == "" {
      assert front + letters == front;
    } else {
      var most := letters[..|letters| - 1];
      TrailingLettersOf(front, most);
      assert (front + letters)[..|front + letters| - 1] == front + most;
      assert (front + letters)[|front + letters| - 1] == letters[|most|];
    }
  }

  /** The letters at the end of a locator decode to the column's position, and what stands before them is the row. */
  lemma LocatorReadsBack(row: string, position: nat)
    ensures var s := Locator(row, position);
            var n := TrailingLetters(s);
            Column(s[|s| - n..]) == position + 1 && s[..|s| - n] == row + COLUMN_KEY
  {
    var letters := Letters(position + 1);
    TrailingLettersOf(row + COLUMN_KEY, letters);
    LettersReadBack(position + 1);
    assert Locator(row, position)[|row + COLUMN_KEY|..] == letters;
  }

  /** Two cells share a locator only if they are in the same row and column. */
  lemma LocatorsAreUnique(row1: string, position1: nat, row2: string, position2: nat)
    requires Locator(row1, position1) == Locator(row2, position2)
    ensures row1 == row2 && position1 == position2
  {
    LocatorReadsBack(row1, position1);
    LocatorReadsBack(row2, position2);
    assert row1 == (row1 + COLUMN_KEY)[..|row1|] == (row2 + COLUMN_KEY)[..|row2|] == row2;
  }
}
