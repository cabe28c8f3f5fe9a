/** A PDF file around its objects (apps/api/app/actions/files.py, `render_pdf`): the writer, and an independent
    reader that goes by the cross-reference table and trailer of sections 7.5.4 and 7.5.5 of ISO 32000-1. A character
    is a byte. */
module PdfFile {
  import opened Values
  import opened Decimal

  const HEADER := "%PDF-1.4\n%\U{E2}\U{E3}\U{CF}\U{D3}\n"
  const XREF := "xref\n0 "
  const FREE := "0000000000 65535 f \n"
  const IN_USE := " 00000 n \n"
  const TRAILER := "trailer\n<< /Size "
  const ROOT := " /Root "
  const STARTXREF := "startxref\n"
  const END := "\n%%EOF\n"
  const ENTRY_BYTES: nat := 20
  const OFFSET_DIGITS: nat := 10
  const MAX_OFFSET: nat := 10_000_000_000

  // ------------------------------------------------------------------- writing

  function ObjectHeader(id: nat): string {
    Digits(id) + " 0 obj\n"
  }

  function ObjectText(id: nat, obj: string): string {
    ObjectHeader(id) + (obj + "\nendobj\n")
  }

  function Entry(offset: nat): string {
    Padded(offset, OFFSET_DIGITS) + IN_USE
  }

  /** The objects one after the other, numbered from 1. */
  function Body(objects: seq<string>): string {
    if objects == [] then "" else Body(objects[..|objects| - 1]) + ObjectText(|objects|, objects[|objects| - 1])
  }

  /** Where object `i + 1` starts. */
  function Offset(objects: seq<string>, i: nat): nat
    requires i <= |objects|
  {
    |HEADER| + |Body(objects[..i])|
  }

  function Offsets(objects: seq<string>, n: nat): (offsets: seq<nat>)
    requires n <= |objects|
    ensures |offsets| == n
    ensures forall i | 0 <= i < n :: offsets[i] == Offset(objects, i)
  {
    if n == 0 then [] else Offsets(objects, n - 1) + [Offset(objects, n - 1)]
  }

  function Table(offsets: seq<nat>): string {
    if offsets == [] then "" else Table(offsets[..|offsets| - 1]) + Entry(offsets[|offsets| - 1])
  }

  function Trailer(size: nat, root: nat, xref: nat): string {
    TRAILER + (Digits(size) + (ROOT + (Digits(root) + (" 0 R >>\n" + (STARTXREF + (Digits(xref) + END))))))
  }

  /** Everything after the objects: the cross-reference section and the trailer. */
  function Index(offsets: seq<nat>, root: nat, xref: nat): string {
    XREF + (Digits(|offsets| + 1) + ("\n" + (FREE + (Table(offsets) + Trailer(|offsets| + 1, root, xref)))))
  }

  function File(objects: seq<string>, root: nat): string {
    HEADER + (Body(objects) + Index(Offsets(objects, |objects|), root, Offset(objects, |objects|)))
  }

  method WriteObjects(objects: seq<string>) returns (output: string, offsets: seq<nat>)
    ensures output == HEADER + Body(objects) && offsets == Offsets(objects, |objects|)
  {
    output, offsets := HEADER, [];
    for index := 0 to |objects|
      invariant output == HEADER + Body(objects[..index]) && offsets == Offsets(objects, index)
    {
      assert objects[..index + 1][..index] == objects[..index];
      offsets := offsets + [|output|];
      output := output + (ObjectHeader(index + 1) + (objects[index] + "\nendobj\n"));
    }
    assert objects[..|objects|] == objects;
  }

  method WriteTable(output0: string, offsets: seq<nat>) returns (output: string)
    ensures output == output0 + Table(offsets)
  {
    output := output0;
    for index := 0 to |offsets|
      invariant output == output0 + Table(offsets[..index])
    {
      OneMoreEntry(offsets, index);
      Glue2(output0, Table(offsets[..index]), Entry(offsets[index]));
      output := output + (Padded(offsets[index], OFFSET_DIGITS) + IN_USE);
    }
    assert offsets[..|offsets|] == offsets;
  }

  lemma OneMoreEntry(offsets: seq<nat>, index: nat)
    requires index < |offsets|
    ensures Table(offsets[..index + 1]) == Table(offsets[..index]) + Entry(offsets[index])
  {
    assert offsets[..index + 1][..index] == offsets[..index];
  }

  method WriteFile(objects: seq<string>, root: nat) returns (output: string)
    ensures output == File(objects, root)
  {
    var offsets;
    output, offsets := WriteObjects(objects);
    assert objects[..|objects|] == objects;
    var xref := |output|;
    var head := XREF + (Digits(|objects| + 1) + ("\n" + FREE));
    ghost var before := output;
    output := output + head;
    output := WriteTable(output, offsets);
    var trailer := Trailer(|objects| + 1, root, xref);
    Glue(HEADER, Body(objects), XREF, Digits(|objects| + 1), "\n", FREE, Table(offsets), trailer);
    output := output + trailer;
  }

  lemma Glue(a: string, b: string, c: string, d: string, e: string, f: string, g: string, h: string)
    ensures a + b + (c + (d + (e + f))) + g + h == a + (b + (c + (d + (e + (f + (g + h))))))
  {
  }

  // ------------------------------------------------------------------- reading

  /** What follows `prefix`, if the text starts with it. */
  function After(s: string, prefix: string): Option<string> {
    if |s| >= |prefix| && s[..|prefix|] == prefix then Some(s[|prefix|..]) else None
  }

  /** The digits a text starts with. */
  function LeadingDigits(s: string): (n: nat)
    ensures n <= |s| && AllDigits(s[..n]) && (n < |s| ==> !IsDigit(s[n]))
  {
    if s == "" || !IsDigit(s[0]) then 0
    else
      var n := LeadingDigits(s[1..]);
      assert s[..1 + n] == [s[0]] + s[1..][..n];
      1 + n
  }

  /** The digits a text ends with. */
  function TrailingDigits(s: string): (n: nat)
    ensures n <= |s| && AllDigits(s[|s| - n..]) && (n < |s| ==> !IsDigit(s[|s| - n - 1]))
  {
    if s == "" || !IsDigit(s[|s| - 1]) then 0
    else
      var n := TrailingDigits(s[..|s| - 1]);
      assert s[|s| - 1 - n..] == s[..|s| - 1][|s| - 1 - n..] + [s[|s| - 1]];
      1 + n
  }

  /** The last line but one holds the offset of the cross-reference section. */
  function StartXref(file: string): Option<nat> {
    var cut := |file| - |END|;
    if cut < 0 || file[cut..] != END then None
    else
      var front := file[..cut];
      var n := TrailingDigits(front);
      var key := |front| - n - |STARTXREF|;
      if key < 0 || front[key..|front| - n] != STARTXREF then None else Some(Number(front[|front| - n..]))
  }

  /** A number and what follows it. */
  datatype Counted = Counted(count: nat, rest: string)

  function ReadNumber(s: string): Counted {
    var n := LeadingDigits(s);
    Counted(Number(s[..n]), s[n..])
  }

  /** The cross-reference section: how many entries it announces, and its text from the first entry on. */
  function ReadSection(file: string): Option<Counted> {
    match StartXref(file)
    case None => None
    case Some(xref) =>
      if xref > |file| then None
      else
        match After(file[xref..], XREF)
        case None => None
        case Some(s) =>
          var counted := ReadNumber(s);
          match After(counted.rest, "\n")
          case None => None
          case Some(entries) => Some(Counted(counted.count, entries))
  }

  /** The offset in entry `id`, an entry being 20 bytes. */
  function ReadEntry(entries: string, id: nat): Option<nat> {
    var at := ENTRY_BYTES * id;
    if at + ENTRY_BYTES > |entries| then None
    else
      var entry := entries[at..at + ENTRY_BYTES];
      var digits := entry[..OFFSET_DIGITS];
      if LeadingDigits(digits) < OFFSET_DIGITS || entry[OFFSET_DIGITS..] != IN_USE then None
      else
        assert digits[..OFFSET_DIGITS] == digits;
        Some(Number(digits))
  }

  /** The file from the start of the content of object `id`. */
  function FindObject(file: string, id: nat): Option<string> {
    match ReadSection(file)
    case None => None
    case Some(section) =>
      if id >= section.count then None
      else
        match ReadEntry(section.rest, id)
        case None => None
        case Some(offset) => if offset > |file| then None else After(file[offset..], ObjectHeader(id))
  }

  /** The size and root in the trailer that follows the announced entries. */
  function ReadTrailer(file: string): Option<(nat, nat)> {
    match ReadSection(file)
    case None => None
    case Some(section) =>
      var end := ENTRY_BYTES * section.count;
      if end > |section.rest| then None
      else
        match After(section.rest[end..], TRAILER)
        case None => None
        case Some(s) =>
          var size := ReadNumber(s);
          match After(size.rest, ROOT)
          case None => None
          case Some(t) => Some((size.count, ReadNumber(t).count))
  }

  // ------------------------------------------------- what the reader finds in a written file

  lemma AfterPrefix(prefix: string, rest: string)
    ensures After(prefix + rest, prefix) == Some(rest)
  {
  }

  lemma LeadingDigitsOf(digits: string, rest: string)
    requires AllDigits(digits) && (rest != "" ==> !IsDigit(rest[0]))
    ensures LeadingDigits(digits + rest) == |digits|
  {
    var s := digits + rest;
    assert forall i | 0 <= i < |digits| :: s[i] == digits[i];
    assert rest != "" ==> s[|digits|] == rest[0];
    assert forall i | 0 <= i < LeadingDigits(s) :: s[..LeadingDigits(s)][i] == s[i];
  }

  lemma ReadsNumber(n: nat, rest: string)
    requires rest != "" ==> !IsDigit(rest[0])
    ensures ReadNumber(Digits(n) + rest) == Counted(n, rest)
  {
    LeadingDigitsOf(Digits(n), rest);
    assert (Digits(n) + rest)[..|Digits(n)|] == Digits(n);
    NumberOfDigits(n);
  }

  lemma {:induction false} TrailingDigitsOf(front: string, digits: string)
    requires AllDigits(digits) && front != "" && !IsDigit(front[|front| - 1])
    ensures TrailingDigits(front + digits) == |digits|
  {
    if digits == "" {
      assert front + digits == front;
    } else {
      var most := digits[..|digits| - 1];
      TrailingDigitsOf(front, most);
      assert (front + digits)[..|front + digits| - 1] == front + most;
      assert (front + digits)[|front + digits| - 1] == digits[|most|];
    }
  }

  lemma StartXrefFound(front: string, xref: nat)
    ensures StartXref(front + (STARTXREF + (Digits(xref) + END))) == Some(xref)
  {
    NumberOfDigits(xref);
    DigitsBeforeEnd(front, STARTXREF, Digits(xref), END);
    assert STARTXREF[|STARTXREF| - 1] == '\n';
    TrailingDigitsOf(front + STARTXREF, Digits(xref));
  }

  lemma DigitsBeforeEnd(front: string, key: string, digits: string, end: string)
    ensures var file := front + (key + (digits + end));
            var cut := |file| - |end|;
            cut >= 0 && file[cut..] == end && file[..cut] == (front + key) + digits
    ensures ((front + key) + digits)[|front| + |key|..] == digits && ((front + key) + digits)[|front|..|front|
            + |key|] == key
  {
  }

  /** The offset after `startxref` is where the cross-reference section starts. */
  lemma XrefFound(objects: seq<string>, root: nat)
    ensures var offsets := Offsets(objects, |objects|);
            ReadSection(File(objects, root)) ==
              Some(Counted(|objects| + 1, FREE + (Table(offsets) + Trailer(|objects| + 1, root,
                  Offset(objects, |objects|)))))
  {
    var offsets, xref := Offsets(objects, |objects|), Offset(objects, |objects|);
    var front := FileFront(objects, root);
    StartXrefFound(front, xref);
    WholeBody(objects);
    Tail(HEADER, Body(objects), Index(offsets, root, xref));
    SectionRead(File(objects, root), xref, |offsets| + 1, FREE + (Table(offsets) + Trailer(|offsets| + 1, root, xref)));
  }

  lemma WholeBody(objects: seq<string>)
    ensures Offset(objects, |objects|) == |HEADER| + |Body(objects)|
  {
    assert objects[..|objects|] == objects;
  }

  lemma SectionRead(file: string, xref: nat, count: nat, rest: string)
    requires StartXref(file) == Some(xref) && xref <= |file|
    requires file[xref..] == XREF + (Digits(count) + ("\n" + rest))
    ensures ReadSection(file) == Some(Counted(count, rest))
  {
    AfterPrefix(XREF, Digits(count) + ("\n" + rest));
    ReadsNumber(count, "\n" + rest);
    AfterPrefix("\n", rest);
  }

  lemma Tail(a: string, b: string, c: string)
    ensures (a + (b + c))[|a| + |b|..] == c
  {
  }

  /** The file up to its `startxref` line. */
  lemma FileFront(objects: seq<string>, root: nat) returns (front: string)
    ensures File(objects, root) == front + (STARTXREF + (Digits(Offset(objects, |objects|)) + END))
  {
    var offsets, xref := Offsets(objects, |objects|), Offset(objects, |objects|);
    var size := Digits(|offsets| + 1);
    var last := STARTXREF + (Digits(xref) + END);
    var trailer := TRAILER + (size + (ROOT + (Digits(root) + " 0 R >>\n")));
    Glue5(TRAILER, size, ROOT, Digits(root), " 0 R >>\n", last);
    var index := XREF + (size + ("\n" + (FREE + (Table(offsets) + trailer))));
    Glue6(XREF, size, "\n", FREE, Table(offsets), trailer, last);
    front := HEADER + (Body(objects) + index);
    Glue3(HEADER, Body(objects), index, last);
  }

  lemma Glue3(a: string, b: string, c: string, z: string)
    ensures a + (b + (c + z)) == a + (b + c) + z
  {
  }

  lemma Glue5(a: string, b: string, c: string, d: string, e: string, z: string)
    ensures a + (b + (c + (d + (e + z)))) == a + (b + (c + (d + e))) + z
  {
  }

  lemma Glue6(a: string, b: string, c: string, d: string, e: string, f: string, z: string)
    ensures a + (b + (c + (d + (e + (f + z))))) == a + (b + (c + (d + (e + f)))) + z
  {
  }

  lemma MaxOffset()
    ensures Power10(OFFSET_DIGITS) == MAX_OFFSET
  {
    assert Power10(3) == 1000 && Power10(6) == 1_000_000 && Power10(8) == 100_000_000;
  }

  /** An entry of the table is 20 bytes exactly while its offset is below 10^10. */
  lemma EntryBytes(offset: nat)
    ensures |Entry(offset)| == ENTRY_BYTES <==> offset < MAX_OFFSET
  {
    MaxOffset();
    PaddedFits(offset, OFFSET_DIGITS);
  }

  ghost predicate AllSmall(offsets: seq<nat>) {
    forall i | 0 <= i < |offsets| :: offsets[i] < MAX_OFFSET
  }

  lemma {:induction false} TableBytes(offsets: seq<nat>)
    requires AllSmall(offsets)
    ensures |Table(offsets)| == ENTRY_BYTES * |offsets|
  {
    if offsets != [] {
      TableBytes(offsets[..|offsets| - 1]);
      EntryBytes(offsets[|offsets| - 1]);
    }
  }

  lemma Within(a: string, b: string, c: string, at: nat)
    requires at == |a|
    ensures (a + (b + c))[at..at + |b|] == b
  {
  }

  lemma {:induction false} TableEntry(offsets: seq<nat>, i: nat, rest: string)
    requires AllSmall(offsets) && i < |offsets|
    ensures |Table(offsets) + rest| >= ENTRY_BYTES * i + ENTRY_BYTES
    ensures (Table(offsets) + rest)[ENTRY_BYTES * i..ENTRY_BYTES * i + ENTRY_BYTES] == Entry(offsets[i])
    decreases |offsets|
  {
    var front, last := offsets[..|offsets| - 1], offsets[|offsets| - 1];
    assert Table(offsets) + rest == Table(front) + (Entry(last) + rest);
    EntryBytes(last);
    TableBytes(front);
    if i == |front| {
      Within(Table(front), Entry(last), rest, ENTRY_BYTES * i);
    } else {
      TableEntry(front, i, Entry(last) + rest);
    }
  }

  lemma EntryReads(entries: string, id: nat, offset: nat)
    requires offset < MAX_OFFSET && |entries| >= ENTRY_BYTES * id + ENTRY_BYTES
    requires entries[ENTRY_BYTES * id..ENTRY_BYTES * id + ENTRY_BYTES] == Entry(offset)
    ensures ReadEntry(entries, id) == Some(offset)
  {
    MaxOffset();
    PaddedFits(offset, OFFSET_DIGITS);
    PaddedReadsBack(offset, OFFSET_DIGITS);
    var digits := Padded(offset, OFFSET_DIGITS);
    assert Entry(offset)[..OFFSET_DIGITS] == digits && Entry(offset)[OFFSET_DIGITS..] == IN_USE;
    LeadingDigitsOf(digits, "");
    assert digits + "" == digits;
  }

  lemma AfterFree(s: string, i: nat)
    requires |s| >= ENTRY_BYTES * i + ENTRY_BYTES
    ensures |FREE + s| >= ENTRY_BYTES * (i + 1) + ENTRY_BYTES
    ensures (FREE + s)[ENTRY_BYTES * (i + 1)..ENTRY_BYTES * (i + 1) + ENTRY_BYTES] ==
            s[ENTRY_BYTES * i..ENTRY_BYTES * i + ENTRY_BYTES]
  {
  }

  /** Object `i + 1` starts at its offset. */
  lemma {:induction false} BodyAt(objects: seq<string>, i: nat, tail: string) returns (more: string)
    requires i < |objects|
    ensures Body(objects) + tail == Body(objects[..i]) + (ObjectText(i + 1, objects[i]) + more)
    decreases |objects|
  {
    var front, last := objects[..|objects| - 1], objects[|objects| - 1];
    var text := ObjectText(|objects|, last);
    if i == |front| {
      more := tail;
      Glue2(Body(front), text, tail);
    } else {
      more := BodyAt(front, i, text + tail);
      Glue2(Body(front), text, tail);
      assert front[..i] == objects[..i];
    }
  }

  lemma Glue2(a: string, b: string, c: string)
    ensures (a + b) + c == a + (b + c)
  {
  }

  lemma OffsetPoints(objects: seq<string>, root: nat, i: nat) returns (more: string)
    requires i < |objects|
    ensures Offset(objects, i) <= |File(objects, root)|
    ensures File(objects, root)[Offset(objects, i)..] == ObjectHeader(i + 1) + Content(objects[i], more)
  {
    var index := Index(Offsets(objects, |objects|), root, Offset(objects, |objects|));
    more := BodyAt(objects, i, index);
    Tail(HEADER, Body(objects[..i]), ObjectText(i + 1, objects[i]) + more);
    Glue4(ObjectHeader(i + 1), objects[i], "\nendobj\n", more);
  }

  /** An object's content, its end and what follows it in the file. */
  function Content(obj: string, more: string): string {
    obj + ("\nendobj\n" + more)
  }

  lemma Glue4(a: string, b: string, c: string, d: string)
    ensures (a + (b + c)) + d == a + (b + (c + d))
  {
  }

  ghost predicate Indexed(objects: seq<string>) {
    forall i | 0 <= i < |objects| :: Offset(objects, i) < MAX_OFFSET
  }

  /** Every object is where the table says: a reader that looks object `id` up gets its content. */
  lemma ObjectFound(objects: seq<string>, root: nat, id: nat) returns (more: string)
    requires 1 <= id <= |objects| && Indexed(objects)
    ensures FindObject(File(objects, root), id) == Some(Content(objects[id - 1], more))
  {
    var offsets, xref := Offsets(objects, |objects|), Offset(objects, |objects|);
    var entries := FREE + (Table(offsets) + Trailer(|objects| + 1, root, xref));
    XrefFound(objects, root);
    EntryFound(offsets, id - 1, Trailer(|objects| + 1, root, xref));
    more := OffsetPoints(objects, root, id - 1);
    FoundAt(File(objects, root), Counted(|objects| + 1, entries), id, offsets[id - 1], Content(objects[id - 1], more));
  }

  lemma EntryFound(offsets: seq<nat>, i: nat, rest: string)
    requires AllSmall(offsets) && i < |offsets|
    ensures ReadEntry(FREE + (Table(offsets) + rest), i + 1) == Some(offsets[i])
  {
    TableEntry(offsets, i, rest);
    AfterFree(Table(offsets) + rest, i);
    EntryReads(FREE + (Table(offsets) + rest), i + 1, offsets[i]);
  }

  lemma FoundAt(file: string, section: Counted, id: nat, offset: nat, content: string)
    requires ReadSection(file) == Some(section) && id < section.count
    requires ReadEntry(section.rest, id) == Some(offset) && offset <= |file|
    requires file[offset..] == ObjectHeader(id) + content
    ensures FindObject(file, id) == Some(content)
  {
    AfterPrefix(ObjectHeader(id), content);
  }

  /** The trailer follows the announced entries: `/Size` is one more than the number of objects. */
  lemma TrailerFound(objects: seq<string>, root: nat)
    requires Indexed(objects)
    ensures ReadTrailer(File(objects, root)) == Some((|objects| + 1, root))
  {
    var offsets, xref := Offsets(objects, |objects|), Offset(objects, |objects|);
    XrefFound(objects, root);
    TableBytes(offsets);
    TrailerRead(File(objects, root), |objects| + 1, Table(offsets), |objects| + 1, root, xref);
  }

  lemma TrailerRead(file: string, count: nat, table: string, size: nat, root: nat, xref: nat)
    requires ReadSection(file) == Some(Counted(count, FREE + (table + Trailer(size, root, xref))))
    requires ENTRY_BYTES * count == |FREE| + |table|
    ensures ReadTrailer(file) == Some((size, root))
  {
    Tail(FREE, table, Trailer(size, root, xref));
    var tail := " 0 R >>\n" + (STARTXREF + (Digits(xref) + END));
    AfterPrefix(TRAILER, Digits(size) + (ROOT + (Digits(root) + tail)));
    ReadsNumber(size, ROOT + (Digits(root) + tail));
    AfterPrefix(ROOT, Digits(root) + tail);
    ReadsNumber(root, tail);
  }
}
