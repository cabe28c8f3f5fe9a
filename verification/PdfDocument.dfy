/** The whole of `render_pdf` (apps/api/app/actions/files.py): lines are wrapped and paged, every page becomes a content
    stream and a page object, and the file is written. A reader that starts at the trailer gets the pages back. */
module PdfDocument {
  import opened Values
  import opened Text
  import opened Decimal
  import opened Wrap
  import opened PdfText
  import opened PdfFile

  const FONT := "<< /Type /Font /Subtype /Type1 /BaseFont /Helvetica /Encoding /WinAnsiEncoding >>"
  const BOLD := "<< /Type /Font /Subtype /Type1 /BaseFont /Helvetica-Bold /Encoding /WinAnsiEncoding >>"
  const LENGTH := "<< /Length "
  const STREAM := " >>\nstream\n"
  const ENDSTREAM := "\nendstream"
  const PAGE := "<< /Type /Page /Parent "
  const FIRST_FONT := " /MediaBox [0 0 595 842] /Resources << /Font << /F1 "
  const SECOND_FONT := " /F2 "
  const CONTENTS := " >> >> /Contents "
  const PAGES := "<< /Type /Pages /Kids ["
  const COUNT := "] /Count "
  const CATALOG := "<< /Type /Catalog /Pages "
  const CLOSE := " >>"
  const REF := " 0 R"

  // ------------------------------------------------------------------- objects

  function Reference(id: nat): string {
    Digits(id) + REF
  }

  function References(ids: seq<nat>): (refs: seq<string>)
    ensures |refs| == |ids|
  {
    if ids == [] then [] else [Reference(ids[0])] + References(ids[1..])
  }

  function StreamObject(stream: string): string {
    LENGTH + (Digits(|stream|) + (STREAM + (stream + ENDSTREAM)))
  }

  function PageObject(parent: nat, font: nat, bold: nat, content: nat): string {
    PAGE + (Reference(parent) + (FIRST_FONT + (Reference(font) + (SECOND_FONT
        + (Reference(bold) + (CONTENTS + (Reference(content) + CLOSE)))))))
  }

  function PagesObject(ids: seq<nat>): string {
    PAGES + (Join(" ", References(ids)) + (COUNT + (Digits(|ids|) + CLOSE)))
  }

  function CatalogObject(pages: nat): string {
    CATALOG + (Reference(pages) + CLOSE)
  }

  // ------------------------------------------------------------------- reading

  /** A reference `n 0 R` and what follows it. */
  function ReadReference(s: string): (r: Option<Counted>)
    ensures r.Some? ==> |r.value.rest| < |s|
  {
    var number := ReadNumber(s);
    match After(number.rest, REF)
    case None => None
    case Some(rest) => Some(Counted(number.count, rest))
  }

  /** The references up to a closing bracket, and what follows it. */
  function ReadReferences(s: string): Option<(seq<nat>, string)>
    decreases |s|
  {
    if s != "" && s[0] == ']' then Some(([], s[1..]))
    else
      match ReadReference(s)
      case None => None
      case Some(first) =>
        var rest := if first.rest != "" && first.rest[0] == ' ' then first.rest[1..] else first.rest;
        match ReadReferences(rest)
        case None => None
        case Some((ids, after)) => Some(([first.count] + ids, after))
  }

  /** The bytes of a stream: as many as its `/Length` says, provided the stream ends there. */
  function ReadStream(s: string): Option<string> {
    match After(s, LENGTH)
    case None => None
    case Some(t) =>
      var length := ReadNumber(t);
      match After(length.rest, STREAM)
      case None => None
      case Some(data) =>
        if length.count <= |data| && After(data[length.count..], ENDSTREAM).Some? then Some(data[..length.count])
            else None
  }

  /** The parent and the content stream of a page. */
  function ReadPage(s: string): Option<(nat, nat)> {
    match Follow(s, PAGE)
    case None => None
    case Some(parent) =>
      match Follow(parent.rest, FIRST_FONT)
      case None => None
      case Some(font) =>
        match Follow(font.rest, SECOND_FONT)
        case None => None
        case Some(bold) =>
          match Follow(bold.rest, CONTENTS)
          case None => None
          case Some(content) => Some((parent.count, content.count))
  }

  /** A key and the reference after it. */
  function Follow(s: string, key: string): Option<Counted> {
    match After(s, key)
    case None => None
    case Some(t) => ReadReference(t)
  }

  function ReadPages(s: string): Option<seq<nat>> {
    match After(s, PAGES)
    case None => None
    case Some(t) =>
      match ReadReferences(t)
      case None => None
      case Some((ids, _)) => Some(ids)
  }

  /** How a reader reaches objects by their number. */
  type Finder = nat -> Option<string>

  function FinderOf(file: string): Finder {
    (id: nat) => FindObject(file, id)
  }

  /** The text shown on page `id`, if it is a page of the page tree `pages`. */
  function ReadPageText(find: Finder, pages: nat, id: nat): Option<seq<string>> {
    match find(id)
    case None => None
    case Some(s) =>
      match ReadPage(s)
      case None => None
      case Some((parent, content)) =>
        if parent != pages then None
        else
          match find(content)
          case None => None
          case Some(t) =>
            match ReadStream(t)
            case None => None
            case Some(stream) => Shown(stream)
  }

  type PageReader = nat -> Option<seq<string>>

  function PageReaderOf(find: Finder, pages: nat): PageReader {
    (id: nat) => ReadPageText(find, pages, id)
  }

  function ReadAll(read: PageReader, ids: seq<nat>): Option<seq<seq<string>>> {
    if ids == [] then Some([])
    else
      match ReadAll(read, ids[..|ids| - 1])
      case None => None
      case Some(front) =>
        match read(ids[|ids| - 1])
        case None => None
        case Some(last) => Some(front + [last])
  }

  /** From the catalog to the page tree and the text of every page in order. */
  function ReadTree(find: Finder, root: nat): Option<seq<seq<string>>> {
    match find(root)
    case None => None
    case Some(s) =>
      match Follow(s, CATALOG)
      case None => None
      case Some(pages) =>
        match find(pages.count)
        case None => None
        case Some(t) =>
          match ReadPages(t)
          case None => None
          case Some(ids) => ReadAll(PageReaderOf(find, pages.count), ids)
  }

  /** From the trailer of a file to the text of its pages. */
  function ReadDocument(file: string): Option<seq<seq<string>>> {
    match ReadTrailer(file)
    case None => None
    case Some((_, root)) => ReadTree(FinderOf(file), root)
  }

  // ------------------------------------------------- reading back single objects

  lemma ReadsReference(id: nat, rest: string)
    ensures ReadReference(Reference(id) + rest) == Some(Counted(id, rest))
  {
    assert Reference(id) + rest == Digits(id) + (REF + rest);
    ReadsNumber(id, REF + rest);
    AfterPrefix(REF, rest);
  }

  lemma Follows(key: string, id: nat, rest: string)
    ensures Follow(key + (Reference(id) + rest), key) == Some(Counted(id, rest))
  {
    AfterPrefix(key, Reference(id) + rest);
    ReadsReference(id, rest);
  }

  lemma FirstReference(ids: seq<nat>, rest: string) returns (next: string)
    requires ids != []
    ensures next == Join(" ", References(ids[1..])) + rest
    ensures Join(" ", References(ids)) + rest == Reference(ids[0]) + (if |ids| == 1 then next else " " + next)
  {
    assert References(ids) == [Reference(ids[0])] + References(ids[1..]);
    JoinFirst(Reference(ids[0]), References(ids[1..]), rest);
    next := Join(" ", References(ids[1..])) + rest;
  }

  lemma JoinFirst(first: string, others: seq<string>, rest: string)
    ensures var next := Join(" ", others) + rest;
            Join(" ", [first] + others) + rest == first + (if others == [] then next else " " + next)
  {
    var parts := [first] + others;
    assert parts[1..] == others;
    if others == [] {
      assert "" + rest == rest;
    } else {
      Glue4(first, " ", Join(" ", others), rest);
    }
  }

  lemma {:induction false} ReadsReferences(ids: seq<nat>, rest: string)
    requires rest != "" && rest[0] == ']'
    ensures ReadReferences(Join(" ", References(ids)) + rest) == Some((ids, rest[1..]))
  {
    if ids == [] {
      assert Join(" ", References(ids)) + rest == rest;
    } else {
      var next := FirstReference(ids, rest);
      ReadsReferences(ids[1..], rest);
      NoReferences(ids[1..], rest);
      ReadsFirst(ids[0], if |ids| == 1 then next else " " + next, next, ids[1..], rest[1..]);
      assert ids == [ids[0]] + ids[1..];
    }
  }

  lemma NoReferences(ids: seq<nat>, rest: string)
    ensures ids == [] ==> Join(" ", References(ids)) + rest == rest
  {
    assert "" + rest == rest;
  }

  lemma ReadsFirst(id: nat, more: string, next: string, ids: seq<nat>, after: string)
    requires (more == next && next != "" && next[0] != ' ') || more == " " + next
    requires ReadReferences(next) == Some((ids, after))
    ensures ReadReferences(Reference(id) + more) == Some(([id] + ids, after))
  {
    ReadsReference(id, more);
    var s := Reference(id) + more;
    assert s[0] == Digits(id)[0] && IsDigit(Digits(id)[0]);
  }

  lemma ReadsStream(stream: string, more: string)
    ensures ReadStream(Content(StreamObject(stream), more)) == Some(stream)
  {
    var end := ENDSTREAM + ("\nendobj\n" + more);
    var data := stream + end;
    Glue5(LENGTH, Digits(|stream|), STREAM, stream, ENDSTREAM, "\nendobj\n" + more);
    assert Content(StreamObject(stream), more) == LENGTH + (Digits(|stream|) + (STREAM + data));
    AfterPrefix(LENGTH, Digits(|stream|) + (STREAM + data));
    ReadsNumber(|stream|, STREAM + data);
    AfterPrefix(STREAM, data);
    AfterPrefix(ENDSTREAM, "\nendobj\n" + more);
    assert data[..|stream|] == stream && data[|stream|..] == end;
  }

  lemma Glue9(a: string, b: string, c: string, d: string, e: string, f: string, g: string, h: string, i: string,
      z: string)
    ensures (a + (b + (c + (d + (e + (f + (g + (h + i)))))))) + z == a
            + (b + (c + (d + (e + (f + (g + (h + (i + z))))))))
  {
  }

  lemma ReadsPage(parent: nat, font: nat, bold: nat, content: nat, more: string)
    ensures ReadPage(Content(PageObject(parent, font, bold, content), more)) == Some((parent, content))
  {
    var end := "\nendobj\n" + more;
    var afterContent := CLOSE + end;
    var afterBold := CONTENTS + (Reference(content) + afterContent);
    var afterFont := SECOND_FONT + (Reference(bold) + afterBold);
    var afterParent := FIRST_FONT + (Reference(font) + afterFont);
    Glue9(PAGE, Reference(parent), FIRST_FONT, Reference(font), SECOND_FONT, Reference(bold), CONTENTS,
        Reference(content), CLOSE, end);
    Follows(PAGE, parent, afterParent);
    Follows(FIRST_FONT, font, afterFont);
    Follows(SECOND_FONT, bold, afterBold);
    Follows(CONTENTS, content, afterContent);
  }

  lemma ReadsPages(ids: seq<nat>, more: string)
    ensures ReadPages(Content(PagesObject(ids), more)) == Some(ids)
  {
    var end := "\nendobj\n" + more;
    var rest := COUNT + ((Digits(|ids|) + CLOSE) + end);
    Glue4(PAGES + Join(" ", References(ids)), COUNT, Digits(|ids|) + CLOSE, end);
    assert Content(PagesObject(ids), more) == PAGES + (Join(" ", References(ids)) + rest);
    AfterPrefix(PAGES, Join(" ", References(ids)) + rest);
    ReadsReferences(ids, rest);
  }

  lemma ReadsCatalog(pages: nat, more: string) returns (rest: string)
    ensures Follow(Content(CatalogObject(pages), more), CATALOG) == Some(Counted(pages, rest))
  {
    rest := CLOSE + ("\nendobj\n" + more);
    Glue3(CATALOG, Reference(pages), CLOSE, "\nendobj\n" + more);
    Follows(CATALOG, pages, rest);
  }

  // ------------------------------------------------------------------- the objects of a document

  /** The number of a page's content stream, of the page itself, of the page tree and of the catalog. */
  function StreamId(k: nat): nat { 3 + k }
  function PageId(k: nat, n: nat): nat { 3 + n + k }
  function PagesId(n: nat): nat { 3 + 2 * n }
  function CatalogId(n: nat): nat { 4 + 2 * n }

  function PageIds(m: nat, n: nat): (ids: seq<nat>)
    ensures |ids| == m && forall k | 0 <= k < m :: ids[k] == PageId(k, n)
  {
    if m == 0 then [] else PageIds(m - 1, n) + [PageId(m - 1, n)]
  }

  /** Page `k` and its content stream are objects of the document, under the numbers that refer to them. */
  ghost predicate PageLinked(objects: seq<string>, streams: seq<string>, k: nat) {
    var n := |streams|;
    && k < n && |objects| == CatalogId(n)
    && objects[PageId(k, n) - 1] == PageObject(PagesId(n), 1, 2, StreamId(k))
    && objects[StreamId(k) - 1] == StreamObject(streams[k])
  }

  /** The objects of a document: fonts, streams, pages, the page tree and the catalog. */
  ghost predicate Linked(objects: seq<string>, streams: seq<string>) {
    TreeLinked(objects, streams) && objects[0] == FONT && objects[1] == BOLD
  }

  /** The same without the fonts. */
  ghost predicate TreeLinked(objects: seq<string>, streams: seq<string>) {
    var n := |streams|;
    && |objects| == CatalogId(n)
    && (forall k | 0 <= k < n :: PageLinked(objects, streams, k))
    && objects[PagesId(n) - 1] == PagesObject(PageIds(n, n))
    && objects[CatalogId(n) - 1] == CatalogObject(PagesId(n))
  }

  /** What a reader gets from the document of some content streams. */
  function Texts(streams: seq<string>): Option<seq<seq<string>>> {
    if streams == [] then Some([])
    else
      match Texts(streams[..|streams| - 1])
      case None => None
      case Some(front) =>
        match Shown(streams[|streams| - 1])
        case None => None
        case Some(last) => Some(front + [last])
  }

  ghost predicate Reaches(found: Option<string>, obj: string) {
    exists more :: found == Some(Content(obj, more))
  }

  lemma FileReaches(file: string, objects: seq<string>, root: nat, id: nat)
    requires file == File(objects, root) && Indexed(objects) && 1 <= id <= |objects|
    ensures Reaches(FinderOf(file)(id), objects[id - 1])
  {
    var more := ObjectFound(objects, root, id);
  }

  lemma PageTextRead(find: Finder, pages: nat, id: nat, content: nat, stream: string)
    requires Reaches(find(id), PageObject(pages, 1, 2, content)) && Reaches(find(content), StreamObject(stream))
    ensures PageReaderOf(find, pages)(id) == Shown(stream)
  {
    var afterPage :| find(id) == Some(Content(PageObject(pages, 1, 2, content), afterPage));
    var afterStream :| find(content) == Some(Content(StreamObject(stream), afterStream));
    ReadsPage(pages, 1, 2, content, afterPage);
    ReadsStream(stream, afterStream);
  }

  lemma {:induction false} AllRead(read: PageReader, ids: seq<nat>, streams: seq<string>)
    requires |ids| == |streams| && forall k | 0 <= k < |ids| :: read(ids[k]) == Shown(streams[k])
    ensures ReadAll(read, ids) == Texts(streams)
  {
    if ids != [] {
      AllRead(read, ids[..|ids| - 1], streams[..|ids| - 1]);
    }
  }

  lemma TreeRead(find: Finder, root: nat, pages: nat, ids: seq<nat>)
    requires Reaches(find(root), CatalogObject(pages)) && Reaches(find(pages), PagesObject(ids))
    ensures ReadTree(find, root) == ReadAll(PageReaderOf(find, pages), ids)
  {
    var afterCatalog :| find(root) == Some(Content(CatalogObject(pages), afterCatalog));
    var afterPages :| find(pages) == Some(Content(PagesObject(ids), afterPages));
    var rest := ReadsCatalog(pages, afterCatalog);
    ReadsPages(ids, afterPages);
  }

  lemma ReadsDocument(file: string, size: nat, root: nat)
    requires ReadTrailer(file) == Some((size, root))
    ensures ReadDocument(file) == ReadTree(FinderOf(file), root)
  {
  }

  lemma StreamRead(file: string, objects: seq<string>, root: nat, pages: nat, id: nat, content: nat, stream: string)
    requires file == File(objects, root) && Indexed(objects) && 1 <= id <= |objects| && 1 <= content <= |objects|
    requires objects[id - 1] == PageObject(pages, 1, 2, content) && objects[content - 1] == StreamObject(stream)
    ensures PageReaderOf(FinderOf(file), pages)(id) == Shown(stream)
  {
    FileReaches(file, objects, root, id);
    FileReaches(file, objects, root, content);
    PageTextRead(FinderOf(file), pages, id, content, stream);
  }

  lemma PageRead(file: string, objects: seq<string>, root: nat, streams: seq<string>, k: nat)
    requires file == File(objects, root) && Indexed(objects) && PageLinked(objects, streams, k)
    ensures var n := |streams|; PageReaderOf(FinderOf(file), PagesId(n))(PageId(k, n)) == Shown(streams[k])
  {
    var n := |streams|;
    StreamRead(file, objects, root, PagesId(n), PageId(k, n), StreamId(k), streams[k]);
  }

  lemma PagesRead(file: string, objects: seq<string>, root: nat, streams: seq<string>)
    requires file == File(objects, root) && Indexed(objects)
    requires forall k | 0 <= k < |streams| :: PageLinked(objects, streams, k)
    ensures ReadAll(PageReaderOf(FinderOf(file), PagesId(|streams|)), PageIds(|streams|, |streams|)) == Texts(streams)
  {
    var n := |streams|;
    var ids, read := PageIds(n, n), PageReaderOf(FinderOf(file), PagesId(n));
    forall k | 0 <= k < n ensures read(ids[k]) == Shown(streams[k]) {
      PageRead(file, objects, root, streams, k);
    }
    AllRead(read, ids, streams);
  }

  lemma TreeInFile(file: string, objects: seq<string>, root: nat, pages: nat, ids: seq<nat>)
    requires file == File(objects, root) && Indexed(objects) && 1 <= root <= |objects| && 1 <= pages <= |objects|
    requires objects[root - 1] == CatalogObject(pages) && objects[pages - 1] == PagesObject(ids)
    ensures ReadDocument(file) == ReadAll(PageReaderOf(FinderOf(file), pages), ids)
  {
    TrailerFound(objects, root);
    ReadsDocument(file, |objects| + 1, root);
    FileReaches(file, objects, root, root);
    FileReaches(file, objects, root, pages);
    TreeRead(FinderOf(file), root, pages, ids);
  }

  /** Written and read back from its trailer, a document gives the text of its content streams, page by page. */
  lemma DocumentReadsBack(streams: seq<string>, objects: seq<string>, root: nat, file: string)
    requires Linked(objects, streams) && root == CatalogId(|streams|) && file == File(objects, root)
    requires Indexed(objects)
    ensures ReadDocument(file) == Texts(streams)
  {
    TreeReadsBack(streams, objects, root, file);
  }

  lemma TreeReadsBack(streams: seq<string>, objects: seq<string>, root: nat, file: string)
    requires TreeLinked(objects, streams) && root == CatalogId(|streams|) && file == File(objects, root)
    requires Indexed(objects)
    ensures ReadDocument(file) == Texts(streams)
  {
    TreeInFile(file, objects, root, PagesId(|streams|), PageIds(|streams|, |streams|));
    PagesRead(file, objects, root, streams);
  }

  // ------------------------------------------------------------------- rendering

  /** What a reader sees on page `k` of `pages`: its lines and its number. */
  function PageText(pages: seq<seq<string>>, k: nat): seq<string>
    requires k < |pages|
  {
    Fed(pages[k]) + [Footer(k + 1, |pages|)]
  }

  /** The content stream of page `k`: the operators that set it. */
  function StreamOf(pages: seq<seq<string>>, k: nat): string
    requires k < |pages|
  {
    Join("\n", Codes(PageOperations(pages[k], k + 1, |pages|)))
  }

  ghost predicate AreStreams(streams: seq<string>, pages: seq<seq<string>>) {
    |streams| == |pages| && forall k | 0 <= k < |pages| :: streams[k] == StreamOf(pages, k)
  }

  function PageTexts(pages: seq<seq<string>>, n: nat): seq<seq<string>>
    requires n <= |pages|
  {
    if n == 0 then [] else PageTexts(pages, n - 1) + [PageText(pages, n - 1)]
  }

  lemma {:induction false} TextsOfPages(pages: seq<seq<string>>, streams: seq<string>, n: nat)
    requires |streams| == n <= |pages| && forall k | 0 <= k < n :: Shown(streams[k]) == Some(PageText(pages, k))
    ensures Texts(streams) == Some(PageTexts(pages, n))
  {
    if n > 0 {
      TextsOfPages(pages, streams[..n - 1], n - 1);
    }
  }

  /** Adding an object gives it the next number. */
  method Add(objects0: seq<string>, obj: string) returns (objects: seq<string>, id: nat)
    ensures |objects| == |objects0| + 1 == id && objects[..|objects0|] == objects0 && objects[id - 1] == obj
  {
    objects := objects0 + [obj];
    id := |objects|;
  }

  /** The content streams of the pages, each an object. */
  method AddStreams(objects0: seq<string>, pages: seq<seq<string>>)
      returns (objects: seq<string>, contentIds: seq<nat>, ghost streams: seq<string>)
    requires |objects0| == 2
    ensures |streams| == |contentIds| == |pages| && |objects| == 2 + |pages| && objects[..2] == objects0
    ensures forall k | 0 <= k < |pages| ::
            contentIds[k] == StreamId(k) && objects[StreamId(k) - 1] == StreamObject(streams[k])
    ensures AreStreams(streams, pages)
  {
    objects, contentIds, streams := objects0, [], [];
    for k := 0 to |pages|
      invariant |streams| == |contentIds| == k && |objects| == 2 + k && objects[..2] == objects0
      invariant forall j | 0 <= j < k ::
              contentIds[j] == StreamId(j) && objects[StreamId(j) - 1] == StreamObject(streams[j])
      invariant forall j | 0 <= j < k :: streams[j] == StreamOf(pages, j)
    {
      var stream := PageStream(pages[k], k + 1, |pages|);
      ghost var before := objects;
      var id;
      objects, id := Add(objects, LENGTH + (Digits(|stream|) + (STREAM + (stream + ENDSTREAM))));
      assert forall j | 0 <= j < |before| :: objects[..|before|][j] == objects[j];
      contentIds, streams := contentIds + [id], streams + [stream];
    }
  }

  /** The page objects, each pointing at the page tree and at its content stream. */
  method AddPages(objects0: seq<string>, contentIds: seq<nat>, parent: nat, font: nat, bold: nat)
      returns (objects: seq<string>, pageIds: seq<nat>)
    ensures |pageIds| == |contentIds| && |objects| == |objects0| + |contentIds| && objects[..|objects0|] == objects0
    ensures forall k | 0 <= k < |contentIds| ::
              pageIds[k] == |objects0| + k + 1 && objects[|objects0| + k] ==
                  PageObject(parent, font, bold, contentIds[k])
  {
    objects, pageIds := objects0, [];
    for k := 0 to |contentIds|
      invariant |pageIds| == k && |objects| == |objects0| + k && objects[..|objects0|] == objects0
      invariant forall j | 0 <= j < k ::
        pageIds[j] == |objects0| + j + 1 && objects[|objects0| + j] == PageObject(parent, font, bold, contentIds[j])
    {
      ghost var before := objects;
      var id;
      objects, id := Add(objects, PageObject(parent, font, bold, contentIds[k]));
      assert forall j | 0 <= j < |before| :: objects[..|before|][j] == objects[j];
      pageIds := pageIds + [id];
    }
  }

  /** The wrapped lines of a report. */
  function WrappedAll(lines: seq<string>, width: nat): seq<string>
    requires width >= 1
  {
    if lines == [] then [] else WrappedAll(lines[..|lines| - 1], width) + Wrapped(lines[|lines| - 1], width)
  }

  /** No wrapped line is too wide. */
  lemma {:induction false} WrappedAllAreNarrow(lines: seq<string>, width: nat)
    requires width >= 1
    ensures forall line | line in WrappedAll(lines, width) :: |line| <= width
  {
    if lines != [] {
      WrappedAllAreNarrow(lines[..|lines| - 1], width);
      WrappedKeepsText(lines[|lines| - 1], width);
    }
  }

  /** Together the wrapped lines show every visible character of the report's lines. */
  lemma {:induction false} WrappedAllKeepsText(lines: seq<string>, width: nat)
    requires width >= 1
    ensures NonSpace(Concat(WrappedAll(lines, width))) == NonSpace(Concat(lines))
  {
    if lines != [] {
      var front, last := lines[..|lines| - 1], lines[|lines| - 1];
      WrappedAllKeepsText(front, width);
      WrappedKeepsText(last, width);
      MoreText(WrappedAll(front, width), Wrapped(last, width), front, last);
      FrontAndLast(lines);
    }
  }

  lemma FrontAndLast(lines: seq<string>)
    requires lines != []
    ensures lines == lines[..|lines| - 1] + [lines[|lines| - 1]]
  {
  }

  lemma WrappedKeepsText(line: string, width: nat)
    requires width >= 1
    ensures forall l | l in Wrapped(line, width) :: |l| <= width
    ensures NonSpace(Concat(Wrapped(line, width))) == NonSpace(line)
  {
    WrappedMeaning(line, width);
    WrappedLinesKeepText(line, width, Wrapped(line, width));
  }

  lemma MoreText(body: seq<string>, wrapped: seq<string>, lines: seq<string>, line: string)
    requires NonSpace(Concat(body)) == NonSpace(Concat(lines)) && NonSpace(Concat(wrapped)) == NonSpace(line)
    ensures NonSpace(Concat(body + wrapped)) == NonSpace(Concat(lines + [line]))
  {
    ConcatAppend(body, wrapped);
    NonSpaceConcat(Concat(body), Concat(wrapped));
    ConcatSnoc(lines, line);
    NonSpaceConcat(Concat(lines), line);
  }

  method WrapAll(lines: seq<string>, width: nat) returns (body: seq<string>)
    requires width >= 1
    ensures body == WrappedAll(lines, width)
  {
    body := [];
    for i := 0 to |lines|
      invariant body == WrappedAll(lines[..i], width)
    {
      assert lines[..i + 1][..i] == lines[..i];
      var wrapped := WrapText(lines[i], width);
      body := body + wrapped;
    }
    assert lines[..|lines|] == lines;
  }

  /** The objects up to the pages, which point at a page tree still to come. */
  method BuildPages(pages: seq<seq<string>>) returns (objects: seq<string>, placeholder: nat, pageIds: seq<nat>,
      ghost streams: seq<string>)
    ensures placeholder == PagesId(|pages|)
    ensures |streams| == |pages| && |objects| == 2 + 2 * |pages| && objects[..2] == [FONT, BOLD]
    ensures forall k | 0 <= k < |pages| :: objects[StreamId(k) - 1] == StreamObject(streams[k])
    ensures forall k | 0 <= k < |pages| :: objects[2 + |pages| + k] == PageObject(placeholder, 1, 2, StreamId(k))
    ensures pageIds == PageIds(|pages|, |pages|) && AreStreams(streams, pages)
  {
    objects := [FONT, BOLD];
    placeholder := |objects| + 1 + |pages| * 2;
    var contentIds;
    objects, contentIds, streams := AddStreams(objects, pages);
    ghost var withStreams := objects;
    objects, pageIds := AddPages(objects, contentIds, placeholder, 1, 2);
    Beginning(withStreams, objects);
    assert pageIds == PageIds(|pages|, |pages|);
  }

  lemma Beginning(front: seq<string>, whole: seq<string>)
    requires |front| <= |whole| && whole[..|front|] == front
    ensures forall i | 0 <= i < |front| :: whole[i] == front[i]
    ensures forall i | 0 <= i <= |front| :: whole[..i] == front[..i]
  {
    assert forall i | 0 <= i < |front| :: whole[..|front|][i] == front[i];
  }

  /** A reader gets the text of every page from its stream. */
  lemma StreamsShow(streams: seq<string>, pages: seq<seq<string>>)
    requires AreStreams(streams, pages)
    ensures forall k | 0 <= k < |pages| :: Shown(streams[k]) == Some(PageText(pages, k))
  {
    forall k | 0 <= k < |pages| ensures Shown(streams[k]) == Some(PageText(pages, k)) {
      PageOperationsShow(pages[k], k + 1, |pages|);
    }
  }

  /** The objects of a document. The number reserved for the page tree before it exists is the one it gets. */
  method BuildObjects(pages: seq<seq<string>>) returns (objects: seq<string>, catalogId: nat,
      ghost streams: seq<string>)
    ensures AreStreams(streams, pages) && Linked(objects, streams) && catalogId == CatalogId(|pages|)
    ensures forall k | 0 <= k < |pages| :: Shown(streams[k]) == Some(PageText(pages, k))
  {
    var placeholder, pageIds;
    objects, placeholder, pageIds, streams := BuildPages(pages);
    ghost var withPages := objects;
    var pagesId;
    objects, pagesId := Add(objects, PagesObject(pageIds));
    assert pagesId == placeholder;
    ghost var withTree := objects;
    objects, catalogId := Add(objects, CatalogObject(pagesId));
    AllLinked(withPages, withTree, objects, streams);
    StreamsShow(streams, pages);
    assert objects[0] == objects[..2][0] && objects[1] == objects[..2][1];
  }

  /** The pages as one file, from which a reader gets the text of every page back while offsets fit their ten digits. */
  method WritePages(pages: seq<seq<string>>) returns (file: string, ghost objects: seq<string>,
      ghost streams: seq<string>)
    ensures AreStreams(streams, pages) && Linked(objects, streams) && file == File(objects, CatalogId(|pages|))
    ensures Indexed(objects) ==> ReadDocument(file) == Some(PageTexts(pages, |pages|))
  {
    var objs, catalogId;
    objs, catalogId, streams := BuildObjects(pages);
    objects := objs;
    file := WriteFile(objs, catalogId);
    if Indexed(objs) {
      DocumentReadsBack(streams, objs, catalogId, file);
      TextsOfPages(pages, streams, |pages|);
    }
  }

  lemma AllLinked(withPages: seq<string>, withTree: seq<string>, objects: seq<string>, streams: seq<string>)
    requires var n := |streams|;
             && |withPages| == 2 + 2 * n && |withTree| == 3 + 2 * n && |objects| == 4 + 2 * n
             && withTree[..2 + 2 * n] == withPages && objects[..3 + 2 * n] == withTree
             && (forall k | 0 <= k < n :: withPages[StreamId(k) - 1] == StreamObject(streams[k]))
             && (forall k | 0 <= k < n :: withPages[2 + n + k] == PageObject(PagesId(n), 1, 2, StreamId(k)))
             && withTree[PagesId(n) - 1] == PagesObject(PageIds(n, n))
             && objects[CatalogId(n) - 1] == CatalogObject(PagesId(n))
    ensures TreeLinked(objects, streams) && objects[..2] == withPages[..2]
  {
    var n := |streams|;
    Beginning(withPages, withTree);
    Beginning(withTree, objects);
    forall k | 0 <= k < n ensures PageLinked(objects, streams, k) {
      assert objects[StreamId(k) - 1] == withPages[StreamId(k) - 1];
      assert objects[PageId(k, n) - 1] == withPages[2 + n + k];
    }
  }

  function Heading(title: string, subtitle: Option<string>, generated: string, width: nat): seq<string> {
    [Clip(title, width), Clip(if subtitle.Some? && subtitle.value != "" then subtitle.value
        else "Generated " + generated, width), ""]
  }

  /** A page opens with the title, the subtitle or, without one, the time it was made, and an empty line. */
  lemma HeadingOpens(title: string, subtitle: Option<string>, generated: string, width: nat)
    ensures var heading := Heading(title, subtitle, generated, width);
            && |heading| == HEADER_LINES && heading[0] <= title && heading[2] == ""
            && (|title| <= width ==> heading[0] == title) && (|title| > width ==> |heading[0]| == width)
            && var second := if subtitle == None || subtitle == Some("") then "Generated " + generated
                             else subtitle.value;
              && heading[1] <= second
              && (|second| <= width ==> heading[1] == second) && (|second| > width ==> |heading[1]| == width)
  {
  }

  /** The number of a page and how many pages there are, as the last line of a page tells. */
  function ReadPageNumber(line: string): Option<(nat, nat)> {
    match After(line, "Page ")
    case None => None
    case Some(t) =>
      var number := ReadNumber(t);
      match After(number.rest, " of ")
      case None => None
      case Some(total) => Some((number.count, ReadNumber(total).count))
  }

  /** A reader learns from the last line of each page which one it is, and of how many. */
  lemma PagesAreNumbered(pages: seq<seq<string>>, k: nat)
    requires k < |pages|
    ensures var text := PageText(pages, k);
            text != [] && ReadPageNumber(text[|text| - 1]) == Some((k + 1, |pages|))
  {
    var rest := " of " + Digits(|pages|);
    assert Footer(k + 1, |pages|) == "Page " + (Digits(k + 1) + rest);
    AfterPrefix("Page ", Digits(k + 1) + rest);
    ReadsNumber(k + 1, rest);
    AfterPrefix(" of ", Digits(|pages|));
    assert Digits(|pages|) == Digits(|pages|) + "";
    ReadsNumber(|pages|, "");
  }

  /** Pages that each start with the header and carry at most `linesPerPage` lines, all but the last exactly so, and
      whose bodies are the wrapped lines: no wider than `width`, and showing every visible character. */
  ghost predicate LaidOut(pages: seq<seq<string>>, header: seq<string>, lines: seq<string>, width: nat,
      linesPerPage: int)
    requires width >= 1
  {
    && pages != []
    && (forall k | 0 <= k < |pages| :: HEADER_LINES <= |pages[k]| <= linesPerPage && Headed(pages[k], header))
    && (forall k | 0 <= k < |pages| - 1 :: |pages[k]| == linesPerPage)
    && Bodies(pages) == WrappedAll(lines, width)
    && (forall line | line in Bodies(pages) :: |line| <= width)
    && NonSpace(Concat(Bodies(pages))) == NonSpace(Concat(lines))
  }

  method LayOut(header: seq<string>, lines: seq<string>, width: nat, linesPerPage: int)
      returns (r: Result<seq<seq<string>>, string>)
    requires width >= 1 && |header| == HEADER_LINES
    ensures r.Err? <==> linesPerPage == HEADER_LINES
    ensures linesPerPage < HEADER_LINES ==> r == Ok([])
    ensures linesPerPage > HEADER_LINES ==> LaidOut(r.value, header, lines, width, linesPerPage)
  {
    var body := WrapAll(lines, width);
    WrappedAllAreNarrow(lines, width);
    WrappedAllKeepsText(lines, width);
    r := Paginate(header, body, linesPerPage);
    if linesPerPage > HEADER_LINES {
      forall k | 0 <= k < |r.value|
        ensures HEADER_LINES <= |r.value[k]| <= linesPerPage && Headed(r.value[k], header)
        ensures k < |r.value| - 1 ==> |r.value[k]| == linesPerPage
      {
        assert PageFilled(r.value[k], k, |r.value|, linesPerPage - HEADER_LINES, body);
        assert |r.value[k]| == HEADER_LINES + |Wrap.Body(r.value[k])|;
      }
    }
  }

  /** A report as a PDF file: laid out, written, and readable page by page. */
  method RenderPdf(title: string, lines: seq<string>, subtitle: Option<string>, generated: string, lineWidth: nat,
      linesPerPage: int)
      returns (r: Result<string, string>, ghost pages: seq<seq<string>>, ghost objects: seq<string>,
          ghost streams: seq<string>)
    requires lineWidth >= 1
    ensures r.Err? <==> linesPerPage == HEADER_LINES
    ensures linesPerPage < HEADER_LINES ==> pages == []
    ensures linesPerPage > HEADER_LINES ==>
            LaidOut(pages, Heading(title, subtitle, generated, lineWidth), lines, lineWidth, linesPerPage)
    ensures r.Ok? ==>
            AreStreams(streams, pages) && Linked(objects, streams) && r.value == File(objects, CatalogId(|pages|))
    ensures r.Ok? && Indexed(objects) ==> ReadDocument(r.value) == Some(PageTexts(pages, |pages|))
  {
    pages, objects, streams := [], [], [];
    var paged := LayOut(Heading(title, subtitle, generated, lineWidth), lines, lineWidth, linesPerPage);
    if paged.Err? {
      r := Err(paged.error);
    } else {
      pages := paged.value;
      var file;
      file, objects, streams := WritePages(paged.value);
      r := Ok(file);
    }
  }
}
