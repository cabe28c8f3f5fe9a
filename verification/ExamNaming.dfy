/** Naming the exams of a wide marks sheet so that no two of its columns hold the same exam of the same course
    (apps/api/app/ingestion/wide_marks.py, the numbering loop of `reshape_marks_table`). */
module ExamNaming {
  import opened Decimal
  import opened Sets

  /** A course code and an exam name. */
  type Pair = (string, string)

  function Suffix(number: nat): string {
    " (" + Digits(number) + ")"
  }

  /** The first column of an exam keeps its name, the next ones are numbered from 2. */
  function Named(exam: string, number: nat): string {
    if number == 1 then exam else exam + Suffix(number)
  }

  lemma NamesDiffer(exam: string, a: nat, b: nat)
    requires a != b
    ensures Named(exam, a) != Named(exam, b)
  {
    NumberOfDigits(a);
    NumberOfDigits(b);
    DigitsInName(exam, a);
    DigitsInName(exam, b);
  }

  lemma DigitsInName(exam: string, number: nat)
    ensures var name := Named(exam, number);
            number != 1 ==> |name| >= |exam| + 3 && name[|exam| + 2..|name| - 1] == Digits(number)
  {
  }

  /** The names already tried for one column. */
  ghost predicate Tried(tried: set<Pair>, taken: set<Pair>, code: string, exam: string, number: nat) {
    && tried <= taken
    && forall pair | pair in tried :: exists k :: 1 <= k < number && pair == (code, Named(exam, k))
  }

  lemma OneMoreTried(tried: set<Pair>, taken: set<Pair>, code: string, exam: string, number: nat)
    requires number >= 1 && Tried(tried, taken, code, exam, number) && (code, Named(exam, number)) in taken
    ensures (code, Named(exam, number)) !in tried
    ensures Tried(tried + {(code, Named(exam, number))}, taken, code, exam, number + 1)
  {
    var pair := (code, Named(exam, number));
    if pair in tried {
      var k :| 1 <= k < number && pair == (code, Named(exam, k));
      NamesDiffer(exam, k, number);
    }
    forall p | p in tried + {pair} ensures exists k :: 1 <= k < number + 1 && p == (code, Named(exam, k)) {
      if p in tried {
        var k :| 1 <= k < number && p == (code, Named(exam, k));
        assert 1 <= k < number + 1 && p == (code, Named(exam, k));
      } else {
        assert p == (code, Named(exam, number));
      }
    }
  }

  /** The first number whose name is free. Only finitely many names are taken and no two numbers give the same name,
      so the search ends. */
  method FirstFree(taken: set<Pair>, code: string, exam: string) returns (number: nat)
    ensures number >= 1 && (code, Named(exam, number)) !in taken
    ensures forall k | 1 <= k < number :: (code, Named(exam, k)) in taken
  {
    number := 1;
    ghost var tried: set<Pair> := {};
    while (code, Named(exam, number)) in taken
      invariant number >= 1 && Tried(tried, taken, code, exam, number)
      invariant forall k | 1 <= k < number :: (code, Named(exam, k)) in taken
      decreases |taken - tried|
    {
      ghost var pair := (code, Named(exam, number));
      OneMoreTried(tried, taken, code, exam, number);
      assert taken - (tried + {pair}) < taken - tried;
      SubsetSize(taken - (tried + {pair}), taken - tried);
      tried := tried + {pair};
      number := number + 1;
    }
  }

  /** No two columns hold the same exam of the same course. */
  ghost predicate Distinguished(exams: map<string, string>, codes: map<string, string>) {
    forall a, b | a in exams && b in exams && a != b && a in codes && b in codes ::
        (codes[a], exams[a]) != (codes[b], exams[b])
  }

  /** Every column has its own exam name with its number, and its pair is taken. */
  ghost predicate Numbered(exams: map<string, string>, numbers: map<string, nat>, codes: map<string, string>,
                           names: map<string, string>, taken: set<Pair>)
    requires exams.Keys == numbers.Keys && exams.Keys <= codes.Keys && exams.Keys <= names.Keys
  {
    forall h | h in exams :: numbers[h] >= 1 && exams[h] == Named(names[h], numbers[h]) && (codes[h], exams[h]) in taken
  }

  /** Every pair is that of a column, and a column's smaller numbers are all used. */
  ghost predicate NoGap(exams: map<string, string>, numbers: map<string, nat>, codes: map<string, string>,
                        names: map<string, string>, taken: set<Pair>)
    requires exams.Keys == numbers.Keys && exams.Keys <= codes.Keys && exams.Keys <= names.Keys
  {
    && (forall pair | pair in taken :: exists h :: h in exams && pair == (codes[h], exams[h]))
    && (forall h, k | h in exams && 1 <= k < numbers[h] :: (codes[h], Named(names[h], k)) in taken)
  }

  ghost predicate Distinct(headers: seq<string>) {
    forall i, j | 0 <= i < j < |headers| :: headers[i] != headers[j]
  }

  lemma OneMoreColumn(exams: map<string, string>, numbers: map<string, nat>, codes: map<string, string>,
                      names: map<string, string>, taken: set<Pair>, header: string, number: nat)
    requires exams.Keys == numbers.Keys && exams.Keys <= codes.Keys && exams.Keys <= names.Keys
    requires header in codes && header in names && header !in exams
    requires NoGap(exams, numbers, codes, names, taken)
    requires forall k | 1 <= k < number :: (codes[header], Named(names[header], k)) in taken
    ensures var exam := Named(names[header], number);
            NoGap(exams[header := exam], numbers[header := number], codes, names, taken + {(codes[header], exam)})
  {
    var exam := Named(names[header], number);
    var more := exams[header := exam];
    forall pair | pair in taken + {(codes[header], exam)} ensures exists h :: h in more && pair == (codes[h], more[h]) {
      if pair in taken {
        var h :| h in exams && pair == (codes[h], exams[h]);
        assert h in more && pair == (codes[h], more[h]);
      } else {
        assert header in more && pair == (codes[header], more[header]);
      }
    }
  }

  /** The exam of every course column: its own exam name, with the smallest number that keeps it apart. `names` are the
      exam names before numbering, `codes` the course codes; `labels` are the course columns among the headers. */
  method NameExams(headers: seq<string>, labels: set<string>, codes: map<string, string>, names: map<string, string>)
      returns (exams: map<string, string>, ghost numbers: map<string, nat>, ghost taken: set<Pair>)
    requires labels <= codes.Keys && labels <= names.Keys
    ensures exams.Keys == numbers.Keys == Chosen(headers, labels)
    ensures Numbered(exams, numbers, codes, names, taken) && Distinguished(exams, codes)
    ensures Distinct(headers) ==> NoGap(exams, numbers, codes, names, taken)
  {
    exams, numbers := map[], map[];
    var used: set<Pair> := {};
    for i := 0 to |headers|
      invariant exams.Keys == numbers.Keys == Chosen(headers[..i], labels)
      invariant Numbered(exams, numbers, codes, names, used) && Distinguished(exams, codes)
      invariant Distinct(headers) ==> NoGap(exams, numbers, codes, names, used)
    {
      var header := headers[i];
      OneMoreHeader(headers, i, labels);
      if header in labels {
        var number := FirstFree(used, codes[header], names[header]);
        var exam := Named(names[header], number);
        if Distinct(headers) {
          assert header !in headers[..i];
          OneMoreColumn(exams, numbers, codes, names, used, header, number);
        }
        NamedApart(exams, numbers, codes, names, used, header, number);
        exams := exams[header := exam];
        numbers := numbers[header := number];
        used := used + {(codes[header], exam)};
      }
    }
    assert headers[..|headers|] == headers;
    taken := used;
  }

  /** The course columns among the headers. */
  ghost function Chosen(headers: seq<string>, labels: set<string>): set<string> {
    set h | h in headers && h in labels
  }

  lemma OneMoreHeader(headers: seq<string>, i: nat, labels: set<string>)
    requires i < |headers|
    ensures Chosen(headers[..i + 1], labels) == Chosen(headers[..i], labels) + if headers[i] in labels then
            {headers[i]} else {}
  {
    assert headers[..i + 1] == headers[..i] + [headers[i]];
  }

  /** A name that is not taken keeps the columns apart. */
  lemma NamedApart(exams: map<string, string>, numbers: map<string, nat>, codes: map<string, string>,
                   names: map<string, string>, taken: set<Pair>, header: string, number: nat)
    requires exams.Keys == numbers.Keys && exams.Keys <= codes.Keys && exams.Keys <= names.Keys
    requires header in codes && header in names && number >= 1
    requires Numbered(exams, numbers, codes, names, taken) && Distinguished(exams, codes)
    requires (codes[header], Named(names[header], number)) !in taken
    ensures var exam := Named(names[header], number);
            && Numbered(exams[header := exam], numbers[header := number], codes, names, taken + {(codes[header], exam)})
            && Distinguished(exams[header := exam], codes)
  {
  }

  /** The numbers of a course's exam run from 1 without a gap: each smaller one names another column. */
  lemma SmallerNumbersAreUsed(exams: map<string, string>, numbers: map<string, nat>, codes: map<string, string>,
                              names: map<string, string>, taken: set<Pair>, header: string, k: nat)
                                  returns (other: string)
    requires exams.Keys == numbers.Keys && exams.Keys <= codes.Keys && exams.Keys <= names.Keys
    requires Numbered(exams, numbers, codes, names, taken) && NoGap(exams, numbers, codes, names, taken)
    requires header in exams && 1 <= k < numbers[header]
    ensures other in exams && other != header && codes[other] == codes[header]
            && exams[other] == Named(names[header], k)
  {
    other :| other in exams && (codes[header], Named(names[header], k)) == (codes[other], exams[other]);
    NamesDiffer(names[header], k, numbers[header]);
  }
}
