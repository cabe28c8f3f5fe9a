/** Splitting the labels of course columns into an exam group and a subject
    (apps/api/app/ingestion/wide_marks.py, `_common_suffix` and `_split_labels`). Lower-casing and header normalisation
    are parameters; so is whether a label starts with a known group, which a pattern decides. */
module LabelSplit {
  import opened Text

  function Lowered(words: seq<string>, lower: string -> string): (r: seq<string>)
    ensures |r| == |words| && forall i | 0 <= i < |words| :: r[i] == lower(words[i])
  {
    seq(|words|, i requires 0 <= i < |words| => lower(words[i]))
  }

  function Last(words: seq<string>, k: nat): (r: seq<string>)
    requires k <= |words|
    ensures |r| == k
  {
    words[|words| - k..]
  }

  ghost predicate EndAlike(a: seq<string>, b: seq<string>, k: nat, lower: string -> string) {
    k <= |a| && k <= |b| && Lowered(Last(a, k), lower) == Lowered(Last(b, k), lower)
  }

  /** The labels, as words, all end in the same `k` words, up to case. */
  ghost predicate Shared(words: seq<seq<string>>, k: nat, lower: string -> string) {
    forall i | 0 <= i < |words| :: EndAlike(words[i], words[0], k, lower)
  }

  /** The longest run of words that all the labels end in, as the first label writes it. */
  ghost predicate LongestSuffix(suffix: seq<string>, words: seq<seq<string>>, lower: string -> string)
    requires words != []
  {
    && Shared(words, |suffix|, lower)
    && !Shared(words, |suffix| + 1, lower)
    && |suffix| <= |words[0]| && suffix == Last(words[0], |suffix|)
  }

  lemma AlikeAgain(a: seq<string>, b: seq<string>, k: nat, j: nat, lower: string -> string)
    requires EndAlike(a, b, k, lower) && j <= k
    ensures EndAlike(a, b, j, lower)
  {
    assert Last(a, j) == Last(a, k)[k - j..] && Last(b, j) == Last(b, k)[k - j..];
    assert Lowered(Last(a, j), lower) == Lowered(Last(a, k), lower)[k - j..];
    assert Lowered(Last(b, j), lower) == Lowered(Last(b, k), lower)[k - j..];
  }

  /** No longer run is shared either. */
  lemma NothingLonger(suffix: seq<string>, words: seq<seq<string>>, k: nat, lower: string -> string)
    requires words != [] && LongestSuffix(suffix, words, lower) && k > |suffix|
    ensures !Shared(words, k, lower)
  {
    if Shared(words, k, lower) {
      forall i | 0 <= i < |words| ensures EndAlike(words[i], words[0], |suffix| + 1, lower) {
        AlikeAgain(words[i], words[0], k, |suffix| + 1, lower);
      }
    }
  }

  /** The word that comes `k` words before the last. */
  function FromEnd(words: seq<string>, k: nat): string
    requires k < |words|
  {
    words[|words| - 1 - k]
  }

  lemma OneMoreWord(a: seq<string>, b: seq<string>, k: nat, lower: string -> string)
    requires k < |a| && k < |b|
    ensures Lowered(Last(a, k + 1), lower) == Lowered(Last(b, k + 1), lower) <==>
              lower(FromEnd(a, k)) == lower(FromEnd(b, k)) && Lowered(Last(a, k), lower) == Lowered(Last(b, k), lower)
  {
    assert Last(a, k + 1) == [FromEnd(a, k)] + Last(a, k) && Last(b, k + 1) == [FromEnd(b, k)] + Last(b, k);
    assert Lowered(Last(a, k + 1), lower) == [lower(FromEnd(a, k))] + Lowered(Last(a, k), lower);
    assert Lowered(Last(b, k + 1), lower) == [lower(FromEnd(b, k))] + Lowered(Last(b, k), lower);
  }

  function SplitAll(labels: seq<string>): (words: seq<seq<string>>)
    ensures |words| == |labels| && forall i | 0 <= i < |labels| :: words[i] == Words(labels[i])
  {
    seq(|labels|, i requires 0 <= i < |labels| => Words(labels[i]))
  }

  lemma OneCandidate(candidates: set<string>, first: string)
    requires first in candidates
    ensures |candidates| == 1 <==> forall c | c in candidates :: c == first
  {
    assert candidates == {first} + (candidates - {first});
    assert |candidates| == 1 + |candidates - {first}|;
    if |candidates| == 1 {
      assert candidates - {first} == {};
    } else {
      assert candidates - {first} != {};
    }
  }

  /** One more word is shared exactly when every label has one and they are all alike. */
  lemma SharedMore(words: seq<seq<string>>, k: nat, lower: string -> string)
    requires words != [] && Shared(words, k, lower) && forall i | 0 <= i < |words| :: |words[i]| > k
    ensures Shared(words, k + 1, lower) <==>
              forall i | 0 <= i < |words| :: lower(FromEnd(words[i], k)) == lower(FromEnd(words[0], k))
  {
    forall i | 0 <= i < |words|
      ensures EndAlike(words[i], words[0], k + 1, lower) <==> lower(FromEnd(words[i], k)) == lower(FromEnd(words[0], k))
    {
      assert EndAlike(words[i], words[0], k, lower);
      OneMoreWord(words[i], words[0], k, lower);
    }
  }

  method CandidatesAgree(words: seq<seq<string>>, k: nat, lower: string -> string) returns (agree: bool)
    requires forall i | 0 <= i < |words| :: |words[i]| > k
    ensures agree <==> words != [] && forall i | 0 <= i < |words| ::
            lower(FromEnd(words[i], k)) == lower(FromEnd(words[0], k))
  {
    var candidates := set i | 0 <= i < |words| :: lower(FromEnd(words[i], k));
    agree := |candidates| == 1;
    if words != [] {
      OneCandidate(candidates, lower(FromEnd(words[0], k)));
      assert forall i | 0 <= i < |words| :: lower(FromEnd(words[i], k)) in candidates;
    }
  }

  method CommonSuffix(labels: seq<string>, lower: string -> string) returns (suffix: seq<string>)
    ensures labels == [] ==> suffix == []
    ensures labels != [] ==> LongestSuffix(suffix, SplitAll(labels), lower)
  {
    var words := SplitAll(labels);
    suffix := [];
    while forall i | 0 <= i < |words| :: |words[i]| > |suffix|
      invariant Shared(words, |suffix|, lower)
      invariant if words == [] then suffix == [] else |suffix| <= |words[0]| && suffix == Last(words[0], |suffix|)
      decreases if words == [] then 0 else |words[0]| - |suffix|
    {
      var agree := CandidatesAgree(words, |suffix|, lower);
      if words != [] {
        SharedMore(words, |suffix|, lower);
      }
      if !agree {
        return;
      }
      OneWordLonger(words[0], |suffix|);
      suffix := [FromEnd(words[0], |suffix|)] + suffix;
    }
  }

  lemma OneWordLonger(words: seq<string>, k: nat)
    requires k < |words|
    ensures [FromEnd(words, k)] + Last(words, k) == Last(words, k + 1)
  {
  }

  // ------------------------------------------------------------------- splitting every label

  /** What the group pattern finds at the start of a label. */
  datatype GroupMatch = GroupMatch(group: string, subject: string)

  /** An exam group and a subject. */
  type Split = (string, string)

  /** A label without its course's shared ending, and that ending; the whole label when nothing is left in front. */
  function Divided(text: string, suffix: seq<string>): Split {
    var words := Words(text);
    var group := if suffix != [] && |suffix| <= |words| then Join(" ", words[..|words| - |suffix|]) else "";
    (group, if suffix != [] && group != "" then Join(" ", suffix) else text)
  }

  /** Group words followed by subject words are the label's words, up to case. */
  lemma DividingKeepsWords(text: string, suffix: seq<string>, lower: string -> string)
    requires EndAlike(Words(text), suffix, |suffix|, lower) && forall w | w in suffix :: IsWord(w)
    ensures var (group, subject) := Divided(text, suffix);
            Lowered(Words(group) + Words(subject), lower) == Lowered(Words(text), lower)
    ensures Divided(text, suffix).0 != "" ==> Divided(text, suffix).1 == Join(" ", suffix)
  {
    var words := Words(text);
    var cut := |words| - |suffix|;
    var (group, subject) := Divided(text, suffix);
    if suffix != [] && group != "" {
      assert forall w | w in words[..cut] :: w in words;
      WordsJoin(words[..cut]);
      WordsJoin(suffix);
      assert suffix == Last(suffix, |suffix|);
      assert words == words[..cut] + Last(words, |suffix|);
      LoweredParts(words[..cut], Last(words, |suffix|), suffix, lower);
    } else {
      assert Words("") == [] && [] + words == words;
    }
  }

  lemma LoweredParts(front: seq<string>, a: seq<string>, b: seq<string>, lower: string -> string)
    requires Lowered(a, lower) == Lowered(b, lower)
    ensures Lowered(front + b, lower) == Lowered(front + a, lower)
  {
    assert Lowered(front + a, lower) == Lowered(front, lower) + Lowered(a, lower);
    assert Lowered(front + b, lower) == Lowered(front, lower) + Lowered(b, lower);
  }

  /** How many of the columns carry a known group with this normalised name. */
  function Support(headers: seq<string>, known: map<string, GroupMatch>, normalise: string -> string,
      name: string): nat {
    if headers == [] then 0
    else
      var last := headers[|headers| - 1];
      Support(headers[..|headers| - 1], known, normalise, name)
      + if last in known && normalise(known[last].group) == name then 1 else 0
  }

  /** A known group counts when at least two columns share it. */
  predicate Grouped(header: string, headers: seq<string>, known: map<string, GroupMatch>, normalise: string -> string) {
    header in known && Support(headers, known, normalise, normalise(known[header].group)) >= 2
  }

  /** The labels of a course's columns that are not under a group that counts, in column order. */
  function Peers(headers: seq<string>, grouped: set<string>, codes: map<string, string>,
      code: string): (peers: seq<string>)
    ensures forall h | h in peers :: h in headers && h !in grouped && h in codes && codes[h] == code
  {
    if headers == [] then []
    else
      var last := headers[|headers| - 1];
      Peers(headers[..|headers| - 1], grouped, codes, code)
      + if last !in grouped && last in codes && codes[last] == code then [last] else []
  }

  lemma {:induction false} IsPeer(headers: seq<string>, grouped: set<string>, codes: map<string, string>,
      header: string)
    requires header in headers && header !in grouped && header in codes
    ensures header in Peers(headers, grouped, codes, codes[header])
  {
    var front, last := headers[..|headers| - 1], headers[|headers| - 1];
    if last != header {
      IsPeer(front, grouped, codes, header);
    }
  }

  function LabelsOf(headers: seq<string>, labels: map<string, string>): (r: seq<string>)
    requires forall h | h in headers :: h in labels
    ensures |r| == |headers| && forall i | 0 <= i < |headers| :: r[i] == labels[headers[i]]
  {
    seq(|headers|, i requires 0 <= i < |headers| => labels[headers[i]])
  }

  method CountGroups(headers: seq<string>, known: map<string, GroupMatch>, normalise: string -> string)
      returns (support: map<string, nat>)
    ensures forall name :: Support(headers, known, normalise, name) == if name in support then support[name] else 0
  {
    support := map[];
    for i := 0 to |headers|
      invariant forall name ::
              Support(headers[..i], known, normalise, name) == if name in support then support[name] else 0
    {
      assert headers[..i + 1][..i] == headers[..i];
      if headers[i] in known {
        var name := normalise(known[headers[i]].group);
        support := support[name := (if name in support then support[name] else 0) + 1];
      }
    }
    assert headers[..|headers|] == headers;
  }

  /** The columns under a group that counts, with that group and the subject after it. */
  method SplitGrouped(headers: seq<string>, known: map<string, GroupMatch>, normalise: string -> string)
      returns (split: map<string, Split>)
    ensures split.Keys == set h | h in headers && Grouped(h, headers, known, normalise)
    ensures forall h | h in split :: split[h] == (known[h].group, Strip(known[h].subject))
  {
    var support := CountGroups(headers, known, normalise);
    split := map[];
    for i := 0 to |headers|
      invariant forall h :: h in split <==> h in headers[..i] && Grouped(h, headers, known, normalise)
      invariant forall h | h in split :: split[h] == (known[h].group, Strip(known[h].subject))
    {
      var header := headers[i];
      OneMoreHeader(headers, i);
      if header in known && normalise(known[header].group) in support && support[normalise(known[header].group)] >= 2 {
        split := split[header := (known[header].group, Strip(known[header].subject))];
      }
    }
    assert headers[..|headers|] == headers;
  }

  lemma OneMoreHeader(headers: seq<string>, i: nat)
    requires i < |headers|
    ensures forall h :: h in headers[..i + 1] <==> h in headers[..i] || h == headers[i]
  {
  }

  lemma OneMorePeer(headers: seq<string>, grouped: set<string>, codes: map<string, string>, i: nat, code: string)
    requires i < |headers|
    ensures Peers(headers[..i + 1], grouped, codes, code) ==
            if headers[i] !in grouped && headers[i] in codes && codes[headers[i]] == code then
                Peers(headers[..i], grouped, codes, code) + [headers[i]]
            else Peers(headers[..i], grouped, codes, code)
  {
    assert headers[..i + 1][..i] == headers[..i];
    NothingAdded(Peers(headers[..i], grouped, codes, code));
  }

  lemma NothingAdded(peers: seq<string>)
    ensures peers + [] == peers
  {
  }

  method AddPeer(byCode0: map<string, seq<string>>, order0: seq<string>, code: string, header: string)
      returns (byCode: map<string, seq<string>>, order: seq<string>)
    requires forall c :: c in order0 <==> c in byCode0
    ensures byCode == byCode0[code := EntryOf(byCode0, code) + [header]]
    ensures forall c :: c in order <==> c in byCode
  {
    order := order0;
    if code !in byCode0 {
      order := order + [code];
    }
    byCode := byCode0[code := (if code in byCode0 then byCode0[code] else []) + [header]];
  }

  function EntryOf(byCode: map<string, seq<string>>, code: string): seq<string> {
    if code in byCode then byCode[code] else []
  }

  lemma EntryAdded(byCode: map<string, seq<string>>, code: string, header: string, other: string)
    ensures EntryOf(byCode[code := EntryOf(byCode, code) + [header]], other) ==
            if other == code then EntryOf(byCode, other) + [header] else EntryOf(byCode, other)
  {
  }

  /** Every course's peers, and no empty entry. */
  ghost predicate PeersByCode(byCode: map<string, seq<string>>, headers: seq<string>, grouped: set<string>,
      codes: map<string, string>) {
    && (forall code :: Peers(headers, grouped, codes, code) == EntryOf(byCode, code))
    && (forall code | code in byCode :: byCode[code] != [])
  }

  lemma PeerAdded(byCode: map<string, seq<string>>, headers: seq<string>, i: nat, grouped: set<string>,
      codes: map<string, string>,
                  more: map<string, seq<string>>)
    requires i < |headers| && headers[i] in codes && PeersByCode(byCode, headers[..i], grouped, codes)
    requires var code := codes[headers[i]];
             more == if headers[i] in grouped then byCode else byCode[code := EntryOf(byCode, code) + [headers[i]]]
    ensures PeersByCode(more, headers[..i + 1], grouped, codes)
  {
    forall code ensures Peers(headers[..i + 1], grouped, codes, code) == EntryOf(more, code) {
      OneMorePeer(headers, grouped, codes, i, code);
      EntryAdded(byCode, codes[headers[i]], headers[i], code);
    }
    NoEmptyEntry(byCode, codes[headers[i]], headers[i]);
  }

  lemma NoEmptyEntry(byCode: map<string, seq<string>>, code: string, header: string)
    requires forall c | c in byCode :: byCode[c] != []
    ensures var more := byCode[code := EntryOf(byCode, code) + [header]]; forall c | c in more :: more[c] != []
  {
  }

  /** The columns of each course that no known group explains. */
  method GroupByCode(headers: seq<string>, grouped: set<string>, codes: map<string, string>)
      returns (byCode: map<string, seq<string>>, order: seq<string>)
    requires forall h | h in headers :: h in codes
    ensures PeersByCode(byCode, headers, grouped, codes)
    ensures forall code :: code in order <==> code in byCode
  {
    byCode, order := map[], [];
    for i := 0 to |headers|
      invariant PeersByCode(byCode, headers[..i], grouped, codes)
      invariant forall code :: code in order <==> code in byCode
    {
      var header := headers[i];
      ghost var before := byCode;
      if header !in grouped {
        byCode, order := AddPeer(byCode, order, codes[header], header);
      }
      PeerAdded(before, headers, i, grouped, codes, byCode);
    }
    assert headers[..|headers|] == headers;
  }

  /** The ending that a course's columns share, when there are several. */
  ghost predicate EndingOf(suffix: seq<string>, peers: seq<string>, labels: map<string, string>,
      lower: string -> string)
    requires forall h | h in peers :: h in labels
  {
    if |peers| > 1 then LongestSuffix(suffix, SplitAll(LabelsOf(peers, labels)), lower) else suffix == []
  }

  method Ending(peers: seq<string>, labels: map<string, string>, lower: string -> string) returns (suffix: seq<string>)
    requires forall h | h in peers :: h in labels
    ensures EndingOf(suffix, peers, labels, lower)
  {
    if |peers| > 1 {
      suffix := CommonSuffix(LabelsOf(peers, labels), lower);
    } else {
      suffix := [];
    }
  }

  /** The shared ending of every course. */
  method Endings(order: seq<string>, byCode: map<string, seq<string>>, labels: map<string, string>,
      lower: string -> string)
      returns (endings: map<string, seq<string>>)
    requires forall code | code in order :: code in byCode
    requires forall code | code in byCode :: forall h | h in byCode[code] :: h in labels
    ensures endings.Keys == set code | code in order
    ensures forall code | code in endings :: EndingOf(endings[code], byCode[code], labels, lower)
  {
    endings := map[];
    for i := 0 to |order|
      invariant endings.Keys == set code | code in order[..i]
      invariant forall code | code in endings :: EndingOf(endings[code], byCode[code], labels, lower)
    {
      var suffix := Ending(byCode[order[i]], labels, lower);
      endings := endings[order[i] := suffix];
    }
    assert order[..|order|] == order;
  }

  /** A way to split the label of a column once its course's ending is known. */
  type Divider = (string, seq<string>) -> Split

  function DividerOf(labels: map<string, string>): Divider {
    (header: string, suffix: seq<string>) => if header in labels then Divided(labels[header], suffix) else ("", "")
  }

  method DivideColumns(split0: map<string, Split>, peers: seq<string>, divide: Divider, suffix: seq<string>)
      returns (split: map<string, Split>)
    ensures split.Keys == split0.Keys + set h | h in peers
    ensures forall h | h in split :: split[h] == if h in peers then divide(h, suffix) else split0[h]
  {
    split := split0;
    for i := 0 to |peers|
      invariant split.Keys == split0.Keys + set h | h in peers[..i]
      invariant forall h | h in split :: split[h] == if h in peers[..i] then divide(h, suffix) else split0[h]
    {
      split := split[peers[i] := divide(peers[i], suffix)];
    }
    assert peers[..|peers|] == peers;
  }

  lemma AllPeers(headers: seq<string>, grouped: set<string>, codes: map<string, string>, byCode: map<string,
      seq<string>>, order: seq<string>)
    requires forall h | h in headers :: h in codes
    requires PeersByCode(byCode, headers, grouped, codes)
    requires forall code :: code in order <==> code in byCode
    ensures forall code | code in byCode :: byCode[code] == Peers(headers, grouped, codes, code)
    ensures forall code, h | code in byCode && h in byCode[code] :: h in headers && h in codes && codes[h] == code
    ensures forall h :: Due(h, order, byCode, codes) <==> h in headers && h !in grouped
  {
    forall h | h in headers && h !in grouped ensures Due(h, order, byCode, codes) {
      IsPeer(headers, grouped, codes, h);
    }
  }

  /** A column of one of the courses in `order`. */
  ghost predicate Due(header: string, order: seq<string>, byCode: map<string, seq<string>>, codes: map<string,
      string>) {
    header in codes && codes[header] in order && codes[header] in byCode && header in byCode[codes[header]]
  }

  /** The columns of all courses, each course's at its own ending. */
  method DivideCourses(split0: map<string, Split>, order: seq<string>, byCode: map<string, seq<string>>,
                       ghost codes: map<string, string>, divide: Divider, endings: map<string, seq<string>>)
      returns (split: map<string, Split>)
    requires forall code | code in order :: code in byCode && code in endings
    requires forall code, h | code in byCode && h in byCode[code] :: h in codes && codes[h] == code
    ensures forall h :: h in split <==> h in split0 || Due(h, order, byCode, codes)
    ensures forall h | h in split ::
            split[h] == if Due(h, order, byCode, codes) then divide(h, endings[codes[h]]) else split0[h]
  {
    split := split0;
    for i := 0 to |order|
      invariant forall h :: h in split <==> h in split0 || Due(h, order[..i], byCode, codes)
      invariant forall h | h in split ::
              split[h] == if Due(h, order[..i], byCode, codes) then divide(h, endings[codes[h]]) else split0[h]
    {
      assert forall h ::
          Due(h, order[..i + 1], byCode, codes) <==> Due(h, order[..i], byCode, codes) || h in byCode[order[i]];
      split := DivideColumns(split, byCode[order[i]], divide, endings[order[i]]);
    }
    assert order[..|order|] == order;
  }

  /** Every course column's group and subject. Columns under a group that counts take them from the pattern; the others
      are divided, course by course, at the longest ending their labels share. */
  method SplitLabels(headers: seq<string>, labels: map<string, string>, codes: map<string, string>,
                     known: map<string, GroupMatch>, normalise: string -> string, lower: string -> string)
      returns (split: map<string, Split>, ghost grouped: set<string>, ghost endings: map<string, seq<string>>)
    requires forall h | h in headers :: h in labels && h in codes
    ensures grouped == set h | h in headers && Grouped(h, headers, known, normalise)
    ensures split.Keys == set h | h in headers
    ensures forall h | h in grouped :: split[h] == (known[h].group, Strip(known[h].subject))
    ensures forall code | code in endings ::
            EndingOf(endings[code], Peers(headers, grouped, codes, code), labels, lower)
    ensures forall h | h in headers && h !in grouped ::
            codes[h] in endings && split[h] == DividerOf(labels)(h, endings[codes[h]])
  {
    var first := SplitGrouped(headers, known, normalise);
    grouped := first.Keys;
    var byCode, order := GroupByCode(headers, first.Keys, codes);
    AllPeers(headers, grouped, codes, byCode, order);
    var found := Endings(order, byCode, labels, lower);
    endings := found;
    split := DivideCourses(first, order, byCode, codes, DividerOf(labels), found);
  }

  /** For a column that no known group explains, the group's words and then the subject's are those of its label. */
  lemma SplitKeepsWords(header: string, peers: seq<string>, labels: map<string, string>, suffix: seq<string>,
      lower: string -> string)
    requires header in peers && (forall h | h in peers :: h in labels) && EndingOf(suffix, peers, labels, lower)
    ensures var (group, subject) := Divided(labels[header], suffix);
            Lowered(Words(group) + Words(subject), lower) == Lowered(Words(labels[header]), lower)
  {
    var text := labels[header];
    if |peers| > 1 {
      var words := SplitAll(LabelsOf(peers, labels));
      var i :| 0 <= i < |peers| && peers[i] == header;
      assert EndAlike(words[i], words[0], |suffix|, lower);
      assert suffix == Last(suffix, |suffix|);
      assert forall w | w in suffix :: w in words[0];
    } else {
      assert Last(Words(text), 0) == [] == Last(suffix, 0);
    }
    DividingKeepsWords(text, suffix, lower);
  }

  // ------------------------------------------------------------------- what the split shows

  /** A label is divided exactly when its course's columns share an ending and the label has words before it: those
      words are the group, and the ending is the subject. Otherwise the label is the subject. */
  lemma DividesExactlyWhen(text: string, suffix: seq<string>)
    requires |suffix| <= |Words(text)| && forall w | w in suffix :: IsWord(w)
    ensures var (group, subject) := Divided(text, suffix);
            if suffix != [] && |Words(text)| > |suffix| then
              Words(group) == Words(text)[..|Words(text)| - |suffix|] && Words(subject) == suffix
            else group == "" && subject == text
  {
    var words := Words(text);
    var front := words[..|words| - |suffix|];
    assert forall w | w in front :: w in words;
    WordsJoin(front);
    WordsJoin(suffix);
  }

  /** Another column has a known group of the same normalised name. */
  ghost predicate SharesGroup(i: nat, headers: seq<string>, known: map<string, GroupMatch>,
      normalise: string -> string)
    requires i < |headers| && headers[i] in known
  {
    exists j: nat | j < |headers| && j != i ::
      headers[j] in known && normalise(known[headers[j]].group) == normalise(known[headers[i]].group)
  }

  ghost function Supporters(headers: seq<string>, known: map<string, GroupMatch>, normalise: string -> string,
      name: string): set<nat> {
    set i: nat | i < |headers| && headers[i] in known && normalise(known[headers[i]].group) == name
  }

  lemma {:induction false} SupportIsCounted(headers: seq<string>, known: map<string, GroupMatch>,
      normalise: string -> string, name: string)
    ensures Support(headers, known, normalise, name) == |Supporters(headers, known, normalise, name)|
  {
    if headers != [] {
      var n: nat := |headers| - 1;
      SupportIsCounted(headers[..n], known, normalise, name);
      assert forall i | 0 <= i < n :: headers[..n][i] == headers[i];
      var fewer := Supporters(headers[..n], known, normalise, name);
      if headers[n] in known && normalise(known[headers[n]].group) == name {
        assert Supporters(headers, known, normalise, name) == fewer + {n};
      } else {
        assert Supporters(headers, known, normalise, name) == fewer;
      }
    }
  }

  lemma TwoOrMore(s: set<nat>, i: nat)
    requires i in s
    ensures |s| >= 2 <==> exists j :: j in s && j != i
  {
    var rest := s - {i};
    assert s == rest + {i} && |s| == |rest| + 1;
    if |rest| >= 1 {
      var j :| j in rest;
    }
    if j :| j in s && j != i {
      assert j in rest;
    }
  }

  /** A known group counts exactly when another column has it too. */
  lemma GroupedExactlyWhen(headers: seq<string>, known: map<string, GroupMatch>, normalise: string -> string, i: nat)
    requires i < |headers|
    ensures Grouped(headers[i], headers, known, normalise) <==>
            headers[i] in known && SharesGroup(i, headers, known, normalise)
  {
    if headers[i] in known {
      var name := normalise(known[headers[i]].group);
      SupportIsCounted(headers, known, normalise, name);
      var supporters := Supporters(headers, known, normalise, name);
      TwoOrMore(supporters, i);
      if SharesGroup(i, headers, known, normalise) {
        var j: nat :| j < |headers| && j != i
            && headers[j] in known && normalise(known[headers[j]].group) == name;
        assert j in supporters;
      }
    }
  }
}
