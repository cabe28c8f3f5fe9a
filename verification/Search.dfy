/** Hybrid search over stored chunks (apps/api/app/documents/vector_store.py, `InstitutionVectorStore.search`). The
    store has already kept to the classifications the caller may see; every chunk carries the words of its text. */
module Search {
  import opened Values
  import opened Retrieval

  datatype Chunk = Chunk(embedding: Vec, tokens: set<string>, category: Option<string>)

  /** A scored chunk, by its place among the chunks. */
  datatype Hit = Hit(chunk: nat, score: real, semantic: real, lexical: real)

  /** The share of the query's words that a chunk holds. */
  function Lexical(query: set<string>, tokens: set<string>): real {
    if query == {} then 0.0
    else
      assert |query| > 0;
      |query * tokens| as real / |query| as real
  }

  function HitOf(k: nat, chunk: Chunk, query: Vec, words: set<string>, root: real -> real): Hit
    requires Rooted(query, root) && Rooted(chunk.embedding, root)
  {
    var semantic, lexical := Cosine(query, chunk.embedding, root), Lexical(words, chunk.tokens);
    Hit(k, SEMANTIC_WEIGHT * semantic + LEXICAL_WEIGHT * lexical, semantic, lexical)
  }

  lemma LexicalIsBounded(query: set<string>, tokens: set<string>)
    ensures 0.0 <= Lexical(query, tokens) <= 1.0
    ensures query != {} ==> (Lexical(query, tokens) == 1.0 <==> query <= tokens)
  {
    if query != {} {
      var both := query * tokens;
      assert query == both + (query - both);
      assert |query| == |both| + |query - both|;
      Ratio(|both|, |query|);
      assert |query - both| == 0 <==> query - both == {};
      assert query - both == {} <==> query <= tokens;
    }
  }

  lemma Ratio(a: nat, b: nat)
    requires a <= b && b > 0
    ensures 0.0 <= a as real / b as real <= 1.0
    ensures a as real / b as real == 1.0 <==> a == b
  {
  }

  /** No score exceeds 1, and one of 1 takes the same direction as the query and all of its words. */
  lemma ScoreIsBounded(k: nat, chunk: Chunk, query: Vec, words: set<string>, root: real -> real)
    requires Rooted(query, root) && Rooted(chunk.embedding, root)
    ensures var hit := HitOf(k, chunk, query, words, root);
            && -SEMANTIC_WEIGHT <= hit.score <= 1.0
            && (hit.score == 1.0 <==> hit.semantic == 1.0 && hit.lexical == 1.0)
  {
    CosineIsBounded(query, chunk.embedding, root);
    LexicalIsBounded(words, chunk.tokens);
  }

  /** A score is seven tenths similarity and three tenths shared words. */
  lemma ScoreIsWeighed(k: nat, chunk: Chunk, query: Vec, words: set<string>, root: real -> real)
    requires Rooted(query, root) && Rooted(chunk.embedding, root)
    ensures var hit := HitOf(k, chunk, query, words, root);
            && 10.0 * hit.score == 7.0 * hit.semantic + 3.0 * hit.lexical && hit.chunk == k
            && hit.semantic == Cosine(query, chunk.embedding, root)
            && hit.lexical * |words| as real == |words * chunk.tokens| as real
            && (words == {} ==> hit.lexical == 0.0)
  {
    if words != {} {
      ShareOf(|words * chunk.tokens| as real, |words| as real);
    } else {
      assert words * chunk.tokens == {};
    }
  }

  lemma ShareOf(part: real, whole: real)
    requires whole != 0.0
    ensures (part / whole) * whole == part
  {
  }

  /** A chunk that is similar but shares no word with the query ranks before one that holds all its words without being
      similar exactly when the similarity is above three sevenths, or is that much in an earlier chunk. */
  lemma SimilarityAgainstWords(a: Hit, b: Hit, chunks: seq<Chunk>, query: Vec, words: set<string>, root: real -> real)
    requires AllRooted(chunks, query, root) && a.chunk < |chunks| && b.chunk < |chunks|
    requires a == HitOf(a.chunk, chunks[a.chunk], query, words, root)
    requires b == HitOf(b.chunk, chunks[b.chunk], query, words, root)
    requires a.lexical == 0.0 && b.semantic == 0.0 && b.lexical == 1.0
    ensures Ahead(a, b) <==> 7.0 * a.semantic > 3.0 || (7.0 * a.semantic == 3.0 && a.chunk < b.chunk)
  {
    ScoreIsWeighed(a.chunk, chunks[a.chunk], query, words, root);
    ScoreIsWeighed(b.chunk, chunks[b.chunk], query, words, root);
  }

  // ------------------------------------------------------------------- ranking

  /** Higher score first; equal scores in the order of the chunks, as a stable sort leaves them. */
  predicate Ahead(a: Hit, b: Hit) {
    a.score > b.score || (a.score == b.score && a.chunk < b.chunk)
  }

  ghost predicate Ranked(hits: seq<Hit>) {
    forall i, j | 0 <= i < j < |hits| :: Ahead(hits[i], hits[j])
  }

  ghost predicate InChunkOrder(hits: seq<Hit>) {
    forall i, j | 0 <= i < j < |hits| :: hits[i].chunk < hits[j].chunk
  }

  /** A hit found after all the others goes in front of the lower scores. */
  method Insert(ranked: seq<Hit>, hit: Hit) returns (r: seq<Hit>)
    requires Ranked(ranked) && forall h | h in ranked :: h.chunk < hit.chunk
    ensures Ranked(r) && |r| == |ranked| + 1
    ensures forall h :: h in r <==> h in ranked || h == hit
  {
    var at := 0;
    while at < |ranked| && ranked[at].score >= hit.score
      invariant 0 <= at <= |ranked| && forall i | 0 <= i < at :: ranked[i].score >= hit.score
    {
      at := at + 1;
    }
    r := ranked[..at] + [hit] + ranked[at..];
    assert forall i | 0 <= i < at :: r[i] == ranked[i];
    assert forall i | at < i < |r| :: r[i] == ranked[i - 1];
    assert forall h | h in ranked :: h in ranked[..at] || h in ranked[at..];
  }

  /** `hits.sort(key=score, reverse=True)`. */
  method Sort(hits: seq<Hit>) returns (ranked: seq<Hit>)
    requires InChunkOrder(hits)
    ensures Ranked(ranked) && |ranked| == |hits| && forall h :: h in ranked <==> h in hits
  {
    ranked := [];
    for i := 0 to |hits|
      invariant Ranked(ranked) && |ranked| == i && forall h :: h in ranked <==> h in hits[..i]
    {
      assert hits[..i + 1] == hits[..i] + [hits[i]];
      ranked := Insert(ranked, hits[i]);
    }
    assert hits[..|hits|] == hits;
  }

  // ------------------------------------------------------------------- searching

  /** The category asked for, if any, in lower case. */
  function Wanted(category: Option<string>, lower: string -> string): Option<string> {
    if category.None? || category.value == "" then None else Some(lower(category.value))
  }

  /** The chunks that a search considers: all, or those of the category wanted. */
  predicate Candidate(chunk: Chunk, wanted: Option<string>) {
    wanted.None? || chunk.category == wanted
  }

  /** With a category, the chunks considered are those of it, in lower case; without one, all. */
  lemma ConsideredExactlyWhen(chunk: Chunk, category: Option<string>, lower: string -> string)
    ensures Candidate(chunk, Wanted(category, lower)) <==>
            category == None || category == Some("") || chunk.category == Some(lower(category.value))
  {
  }

  ghost predicate AllRooted(chunks: seq<Chunk>, query: Vec, root: real -> real) {
    Rooted(query, root) && forall chunk | chunk in chunks :: Rooted(chunk.embedding, root)
  }

  /** A candidate chunk with a positive score. */
  ghost predicate Scores(k: nat, chunks: seq<Chunk>, query: Vec, words: set<string>, wanted: Option<string>,
      root: real -> real)
    requires AllRooted(chunks, query, root)
  {
    k < |chunks| && Candidate(chunks[k], wanted) && HitOf(k, chunks[k], query, words, root).score > 0.0
  }

  ghost predicate IsHit(h: Hit, chunks: seq<Chunk>, query: Vec, words: set<string>, wanted: Option<string>,
      root: real -> real)
    requires AllRooted(chunks, query, root)
  {
    && Scores(h.chunk, chunks, query, words, wanted, root)
    && h == HitOf(h.chunk, chunks[h.chunk], query, words, root)
  }

  /** Every scoring chunk, in order. */
  method Score(chunks: seq<Chunk>, query: Vec, words: set<string>, wanted: Option<string>, root: real -> real)
      returns (hits: seq<Hit>)
    requires AllRooted(chunks, query, root)
    ensures InChunkOrder(hits)
    ensures forall h :: h in hits <==> IsHit(h, chunks, query, words, wanted, root)
  {
    hits := [];
    for k := 0 to |chunks|
      invariant InChunkOrder(hits)
      invariant forall h :: h in hits <==> h.chunk < k && IsHit(h, chunks, query, words, wanted, root)
    {
      if Candidate(chunks[k], wanted) {
        var hit := HitOf(k, chunks[k], query, words, root);
        if hit.score > 0.0 {
          hits := hits + [hit];
        }
      }
    }
  }

  /** The best hits: positive, ranked, at most `topK` but never fewer than one when there is one, and nothing left out
      ranks ahead of anything returned. */
  method SearchChunks(chunks: seq<Chunk>, query: Vec, words: set<string>, category: Option<string>, topK: int,
      lower: string -> string, root: real -> real)
      returns (hits: seq<Hit>)
    requires AllRooted(chunks, query, root)
    ensures Ranked(hits) && |hits| <= if topK > 1 then topK else 1
    ensures forall h | h in hits :: IsHit(h, chunks, query, words, Wanted(category, lower), root)
    ensures forall h | IsHit(h, chunks, query, words, Wanted(category, lower), root) && h !in hits ::
              |hits| == (if topK > 1 then topK else 1) && forall other | other in hits :: Ahead(other, h)
  {
    var scored := Score(chunks, query, words, Wanted(category, lower), root);
    var ranked := Sort(scored);
    var limit := if topK > 1 then topK else 1;
    hits := if |ranked| <= limit then ranked else ranked[..limit];
    forall h | IsHit(h, chunks, query, words, Wanted(category, lower), root) && h !in hits
      ensures |hits| == limit && forall other | other in hits :: Ahead(other, h)
    {
      assert h in ranked;
      var j :| 0 <= j < |ranked| && ranked[j] == h;
      assert j >= |hits|;
      forall other | other in hits ensures Ahead(other, h) {
        var i :| 0 <= i < |hits| && hits[i] == other;
        assert ranked[i] == other && i < j;
      }
    }
  }

  lemma HasMember(hits: seq<Hit>)
    ensures hits != [] ==> exists h :: h in hits
  {
    if hits != [] {
      assert hits[0] in hits;
    }
  }

  /** What a search returns is settled by these properties alone: two lists that have them are equal. */
  lemma {:induction false} ResultIsUnique(a: seq<Hit>, b: seq<Hit>)
    requires Ranked(a) && Ranked(b) && forall h :: h in a <==> h in b
    ensures a == b
  {
    HasMember(a);
    HasMember(b);
    if a != [] && b != [] {
      assert a[0] in b && b[0] in a;
      assert a[0] == b[0];
      assert a == [a[0]] + a[1..] && b == [b[0]] + b[1..];
      forall h ensures h in a[1..] <==> h in b[1..] {
        assert h in a[1..] ==> h != a[0] && h in b;
        assert h in b[1..] ==> h != b[0] && h in a;
      }
      ResultIsUnique(a[1..], b[1..]);
    }
  }
}
