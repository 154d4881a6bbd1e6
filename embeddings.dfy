/**
 * The embedding service: what text reaches the sentence model, cosine similarity, and the
 * "closest liked / disliked item" aggregations used by the ranker.
 */
module Embeddings {
  import opened Wrappers
  import opened Strings
  import opened Entities

  /** `embed_text` passes at most this many characters to the model. */
  const EmbedTextLength: nat := 512
  /** `embed_item` uses at most this many characters of the article body. */
  const ItemExcerptLength: nat := 400
  /** Added to the denominator of the cosine. */
  const Epsilon: real := 0.000000001

  /** The sentence model (`model.encode(..., normalize_embeddings=True)`), an oracle. */
  type Encoder = string -> Vector

  /** `np.linalg.norm`, an oracle whose values are never negative. */
  type Norm = f: Vector -> real | forall v :: f(v) >= 0.0 witness (v: Vector) => 0.0

  function EmbedText(encode: Encoder, text: string): Vector
  {
    encode(Take(text, EmbedTextLength))
  }

  /** The embedding of a text does not depend on anything after its first 512 characters. */
  lemma EmbedTextReadsPrefixOnly(encode: Encoder, text: string, more: string)
    requires |text| >= EmbedTextLength
    ensures EmbedText(encode, text + more) == EmbedText(encode, text)
  {
    assert (text + more)[..EmbedTextLength] == text[..EmbedTextLength];
    assert Take(text + more, EmbedTextLength) == text[..EmbedTextLength];
    assert Take(text, EmbedTextLength) == text[..EmbedTextLength];
  }

  /** The text `embed_item` embeds: the title, a blank line, the first 400 body characters. */
  function ItemInput(title: string, text: string): string
  {
    title + "\n\n" + Take(text, ItemExcerptLength)
  }

  function EmbedItem(encode: Encoder, title: string, text: string): Vector
  {
    EmbedText(encode, ItemInput(title, text))
  }

  /** Body text beyond 400 characters never influences an article's embedding. */
  lemma EmbedItemReadsExcerptOnly(encode: Encoder, title: string, text: string, more: string)
    requires |text| >= ItemExcerptLength
    ensures EmbedItem(encode, title, text + more) == EmbedItem(encode, title, text)
  {
    assert (text + more)[..ItemExcerptLength] == text[..ItemExcerptLength];
    assert Take(text + more, ItemExcerptLength) == text[..ItemExcerptLength];
    assert Take(text, ItemExcerptLength) == text[..ItemExcerptLength];
  }

  /** With a title of at most 110 characters the 512-character cut does not shorten the input. */
  lemma EmbedItemWholeInput(encode: Encoder, title: string, text: string)
    requires |title| <= EmbedTextLength - 2 - ItemExcerptLength
    ensures EmbedItem(encode, title, text) == encode(title + "\n\n" + Take(text, ItemExcerptLength))
  {
  }

  /** `np.dot`, over the common length of the two vectors. */
  function Dot(a: Vector, b: Vector): real
  {
    if |a| == 0 || |b| == 0 then 0.0 else a[0] * b[0] + Dot(a[1..], b[1..])
  }

  lemma {:induction false} DotSymmetric(a: Vector, b: Vector)
    ensures Dot(a, b) == Dot(b, a)
  {
    if |a| > 0 && |b| > 0 {
      DotSymmetric(a[1..], b[1..]);
    }
  }

  lemma {:induction false} DotSelfNonNegative(v: Vector)
    ensures Dot(v, v) >= 0.0
  {
    if |v| > 0 {
      DotSelfNonNegative(v[1..]);
      assert v[0] * v[0] >= 0.0;
    }
  }

  /** `cosine_similarity`: the dot product over the product of the norms plus epsilon. */
  function CosineSimilarity(a: Vector, b: Vector, norm: Norm): real
  {
    assert norm(a) * norm(b) >= 0.0;
    Dot(a, b) / (norm(a) * norm(b) + Epsilon)
  }

  lemma CosineSymmetric(a: Vector, b: Vector, norm: Norm)
    ensures CosineSimilarity(a, b, norm) == CosineSimilarity(b, a, norm)
  {
    DotSymmetric(a, b);
    assert norm(a) * norm(b) == norm(b) * norm(a);
  }

  /** For a non-zero vector and a true Euclidean norm, self-similarity lies just below 1. */
  lemma SelfSimilarityBelowOne(v: Vector, norm: Norm)
    requires norm(v) * norm(v) == Dot(v, v)
    requires Dot(v, v) > 0.0
    ensures 0.0 < CosineSimilarity(v, v, norm) < 1.0
  {
    var d := Dot(v, v);
    assert CosineSimilarity(v, v, norm) == d / (d + Epsilon);
  }

  /** The similarity an item contributes: none when it has no stored embedding. */
  function ScoreOf(candidate: Vector, item: FeedItem, norm: Norm): seq<real>
  {
    match item.embedding
    case None => []
    case Some(e) => [CosineSimilarity(candidate, e, norm)]
  }

  /** The `scores` list the aggregation loops build, in item order. */
  function SimilarityScores(candidate: Vector, items: seq<FeedItem>, norm: Norm): seq<real>
  {
    if |items| == 0 then []
    else SimilarityScores(candidate, items[..|items| - 1], norm) + ScoreOf(candidate, items[|items| - 1], norm)
  }

  /** The scores are exactly the similarities of the items that have an embedding. */
  lemma {:induction false} SimilarityScoresMembers(candidate: Vector, items: seq<FeedItem>, norm: Norm)
    ensures forall s :: s in SimilarityScores(candidate, items, norm) ==>
      exists i :: 0 <= i < |items| && items[i].embedding.Some? &&
        s == CosineSimilarity(candidate, items[i].embedding.value, norm)
    ensures forall i :: 0 <= i < |items| && items[i].embedding.Some? ==>
      CosineSimilarity(candidate, items[i].embedding.value, norm) in SimilarityScores(candidate, items, norm)
  {
    if |items| > 0 {
      var init := items[..|items| - 1];
      SimilarityScoresMembers(candidate, init, norm);
      forall i | 0 <= i < |init| ensures init[i] == items[i] { }
    }
  }

  /** Python's `max(scores) if scores else 0.0`: the largest score, or 0.0 when there is none. */
  function MaxOrZero(scores: seq<real>): (m: real)
    ensures scores == [] ==> m == 0.0
    ensures scores != [] ==> m in scores && forall s :: s in scores ==> s <= m
  {
    if |scores| == 0 then 0.0
    else if |scores| == 1 then scores[0]
    else
      var m := MaxOrZero(scores[1..]);
      assert forall s :: s in scores ==> s == scores[0] || s in scores[1..];
      if scores[0] >= m then scores[0] else m
  }

  /** `max_similarity_to_liked`: the similarity of the closest liked item that has an embedding. */
  method MaxSimilarityToLiked(candidate: Vector, liked: seq<FeedItem>, norm: Norm) returns (r: real)
    ensures r == MaxOrZero(SimilarityScores(candidate, liked, norm))
    ensures (forall i :: 0 <= i < |liked| ==> liked[i].embedding.None?) ==> r == 0.0
    ensures forall i :: 0 <= i < |liked| && liked[i].embedding.Some? ==>
      CosineSimilarity(candidate, liked[i].embedding.value, norm) <= r
    ensures (exists i :: 0 <= i < |liked| && liked[i].embedding.Some?) ==>
      exists i :: 0 <= i < |liked| && liked[i].embedding.Some? &&
        r == CosineSimilarity(candidate, liked[i].embedding.value, norm)
  {
    if |liked| == 0 {
      return 0.0;
    }
    var scores: seq<real> := [];
    for i := 0 to |liked|
      invariant scores == SimilarityScores(candidate, liked[..i], norm)
    {
      assert liked[..i + 1][..i] == liked[..i];
      match liked[i].embedding
      case None =>
      case Some(e) =>
        scores := scores + [CosineSimilarity(candidate, e, norm)];
    }
    assert liked[..|liked|] == liked;
    SimilarityScoresMembers(candidate, liked, norm);
    r := MaxOrZero(scores);
  }

  /**
   * `min_similarity_to_disliked`: despite its name the same computation as
   * `max_similarity_to_liked`, the similarity of the CLOSEST disliked item.
   */
  method MinSimilarityToDisliked(candidate: Vector, disliked: seq<FeedItem>, norm: Norm) returns (r: real)
    ensures r == MaxOrZero(SimilarityScores(candidate, disliked, norm))
    ensures (forall i :: 0 <= i < |disliked| ==> disliked[i].embedding.None?) ==> r == 0.0
    ensures forall i :: 0 <= i < |disliked| && disliked[i].embedding.Some? ==>
      CosineSimilarity(candidate, disliked[i].embedding.value, norm) <= r
    ensures (exists i :: 0 <= i < |disliked| && disliked[i].embedding.Some?) ==>
      exists i :: 0 <= i < |disliked| && disliked[i].embedding.Some? &&
        r == CosineSimilarity(candidate, disliked[i].embedding.value, norm)
  {
    if |disliked| == 0 {
      return 0.0;
    }
    var scores: seq<real> := [];
    for i := 0 to |disliked|
      invariant scores == SimilarityScores(candidate, disliked[..i], norm)
    {
      assert disliked[..i + 1][..i] == disliked[..i];
      match disliked[i].embedding
      case None =>
      case Some(e) =>
        scores := scores + [CosineSimilarity(candidate, e, norm)];
    }
    assert disliked[..|disliked|] == disliked;
    SimilarityScoresMembers(candidate, disliked, norm);
    r := MaxOrZero(scores);
  }
}
