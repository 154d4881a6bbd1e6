/**
 * ranker.py: deciding whether a candidate article is shown to a user.  The article is embedded
 * and the embedding stored; a user without history passes only when a cold-start keyword
 * occurs in the article, a user with history only when the liked/disliked similarity clears
 * the threshold; a candidate that passes is judged by the language model, a parsed judgement is
 * saved, and the article is accepted when the judged score reaches the score threshold.
 *
 * `Pipeline` is the decision as a function: the external calls it makes, in order, and its
 * result.  `ScoreItem` performs those calls on the stores and is proved to follow it.
 */
module Ranker {
  import opened Wrappers
  import opened Strings
  import opened Entities
  import opened Config
  import Embeddings
  import UserProfile
  import UserStore
  import Db
  import GroqClient

  /** The judge sees at most this many characters of the article body. */
  const ExcerptLength: nat := 1500
  /** The profile text sent to the judge for a user without history. */
  const ColdStartProfileText: string := "No history yet. Focus on AI/ML research, LLM serving, inference optimization."
  /** Weight of the disliked similarity in the adjusted score. */
  const DislikeWeight: real := 0.5

  // ---------------------------------------------------------------------------------------------
  // The cold-start keyword gate

  /** The text the keywords are looked for in: lower-cased title, a space, lower-cased body. */
  function SearchText(a: Article): string
  {
    Lower(a.title + " " + a.text)
  }

  /** `any(kw in text for kw in keywords)`. */
  function AnyKeywordIn(keywords: seq<string>, text: string): (b: bool)
    ensures b <==> exists k :: 0 <= k < |keywords| && IsSubstring(keywords[k], text)
  {
    if |keywords| == 0 then false
    else
      var rest := AnyKeywordIn(keywords[1..], text);
      assert rest <==> exists k :: 1 <= k < |keywords| && IsSubstring(keywords[k], text) by {
        if rest {
          var k :| 0 <= k < |keywords[1..]| && IsSubstring(keywords[1..][k], text);
          assert IsSubstring(keywords[k + 1], text);
        }
        if exists k :: 1 <= k < |keywords| && IsSubstring(keywords[k], text) {
          var k :| 1 <= k < |keywords| && IsSubstring(keywords[k], text);
          assert keywords[1..][k - 1] == keywords[k];
        }
      }
      IsSubstring(keywords[0], text) || rest
  }

  /** `_cold_start_matches`. */
  function ColdStartMatches(a: Article): (b: bool)
    ensures b <==> exists k :: 0 <= k < |ColdStartKeywords| && IsSubstring(ColdStartKeywords[k], SearchText(a))
  {
    AnyKeywordIn(ColdStartKeywords, SearchText(a))
  }

  /**
   * The gate ignores letter case in the article: lower-casing the title and body first changes
   * nothing (the configured keywords are themselves lower-case and are not lower-cased).
   */
  lemma ColdStartIgnoresCase(a: Article)
    ensures ColdStartMatches(a) == ColdStartMatches(a.(title := Lower(a.title), text := Lower(a.text)))
  {
    var b := a.(title := Lower(a.title), text := Lower(a.text));
    LowerAppend(a.title, " " + a.text);
    LowerAppend(" ", a.text);
    LowerAppend(b.title, " " + b.text);
    LowerAppend(" ", b.text);
    LowerIdempotent(a.title);
    LowerIdempotent(a.text);
    assert a.title + " " + a.text == a.title + (" " + a.text);
    assert b.title + " " + b.text == b.title + (" " + b.text);
    assert SearchText(a) == SearchText(b);
  }

  /** An article whose lower-cased text contains "vllm" passes the gate. */
  lemma ColdStartMatchesVllm(a: Article, i: nat)
    requires i <= |SearchText(a)| && "vllm" <= SearchText(a)[i..]
    ensures ColdStartMatches(a)
  {
    assert IsSubstring(ColdStartKeywords[0], SearchText(a));
  }

  // ---------------------------------------------------------------------------------------------
  // The judge

  /** The variable parts of the judge prompt; the fixed template around them is not modelled. */
  datatype Prompt = Prompt(profileText: string, title: string, source: string, excerpt: string)

  function JudgePrompt(a: Article, profileText: string): Prompt
  {
    Prompt(profileText, a.title, a.source, Take(a.text, ExcerptLength))
  }

  /** The judge is asked about the first 1500 characters of the body only. */
  lemma JudgeReadsExcerptOnly(a: Article, profileText: string, more: string)
    requires |a.text| >= ExcerptLength
    ensures JudgePrompt(a.(text := a.text + more), profileText) == JudgePrompt(a, profileText)
    ensures |JudgePrompt(a, profileText).excerpt| == ExcerptLength
  {
    assert (a.text + more)[..ExcerptLength] == a.text[..ExcerptLength];
  }

  /**
   * The oracles: the sentence model and norm, the topic decoder, what the completion endpoint
   * does on each attempt for a given prompt, the JSON parse of the reply into the three keys,
   * and the environment's API key.
   */
  datatype Oracles = Oracles(
    encode: Embeddings.Encoder,
    norm: Embeddings.Norm,
    decode: UserProfile.TopicDecoder,
    outcomes: Prompt -> nat -> GroqClient.CreateOutcome,
    parse: string -> Option<Judgement>,
    apiKey: Option<string>)

  /**
   * `_llm_judge`: an exception of `chat_with_retry` propagates; a reply that does not parse
   * gives None.
   */
  function LlmJudge(a: Article, profileText: string, o: Oracles, hasClient: bool): Result<Option<Judgement>, GroqClient.Error>
  {
    match GroqClient.RetrySpec(hasClient, o.apiKey, o.outcomes(JudgePrompt(a, profileText))).result
    case Err(e) => Err(e)
    case Ok(content) => Ok(o.parse(content))
  }

  // ---------------------------------------------------------------------------------------------
  // The similarity gate

  function Max(x: real, y: real): (m: real)
    ensures m >= x && m >= y && (m == x || m == y)
  {
    if x >= y then x else y
  }

  /** `[cosine_similarity(emb, te) for te in tracked_embs]`. */
  function TrackedScores(emb: Vector, tracked: seq<Vector>, norm: Embeddings.Norm): (r: seq<real>)
    ensures |r| == |tracked|
  {
    seq(|tracked|, i requires 0 <= i < |tracked| => Embeddings.CosineSimilarity(emb, tracked[i], norm))
  }

  /** `sim_liked`: the closest liked item, raised to the closest tracked article when there is one. */
  function SimLiked(emb: Vector, liked: seq<FeedItem>, tracked: seq<Vector>, norm: Embeddings.Norm): real
  {
    var s := Embeddings.MaxOrZero(Embeddings.SimilarityScores(emb, liked, norm));
    if |tracked| > 0 then Max(s, Embeddings.MaxOrZero(TrackedScores(emb, tracked, norm))) else s
  }

  /** `sim_disliked`: the closest disliked item. */
  function SimDisliked(emb: Vector, disliked: seq<FeedItem>, norm: Embeddings.Norm): real
  {
    Embeddings.MaxOrZero(Embeddings.SimilarityScores(emb, disliked, norm))
  }

  function AdjustedScore(emb: Vector, liked: seq<FeedItem>, disliked: seq<FeedItem>, tracked: seq<Vector>,
                         norm: Embeddings.Norm): real
  {
    SimLiked(emb, liked, tracked, norm) - DislikeWeight * SimDisliked(emb, disliked, norm)
  }

  /**
   * Tracked articles only ever raise `sim_liked`: it is at least the liked similarity and at
   * least every tracked similarity, and it is one of them.
   */
  lemma TrackedBoost(emb: Vector, liked: seq<FeedItem>, tracked: seq<Vector>, norm: Embeddings.Norm)
    ensures var base := Embeddings.MaxOrZero(Embeddings.SimilarityScores(emb, liked, norm));
      var s := SimLiked(emb, liked, tracked, norm);
      && s >= base
      && (forall i :: 0 <= i < |tracked| ==> s >= Embeddings.CosineSimilarity(emb, tracked[i], norm))
      && (s == base || exists i :: 0 <= i < |tracked| && s == Embeddings.CosineSimilarity(emb, tracked[i], norm))
  {
    var t := TrackedScores(emb, tracked, norm);
    if |tracked| > 0 {
      var m := Embeddings.MaxOrZero(t);
      assert m in t;
      forall i | 0 <= i < |tracked| ensures m >= Embeddings.CosineSimilarity(emb, tracked[i], norm) {
        assert t[i] in t;
      }
    }
  }

  // ---------------------------------------------------------------------------------------------
  // The decision

  /** An external effect of `score_item`, in the order it happens. */
  datatype Call =
    | EmbeddingStored(itemId: string, embedding: Vector)
    | JudgeAsked(prompt: Prompt)
    | ScoreSaved(userId: int, itemId: string, judgement: Judgement)

  /** What one `score_item` call did and returned (an `Err` is an exception it raises). */
  datatype Run = Run(calls: seq<Call>, result: Result<Option<ScoredItem>, GroqClient.Error>)

  /** Whether the candidate reaches the judge: the keyword gate cold, the similarity gate warm. */
  predicate PassesGate(a: Article, profile: UserProfile.Profile, liked: seq<FeedItem>, disliked: seq<FeedItem>, o: Oracles)
  {
    if !profile.hasHistory then ColdStartMatches(a)
    else
      var emb := Embeddings.EmbedItem(o.encode, a.title, a.text);
      AdjustedScore(emb, liked, disliked, profile.trackedEmbeddings, o.norm) >= EmbeddingSimilarityThreshold
  }

  /** The profile text the judge is given. */
  function ProfileTextFor(profile: UserProfile.Profile): string
  {
    if profile.hasHistory then UserProfile.RenderProfile(profile) else ColdStartProfileText
  }

  /**
   * The judge step of `score_item`: ask the judge with `profileText`, save a parsed judgement,
   * and accept the article when its score reaches `LLM_SCORE_THRESHOLD`.
   */
  function Judge(a: Article, userId: int, profileText: string, o: Oracles, hasClient: bool): Run
  {
    var asked := [JudgeAsked(JudgePrompt(a, profileText))];
    match LlmJudge(a, profileText, o, hasClient)
    case Err(e) => Run(asked, Err(e))
    case Ok(None) => Run(asked, Ok(None))
    case Ok(Some(j)) =>
      Run(asked + [ScoreSaved(userId, a.id, j)],
          Ok(if j.score >= LlmScoreThreshold then Some(ScoredItem(a, j)) else None))
  }

  /** Store the embedding `emb`; then stop, or judge when the gate said `passes`. */
  function Decide(a: Article, userId: int, emb: Vector, passes: bool, profileText: string, o: Oracles,
                  hasClient: bool): Run
  {
    var stored := [EmbeddingStored(a.id, emb)];
    if !passes then Run(stored, Ok(None))
    else
      var judged := Judge(a, userId, profileText, o, hasClient);
      Run(stored + judged.calls, judged.result)
  }

  /** `score_item(item, user_id)` for a profile built beforehand and the given liked/disliked rows. */
  function Pipeline(a: Article, userId: int, profile: UserProfile.Profile, liked: seq<FeedItem>,
                    disliked: seq<FeedItem>, o: Oracles, hasClient: bool): Run
  {
    var emb := Embeddings.EmbedItem(o.encode, a.title, a.text);
    Decide(a, userId, emb, PassesGate(a, profile, liked, disliked, o), ProfileTextFor(profile), o, hasClient)
  }

  /** The judgements saved, applied in order to the score table. */
  function Saved(scores: map<(int, string), Judgement>, calls: seq<Call>): map<(int, string), Judgement>
    decreases |calls|
  {
    if |calls| == 0 then scores
    else
      var next := match calls[0]
        case ScoreSaved(u, id, j) => scores[(u, id) := j]
        case _ => scores;
      Saved(next, calls[1..])
  }

  /** Only `ScoreSaved` changes the table, and it writes the (user, article) row. */
  lemma SavedOne(scores: map<(int, string), Judgement>, c: Call)
    ensures Saved(scores, [c]) == if c.ScoreSaved? then scores[(c.userId, c.itemId) := c.judgement] else scores
  {
    assert [c][1..] == [];
  }

  /** Saving along two runs of calls is saving along the first, then along the second. */
  lemma {:induction false} SavedAppend(scores: map<(int, string), Judgement>, xs: seq<Call>, ys: seq<Call>)
    ensures Saved(scores, xs + ys) == Saved(Saved(scores, xs), ys)
    decreases |xs|
  {
    if |xs| == 0 {
      assert xs + ys == ys;
    } else {
      var next := match xs[0]
        case ScoreSaved(u, id, j) => scores[(u, id) := j]
        case _ => scores;
      assert (xs + ys)[0] == xs[0];
      assert (xs + ys)[1..] == xs[1..] + ys;
      SavedAppend(next, xs[1..], ys);
    }
  }

  /**
   * The embedding is stored first, on every call; the judge is asked, second, exactly when the
   * gate passes; a score can only be saved third, for this user and article; an accepted
   * article is this article with the saved judgement, whose score reaches the threshold.
   */
  lemma DecideCalls(a: Article, userId: int, emb: Vector, passes: bool, profileText: string, o: Oracles,
                    hasClient: bool)
    ensures var run := Decide(a, userId, emb, passes, profileText, o, hasClient);
      && 1 <= |run.calls| <= 3
      && run.calls[0] == EmbeddingStored(a.id, emb)
      && (|run.calls| >= 2 <==> passes)
      && (passes ==> run.calls[1] == JudgeAsked(JudgePrompt(a, profileText)))
      && (forall i :: 0 <= i < |run.calls| && run.calls[i].ScoreSaved? ==>
            i == 2 && run.calls[i].userId == userId && run.calls[i].itemId == a.id)
      && (run.result.Ok? && run.result.value.Some? ==>
            && |run.calls| == 3
            && run.result.value.value == ScoredItem(a, run.calls[2].judgement)
            && run.calls[2].judgement.score >= LlmScoreThreshold)
  {
  }

  /**
   * The score table afterwards: the (user, article) row holds the parsed judgement when the
   * gate passed and the judge's reply parsed; nothing changes otherwise.
   */
  lemma DecideSaves(a: Article, userId: int, emb: Vector, passes: bool, profileText: string, o: Oracles,
                    hasClient: bool, scores: map<(int, string), Judgement>)
    ensures var after := Saved(scores, Decide(a, userId, emb, passes, profileText, o, hasClient).calls);
      match LlmJudge(a, profileText, o, hasClient)
      case Ok(Some(j)) => after == (if passes then scores[(userId, a.id) := j] else scores)
      case _ => after == scores
  {
    var e := EmbeddingStored(a.id, emb);
    var q := JudgeAsked(JudgePrompt(a, profileText));
    SavedOne(scores, e);
    if passes {
      var judged := Judge(a, userId, profileText, o, hasClient);
      SavedAppend(scores, [e], judged.calls);
      SavedOne(scores, q);
      match LlmJudge(a, profileText, o, hasClient)
      case Ok(Some(j)) =>
        var w := ScoreSaved(userId, a.id, j);
        SavedAppend(scores, [q], [w]);
        SavedOne(scores, w);
      case _ =>
    }
  }

  /**
   * On every call the embedding is stored first; the judge is asked exactly when the gate
   * passes, with the profile text for the user's state.
   */
  lemma PipelineJudgesIffGate(a: Article, userId: int, profile: UserProfile.Profile, liked: seq<FeedItem>,
                              disliked: seq<FeedItem>, o: Oracles, hasClient: bool)
    ensures var run := Pipeline(a, userId, profile, liked, disliked, o, hasClient);
      && |run.calls| >= 1
      && run.calls[0] == EmbeddingStored(a.id, Embeddings.EmbedItem(o.encode, a.title, a.text))
      && (|run.calls| >= 2 <==> PassesGate(a, profile, liked, disliked, o))
      && (|run.calls| >= 2 ==> run.calls[1] == JudgeAsked(JudgePrompt(a, ProfileTextFor(profile))))
  {
    DecideCalls(a, userId, Embeddings.EmbedItem(o.encode, a.title, a.text), PassesGate(a, profile, liked, disliked, o),
                ProfileTextFor(profile), o, hasClient);
  }

  /** Cold start without a keyword: nothing but the embedding is written, no judge, no result. */
  lemma ColdStartRejects(a: Article, userId: int, profile: UserProfile.Profile, liked: seq<FeedItem>,
                         disliked: seq<FeedItem>, o: Oracles, hasClient: bool)
    requires !profile.hasHistory && !ColdStartMatches(a)
    ensures Pipeline(a, userId, profile, liked, disliked, o, hasClient) ==
      Run([EmbeddingStored(a.id, Embeddings.EmbedItem(o.encode, a.title, a.text))], Ok(None))
  {
  }

  /** Warm start below the similarity threshold: no judge call, no saved score, no result. */
  lemma SimilarityRejects(a: Article, userId: int, profile: UserProfile.Profile, liked: seq<FeedItem>,
                          disliked: seq<FeedItem>, o: Oracles, hasClient: bool)
    requires profile.hasHistory
    requires AdjustedScore(Embeddings.EmbedItem(o.encode, a.title, a.text), liked, disliked,
                           profile.trackedEmbeddings, o.norm) < EmbeddingSimilarityThreshold
    ensures Pipeline(a, userId, profile, liked, disliked, o, hasClient) ==
      Run([EmbeddingStored(a.id, Embeddings.EmbedItem(o.encode, a.title, a.text))], Ok(None))
  {
  }

  /**
   * Past the gate: an exception of the judge call propagates and an unparseable reply gives
   * None, both without a saved score; a parsed judgement is saved, whatever its score, and the
   * article is returned with it iff the score reaches the threshold.
   */
  lemma JudgeOutcomes(a: Article, userId: int, profile: UserProfile.Profile, liked: seq<FeedItem>,
                      disliked: seq<FeedItem>, o: Oracles, hasClient: bool)
    requires PassesGate(a, profile, liked, disliked, o)
    ensures var run := Pipeline(a, userId, profile, liked, disliked, o, hasClient);
      var emb := Embeddings.EmbedItem(o.encode, a.title, a.text);
      var asked := [EmbeddingStored(a.id, emb), JudgeAsked(JudgePrompt(a, ProfileTextFor(profile)))];
      match LlmJudge(a, ProfileTextFor(profile), o, hasClient)
      case Err(e) => run == Run(asked, Err(e))
      case Ok(None) => run == Run(asked, Ok(None))
      case Ok(Some(j)) =>
        && run.calls == asked + [ScoreSaved(userId, a.id, j)]
        && (run.result == Ok(Some(ScoredItem(a, j))) <==> j.score >= LlmScoreThreshold)
        && (j.score < LlmScoreThreshold ==> run.result == Ok(None))
  {
  }

  /**
   * An accepted article passed its gate, was judged, had its judgement saved for this user,
   * and carries a score of at least `LLM_SCORE_THRESHOLD`.
   */
  lemma AcceptedMeansSavedAndAboveThreshold(a: Article, userId: int, profile: UserProfile.Profile,
                                            liked: seq<FeedItem>, disliked: seq<FeedItem>, o: Oracles,
                                            hasClient: bool, s: ScoredItem)
    requires Pipeline(a, userId, profile, liked, disliked, o, hasClient).result == Ok(Some(s))
    ensures PassesGate(a, profile, liked, disliked, o)
    ensures s.article == a && s.judgement.score >= LlmScoreThreshold
    ensures LlmJudge(a, ProfileTextFor(profile), o, hasClient) == Ok(Some(s.judgement))
    ensures ScoreSaved(userId, a.id, s.judgement) in Pipeline(a, userId, profile, liked, disliked, o, hasClient).calls
  {
    var emb := Embeddings.EmbedItem(o.encode, a.title, a.text);
    var passes := PassesGate(a, profile, liked, disliked, o);
    var text := ProfileTextFor(profile);
    var run := Decide(a, userId, emb, passes, text, o, hasClient);
    assert run == Pipeline(a, userId, profile, liked, disliked, o, hasClient);
    if !passes {
      assert false;
    } else {
      match LlmJudge(a, text, o, hasClient)
      case Ok(Some(j)) =>
        assert run.calls == [EmbeddingStored(a.id, emb), JudgeAsked(JudgePrompt(a, text)), ScoreSaved(userId, a.id, j)];
        assert run.calls[2] in run.calls;
      case _ =>
        assert false;
    }
  }

  /**
   * Cold-start scenario: a keyword in the article and a parsed score of 80 give an accepted
   * article whose score 80 was saved.
   */
  lemma ColdStartScenario(a: Article, userId: int, profile: UserProfile.Profile, liked: seq<FeedItem>,
                          disliked: seq<FeedItem>, o: Oracles, hasClient: bool, j: Judgement)
    requires !profile.hasHistory && ColdStartMatches(a)
    requires LlmJudge(a, ColdStartProfileText, o, hasClient) == Ok(Some(j)) && j.score == 80
    ensures var run := Pipeline(a, userId, profile, liked, disliked, o, hasClient);
      run.result == Ok(Some(ScoredItem(a, j))) && ScoreSaved(userId, a.id, j) in run.calls
  {
  }

  /** Warm-start scenario: closest liked at 0.9 and no disliked rows reach the judge. */
  lemma WarmStartPassScenario(a: Article, profile: UserProfile.Profile, liked: seq<FeedItem>,
                              disliked: seq<FeedItem>, o: Oracles)
    requires profile.hasHistory
    requires SimLiked(Embeddings.EmbedItem(o.encode, a.title, a.text), liked, profile.trackedEmbeddings, o.norm) == 0.9
    requires forall i :: 0 <= i < |disliked| ==> disliked[i].embedding.None?
    ensures PassesGate(a, profile, liked, disliked, o)
  {
    var emb := Embeddings.EmbedItem(o.encode, a.title, a.text);
    Embeddings.SimilarityScoresMembers(emb, disliked, o.norm);
    var sd := Embeddings.SimilarityScores(emb, disliked, o.norm);
    if sd != [] {
      assert sd[0] in sd;
    }
  }

  /** Warm-start scenario: liked 0.5 against disliked 0.8 adjusts to 0.1 and is rejected. */
  lemma WarmStartRejectScenario(a: Article, profile: UserProfile.Profile, liked: seq<FeedItem>,
                                disliked: seq<FeedItem>, o: Oracles)
    requires profile.hasHistory
    requires SimLiked(Embeddings.EmbedItem(o.encode, a.title, a.text), liked, profile.trackedEmbeddings, o.norm) == 0.5
    requires SimDisliked(Embeddings.EmbedItem(o.encode, a.title, a.text), disliked, o.norm) == 0.8
    ensures !PassesGate(a, profile, liked, disliked, o)
  {
  }

  // ---------------------------------------------------------------------------------------------
  // score_item on the stores

  /** The gate of `score_item` for the article's embedding `emb`, and the judge's profile text. */
  method GateVerdict(a: Article, emb: Vector, profile: UserProfile.Profile, liked: seq<FeedItem>,
                     disliked: seq<FeedItem>, o: Oracles) returns (passes: bool, profileText: string)
    requires emb == Embeddings.EmbedItem(o.encode, a.title, a.text)
    ensures passes == PassesGate(a, profile, liked, disliked, o)
    ensures passes ==> profileText == ProfileTextFor(profile)
  {
    if !profile.hasHistory {
      passes := ColdStartMatches(a);
      profileText := ColdStartProfileText;
      return;
    }
    var simLiked := Embeddings.MaxSimilarityToLiked(emb, liked, o.norm);
    var tracked := profile.trackedEmbeddings;
    if |tracked| > 0 {
      var trackedSims := TrackedScores(emb, tracked, o.norm);
      simLiked := Max(simLiked, Embeddings.MaxOrZero(trackedSims));
    }
    var simDisliked := Embeddings.MinSimilarityToDisliked(emb, disliked, o.norm);
    var adjScore := simLiked - DislikeWeight * simDisliked;
    passes := adjScore >= EmbeddingSimilarityThreshold;
    profileText := "";
    if passes {
      profileText := UserProfile.ProfileToText(profile);
    }
  }

  /** `_llm_judge` through `chat_with_retry`, then `save_user_score` for a parsed judgement. */
  method JudgeAndSave(a: Article, userId: int, profileText: string, us: UserStore.Tables, groq: GroqClient.Groq,
                      o: Oracles) returns (run: Run)
    requires us.Valid() && groq.Valid()
    modifies us, groq
    ensures us.Valid() && groq.Valid()
    ensures run == Judge(a, userId, profileText, o, old(groq.client) != null)
    ensures us.scores == Saved(old(us.scores), run.calls)
    ensures us.votes == old(us.votes) && us.tracked == old(us.tracked) && us.now == old(us.now)
    ensures old(groq.client) != null ==> groq.client == old(groq.client)
  {
    var prompt := JudgePrompt(a, profileText);
    var asked := [JudgeAsked(prompt)];
    SavedOne(us.scores, asked[0]);
    var reply, _, _ := groq.ChatWithRetry(o.apiKey, o.outcomes(prompt));
    if reply.Err? {
      return Run(asked, Err(reply.error));
    }
    var result := o.parse(reply.value);
    if result.None? {
      return Run(asked, Ok(None));
    }
    var j := result.value;
    us.SaveUserScore(userId, a.id, j);
    var calls := asked + [ScoreSaved(userId, a.id, j)];
    SavedAppend(old(us.scores), asked, [ScoreSaved(userId, a.id, j)]);
    SavedOne(old(us.scores), ScoreSaved(userId, a.id, j));
    run := Run(calls, Ok(if j.score >= LlmScoreThreshold then Some(ScoredItem(a, j)) else None));
  }

  /**
   * `score_item`: builds the user's profile from the stores, fetches the user's liked and
   * disliked rows, embeds and stores the article, applies the gate for the user's state, and
   * asks the judge.  `likedLimit` and `dislikedLimit` stand for the default limits of
   * `get_liked_items(user_id)` and `get_disliked_items(user_id)`.
   */
  method ScoreItem(a: Article, userId: int, likedLimit: int, dislikedLimit: int,
                   db: Db.Store, us: UserStore.Tables, groq: GroqClient.Groq, o: Oracles) returns (run: Run)
    requires db.Valid() && us.Valid() && groq.Valid()
    modifies db, us, groq
    ensures db.Valid() && us.Valid() && groq.Valid()
    ensures run == Pipeline(a, userId, old(UserProfile.ProfileFor(db.items, us.votes, us.tracked, userId, o.decode)),
                            old(UserStore.Recent(db.items, us.votes, userId, 1, likedLimit)),
                            old(UserStore.Recent(db.items, us.votes, userId, -1, dislikedLimit)),
                            o, old(groq.client) != null)
    ensures db.items == Db.WithEmbedding(old(db.items), a.id, Embeddings.EmbedItem(o.encode, a.title, a.text))
    ensures db.feedback == old(db.feedback) && db.now == old(db.now)
    ensures us.scores == Saved(old(us.scores), run.calls)
    ensures us.votes == old(us.votes) && us.tracked == old(us.tracked) && us.now == old(us.now)
    ensures old(groq.client) != null ==> groq.client == old(groq.client)
  {
    ghost var hasClient := groq.client != null;
    ghost var scores0 := us.scores;
    var profile := UserProfile.BuildPreferenceProfile(db, us, userId, o.decode);
    var liked := us.GetLikedItems(db.items, userId, likedLimit);
    var disliked := us.GetDislikedItems(db.items, userId, dislikedLimit);

    var emb := Embeddings.EmbedItem(o.encode, a.title, a.text);
    db.StoreEmbedding(a.id, emb);
    var stored := [EmbeddingStored(a.id, emb)];

    var passes, profileText := GateVerdict(a, emb, profile, liked, disliked, o);
    if !passes {
      SavedOne(scores0, stored[0]);
      return Run(stored, Ok(None));
    }
    var judged := JudgeAndSave(a, userId, profileText, us, groq, o);
    run := Run(stored + judged.calls, judged.result);
    SavedOne(scores0, stored[0]);
    SavedAppend(scores0, stored, judged.calls);
  }
}
