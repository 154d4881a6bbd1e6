# ai-feed recommendation core in Dafny

This project models the decision core of ai-feed, a personal article recommender that runs as a Telegram bot. For each candidate article and user, the ranker does the following:

- It embeds the article and stores the embedding.
- It gates the article. A user without history passes only when a cold-start keyword occurs. A user with history passes only when the closest liked article, minus half the closest disliked one, is close enough.
- It sends an article that passes to a language-model judge, through a retrying API client.
- It saves a parsed judgement and accepts the article when the judged score reaches 65.

Accepted articles are posted to Telegram with like/dislike buttons. The bot decodes those buttons back into votes, and the votes shape the user's preference profile.

One module per source file:

| Module | Source | What it covers |
|---|---|---|
| `Ranker` | `ranker.py` | `score_item` |
| `UserProfile` | `user_profile.py` | building and rendering the profile |
| `Embeddings` | `embeddings.py` | truncation and similarity aggregation |
| `GroqClient` | `groq_client.py` | the retry loop and client singleton |
| `Db` | `db.py` | the items and feedback tables |
| `Notifier` | `notifier.py` | the message, the keyboard, mark-after-send |
| `Bot` | `bot.py` | the allowlist and the feedback callback |

`UserStore` holds the per-user tables that the ranker, the profile and the bot call but `db.py` does not define: per-user votes, tracked articles and per-user scores. `Config` holds the constants of `config.py`. `Strings`, `TopK`, `Entities` and `Wrappers` are shared helpers.

External services are parameters of the model. The sentence model is an `Encoder`, the vector norm a `Norm`, and JSON decoding a decoder function. The completion endpoint is `outcomes(k)`, what its k-th attempt returns or raises. The judge's JSON parse is `parse`. Environment variables are `Option<string>` arguments. Whether a Telegram post raises is a `bool`; which call of the feedback handler raises is a `Failure`.

Stateful code is modelled as classes, each proved against a specification function:

- `Db.Store`, `UserStore.Tables` and `GroqClient.Groq` hold the mutable state.
- `Ranker.ScoreItem` is proved to follow `Ranker.Pipeline`, which returns the external calls made, in order, and the result.
- `GroqClient.Groq.ChatWithRetry` follows `GroqClient.RetrySpec`.
- `UserProfile.BuildPreferenceProfile` follows `UserProfile.ProfileFor`, and `UserProfile.ProfileToText` follows `UserProfile.RenderProfile`.
- `Bot.HandleFeedback` follows `Bot.HandleFeedbackSpec`, and `Notifier.NotifyItem` follows `Notifier.Notify`.

In a few places the code does something other than one might expect, and the model follows the code:

- The retry loop sleeps 2 + 4 + 8 + 16 = 30 seconds in the worst case, not `base·(2^5 − 1)`.
- `min_similarity_to_disliked` returns the maximum similarity, not the minimum.
- A feedback callback whose action is neither `like` nor `dislike` counts as a dislike.

## Model

| member | source | states |
|---|---|---|
| Ranker.AnyKeywordIn | ranker.py:29 | the result is true iff some keyword of the list is a substring of the text |
| Ranker.ColdStartMatches | ranker.py:27-29 | true iff some configured keyword occurs in title + " " + text with ASCII letters lowered |
| Ranker.ColdStartIgnoresCase | ranker.py:27-29 | lower-casing title and body first does not change the gate's verdict |
| Ranker.ColdStartMatchesVllm | ranker.py:27-29 | an article whose lower-cased text contains "vllm" passes the keyword gate |
| Ranker.JudgeReadsExcerptOnly | ranker.py:39 | the judge prompt depends on the first 1500 characters of the body only, and its excerpt has exactly 1500 characters for a longer body |
| Ranker.TrackedBoost | ranker.py:93-99 | `sim_liked` is at least the liked similarity and at least every tracked similarity, and equals one of them, so tracked articles never lower it |
| Ranker.SavedOne | ranker.py:90 | only a ScoreSaved call changes the score table, and it writes its (user, article) row |
| Ranker.SavedAppend | ranker.py:75-115 | applying saves along two call runs equals applying them along the first, then the second |
| Ranker.DecideCalls | ranker.py:80-91 | the embedding is stored first on every call; the judge is asked, second, iff the gate passed; a save can only be third, for this user and article; an accepted article is this article with the saved judgement whose score is at least 65 |
| Ranker.DecideSaves | ranker.py:87-90 | the score table gains the (user, article) row with the parsed judgement iff the gate passed and the reply parsed; otherwise it is unchanged |
| Ranker.PipelineJudgesIffGate | ranker.py:80-87 | on every call the embedding is stored first, and the judge is asked iff the user's gate passes, with the profile text for the user's state |
| Ranker.ColdStartRejects | ranker.py:83-85 | no history and no keyword: only the embedding is stored, no judge call, no save, result None |
| Ranker.SimilarityRejects | ranker.py:101-105 | history and adjusted score below 0.65: only the embedding is stored, no judge call, no save, result None |
| Ranker.JudgeOutcomes | ranker.py:87-91 | past the gate, a judge exception propagates with no save; an unparseable reply gives None with no save; a parsed judgement is saved exactly once whatever its score, and the result is the scored article iff score ≥ 65 |
| Ranker.AcceptedMeansSavedAndAboveThreshold | ranker.py:108-115 | an accepted result implies the gate passed, the judge returned that judgement, it was saved for this user and article, and its score is ≥ 65 |
| Ranker.ColdStartScenario | ranker.py:83-91 | cold start with a keyword and a parsed score of 80 yields an accepted article with that judgement saved |
| Ranker.WarmStartPassScenario | ranker.py:101-105 | with history, `sim_liked` 0.9 and no disliked embedding, the gate passes |
| Ranker.WarmStartRejectScenario | ranker.py:101-105 | with history, liked 0.5 against disliked 0.8 (adjusted 0.1), the gate rejects |
| Ranker.GateVerdict | ranker.py:83-107 | computes exactly the gate's verdict (keyword cold, adjusted similarity warm) and the judge's profile text when it passes |
| Ranker.JudgeAndSave | ranker.py:87-91 | the judge call through the retry loop and the save follow the judge step; the score table changes exactly by the saved judgement |
| Ranker.ScoreItem | ranker.py:75-115 | the calls and result equal the pipeline over the profile and liked/disliked rows read at entry; the item's embedding is written; the score table changes only by the saved judgement; votes, tracked articles and feedback are untouched |
| UserProfile.Titles | user_profile.py:11-12 | at most one title per item, and no listed title is empty |
| UserProfile.TitlesAppend | user_profile.py:11-12 | title extraction distributes over concatenation (order preserved) |
| UserProfile.TitlesAround | user_profile.py:11-12 | an item contributes its title exactly when it has a non-empty one, at its own position |
| UserProfile.LikedTopicsAppend | user_profile.py:14-20 | topic flattening distributes over concatenation, in fetch order |
| UserProfile.UnparseableRowSkipped | user_profile.py:16-20 | a row with missing, empty or unparseable topics contributes nothing and does not stop the build |
| UserProfile.FlattenTopics | user_profile.py:14-20 | the extend loop computes the flattened topic list |
| UserProfile.FirstIndex | user_profile.py:22 | the first position of a topic, or the length when absent |
| UserProfile.Dedup | user_profile.py:22 | the distinct topics, exactly those occurring |
| UserProfile.FirstSeenInjective | user_profile.py:22 | first-seen positions break every tie between distinct topics |
| UserProfile.TopTopicsRanked | user_profile.py:22 | at most 15 distinct topics from the list, by non-increasing count with ties in first-seen order; any topic left out means 15 were listed, each ranked above it by count, then by first sight |
| UserProfile.TopTopicsAllWhenFew | user_profile.py:22 | with at most 15 distinct topics, every topic is listed |
| UserProfile.HistoryCountsRowsNotTitles | user_profile.py:29 | five liked rows without titles still give `has_history`, with no liked titles |
| UserProfile.ProfileForBounds | user_profile.py:6-30 | windows of 30 liked and 20 disliked rows, at most 15 topics, and `has_history` iff at least 5 liked rows or a tracked embedding exists |
| UserProfile.BuildPreferenceProfile | user_profile.py:6-30 | builds exactly the profile of the user's stored rows, with the `has_history` boundary |
| UserProfile.ProfileToText | user_profile.py:33-45 | the append loops produce exactly the rendering |
| UserProfile.RenderFallbackIff | user_profile.py:45 | the text is "No preference history yet." iff topics, liked and disliked titles are all empty |
| UserProfile.CountMarkedAppend | user_profile.py:33-45 | marked-line counts add over concatenation |
| UserProfile.CountMarkedBullets | user_profile.py:39-44 | a bullet list has one line per title with its own marker and none with the other |
| UserProfile.ListSectionMarks | user_profile.py:37-44 | a section shows at most its first 10 titles under its marker and no line of the other marker |
| UserProfile.RenderedTitleCounts | user_profile.py:37-44 | the rendering has min(10, n) "  + " lines for liked and min(10, n) "  - " lines for disliked titles |
| UserProfile.ProfileLinesLayout | user_profile.py:35-44 | the topics line, then the liked header and its bullets, then the disliked header and its bullets, each present iff its list is non-empty |
| Embeddings.EmbedTextReadsPrefixOnly | embeddings.py:16-18 | `embed_text` depends only on the first 512 characters |
| Embeddings.EmbedItemReadsExcerptOnly | embeddings.py:21-23 | `embed_item` depends only on the first 400 characters of the body |
| Embeddings.EmbedItemWholeInput | embeddings.py:21-23 | for a short title the model sees exactly title + "\n\n" + text[:400] |
| Embeddings.DotSymmetric | embeddings.py:26-28 | the dot product is symmetric |
| Embeddings.DotSelfNonNegative | embeddings.py:26-28 | a vector's dot product with itself is non-negative |
| Embeddings.CosineSymmetric | embeddings.py:26-28 | cosine similarity is symmetric |
| Embeddings.SelfSimilarityBelowOne | embeddings.py:26-28 | for a non-zero vector with an exact norm, self-similarity is strictly between 0 and 1 because of the 1e-9 term |
| Embeddings.SimilarityScoresMembers | embeddings.py:48-53 | the scores are exactly the similarities of the items that have an embedding |
| Embeddings.MaxOrZero | embeddings.py:53 | 0.0 for no scores, otherwise a score that is at least every score |
| Embeddings.MaxSimilarityToLiked | embeddings.py:41-53 | 0.0 when no item has an embedding; otherwise at least every item's similarity and equal to one of them |
| Embeddings.MinSimilarityToDisliked | embeddings.py:56-68 | the same maximum as for liked items, not a minimum |
| GroqClient.DelaySchedule | groq_client.py:56 | the delays before attempts 2 to 5 are 2, 4, 8 and 16 seconds, 30 in total |
| GroqClient.RetryStep | groq_client.py:52-64 | a retryable failure before the last attempt costs one call and one sleep of 2·2^(k−1), then retries |
| GroqClient.RetryFromShape | groq_client.py:49-64 | from attempt k: at most 5 − k + 1 calls, one sleep fewer than calls with the doubling schedule, every earlier attempt failed transiently; success returns the last outcome; failure is a non-retryable error or the fifth attempt's error |
| GroqClient.CallsBounded | groq_client.py:49 | at most 5 calls, sleeps following the schedule, at most 30 seconds slept |
| GroqClient.SumDelaysGrows | groq_client.py:56 | a longer schedule never sleeps less |
| GroqClient.SumSnoc | groq_client.py:64 | the total sleep grows by each new sleep |
| GroqClient.RunsTo | groq_client.py:49-64 | transient failures from attempt k up to attempt m only add calls and sleeps before attempt m |
| GroqClient.SucceedsAfterTransientFailures | groq_client.py:50-51 | n transient failures then success returns that content after n + 1 calls and n sleeps |
| GroqClient.GivesUpAfterFive | groq_client.py:53-55 | five transient failures re-raise the fifth error after 5 calls and sleeps 2, 4, 8, 16, with no sleep after the last |
| GroqClient.OtherErrorsPropagate | groq_client.py:49-52 | a non-retryable error propagates on its first occurrence, without a sleep |
| GroqClient.Groq.GetClient | groq_client.py:24-38 | returns the cached client; otherwise raises without a key, or builds the client once with the key |
| GroqClient.Groq.ChatWithRetry | groq_client.py:41-64 | the loop's result, call count and sleeps equal the retry specification; a built client is kept |
| Db.InsertedRowIsFresh | db.py:62-73 | a row is appended only when neither id nor url exists, with notified = 0 and no score fields; the url is stored unless another row held the id |
| Db.InsertKeepsKeysUnique | db.py:62-73 | `INSERT OR IGNORE` keeps ids and urls unique |
| Db.InsertIdempotent | db.py:62-73 | inserting the same row twice is inserting it once |
| Db.ScoreUpdateIsFieldLocal | db.py:77-84 | only `llm_score`, `llm_topics` and `llm_reason` of the matching row change; an unknown id is a no-op |
| Db.MarkNotifiedIdempotent | db.py:87-91 | the flag is set on the matching id only, nothing else changes, and marking twice is marking once |
| Db.ItemById | db.py:104-129 | the row joined for a feedback row has that id, and none means no such row |
| Db.JoinedPairs | db.py:104-129 | every joined pair is a feedback row with the signal and the item row it names |
| Db.JoinedCount | db.py:104-129 | the join has exactly one pair per feedback row with the signal whose item exists |
| Db.JoinedComplete | db.py:104-129 | every feedback row with the signal whose item exists is joined, and the join has exactly as many pairs as there are such rows |
| Db.JoinedNewestFirst | db.py:104-129 | the joined rows are in descending feedback time |
| Db.LimitOf | db.py:104-129 | `LIMIT n` keeps min(n, available) rows; a negative limit keeps all |
| Db.Recent | db.py:104-129 | the query returns LIMIT-many rows, counted over the feedback rows with the signal whose item exists, and row k is the item of the k-th joined pair |
| Db.NewestVoteComesFirst | db.py:104-129 | a new vote for an existing item puts it first |
| Db.RepeatedVotesRepeat | db.py:94-129 | two votes for the same item list it twice |
| Db.QualifyingIndices | db.py:132-142 | exactly today's rows with score ≥ min_score, in table order |
| Db.QualifyingIndicesRankable | db.py:132-142 | qualifying rows are distinct and ranked without ties |
| Db.TopIndices | db.py:132-142 | at most max_items rows, by non-increasing score, every omitted row scoring no higher |
| Db.BetterByScore | db.py:132-142 | the order is higher score first; equal scores are ordered by table position, a choice of the model |
| Db.TodayTopRowsQualify | db.py:132-142 | at most max_items rows, each of today and scoring ≥ min_score |
| Db.TodayTopOrdered | db.py:132-142 | rows in descending score order |
| Db.TodayTopComplete | db.py:132-142 | a qualifying row left out means max_items rows were returned, all scoring at least as high |
| Db.Store.ItemExists | db.py:55-59 | true iff some row has the url |
| Db.Store.InsertItem | db.py:62-74 | the table becomes `INSERT OR IGNORE` of the new row |
| Db.Store.UpdateItemScore | db.py:77-84 | the field-local score update of the matching row |
| Db.Store.MarkNotified | db.py:87-91 | the notified flag of the matching row is set |
| Db.Store.StoreEmbedding | embeddings.py:31-38 | the embedding of the matching row is replaced |
| Db.Store.AddFeedback | db.py:94-101 | always appends a new feedback row stamped now |
| Db.Store.GetLikedItems | db.py:104-115 | the signal +1 query |
| Db.Store.GetDislikedItems | db.py:118-129 | the signal −1 query |
| Db.Store.GetTodayTopItems | db.py:132-142 | today's best-scored rows |
| UserStore.FeedbackOfRows | user_profile.py:7-8 | every per-user feedback row comes from one of that user's votes |
| UserStore.FeedbackOfChronological | user_profile.py:7-8 | one user's rows remain in time order |
| UserStore.RecentNewestFirst | user_profile.py:7-8 | the join behind a per-user liked/disliked list is newest first, holds only that user's votes with the signal, and holds every such vote whose item exists, once |
| UserStore.OtherUsersVotesInvisible | user_profile.py:7-8 | another user's vote does not change a user's lists |
| UserStore.NewVoteListedFirst | user_profile.py:7-8 | a user's newest vote puts its item first in that user's list |
| UserStore.TrackedEmbeddings | user_profile.py:9 | exactly the present embeddings of the user's tracked articles |
| UserStore.Tables.SaveFeedback | bot.py:178 | appends the vote, also for a repeated pair |
| UserStore.Tables.SaveUserScore | ranker.py:90 | upserts the (user, article) score row only |
| UserStore.Tables.GetTrackedEmbeddings | user_profile.py:9 | returns the present embeddings of the user's tracked articles, in tracking order, as `TrackedEmbeddings` states |
| UserStore.Tables.GetLikedItems | ranker.py:77 | the user's liked query, at most `limit` rows |
| UserStore.Tables.GetDislikedItems | ranker.py:78 | the user's disliked query, at most `limit` rows |
| Notifier.ScoreTextUnknownIffAbsent | notifier.py:20 | the score shows "?" iff it is absent |
| Notifier.MessageLayout | notifier.py:15-22 | the message is the six lines joined by newlines |
| Notifier.AcceptedShowsScore | notifier.py:14-20 | an accepted article shows its judged score, never "?", and its topics joined by ", " |
| Notifier.KeyboardCallbacks | notifier.py:24-35 | the buttons carry "like:" + id and "dislike:" + id, which always differ |
| Notifier.NotifyOutcomes | notifier.py:7-46 | a missing or empty token or chat id raises before anything is sent; otherwise the post carries the endpoint, chat, message and keyboard, and succeeds unless it raises |
| Notifier.NotifyItem | notifier.py:6-46 | result per the notification function; the article is marked notified iff the post returned |
| Bot.AccessDeniedIffNotAllowed | bot.py:40-42 | `_is_allowed` is membership of the allowlist; the handler answers "access denied" iff the user is off it, and then saves nothing and keeps the keyboard |
| Bot.ParseCallback | bot.py:169-174 | None iff the data has no ':'; otherwise action + ":" + item_id is the data and the action has no ':' |
| Bot.SignalIffLike | bot.py:175 | the signal is +1 iff the action is exactly "like", −1 otherwise |
| Bot.FeedbackGuards | bot.py:158-185 | a disallowed user is denied and data without ':' is ignored, both without saving; a vote is saved iff the user is allowed, the data has ':' and the save does not raise, and it is the text after the first ':' with the action's signal; the last answer is "could not save" iff some call in the `try` raised, also after a successful save; the keyboard is removed iff nothing raised |
| Bot.CallbackRoundTrip | bot.py:169-174 | decoding action + ":" + id gives back the action and the id, even when the id holds ':' |
| Bot.KeyboardVotes | bot.py:169-178 | the notifier's like button saves (id, +1) and its dislike button (id, −1) |
| Bot.RoutedActions | bot.py:202 | data matching `^(like\|dislike):` decodes to like or dislike with the matching signal |
| Bot.HandleFeedback | bot.py:158-185 | the answers, the keyboard removal and the appended vote are those of the handler specification, for each call in the `try` that may raise |
| Strings.SplitOnce | bot.py:169 | `split(":", 1)`: the whole string without a separator, otherwise head and tail around the first one |
| Strings.SplitOnceOfGlued | bot.py:169 | splitting at the first separator undoes gluing a separator-free head to any tail |
| Strings.IntToStringFirstChar | notifier.py:20 | a rendered integer starts with '-' or a digit |

## Left out

- Floating point: vectors are `seq<real>`, and the norm and the sentence model are oracles. NumPy rounding is not modelled.
- JSON: JSON encoding and decoding of embeddings, topics and judge replies are oracles.
  - A reply that parses but lacks `score`, `topics` or `reason` raises `KeyError` in the source. The model's `parse` returns either the three fields or None, so that error path is not modelled.
  - The topic decoder returns a list of strings. Decoded topics that are not strings or cannot be hashed make `Counter` or the `', '.join` of the profile text raise `TypeError` in the source; that error path is not modelled.
  - The `{**item, **result}` merge keeps extra JSON keys. The model keeps only the three fields.
- Ranker.ScoreItem: the default `limit` of `get_liked_items(user_id)` and `get_disliked_items(user_id)` is not part of this model. It is a parameter.
  - The shown `db.py` has only `get_liked_items(limit)`. Passing `user_id` positionally as that limit is treated as a call to the per-user store, not modelled.
- Ranker.LlmJudge: `None` message content raises `TypeError` in `json.loads`, which `_llm_judge` does not catch. It is not modelled; the `parse` oracle covers every reply string.
- SQLite: connections, the Python types of columns, and `datetime('now')` are abstract.
  - `datetime('now')` is an integer clock, and `date()` is the day number.
  - For rows with equal `created_at`, the model lists the later-inserted row first. SQLite leaves that order unspecified.
- The per-user store functions below are called by the core, but their source is not part of this model. They are modelled after db.py's queries, restricted to one user:
  - `get_liked_items(user_id, limit)`
  - `get_disliked_items(user_id, limit)`
  - `get_tracked_embeddings`
  - `save_user_score`
  - `save_feedback`
  - `add_tracked_article`
- UserStore.TrackedEmbeddings: tracked rows without an embedding are assumed to be skipped. The per-user query is not part of this model.
- The sleep itself is not modelled: `time.sleep` is a recorded delay list, and logging is left out.
- The `_get_model` lazy loading of the sentence model is left out. It has no observable effect in the model.
- Telegram and HTTP: only the content of the post is modelled. The transport is left out, along with the exact answer texts and the async handlers.
  - `requests.post` either returns or raises.
  - In the bot handler, the Telegram answer and the keyboard edit are modelled only as answers given and a removed flag; which call raises is an input.
  - The other bot commands (`/start`, `/add`, `/track`, `/feeds`, `main`) are outside the modelled core.
- Bot.HandleFeedback: a `save_feedback` that raises is modelled as writing nothing.
- Ranker.ColdStartMatches: only ASCII `A`-`Z` are lowered, where Python's `str.lower()` maps all of Unicode. Examples: the Kelvin sign U+212A becomes `k`, and U+0130 becomes two code points. So a keyword match in the model implies one in the source, but an article whose keyword is spelled with such characters passes the source's gate and not the model's.
- Db.BetterByScore: equal scores are ordered by table position. `ORDER BY llm_score DESC` leaves that order unspecified in SQLite. `Db.TodayTopOrdered` and `Db.TodayTopComplete` do not depend on the tie order.
- Embeddings.Dot: vectors of different lengths are combined over their common length. NumPy's `np.dot` raises `ValueError` for them, and that error would propagate out of the similarity functions and `score_item`. The model assumes every stored embedding has the sentence model's one dimension.
- Out of scope, along with the test scripts:
  - feed ingestion
  - digest generation
  - the entry-point scripts
  - `run_command.py`
