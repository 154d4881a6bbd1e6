/**
 * The per-user tables that the ranking, profile and bot code read and write: votes (feedback
 * rows that also name the voter), tracked seed articles, and one judge score per (user, article).
 * ranker.py, user_profile.py and bot.py call `get_liked_items(user_id, limit)`,
 * `get_disliked_items(user_id, limit)`, `get_tracked_embeddings(user_id)`, `save_user_score`,
 * `save_feedback` and `add_tracked_article`, which db.py does not define; they are modelled here
 * after db.py's shared queries, restricted to one user.
 */
module UserStore {
  import opened Wrappers
  import opened Entities
  import Db

  /** A feedback row with the voter's id. */
  datatype Vote = Vote(userId: int, itemId: string, signal: int, createdAt: int)

  /** A `/track`ed article; the embedding is missing when the text could not be extracted. */
  datatype TrackedArticle = TrackedArticle(userId: int, url: string, embedding: Option<Vector>)

  ghost predicate Chronological(votes: seq<Vote>)
  {
    forall i, j :: 0 <= i < j < |votes| ==> votes[i].createdAt <= votes[j].createdAt
  }

  /** One user's votes as rows of db.py's `feedback` table, in append order. */
  function FeedbackOf(votes: seq<Vote>, userId: int): (fb: seq<Db.FeedbackRow>)
    ensures |fb| <= |votes|
  {
    if |votes| == 0 then []
    else
      var v := votes[|votes| - 1];
      var init := FeedbackOf(votes[..|votes| - 1], userId);
      if v.userId == userId then init + [Db.FeedbackRow(|votes|, v.itemId, v.signal, v.createdAt)] else init
  }

  /** Row `f` is the feedback row written for the vote at position `k`. */
  predicate RowOfVote(f: Db.FeedbackRow, votes: seq<Vote>, userId: int, k: int)
  {
    0 <= k < |votes| && votes[k].userId == userId && f.id == k + 1 &&
    f.itemId == votes[k].itemId && f.signal == votes[k].signal && f.createdAt == votes[k].createdAt
  }

  /** Every row of a user's feedback comes from one of that user's votes. */
  lemma {:induction false} FeedbackOfRows(votes: seq<Vote>, userId: int)
    ensures forall f :: f in FeedbackOf(votes, userId) ==> exists k :: RowOfVote(f, votes, userId, k)
  {
    if |votes| > 0 {
      var init := votes[..|votes| - 1];
      FeedbackOfRows(init, userId);
      forall f | f in FeedbackOf(votes, userId) ensures exists k :: RowOfVote(f, votes, userId, k) {
        if f in FeedbackOf(init, userId) {
          var k :| RowOfVote(f, init, userId, k);
          assert RowOfVote(f, votes, userId, k);
        } else {
          assert RowOfVote(f, votes, userId, |votes| - 1);
        }
      }
    }
  }

  /** Picking one user's rows keeps the feedback in time order. */
  lemma {:induction false} FeedbackOfChronological(votes: seq<Vote>, userId: int)
    requires Chronological(votes)
    ensures Db.ChronologicalFeedback(FeedbackOf(votes, userId))
  {
    if |votes| > 0 {
      var init := votes[..|votes| - 1];
      var last := votes[|votes| - 1];
      assert Chronological(init);
      FeedbackOfChronological(init, userId);
      FeedbackOfRows(init, userId);
      var fb := FeedbackOf(votes, userId);
      var fi := FeedbackOf(init, userId);
      if last.userId == userId {
        forall i, j | 0 <= i < j < |fb| ensures fb[i].createdAt <= fb[j].createdAt {
          if j == |fi| {
            assert fb[i] == fi[i] && fi[i] in fi;
            var k :| RowOfVote(fi[i], init, userId, k);
            assert init[k] == votes[k];
          } else {
            assert fb[i] == fi[i] && fb[j] == fi[j];
          }
        }
      }
    }
  }

  /**
   * `get_liked_items(user_id, limit)` (signal 1) and `get_disliked_items(user_id, limit)`
   * (signal -1): db.py's join, ordered newest vote first and cut at `limit`, over this user's
   * votes only.
   */
  function Recent(items: seq<Db.ItemRow>, votes: seq<Vote>, userId: int, signal: int, limit: int): seq<FeedItem>
  {
    Db.Recent(items, FeedbackOf(votes, userId), signal, limit)
  }

  /**
   * The join behind a user's list is ordered newest vote first, holds only that user's votes
   * with the signal, and holds each of them whose item exists, once.
   */
  lemma RecentNewestFirst(items: seq<Db.ItemRow>, votes: seq<Vote>, userId: int, signal: int, limit: int)
    requires Chronological(votes)
    ensures var fb := FeedbackOf(votes, userId);
      var j := Db.Joined(items, fb, signal);
      && Db.NewestFirst(j)
      && (forall p :: p in j ==> p.0 in fb && p.0.signal == signal && p.1 in items && p.1.id == p.0.itemId)
      && (forall f :: f in fb && Db.Matches(items, f, signal) ==> exists p :: p in j && p.0 == f)
      && |j| == Db.MatchCount(items, fb, signal)
  {
    FeedbackOfChronological(votes, userId);
    Db.JoinedNewestFirst(items, FeedbackOf(votes, userId), signal);
    Db.JoinedPairs(items, FeedbackOf(votes, userId), signal);
    Db.JoinedComplete(items, FeedbackOf(votes, userId), signal);
  }

  /** Another user's vote does not change what this user's queries return. */
  lemma OtherUsersVotesInvisible(items: seq<Db.ItemRow>, votes: seq<Vote>, v: Vote, userId: int, signal: int, limit: int)
    requires v.userId != userId
    ensures Recent(items, votes + [v], userId, signal, limit) == Recent(items, votes, userId, signal, limit)
  {
    assert (votes + [v])[..|votes|] == votes;
  }

  /** A user's newest vote for an existing item puts that item first in the matching list. */
  lemma NewVoteListedFirst(items: seq<Db.ItemRow>, votes: seq<Vote>, v: Vote, limit: int)
    requires Db.HasId(items, v.itemId) && limit != 0
    ensures var r := Recent(items, votes + [v], v.userId, v.signal, limit);
      |r| > 0 && r[0] == Db.Project(Db.ItemById(items, v.itemId).value)
  {
    var fb := FeedbackOf(votes, v.userId);
    var f := Db.FeedbackRow(|votes| + 1, v.itemId, v.signal, v.createdAt);
    assert (votes + [v])[..|votes|] == votes;
    assert FeedbackOf(votes + [v], v.userId) == fb + [f];
    Db.NewestVoteComesFirst(items, fb, f, limit);
  }

  /**
   * `get_tracked_embeddings(user_id)`: the stored embeddings of the user's tracked articles, in
   * the order they were tracked; an article whose text could not be embedded contributes none.
   */
  function TrackedEmbeddings(tracked: seq<TrackedArticle>, userId: int): (r: seq<Vector>)
    ensures |r| <= |tracked|
    ensures forall e :: e in r ==> exists t :: t in tracked && t.userId == userId && t.embedding == Some(e)
    ensures forall t :: t in tracked && t.userId == userId && t.embedding.Some? ==> t.embedding.value in r
  {
    if |tracked| == 0 then []
    else
      var t := tracked[0];
      var rest := TrackedEmbeddings(tracked[1..], userId);
      assert forall u :: u in tracked ==> u == t || u in tracked[1..];
      if t.userId == userId && t.embedding.Some? then [t.embedding.value] + rest else rest
  }

  class Tables {
    var votes: seq<Vote>
    var tracked: seq<TrackedArticle>
    /** One score row per (user, article): saving again overwrites. */
    var scores: map<(int, string), Judgement>
    /** `datetime('now')`. */
    var now: int

    ghost predicate Valid()
      reads this
    {
      && Chronological(votes)
      && (forall k :: 0 <= k < |votes| ==> votes[k].createdAt <= now)
    }

    constructor (start: int)
      ensures Valid()
      ensures votes == [] && tracked == [] && scores == map[] && now == start
    {
      votes, tracked, scores, now := [], [], map[], start;
    }

    /**
     * Time passing between two handler calls.  Nothing in the modelled files moves the clock; this
     * is how a caller gives later votes later timestamps, which the newest-first order relies on.
     */
    method AdvanceClock(t: int)
      requires Valid() && t >= now
      modifies this
      ensures Valid()
      ensures now == t && votes == old(votes) && tracked == old(tracked) && scores == old(scores)
    {
      now := t;
    }

    /** `save_feedback`: always appends, also for a repeated (user, item, signal). */
    method SaveFeedback(userId: int, itemId: string, signal: int)
      requires Valid()
      modifies this
      ensures Valid()
      ensures votes == old(votes) + [Vote(userId, itemId, signal, old(now))]
      ensures tracked == old(tracked) && scores == old(scores) && now == old(now)
    {
      votes := votes + [Vote(userId, itemId, signal, now)];
    }

    /**
     * `add_tracked_article`: the only writer of the tracked table whose embeddings the ranker and
     * the profile read.  The `/track` command that fetches and embeds the page is not part of
     * this model; its result is the `embedding` argument.
     */
    method AddTrackedArticle(userId: int, url: string, embedding: Option<Vector>)
      requires Valid()
      modifies this
      ensures Valid()
      ensures tracked == old(tracked) + [TrackedArticle(userId, url, embedding)]
      ensures votes == old(votes) && scores == old(scores) && now == old(now)
    {
      tracked := tracked + [TrackedArticle(userId, url, embedding)];
    }

    /** `save_user_score`: an upsert of the (user, article) row; no other row changes. */
    method SaveUserScore(userId: int, itemId: string, j: Judgement)
      requires Valid()
      modifies this
      ensures Valid()
      ensures scores == old(scores)[(userId, itemId) := j]
      ensures votes == old(votes) && tracked == old(tracked) && now == old(now)
    {
      scores := scores[(userId, itemId) := j];
    }

    method GetLikedItems(items: seq<Db.ItemRow>, userId: int, limit: int) returns (r: seq<FeedItem>)
      ensures r == Recent(items, votes, userId, 1, limit)
      ensures limit >= 0 ==> |r| <= limit
    {
      r := Recent(items, votes, userId, 1, limit);
    }

    method GetDislikedItems(items: seq<Db.ItemRow>, userId: int, limit: int) returns (r: seq<FeedItem>)
      ensures r == Recent(items, votes, userId, -1, limit)
      ensures limit >= 0 ==> |r| <= limit
    {
      r := Recent(items, votes, userId, -1, limit);
    }

    method GetTrackedEmbeddings(userId: int) returns (r: seq<Vector>)
      ensures r == TrackedEmbeddings(tracked, userId)
    {
      r := TrackedEmbeddings(tracked, userId);
    }
  }
}
