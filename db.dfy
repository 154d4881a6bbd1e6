/**
 * The SQLite store of db.py as in-memory tables: `items` (one row per article, unique id and
 * url) and the append-only `feedback` table, with the queries the pipeline issues.
 * JSON (de)serialisation of embeddings is abstracted away; `datetime('now')` is the `now` clock.
 */
module Db {
  import opened Wrappers
  import opened Strings
  import opened Entities
  import TopK

  /** A row of `items`.  `notified` is the INTEGER flag (0 or 1); `createdAt` the insertion time. */
  datatype ItemRow = ItemRow(
    id: string,
    url: string,
    title: string,
    source: string,
    published: string,
    text: string,
    summary: Option<string>,
    embedding: Option<Vector>,
    llmScore: Option<real>,
    llmTopics: Option<string>,
    llmReason: Option<string>,
    notified: int,
    createdAt: int)

  /** A row of `feedback`; `id` is the AUTOINCREMENT key. */
  datatype FeedbackRow = FeedbackRow(id: nat, itemId: string, signal: int, createdAt: int)

  const SecondsPerDay: int := 86400

  /** `date(t)`: the day a timestamp (in seconds) falls on. */
  function Day(t: int): int
  {
    t / SecondsPerDay
  }

  predicate HasId(rows: seq<ItemRow>, id: string)
  {
    exists k :: 0 <= k < |rows| && rows[k].id == id
  }

  predicate HasUrl(rows: seq<ItemRow>, url: string)
  {
    exists k :: 0 <= k < |rows| && rows[k].url == url
  }

  /** The PRIMARY KEY on `id` and the UNIQUE constraint on `url`. */
  ghost predicate UniqueKeys(rows: seq<ItemRow>)
  {
    forall i, j :: 0 <= i < j < |rows| ==> rows[i].id != rows[j].id && rows[i].url != rows[j].url
  }

  /** The row `insert_item` writes: no score fields, `notified = 0`, and no embedding for an empty one. */
  function NewRow(a: Article, now: int): ItemRow
  {
    var embedding := match a.embedding
      case Some(e) => if |e| > 0 then Some(e) else None
      case None => None;
    ItemRow(a.id, a.url, a.title, a.source, a.published, a.text, a.summary, embedding,
            None, None, None, 0, now)
  }

  /** `INSERT OR IGNORE`: nothing happens when the id or the url is already present. */
  function InsertOrIgnore(rows: seq<ItemRow>, row: ItemRow): seq<ItemRow>
  {
    if HasId(rows, row.id) || HasUrl(rows, row.url) then rows else rows + [row]
  }

  /**
   * After `insert_item` the url is stored unless another row already held the id; a new row is
   * appended only when neither its id nor its url was present, and it starts unscored and not
   * notified.
   */
  lemma InsertedRowIsFresh(rows: seq<ItemRow>, a: Article, now: int)
    ensures var r := InsertOrIgnore(rows, NewRow(a, now));
      && (HasUrl(r, a.url) <==> HasUrl(rows, a.url) || !HasId(rows, a.id))
      && (HasId(rows, a.id) || HasUrl(rows, a.url) ==> r == rows)
      && (!HasId(rows, a.id) && !HasUrl(rows, a.url) ==>
            && r == rows + [NewRow(a, now)]
            && r[|rows|].notified == 0 && r[|rows|].createdAt == now
            && r[|rows|].llmScore.None? && r[|rows|].llmTopics.None? && r[|rows|].llmReason.None?)
  {
    var r := InsertOrIgnore(rows, NewRow(a, now));
    if !HasUrl(rows, a.url) && !HasId(rows, a.id) {
      assert r[|rows|].url == a.url;
    }
  }

  lemma InsertKeepsKeysUnique(rows: seq<ItemRow>, row: ItemRow)
    requires UniqueKeys(rows)
    ensures UniqueKeys(InsertOrIgnore(rows, row))
  {
    var r := InsertOrIgnore(rows, row);
    if r != rows {
      assert r[|rows|] == row;
    }
  }

  /** Inserting the same article twice stores it once. */
  lemma InsertIdempotent(rows: seq<ItemRow>, row: ItemRow)
    ensures InsertOrIgnore(InsertOrIgnore(rows, row), row) == InsertOrIgnore(rows, row)
  {
    var r := InsertOrIgnore(rows, row);
    if r != rows {
      assert r[|rows|].id == row.id;
    }
  }

  /** `UPDATE items SET embedding=? WHERE id=?`. */
  function WithEmbedding(rows: seq<ItemRow>, id: string, e: Vector): (r: seq<ItemRow>)
    ensures |r| == |rows|
  {
    seq(|rows|, k requires 0 <= k < |rows| =>
      if rows[k].id == id then rows[k].(embedding := Some(e)) else rows[k])
  }

  /** `UPDATE items SET llm_score=?, llm_topics=?, llm_reason=? WHERE id=?`. */
  function WithScore(rows: seq<ItemRow>, id: string, score: real, topicsJson: string, reason: string): (r: seq<ItemRow>)
    ensures |r| == |rows|
  {
    seq(|rows|, k requires 0 <= k < |rows| =>
      if rows[k].id == id
      then rows[k].(llmScore := Some(score), llmTopics := Some(topicsJson), llmReason := Some(reason))
      else rows[k])
  }

  /** `UPDATE items SET notified=1 WHERE id=?`. */
  function WithNotified(rows: seq<ItemRow>, id: string): (r: seq<ItemRow>)
    ensures |r| == |rows|
  {
    seq(|rows|, k requires 0 <= k < |rows| => if rows[k].id == id then rows[k].(notified := 1) else rows[k])
  }

  /**
   * The score update changes the three score fields of the matching row and nothing else;
   * an unknown id changes nothing.
   */
  lemma ScoreUpdateIsFieldLocal(rows: seq<ItemRow>, id: string, score: real, topicsJson: string, reason: string)
    ensures forall k :: 0 <= k < |rows| ==>
      WithScore(rows, id, score, topicsJson, reason)[k].(llmScore := rows[k].llmScore,
        llmTopics := rows[k].llmTopics, llmReason := rows[k].llmReason) == rows[k]
    ensures forall k :: 0 <= k < |rows| && rows[k].id == id ==>
      var row := WithScore(rows, id, score, topicsJson, reason)[k];
      row.llmScore == Some(score) && row.llmTopics == Some(topicsJson) && row.llmReason == Some(reason)
    ensures forall k :: 0 <= k < |rows| && rows[k].id != id ==> WithScore(rows, id, score, topicsJson, reason)[k] == rows[k]
    ensures !HasId(rows, id) ==> WithScore(rows, id, score, topicsJson, reason) == rows
  {
  }

  /** Marking is idempotent, touches only `notified`, and leaves other rows alone. */
  lemma MarkNotifiedIdempotent(rows: seq<ItemRow>, id: string)
    ensures WithNotified(WithNotified(rows, id), id) == WithNotified(rows, id)
    ensures forall k :: 0 <= k < |rows| ==> WithNotified(rows, id)[k].(notified := rows[k].notified) == rows[k]
    ensures forall k :: 0 <= k < |rows| ==> WithNotified(rows, id)[k].notified == (if rows[k].id == id then 1 else rows[k].notified)
    ensures !HasId(rows, id) ==> WithNotified(rows, id) == rows
  {
  }

  /** The item row with a given id, if any (ids are unique). */
  function ItemById(rows: seq<ItemRow>, id: string): (r: Option<ItemRow>)
    ensures r.Some? ==> r.value in rows && r.value.id == id
    ensures r.None? ==> !HasId(rows, id)
  {
    if |rows| == 0 then None
    else if rows[0].id == id then Some(rows[0])
    else
      var r := ItemById(rows[1..], id);
      assert !HasId(rows[1..], id) ==> !HasId(rows, id) by {
        if HasId(rows, id) {
          var k :| 0 <= k < |rows| && rows[k].id == id;
          assert rows[1..][k - 1].id == id;
        }
      }
      r
  }

  /**
   * `items JOIN feedback ON f.item_id = i.id WHERE f.signal = ? ORDER BY f.created_at DESC`:
   * one pair per matching feedback row, the most recently appended first.
   */
  function Joined(rows: seq<ItemRow>, fb: seq<FeedbackRow>, signal: int): seq<(FeedbackRow, ItemRow)>
  {
    if |fb| == 0 then []
    else
      var f := fb[|fb| - 1];
      var here := match ItemById(rows, f.itemId)
        case Some(row) => if f.signal == signal then [(f, row)] else []
        case None => [];
      here + Joined(rows, fb[..|fb| - 1], signal)
  }

  /** Every joined pair is a feedback row with the asked signal and the item row it references. */
  lemma {:induction false} JoinedPairs(rows: seq<ItemRow>, fb: seq<FeedbackRow>, signal: int)
    ensures forall p :: p in Joined(rows, fb, signal) ==>
      p.0 in fb && p.0.signal == signal && p.1 in rows && p.1.id == p.0.itemId
  {
    if |fb| > 0 {
      JoinedPairs(rows, fb[..|fb| - 1], signal);
    }
  }

  /** A feedback row the join keeps: it has the asked signal and the item it names exists. */
  predicate Matches(rows: seq<ItemRow>, f: FeedbackRow, signal: int)
  {
    f.signal == signal && HasId(rows, f.itemId)
  }

  /** How many feedback rows the join keeps, counted from the front of the table. */
  function MatchCount(rows: seq<ItemRow>, fb: seq<FeedbackRow>, signal: int): nat
  {
    if |fb| == 0 then 0
    else (if Matches(rows, fb[0], signal) then 1 else 0) + MatchCount(rows, fb[1..], signal)
  }

  lemma {:induction false} MatchCountSnoc(rows: seq<ItemRow>, fb: seq<FeedbackRow>, f: FeedbackRow, signal: int)
    ensures MatchCount(rows, fb + [f], signal) == MatchCount(rows, fb, signal) + (if Matches(rows, f, signal) then 1 else 0)
    decreases |fb|
  {
    if |fb| > 0 {
      assert (fb + [f])[1..] == fb[1..] + [f];
      MatchCountSnoc(rows, fb[1..], f, signal);
    } else {
      assert (fb + [f])[1..] == [];
    }
  }

  /** The join has one pair per feedback row with the signal whose item exists. */
  lemma {:induction false} JoinedCount(rows: seq<ItemRow>, fb: seq<FeedbackRow>, signal: int)
    ensures |Joined(rows, fb, signal)| == MatchCount(rows, fb, signal)
  {
    if |fb| > 0 {
      var n := |fb| - 1;
      JoinedCount(rows, fb[..n], signal);
      assert fb == fb[..n] + [fb[n]];
      MatchCountSnoc(rows, fb[..n], fb[n], signal);
    }
  }

  /**
   * The join lists every feedback row that has the signal and names an existing item; with
   * `JoinedCount`, it lists each of them once and nothing else.
   */
  lemma {:induction false} JoinedComplete(rows: seq<ItemRow>, fb: seq<FeedbackRow>, signal: int)
    ensures forall f :: f in fb && Matches(rows, f, signal) ==> exists p :: p in Joined(rows, fb, signal) && p.0 == f
    ensures |Joined(rows, fb, signal)| == MatchCount(rows, fb, signal)
  {
    JoinedCount(rows, fb, signal);
    if |fb| > 0 {
      var n := |fb| - 1;
      var init := fb[..n];
      JoinedComplete(rows, init, signal);
      var rest := Joined(rows, init, signal);
      var j := Joined(rows, fb, signal);
      var here := j[..|j| - |rest|];
      assert j == here + rest;
      forall f | f in fb && Matches(rows, f, signal) ensures exists p :: p in j && p.0 == f {
        if f == fb[n] {
          assert j[0].0 == f;
        } else {
          var x :| 0 <= x < |fb| && fb[x] == f;
          assert x < n && init[x] == f;
          var p :| p in rest && p.0 == f;
          assert p in j;
        }
      }
    }
  }

  ghost predicate ChronologicalFeedback(fb: seq<FeedbackRow>)
  {
    forall i, j :: 0 <= i < j < |fb| ==> fb[i].createdAt <= fb[j].createdAt
  }

  /** Joined pairs ordered by feedback `created_at`, newest first. */
  ghost predicate NewestFirst(j: seq<(FeedbackRow, ItemRow)>)
  {
    forall a, b :: 0 <= a < b < |j| ==> j[a].0.createdAt >= j[b].0.createdAt
  }

  /** With timestamps that never go backwards, the join is ordered by `created_at` descending. */
  lemma {:induction false} JoinedNewestFirst(rows: seq<ItemRow>, fb: seq<FeedbackRow>, signal: int)
    requires ChronologicalFeedback(fb)
    ensures NewestFirst(Joined(rows, fb, signal))
  {
    if |fb| > 0 {
      var init := fb[..|fb| - 1];
      assert ChronologicalFeedback(init);
      JoinedNewestFirst(rows, init, signal);
      JoinedPairs(rows, init, signal);
      var rest := Joined(rows, init, signal);
      var j := Joined(rows, fb, signal);
      var h := |j| - |rest|;
      assert j[h..] == rest && h <= 1;
      forall q | q in init ensures q.createdAt <= fb[|fb| - 1].createdAt {
        var x :| 0 <= x < |init| && init[x] == q;
        assert fb[x] == q;
      }
      forall a, b | 0 <= a < b < |j| ensures j[a].0.createdAt >= j[b].0.createdAt {
        if a < h {
          assert j[a].0 == fb[|fb| - 1];
          assert j[b] == rest[b - h] && rest[b - h] in rest;
          assert rest[b - h].0 in init;
          assert rest[b - h].0.createdAt <= fb[|fb| - 1].createdAt;
        } else {
          assert j[a] == rest[a - h] && j[b] == rest[b - h];
          assert 0 <= a - h < b - h < |rest|;
        }
      }
    }
  }

  /** SQLite's `LIMIT n`: a negative limit means no limit. */
  function LimitOf(limit: int, available: nat): (n: nat)
    ensures n <= available
    ensures limit >= 0 ==> n == if limit < available then limit else available
    ensures limit < 0 ==> n == available
  {
    if limit < 0 || limit > available then available else limit
  }

  /** The columns `id, title, summary, embedding, llm_topics` of an item row. */
  function Project(row: ItemRow): FeedItem
  {
    FeedItem(row.id, Some(row.title), row.summary, row.embedding, row.llmTopics)
  }

  /** `get_liked_items` (signal 1) and `get_disliked_items` (signal -1). */
  function Recent(rows: seq<ItemRow>, fb: seq<FeedbackRow>, signal: int, limit: int): (r: seq<FeedItem>)
    ensures |r| == LimitOf(limit, MatchCount(rows, fb, signal))
    ensures |r| <= |Joined(rows, fb, signal)|
    ensures forall k :: 0 <= k < |r| ==> r[k] == Project(Joined(rows, fb, signal)[k].1)
  {
    JoinedComplete(rows, fb, signal);
    var j := Joined(rows, fb, signal);
    var t := Take(j, LimitOf(limit, |j|));
    seq(|t|, k requires 0 <= k < |t| => Project(t[k].1))
  }

  /** A new vote for an existing item with that signal is the first row of the next query. */
  lemma NewestVoteComesFirst(rows: seq<ItemRow>, fb: seq<FeedbackRow>, f: FeedbackRow, limit: int)
    requires HasId(rows, f.itemId)
    requires limit != 0
    ensures var r := Recent(rows, fb + [f], f.signal, limit);
      |r| > 0 && r[0] == Project(ItemById(rows, f.itemId).value)
  {
    assert (fb + [f])[..|fb|] == fb;
  }

  /** Voting twice for the same item lists it twice: the query does not deduplicate. */
  lemma RepeatedVotesRepeat(rows: seq<ItemRow>, fb: seq<FeedbackRow>, f: FeedbackRow, g: FeedbackRow)
    requires HasId(rows, f.itemId) && g.itemId == f.itemId && g.signal == f.signal
    ensures var r := Recent(rows, fb + [f, g], f.signal, -1);
      |r| >= 2 && r[0] == r[1] == Project(ItemById(rows, f.itemId).value)
  {
    var row := ItemById(rows, f.itemId).value;
    assert (fb + [f, g])[..|fb| + 1] == fb + [f];
    assert (fb + [f])[..|fb|] == fb;
    assert Joined(rows, fb + [f], f.signal) == [(f, row)] + Joined(rows, fb, f.signal);
    assert Joined(rows, fb + [f, g], f.signal) == [(g, row), (f, row)] + Joined(rows, fb, f.signal);
  }

  /** `date(created_at) = date('now') AND llm_score >= ?` (a NULL score never qualifies). */
  predicate Qualifies(row: ItemRow, today: int, minScore: real)
  {
    Day(row.createdAt) == today && row.llmScore.Some? && row.llmScore.value >= minScore
  }

  /** The positions of the qualifying rows, in table order. */
  function QualifyingIndices(rows: seq<ItemRow>, today: int, minScore: real): (r: seq<int>)
    ensures forall k :: k in r <==> 0 <= k < |rows| && Qualifies(rows[k], today, minScore)
    ensures forall a, b :: 0 <= a < b < |r| ==> r[a] < r[b]
    ensures forall a :: 0 <= a < |r| ==> 0 <= r[a] < |rows|
  {
    if |rows| == 0 then []
    else
      var n := |rows| - 1;
      var init := QualifyingIndices(rows[..n], today, minScore);
      assert forall k :: 0 <= k < n ==> rows[..n][k] == rows[k];
      init + (if Qualifies(rows[n], today, minScore) then [n] else [])
  }

  /** The score a position is ranked by. */
  function ScoreAt(rows: seq<ItemRow>, k: int): real
  {
    if 0 <= k < |rows| && rows[k].llmScore.Some? then rows[k].llmScore.value else 0.0
  }

  /** Rows are ranked by score, ties by position. */
  function ScoreKey(rows: seq<ItemRow>): int -> real
  {
    k => ScoreAt(rows, k)
  }

  function Position(k: int): int
  {
    k
  }

  lemma QualifyingIndicesRankable(rows: seq<ItemRow>, today: int, minScore: real)
    ensures TopK.Distinct(QualifyingIndices(rows, today, minScore))
    ensures TopK.TieInjective(QualifyingIndices(rows, today, minScore), Position)
  {
  }

  /**
   * The positions `get_today_top_items` returns: qualifying positions by score descending,
   * equal scores in table order, as many as `n` allows.
   */
  function TopIndices(rows: seq<ItemRow>, today: int, minScore: real, n: nat): (top: seq<int>)
    ensures var idx := QualifyingIndices(rows, today, minScore);
      && |top| == (if n < |idx| then n else |idx|)
      && (forall x :: x in top ==> x in idx)
      && (forall i, j :: 0 <= i < j < |top| ==> TopK.Better(ScoreKey(rows), Position, top[i], top[j]))
      && (forall x, i :: x in idx && x !in top && 0 <= i < |top| ==> TopK.Better(ScoreKey(rows), Position, top[i], x))
      && (n >= |idx| ==> forall x :: x in idx ==> x in top)
  {
    QualifyingIndicesRankable(rows, today, minScore);
    TopK.TopBy(QualifyingIndices(rows, today, minScore), ScoreKey(rows), Position, n)
  }

  lemma BetterByScore(rows: seq<ItemRow>, a: int, b: int)
    ensures TopK.Better(ScoreKey(rows), Position, a, b) <==>
      ScoreAt(rows, a) > ScoreAt(rows, b) || (ScoreAt(rows, a) == ScoreAt(rows, b) && a < b)
  {
  }

  /** `get_today_top_items`: today's rows scoring at least `minScore`, best first, at most `maxItems`. */
  function TodayTop(rows: seq<ItemRow>, now: int, minScore: real, maxItems: int): seq<ItemRow>
  {
    var idx := QualifyingIndices(rows, Day(now), minScore);
    var top := TopIndices(rows, Day(now), minScore, LimitOf(maxItems, |idx|));
    assert forall i :: 0 <= i < |top| ==> top[i] in idx;
    seq(|top|, i requires 0 <= i < |top| => rows[top[i]])
  }

  /** At most `maxItems` rows (a negative limit is no limit), each a qualifying row of the table. */
  lemma TodayTopRowsQualify(rows: seq<ItemRow>, now: int, minScore: real, maxItems: int)
    ensures var r := TodayTop(rows, now, minScore, maxItems);
      && (maxItems >= 0 ==> |r| <= maxItems)
      && (forall i :: 0 <= i < |r| ==> r[i] in rows && Qualifies(r[i], Day(now), minScore))
  {
    var idx := QualifyingIndices(rows, Day(now), minScore);
    var top := TopIndices(rows, Day(now), minScore, LimitOf(maxItems, |idx|));
    var r := TodayTop(rows, now, minScore, maxItems);
    assert forall i :: 0 <= i < |top| ==> top[i] in idx;
    assert forall i :: 0 <= i < |r| ==> r[i] == rows[top[i]];
  }

  /** `ORDER BY llm_score DESC`: the scores never increase along the result. */
  lemma TodayTopOrdered(rows: seq<ItemRow>, now: int, minScore: real, maxItems: int)
    ensures var r := TodayTop(rows, now, minScore, maxItems);
      forall i, j :: 0 <= i < j < |r| ==> r[i].llmScore.value >= r[j].llmScore.value
  {
    var idx := QualifyingIndices(rows, Day(now), minScore);
    var top := TopIndices(rows, Day(now), minScore, LimitOf(maxItems, |idx|));
    var r := TodayTop(rows, now, minScore, maxItems);
    assert forall i :: 0 <= i < |top| ==> top[i] in idx;
    forall i, j | 0 <= i < j < |r| ensures r[i].llmScore.value >= r[j].llmScore.value {
      assert r[i] == rows[top[i]] && r[j] == rows[top[j]];
      BetterByScore(rows, top[i], top[j]);
    }
  }

  /** Row `i` of the result is the table row at the `i`-th selected position. */
  lemma TodayTopAt(rows: seq<ItemRow>, now: int, minScore: real, maxItems: int)
    ensures var idx := QualifyingIndices(rows, Day(now), minScore);
      var top := TopIndices(rows, Day(now), minScore, LimitOf(maxItems, |idx|));
      var r := TodayTop(rows, now, minScore, maxItems);
      && |r| == |top|
      && forall i :: 0 <= i < |top| ==> top[i] in idx && 0 <= top[i] < |rows| && r[i] == rows[top[i]]
  {
  }

  /**
   * Nothing better is left out: a qualifying row missing from the result means the limit was
   * reached, and every returned row scores at least as high as it.
   */
  lemma TodayTopComplete(rows: seq<ItemRow>, now: int, minScore: real, maxItems: int, k: int)
    requires 0 <= k < |rows| && Qualifies(rows[k], Day(now), minScore)
    requires rows[k] !in TodayTop(rows, now, minScore, maxItems)
    ensures var r := TodayTop(rows, now, minScore, maxItems);
      && |r| == maxItems
      && forall i :: 0 <= i < |r| ==> r[i].llmScore.value >= rows[k].llmScore.value
  {
    var idx := QualifyingIndices(rows, Day(now), minScore);
    var n := LimitOf(maxItems, |idx|);
    var top := TopIndices(rows, Day(now), minScore, n);
    var r := TodayTop(rows, now, minScore, maxItems);
    TodayTopAt(rows, now, minScore, maxItems);
    assert k in idx;
    if k in top {
      assert false;
    }
    assert n < |idx|;
    forall i | 0 <= i < |r| ensures r[i].llmScore.value >= rows[k].llmScore.value {
      BetterByScore(rows, top[i], k);
    }
  }

  class Store {
    var items: seq<ItemRow>
    var feedback: seq<FeedbackRow>
    /** `datetime('now')`. */
    var now: int

    ghost predicate Valid()
      reads this
    {
      && UniqueKeys(items)
      && (forall k :: 0 <= k < |feedback| ==> feedback[k].id == k + 1 && feedback[k].createdAt <= now)
      && ChronologicalFeedback(feedback)
    }

    /** A freshly initialised database (`init_db` on an empty file). */
    constructor (start: int)
      ensures Valid()
      ensures items == [] && feedback == [] && now == start
    {
      items, feedback, now := [], [], start;
    }

    /**
     * Time passes between two calls; `datetime('now')` never goes backwards here.  Nothing in the
     * modelled files moves the clock: a caller uses this to give later rows later timestamps.
     */
    method AdvanceClock(t: int)
      requires Valid() && t >= now
      modifies this
      ensures Valid()
      ensures now == t && items == old(items) && feedback == old(feedback)
    {
      now := t;
    }

    method ItemExists(url: string) returns (b: bool)
      ensures b <==> exists k :: 0 <= k < |items| && items[k].url == url
    {
      b := HasUrl(items, url);
    }

    method InsertItem(a: Article)
      requires Valid()
      modifies this
      ensures Valid()
      ensures items == InsertOrIgnore(old(items), NewRow(a, old(now)))
      ensures feedback == old(feedback) && now == old(now)
    {
      InsertKeepsKeysUnique(items, NewRow(a, now));
      items := InsertOrIgnore(items, NewRow(a, now));
    }

    /** json.dumps of the topic list is the oracle `dumps`. */
    method UpdateItemScore(itemId: string, score: real, topics: seq<string>, reason: string, dumps: seq<string> -> string)
      requires Valid()
      modifies this
      ensures Valid()
      ensures items == WithScore(old(items), itemId, score, dumps(topics), reason)
      ensures feedback == old(feedback) && now == old(now)
    {
      items := WithScore(items, itemId, score, dumps(topics), reason);
    }

    method MarkNotified(itemId: string)
      requires Valid()
      modifies this
      ensures Valid()
      ensures items == WithNotified(old(items), itemId)
      ensures feedback == old(feedback) && now == old(now)
    {
      items := WithNotified(items, itemId);
    }

    /** `store_embedding` of embeddings.py, an UPDATE of this table. */
    method StoreEmbedding(itemId: string, e: Vector)
      requires Valid()
      modifies this
      ensures Valid()
      ensures items == WithEmbedding(old(items), itemId, e)
      ensures feedback == old(feedback) && now == old(now)
    {
      items := WithEmbedding(items, itemId, e);
    }

    /**
     * Always appends a row, even for a repeated (item, signal) pair, and whether or not the item
     * exists (SQLite does not enforce the foreign key unless asked to).
     */
    method AddFeedback(itemId: string, signal: int)
      requires Valid()
      modifies this
      ensures Valid()
      ensures feedback == old(feedback) + [FeedbackRow(|old(feedback)| + 1, itemId, signal, old(now))]
      ensures items == old(items) && now == old(now)
    {
      feedback := feedback + [FeedbackRow(|feedback| + 1, itemId, signal, now)];
    }

    method GetLikedItems(limit: int) returns (r: seq<FeedItem>)
      ensures r == Recent(items, feedback, 1, limit)
    {
      r := Recent(items, feedback, 1, limit);
    }

    method GetDislikedItems(limit: int) returns (r: seq<FeedItem>)
      ensures r == Recent(items, feedback, -1, limit)
    {
      r := Recent(items, feedback, -1, limit);
    }

    method GetTodayTopItems(minScore: real, maxItems: int) returns (r: seq<ItemRow>)
      ensures r == TodayTop(items, now, minScore, maxItems)
    {
      r := TodayTop(items, now, minScore, maxItems);
    }
  }
}
