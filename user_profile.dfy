/**
 * The preference profile of user_profile.py: the titles of a user's recent liked and disliked
 * articles, the user's most frequent liked topics, the tracked-article embeddings, the cold/warm
 * `has_history` boundary, and the text rendering injected into every judge prompt.
 */
module UserProfile {
  import opened Wrappers
  import opened Strings
  import opened Entities
  import TopK
  import Db
  import UserStore

  /** How many liked and disliked rows the profile is built from. */
  const LikedWindow: int := 30
  const DislikedWindow: int := 20
  /** `Counter(...).most_common(15)`. */
  const TopTopicCount: nat := 15
  /** Liked rows needed for a warm start when nothing is tracked. */
  const MinLikedForHistory: nat := 5
  /** Titles shown per list in the rendering. */
  const RenderedTitles: nat := 10

  const TopicsPrefix: string := "Topics I like: "
  const LikedHeader: string := "Recent articles I liked:"
  const DislikedHeader: string := "Recent articles I did NOT like:"
  const LikedMarker: string := "  + "
  const DislikedMarker: string := "  - "
  const NoHistoryText: string := "No preference history yet."

  /** `json.loads` of an `llm_topics` column: the decoded list, or None when it raises. */
  type TopicDecoder = string -> Option<seq<string>>

  datatype Profile = Profile(
    likedTitles: seq<string>,
    dislikedTitles: seq<string>,
    topTopics: seq<string>,
    trackedEmbeddings: seq<Vector>,
    hasHistory: bool)

  // ---------------------------------------------------------------------------------------------
  // Titles

  /** The title an item contributes: none when it is missing or empty. */
  function TitleOf(item: FeedItem): seq<string>
  {
    match item.title
    case Some(t) => if t != "" then [t] else []
    case None => []
  }

  /** `[i["title"] for i in items if i.get("title")]`. */
  function Titles(items: seq<FeedItem>): (r: seq<string>)
    ensures |r| <= |items|
    ensures forall t :: t in r ==> t != ""
  {
    if |items| == 0 then [] else TitleOf(items[0]) + Titles(items[1..])
  }

  /** The title filter keeps order: the titles of a concatenation are the concatenated titles. */
  lemma {:induction false} TitlesAppend(a: seq<FeedItem>, b: seq<FeedItem>)
    ensures Titles(a + b) == Titles(a) + Titles(b)
  {
    if |a| > 0 {
      assert (a + b)[1..] == a[1..] + b;
      TitlesAppend(a[1..], b);
    } else {
      assert a + b == b;
    }
  }

  /** An item with a non-empty title contributes exactly that title, at its place. */
  lemma TitlesAround(a: seq<FeedItem>, x: FeedItem, b: seq<FeedItem>)
    ensures x.title.Some? && x.title.value != "" ==> Titles(a + [x] + b) == Titles(a) + [x.title.value] + Titles(b)
    ensures x.title.None? || x.title.value == "" ==> Titles(a + [x] + b) == Titles(a) + Titles(b)
  {
    TitlesAppend(a + [x], b);
    TitlesAppend(a, [x]);
    assert Titles([x]) == TitleOf(x) + Titles([]);
  }

  // ---------------------------------------------------------------------------------------------
  // Topics

  /** The topics one liked row contributes: none without `llm_topics` or when it fails to parse. */
  function TopicsOf(item: FeedItem, decode: TopicDecoder): seq<string>
  {
    match item.llmTopics
    case Some(s) =>
      if s == "" then []
      else (match decode(s) case Some(ts) => ts case None => [])
    case None => []
  }

  /** `liked_topics`: every row's topics, in row order. */
  function LikedTopics(items: seq<FeedItem>, decode: TopicDecoder): seq<string>
  {
    if |items| == 0 then []
    else LikedTopics(items[..|items| - 1], decode) + TopicsOf(items[|items| - 1], decode)
  }

  lemma {:induction false} LikedTopicsAppend(a: seq<FeedItem>, b: seq<FeedItem>, decode: TopicDecoder)
    ensures LikedTopics(a + b, decode) == LikedTopics(a, decode) + LikedTopics(b, decode)
  {
    if |b| > 0 {
      var b' := b[..|b| - 1];
      assert (a + b)[..|a + b| - 1] == a + b';
      assert (a + b)[|a + b| - 1] == b[|b| - 1];
      LikedTopicsAppend(a, b', decode);
    } else {
      assert a + b == a;
    }
  }

  /** A row whose topics do not parse is skipped and does not stop the build. */
  lemma UnparseableRowSkipped(a: seq<FeedItem>, x: FeedItem, b: seq<FeedItem>, decode: TopicDecoder)
    requires x.llmTopics.None? || x.llmTopics.value == "" || decode(x.llmTopics.value).None?
    ensures LikedTopics(a + [x] + b, decode) == LikedTopics(a + b, decode)
  {
    LikedTopicsAppend(a + [x], b, decode);
    LikedTopicsAppend(a, [x], decode);
    LikedTopicsAppend(a, b, decode);
    assert [x][..0] == [];
  }

  /** The loop that `extend`s `liked_topics` row by row. */
  method FlattenTopics(items: seq<FeedItem>, decode: TopicDecoder) returns (topics: seq<string>)
    ensures topics == LikedTopics(items, decode)
  {
    topics := [];
    for i := 0 to |items|
      invariant topics == LikedTopics(items[..i], decode)
    {
      assert items[..i + 1][..i] == items[..i];
      var item := items[i];
      if item.llmTopics.Some? && item.llmTopics.value != "" {
        match decode(item.llmTopics.value)
        case Some(ts) => topics := topics + ts;
        case None =>
      }
    }
    assert items[..|items|] == items;
  }

  /** The position where `t` first occurs in `s` (`|s|` when it does not). */
  function FirstIndex(s: seq<string>, t: string): (k: nat)
    ensures k <= |s|
    ensures k < |s| <==> t in s
    ensures k < |s| ==> s[k] == t
    ensures forall j :: 0 <= j < k ==> s[j] != t
  {
    if |s| == 0 then 0
    else if s[0] == t then 0
    else 1 + FirstIndex(s[1..], t)
  }

  /** The distinct topics in first-seen order (the key order of the `Counter`). */
  function Dedup(s: seq<string>): (r: seq<string>)
    ensures TopK.Distinct(r)
    ensures forall t :: t in r <==> t in s
  {
    if |s| == 0 then []
    else
      var init := s[..|s| - 1];
      var d := Dedup(init);
      assert forall t :: t in s <==> t in init || t == s[|s| - 1];
      if s[|s| - 1] in d then d
      else
        TopK.DistinctSnoc(d, s[|s| - 1]);
        d + [s[|s| - 1]]
  }

  /** How often a topic occurs. */
  function CountKey(topics: seq<string>): string -> real
  {
    t => multiset(topics)[t] as real
  }

  function FirstSeen(topics: seq<string>): string -> int
  {
    t => FirstIndex(topics, t)
  }

  lemma FirstSeenInjective(topics: seq<string>)
    ensures TopK.TieInjective(Dedup(topics), FirstSeen(topics))
  {
    forall x, y | x in Dedup(topics) && y in Dedup(topics) && x != y
      ensures FirstIndex(topics, x) != FirstIndex(topics, y)
    {
      assert topics[FirstIndex(topics, x)] == x;
      assert topics[FirstIndex(topics, y)] == y;
    }
  }

  /** `[t for t, _ in Counter(topics).most_common(15)]`. */
  function TopTopics(topics: seq<string>): seq<string>
  {
    FirstSeenInjective(topics);
    TopK.TopBy(Dedup(topics), CountKey(topics), FirstSeen(topics), TopTopicCount)
  }

  /**
   * At most 15 distinct topics, all occurring in the input, by non-increasing count with equal
   * counts in first-seen order; a topic is left out only when 15 are listed and each of them
   * ranks above it: it occurs more often, or as often and was seen first.
   */
  lemma TopTopicsRanked(topics: seq<string>)
    ensures var r := TopTopics(topics);
      && |r| <= TopTopicCount
      && TopK.Distinct(r)
      && (forall t :: t in r ==> t in topics)
      && (forall i, j :: 0 <= i < j < |r| ==>
            multiset(topics)[r[i]] > multiset(topics)[r[j]] ||
            (multiset(topics)[r[i]] == multiset(topics)[r[j]] && FirstIndex(topics, r[i]) < FirstIndex(topics, r[j])))
      && (forall t :: t in topics && t !in r ==>
            |r| == TopTopicCount && forall i :: 0 <= i < |r| ==>
              multiset(topics)[r[i]] > multiset(topics)[t] ||
              (multiset(topics)[r[i]] == multiset(topics)[t] && FirstIndex(topics, r[i]) < FirstIndex(topics, t)))
  {
    var d := Dedup(topics);
    FirstSeenInjective(topics);
    var r := TopTopics(topics);
    TopK.TopByDistinct(d, CountKey(topics), FirstSeen(topics), TopTopicCount);
    forall i, j | 0 <= i < j < |r| ensures
      multiset(topics)[r[i]] > multiset(topics)[r[j]] ||
      (multiset(topics)[r[i]] == multiset(topics)[r[j]] && FirstIndex(topics, r[i]) < FirstIndex(topics, r[j]))
    {
      assert TopK.Better(CountKey(topics), FirstSeen(topics), r[i], r[j]);
    }
    forall t | t in topics && t !in r
      ensures |r| == TopTopicCount && forall i :: 0 <= i < |r| ==>
        multiset(topics)[r[i]] > multiset(topics)[t] ||
        (multiset(topics)[r[i]] == multiset(topics)[t] && FirstIndex(topics, r[i]) < FirstIndex(topics, t))
    {
      assert t in d;
      forall i | 0 <= i < |r| ensures
        multiset(topics)[r[i]] > multiset(topics)[t] ||
        (multiset(topics)[r[i]] == multiset(topics)[t] && FirstIndex(topics, r[i]) < FirstIndex(topics, t))
      {
        assert TopK.Better(CountKey(topics), FirstSeen(topics), r[i], t);
      }
    }
  }

  /** With few enough distinct topics every one of them is listed. */
  lemma TopTopicsAllWhenFew(topics: seq<string>)
    requires |Dedup(topics)| <= TopTopicCount
    ensures forall t :: t in topics <==> t in TopTopics(topics)
  {
    FirstSeenInjective(topics);
  }

  // ---------------------------------------------------------------------------------------------
  // The profile

  /** The profile built from the fetched liked rows, disliked rows and tracked embeddings. */
  function ProfileOf(liked: seq<FeedItem>, disliked: seq<FeedItem>, tracked: seq<Vector>, decode: TopicDecoder): Profile
  {
    Profile(Titles(liked), Titles(disliked), TopTopics(LikedTopics(liked, decode)), tracked,
            |liked| >= MinLikedForHistory || |tracked| > 0)
  }

  /**
   * `has_history` counts fetched rows, not titles: five liked rows without any title still
   * give a warm start with an empty title list.
   */
  lemma HistoryCountsRowsNotTitles(liked: seq<FeedItem>, disliked: seq<FeedItem>, decode: TopicDecoder)
    requires |liked| == MinLikedForHistory
    requires forall i :: 0 <= i < |liked| ==> liked[i].title.None?
    ensures ProfileOf(liked, disliked, [], decode).hasHistory
    ensures ProfileOf(liked, disliked, [], decode).likedTitles == []
  {
    var l := liked;
    assert Titles(l) == TitleOf(l[0]) + Titles(l[1..]);
    assert Titles(l[1..]) == TitleOf(l[1]) + Titles(l[2..]);
    assert Titles(l[2..]) == TitleOf(l[2]) + Titles(l[3..]);
    assert Titles(l[3..]) == TitleOf(l[3]) + Titles(l[4..]);
    assert Titles(l[4..]) == TitleOf(l[4]) + Titles(l[5..]);
  }

  /** The profile of user `userId` as the stores hold it now. */
  function ProfileFor(items: seq<Db.ItemRow>, votes: seq<UserStore.Vote>, tracked: seq<UserStore.TrackedArticle>,
                      userId: int, decode: TopicDecoder): Profile
  {
    ProfileOf(UserStore.Recent(items, votes, userId, 1, LikedWindow),
              UserStore.Recent(items, votes, userId, -1, DislikedWindow),
              UserStore.TrackedEmbeddings(tracked, userId), decode)
  }

  /**
   * `has_history` is true iff the liked window holds at least five rows or the user tracks an
   * article with an embedding; the title lists stay within the 30 and 20 windows.
   */
  lemma ProfileForBounds(items: seq<Db.ItemRow>, votes: seq<UserStore.Vote>, tracked: seq<UserStore.TrackedArticle>,
                         userId: int, decode: TopicDecoder)
    ensures var p := ProfileFor(items, votes, tracked, userId, decode);
      && |p.likedTitles| <= LikedWindow && |p.dislikedTitles| <= DislikedWindow
      && |p.topTopics| <= TopTopicCount
      && (p.hasHistory <==>
            |UserStore.Recent(items, votes, userId, 1, LikedWindow)| >= MinLikedForHistory ||
            exists t :: t in tracked && t.userId == userId && t.embedding.Some?)
  {
    var te := UserStore.TrackedEmbeddings(tracked, userId);
    TopTopicsRanked(LikedTopics(UserStore.Recent(items, votes, userId, 1, LikedWindow), decode));
    if exists t :: t in tracked && t.userId == userId && t.embedding.Some? {
      var t :| t in tracked && t.userId == userId && t.embedding.Some?;
      assert t.embedding.value in te;
    }
    if |te| > 0 {
      assert te[0] in te;
    }
  }

  /** `build_preference_profile(user_id)`: three store reads, then the derived lists. */
  method BuildPreferenceProfile(db: Db.Store, us: UserStore.Tables, userId: int, decode: TopicDecoder) returns (p: Profile)
    ensures p == ProfileFor(db.items, us.votes, us.tracked, userId, decode)
    ensures p.hasHistory <==>
      (|UserStore.Recent(db.items, us.votes, userId, 1, LikedWindow)| >= MinLikedForHistory ||
       exists t :: t in us.tracked && t.userId == userId && t.embedding.Some?)
  {
    var liked := us.GetLikedItems(db.items, userId, LikedWindow);
    var disliked := us.GetDislikedItems(db.items, userId, DislikedWindow);
    var tracked := us.GetTrackedEmbeddings(userId);
    var likedTopics := FlattenTopics(liked, decode);
    p := Profile(Titles(liked), Titles(disliked), TopTopics(likedTopics), tracked,
                 |liked| >= MinLikedForHistory || |tracked| > 0);
    ProfileForBounds(db.items, us.votes, us.tracked, userId, decode);
  }

  // ---------------------------------------------------------------------------------------------
  // Rendering

  /** Each title on its own line behind a marker. */
  function Bullets(marker: string, titles: seq<string>): (r: seq<string>)
    ensures |r| == |titles|
  {
    seq(|titles|, i requires 0 <= i < |titles| => marker + titles[i])
  }

  function TopicSection(p: Profile): seq<string>
  {
    if |p.topTopics| > 0 then [TopicsPrefix + Join(p.topTopics, ", ")] else []
  }

  /** A header and the first ten titles, or nothing for an empty list. */
  function ListSection(header: string, marker: string, titles: seq<string>): seq<string>
  {
    if |titles| > 0 then [header] + Bullets(marker, Take(titles, RenderedTitles)) else []
  }

  /** The `lines` list of `profile_to_text`. */
  function ProfileLines(p: Profile): seq<string>
  {
    TopicSection(p) + ListSection(LikedHeader, LikedMarker, p.likedTitles)
      + ListSection(DislikedHeader, DislikedMarker, p.dislikedTitles)
  }

  /** The text `profile_to_text` returns. */
  function RenderProfile(p: Profile): string
  {
    var lines := ProfileLines(p);
    if |lines| > 0 then Join(lines, "\n") else NoHistoryText
  }

  /** `profile_to_text`, building `lines` with appends inside loops. */
  method ProfileToText(p: Profile) returns (text: string)
    ensures text == RenderProfile(p)
  {
    var lines: seq<string> := [];
    if |p.topTopics| > 0 {
      lines := lines + [TopicsPrefix + Join(p.topTopics, ", ")];
    }
    ghost var before := lines;
    if |p.likedTitles| > 0 {
      lines := lines + [LikedHeader];
      var shown := Take(p.likedTitles, RenderedTitles);
      for i := 0 to |shown|
        invariant lines == before + [LikedHeader] + Bullets(LikedMarker, shown[..i])
      {
        lines := lines + [LikedMarker + shown[i]];
      }
      assert shown[..|shown|] == shown;
    }
    before := lines;
    if |p.dislikedTitles| > 0 {
      lines := lines + [DislikedHeader];
      var shown := Take(p.dislikedTitles, RenderedTitles);
      for i := 0 to |shown|
        invariant lines == before + [DislikedHeader] + Bullets(DislikedMarker, shown[..i])
      {
        lines := lines + [DislikedMarker + shown[i]];
      }
      assert shown[..|shown|] == shown;
    }
    assert lines == ProfileLines(p);
    text := if |lines| > 0 then Join(lines, "\n") else NoHistoryText;
  }

  /** The fallback sentence is returned iff there are no topics, no liked and no disliked titles. */
  lemma RenderFallbackIff(p: Profile)
    ensures RenderProfile(p) == NoHistoryText <==>
      p.topTopics == [] && p.likedTitles == [] && p.dislikedTitles == []
  {
    var lines := ProfileLines(p);
    if |lines| > 0 {
      assert lines[0][0] == 'T' || lines[0][0] == 'R';
      JoinStartsWithFirstPart(lines, "\n");
      assert RenderProfile(p)[0] != NoHistoryText[0];
    }
  }

  /** How many lines begin with `marker`. */
  function CountMarked(lines: seq<string>, marker: string): nat
  {
    if |lines| == 0 then 0
    else (if marker <= lines[0] then 1 else 0) + CountMarked(lines[1..], marker)
  }

  lemma {:induction false} CountMarkedAppend(a: seq<string>, b: seq<string>, marker: string)
    ensures CountMarked(a + b, marker) == CountMarked(a, marker) + CountMarked(b, marker)
  {
    if |a| > 0 {
      assert (a + b)[1..] == a[1..] + b;
      CountMarkedAppend(a[1..], b, marker);
    } else {
      assert a + b == b;
    }
  }

  lemma {:induction false} CountMarkedBullets(marker: string, other: string, titles: seq<string>)
    requires |marker| == |other| && marker != other
    ensures CountMarked(Bullets(marker, titles), marker) == |titles|
    ensures CountMarked(Bullets(marker, titles), other) == 0
  {
    if |titles| > 0 {
      var b := Bullets(marker, titles);
      assert b[1..] == Bullets(marker, titles[1..]);
      CountMarkedBullets(marker, other, titles[1..]);
      assert b[0][..|marker|] == marker;
      assert !(other <= b[0]);
    }
  }

  lemma ListSectionMarks(header: string, marker: string, other: string, titles: seq<string>)
    requires |marker| == |other| == 4 && marker != other
    requires marker[0] == ' ' && other[0] == ' '
    requires |header| > 0 && header[0] != ' '
    ensures CountMarked(ListSection(header, marker, titles), marker) == |Take(titles, RenderedTitles)|
    ensures CountMarked(ListSection(header, marker, titles), other) == 0
  {
    if |titles| > 0 {
      var bs := Bullets(marker, Take(titles, RenderedTitles));
      CountMarkedAppend([header], bs, marker);
      CountMarkedAppend([header], bs, other);
      CountMarkedBullets(marker, other, Take(titles, RenderedTitles));
      assert !(marker <= header) && !(other <= header);
      assert CountMarked([header], marker) == 0 by { assert [header][1..] == []; }
      assert CountMarked([header], other) == 0 by { assert [header][1..] == []; }
    }
  }

  /**
   * The rendering lists at most the first ten liked titles as `  + ` lines and at most the first
   * ten disliked titles as `  - ` lines; no other line starts with either marker.
   */
  lemma RenderedTitleCounts(p: Profile)
    ensures CountMarked(ProfileLines(p), LikedMarker) == |Take(p.likedTitles, RenderedTitles)|
    ensures CountMarked(ProfileLines(p), DislikedMarker) == |Take(p.dislikedTitles, RenderedTitles)|
  {
    var t := TopicSection(p);
    var l := ListSection(LikedHeader, LikedMarker, p.likedTitles);
    var d := ListSection(DislikedHeader, DislikedMarker, p.dislikedTitles);
    CountMarkedAppend(t + l, d, LikedMarker);
    CountMarkedAppend(t, l, LikedMarker);
    CountMarkedAppend(t + l, d, DislikedMarker);
    CountMarkedAppend(t, l, DislikedMarker);
    ListSectionMarks(LikedHeader, LikedMarker, DislikedMarker, p.likedTitles);
    ListSectionMarks(DislikedHeader, DislikedMarker, LikedMarker, p.dislikedTitles);
    if |p.topTopics| > 0 {
      assert t[1..] == [];
      assert !(LikedMarker <= t[0]) && !(DislikedMarker <= t[0]);
    }
  }

  /**
   * Section order: the topics line, then the liked header and its titles, then the disliked
   * header and its titles, each section present only for a non-empty list.
   */
  lemma ProfileLinesLayout(p: Profile)
    ensures var lines := ProfileLines(p);
      var t := if |p.topTopics| > 0 then 1 else 0;
      var nl := |Take(p.likedTitles, RenderedTitles)|;
      var l := if |p.likedTitles| > 0 then 1 + nl else 0;
      var nd := |Take(p.dislikedTitles, RenderedTitles)|;
      && |lines| == t + l + (if |p.dislikedTitles| > 0 then 1 + nd else 0)
      && (t == 1 ==> lines[0] == TopicsPrefix + Join(p.topTopics, ", "))
      && (|p.likedTitles| > 0 ==>
            lines[t] == LikedHeader &&
            forall k :: 0 <= k < nl ==> lines[t + 1 + k] == LikedMarker + p.likedTitles[k])
      && (|p.dislikedTitles| > 0 ==>
            lines[t + l] == DislikedHeader &&
            forall k :: 0 <= k < nd ==> lines[t + l + 1 + k] == DislikedMarker + p.dislikedTitles[k])
  {
  }
}
