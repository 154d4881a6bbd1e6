/**
 * notifier.py: posting an accepted article to the Telegram chat with a like/dislike keyboard,
 * then marking the article as notified.  The HTTP post is left out; only whether it raises is a
 * parameter, because a raised exception skips the marking.
 */
module Notifier {
  import opened Wrappers
  import opened Strings
  import opened Entities
  import Db

  /** The fields `notify_item` reads from the item; an absent `topics` is the empty list. */
  datatype Notice = Notice(
    id: string, title: string, url: string, source: string,
    topics: seq<string>, score: Option<int>, reason: string)

  /** The item the ranker accepted: the article's fields merged with the judgement's. */
  function NoticeOf(s: ScoredItem): Notice
  {
    Notice(s.article.id, s.article.title, s.article.url, s.article.source,
           s.judgement.topics, Some(s.judgement.score), s.judgement.reason)
  }

  /** `item.get('score', '?')` as shown in the message. */
  function ScoreText(score: Option<int>): string
  {
    match score
    case None => "?"
    case Some(v) => IntToString(v)
  }

  /** The score line shows `?` exactly when the item has no score. */
  lemma ScoreTextUnknownIffAbsent(score: Option<int>)
    ensures ScoreText(score) == "?" <==> score.None?
    ensures score.Some? ==> |ScoreText(score)| > 0 && ScoreText(score)[0] != '?'
  {
    if score.Some? {
      IntToStringFirstChar(score.value);
    }
  }

  /** The message lines, in order. */
  function MessageLines(n: Notice): (lines: seq<string>)
    ensures |lines| == 6
  {
    [ "\U{1F4F0} *" + n.title + "*",
      "\U{1F517} " + n.url,
      "\U{1F4CC} Source: " + n.source,
      "\U{1F3F7} Topics: " + Join(n.topics, ", "),
      "\U{2B50} Score: " + ScoreText(n.score) + "/100",
      "\U{1F4AC} " + n.reason ]
  }

  /** The Markdown message text: the six lines separated by newlines. */
  function MessageText(n: Notice): string
  {
    Join(MessageLines(n), "\n")
  }

  /** The message is the title line, a newline, and the rest of the lines. */
  lemma MessageLayout(n: Notice)
    ensures var l := MessageLines(n);
      MessageText(n) == l[0] + "\n" + l[1] + "\n" + l[2] + "\n" + l[3] + "\n" + l[4] + "\n" + l[5]
  {
    var l := MessageLines(n);
    var nl := "\n";
    assert l == [l[0]] + ([l[1]] + ([l[2]] + ([l[3]] + ([l[4]] + [l[5]]))));
    JoinCons(l[4], [l[5]], nl);
    JoinCons(l[3], [l[4]] + [l[5]], nl);
    JoinCons(l[2], [l[3]] + ([l[4]] + [l[5]]), nl);
    JoinCons(l[1], [l[2]] + ([l[3]] + ([l[4]] + [l[5]])), nl);
    JoinCons(l[0], [l[1]] + ([l[2]] + ([l[3]] + ([l[4]] + [l[5]]))), nl);
  }

  /** An accepted article always shows its judged score, never `?`, and the judged topics. */
  lemma AcceptedShowsScore(s: ScoredItem)
    ensures MessageLines(NoticeOf(s))[4] == "\U{2B50} Score: " + IntToString(s.judgement.score) + "/100"
    ensures ScoreText(NoticeOf(s).score) != "?"
    ensures MessageLines(NoticeOf(s))[3] == "\U{1F3F7} Topics: " + Join(s.judgement.topics, ", ")
  {
    ScoreTextUnknownIffAbsent(NoticeOf(s).score);
  }

  /** An inline keyboard button. */
  datatype Button = Button(text: string, callbackData: string)

  const LikeAction: string := "like"
  const DislikeAction: string := "dislike"

  /** The callback data of a vote button: the action, a colon, the article id. */
  function CallbackData(action: string, id: string): string
  {
    action + ":" + id
  }

  /** One row: a like button and a dislike button carrying the article id. */
  function Keyboard(id: string): (rows: seq<seq<Button>>)
    ensures |rows| == 1 && |rows[0]| == 2
  {
    [[Button("\U{1F44D} Like", CallbackData(LikeAction, id)),
      Button("\U{1F44E} Dislike", CallbackData(DislikeAction, id))]]
  }

  /** The keyboard's buttons carry `like:<id>` and `dislike:<id>`, which differ for every id. */
  lemma KeyboardCallbacks(id: string)
    ensures Keyboard(id)[0][0].callbackData == "like:" + id
    ensures Keyboard(id)[0][1].callbackData == "dislike:" + id
    ensures Keyboard(id)[0][0].callbackData != Keyboard(id)[0][1].callbackData
  {
    assert Keyboard(id)[0][0].callbackData[1] == 'i';
    assert Keyboard(id)[0][1].callbackData[1] == 'i';
    assert Keyboard(id)[0][0].callbackData[0] != Keyboard(id)[0][1].callbackData[0];
  }

  /** The `sendMessage` request. */
  datatype Post = Post(endpoint: string, chatId: string, text: string, parseMode: string, keyboard: seq<seq<Button>>)

  datatype NotifyError =
    | NotConfigured  // the RuntimeError raised before anything is sent
    | PostRaised     // the post raised, e.g. a connection error

  /** `if not BOT_TOKEN or not CHAT_ID`: a missing and an empty value both count as unset. */
  predicate Configured(botToken: Option<string>, chatId: Option<string>)
  {
    botToken.Some? && botToken.value != "" && chatId.Some? && chatId.value != ""
  }

  /** The request `notify_item` makes, or the configuration error it raises first. */
  function Request(n: Notice, botToken: Option<string>, chatId: Option<string>): Result<Post, NotifyError>
  {
    if !Configured(botToken, chatId) then Err(NotConfigured)
    else Ok(Post("https://api.telegram.org/bot" + botToken.value + "/sendMessage", chatId.value,
                 MessageText(n), "Markdown", Keyboard(n.id)))
  }

  /** `notify_item`: the request, unless the post raised. */
  function Notify(n: Notice, botToken: Option<string>, chatId: Option<string>, postRaises: bool): Result<Post, NotifyError>
  {
    match Request(n, botToken, chatId)
    case Err(e) => Err(e)
    case Ok(p) => if postRaises then Err(PostRaised) else Ok(p)
  }

  /**
   * Without a token or chat id nothing is posted and the error is the configuration error;
   * otherwise the post goes to the bot's endpoint and chat with the message and the keyboard for
   * this article, and the call succeeds unless the post raised.
   */
  lemma NotifyOutcomes(n: Notice, botToken: Option<string>, chatId: Option<string>, postRaises: bool)
    ensures Notify(n, botToken, chatId, postRaises) == Err(NotConfigured) <==> !Configured(botToken, chatId)
    ensures Configured(botToken, chatId) ==>
      && Request(n, botToken, chatId).Ok?
      && var p := Request(n, botToken, chatId).value;
      && "https://api.telegram.org/bot" <= p.endpoint
      && p.chatId == chatId.value && p.text == MessageText(n) && p.keyboard == Keyboard(n.id)
      && (Notify(n, botToken, chatId, postRaises).Ok? <==> !postRaises)
  {
  }

  /**
   * `notify_item(item)`: checks the configuration, posts, and marks the article notified once the
   * post returned, whatever the response; an exception leaves the table unchanged.
   */
  method NotifyItem(n: Notice, botToken: Option<string>, chatId: Option<string>, postRaises: bool, db: Db.Store)
    returns (r: Result<Post, NotifyError>)
    requires db.Valid()
    modifies db
    ensures db.Valid()
    ensures r == Notify(n, botToken, chatId, postRaises)
    ensures db.items == if r.Ok? then Db.WithNotified(old(db.items), n.id) else old(db.items)
    ensures db.feedback == old(db.feedback) && db.now == old(db.now)
  {
    if botToken.None? || botToken.value == "" || chatId.None? || chatId.value == "" {
      return Err(NotConfigured);
    }
    var text := MessageText(n);
    var keyboard := Keyboard(n.id);
    var post := Post("https://api.telegram.org/bot" + botToken.value + "/sendMessage", chatId.value,
                     text, "Markdown", keyboard);
    if postRaises {
      return Err(PostRaised);
    }
    db.MarkNotified(n.id);
    return Ok(post);
  }
}
