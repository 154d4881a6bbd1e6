/**
 * bot.py: the invite-only allowlist and the like/dislike callback handler.  The handler decodes
 * the callback data the notifier put on the keyboard and appends the user's vote.  The Telegram
 * plumbing (answers, message edits) is kept as the reply the handler gives.
 */
module Bot {
  import opened Wrappers
  import opened Strings
  import UserStore
  import Notifier

  /** `_is_allowed`: membership of the allowlist. */
  predicate IsAllowed(userId: int, allowlist: set<int>)
  {
    userId in allowlist
  }

  /** A decoded callback: the text before the first colon, and everything after it. */
  datatype Callback = Callback(action: string, itemId: string)

  /** `data.split(":", 1)` with the `len(parts) != 2` check. */
  function ParseCallback(data: string): (r: Option<Callback>)
    ensures r.None? <==> ':' !in data
    ensures r.Some? ==> ':' !in r.value.action && data == r.value.action + ":" + r.value.itemId
  {
    var parts := SplitOnce(data, ':');
    if |parts| != 2 then None else Some(Callback(parts[0], parts[1]))
  }

  /** `1 if action == "like" else -1`. */
  function SignalOf(action: string): int
  {
    if action == Notifier.LikeAction then 1 else -1
  }

  /** Every action other than exactly `like` is a dislike, including unknown ones. */
  lemma SignalIffLike(action: string)
    ensures SignalOf(action) == 1 <==> action == "like"
    ensures SignalOf(action) == -1 <==> action != "like"
  {
  }

  /** `CallbackQueryHandler(handle_feedback, pattern=r"^(like|dislike):")`. */
  predicate Routed(data: string)
  {
    "like:" <= data || "dislike:" <= data
  }

  /** How the handler answers the callback query. */
  datatype Reply =
    | AccessDenied                 // "⛔ Access denied."
    | Ignored                      // an empty answer
    | Acknowledged(liked: bool)    // "👍 Liked!" or "👎 Disliked!"
    | SaveFailed                   // "⚠️ Could not save feedback."

  /**
   * Which call inside the handler's `try` raises, if any: `save_feedback`, the answer with the
   * acknowledgement, or the edit that removes the keyboard.  Whatever raises, the `except`
   * branch answers that the feedback could not be saved.
   */
  datatype Failure = NoFailure | SaveRaises | AnswerRaises | EditRaises

  /**
   * What `handle_feedback` does: the vote it saves, if any, the answers it sends in order, and
   * whether it removed the keyboard.
   */
  datatype Effect = Effect(saved: Option<(string, int)>, answers: seq<Reply>, keyboardRemoved: bool)

  function HandleFeedbackSpec(userId: int, data: string, allowlist: set<int>, failure: Failure): Effect
  {
    if !IsAllowed(userId, allowlist) then Effect(None, [AccessDenied], false)
    else
      match ParseCallback(data)
      case None => Effect(None, [Ignored], false)
      case Some(cb) =>
        var vote := Some((cb.itemId, SignalOf(cb.action)));
        var ack := Acknowledged(SignalOf(cb.action) == 1);
        match failure
        case SaveRaises => Effect(None, [SaveFailed], false)
        case AnswerRaises => Effect(vote, [SaveFailed], false)
        case EditRaises => Effect(vote, [ack, SaveFailed], false)
        case NoFailure => Effect(vote, [ack], true)
  }

  /**
   * A vote is saved only for an allowed user whose data holds a colon, unless the save itself
   * raised, and then it is the text after the first colon with the action's signal; a user off
   * the allowlist is denied and data without a colon is ignored, both without saving.  The
   * "could not save" answer is the last one exactly when some call raised, even when the vote
   * was saved; the keyboard is removed only when nothing raised.
   */
  lemma FeedbackGuards(userId: int, data: string, allowlist: set<int>, failure: Failure)
    ensures var e := HandleFeedbackSpec(userId, data, allowlist, failure);
      && (!IsAllowed(userId, allowlist) ==> e == Effect(None, [AccessDenied], false))
      && (IsAllowed(userId, allowlist) && ':' !in data ==> e == Effect(None, [Ignored], false))
      && (e.saved.Some? <==> IsAllowed(userId, allowlist) && ':' in data && !failure.SaveRaises?)
      && (e.keyboardRemoved <==> e.saved.Some? && failure.NoFailure?)
      && (IsAllowed(userId, allowlist) && ':' in data ==>
            0 < |e.answers| && (e.answers[|e.answers| - 1] == SaveFailed <==> !failure.NoFailure?))
      && (e.saved.Some? ==>
            exists action :: ':' !in action && data == action + ":" + e.saved.value.0 &&
              e.saved.value.1 == SignalOf(action) &&
              e.answers[0] == (if failure.AnswerRaises? then SaveFailed else Acknowledged(action == "like")))
  {
    var e := HandleFeedbackSpec(userId, data, allowlist, failure);
    if e.saved.Some? {
      var cb := ParseCallback(data).value;
      assert ':' !in cb.action && data == cb.action + ":" + e.saved.value.0;
    }
  }

  /**
   * The allowlist is the only gate: the handler answers "access denied" exactly for users off
   * it, whatever the data and whichever call would raise, and then saves nothing.
   */
  lemma AccessDeniedIffNotAllowed(userId: int, data: string, allowlist: set<int>, failure: Failure)
    ensures var e := HandleFeedbackSpec(userId, data, allowlist, failure);
      && (AccessDenied in e.answers <==> userId !in allowlist)
      && (userId !in allowlist ==> e.saved.None? && !e.keyboardRemoved)
  {
  }

  /** Splitting at the first colon keeps an item id that contains colons whole. */
  lemma CallbackRoundTrip(action: string, itemId: string)
    requires ':' !in action
    ensures ParseCallback(Notifier.CallbackData(action, itemId)) == Some(Callback(action, itemId))
  {
    SplitOnceOfGlued(action, ':', itemId);
    assert action + ":" + itemId == action + [':'] + itemId;
  }

  /**
   * Decoding what the notifier's keyboard sends: the like button saves +1 and the dislike
   * button -1, for the article the keyboard was built for.
   */
  lemma KeyboardVotes(id: string, userId: int, allowlist: set<int>)
    requires IsAllowed(userId, allowlist)
    ensures var kb := Notifier.Keyboard(id);
      && HandleFeedbackSpec(userId, kb[0][0].callbackData, allowlist, NoFailure) == Effect(Some((id, 1)), [Acknowledged(true)], true)
      && HandleFeedbackSpec(userId, kb[0][1].callbackData, allowlist, NoFailure) == Effect(Some((id, -1)), [Acknowledged(false)], true)
  {
    CallbackRoundTrip(Notifier.LikeAction, id);
    CallbackRoundTrip(Notifier.DislikeAction, id);
  }

  /** Data the handler is registered for decodes to `like` or `dislike` and the matching signal. */
  lemma RoutedActions(data: string)
    requires Routed(data)
    ensures ParseCallback(data).Some?
    ensures var cb := ParseCallback(data).value;
      (cb.action == "like" && SignalOf(cb.action) == 1) || (cb.action == "dislike" && SignalOf(cb.action) == -1)
  {
    if "like:" <= data {
      CallbackRoundTrip("like", data[5..]);
      assert data == Notifier.CallbackData("like", data[5..]);
    } else {
      CallbackRoundTrip("dislike", data[8..]);
      assert data == Notifier.CallbackData("dislike", data[8..]);
    }
  }

  /**
   * `handle_feedback`: appends the decoded vote to the user's feedback unless the save raised,
   * then answers; a raised save is modelled as one that wrote nothing.
   */
  method HandleFeedback(userId: int, data: string, allowlist: set<int>, failure: Failure, us: UserStore.Tables)
    returns (answers: seq<Reply>, keyboardRemoved: bool)
    requires us.Valid()
    modifies us
    ensures us.Valid()
    ensures var e := HandleFeedbackSpec(userId, data, allowlist, failure);
      && answers == e.answers && keyboardRemoved == e.keyboardRemoved
      && us.votes == old(us.votes) +
           (if e.saved.Some? then [UserStore.Vote(userId, e.saved.value.0, e.saved.value.1, old(us.now))] else [])
    ensures us.tracked == old(us.tracked) && us.scores == old(us.scores) && us.now == old(us.now)
  {
    keyboardRemoved := false;
    if !IsAllowed(userId, allowlist) {
      answers := [AccessDenied];
      return;
    }
    var parts := SplitOnce(data, ':');
    if |parts| != 2 {
      answers := [Ignored];
      return;
    }
    var action, itemId := parts[0], parts[1];
    var signal := if action == Notifier.LikeAction then 1 else -1;
    answers := [];
    // The `try` block: each step runs only when the one before it did not raise.
    var raised := failure.SaveRaises?;
    if !raised {
      us.SaveFeedback(userId, itemId, signal);
      raised := failure.AnswerRaises?;
    }
    if !raised {
      answers := answers + [Acknowledged(signal == 1)];
      raised := failure.EditRaises?;
    }
    if !raised {
      keyboardRemoved := true;
    } else {
      answers := answers + [SaveFailed];
    }
  }
}
