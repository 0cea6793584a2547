/** The event handling of `POST /webhook` (server.js:678-994) for one page: postbacks,
    text messages and comments on the page's posts. Each kind of event is specified by a
    pure step from the sessions (and, for comments, the answered comment ids) to the
    actions the handler performs, in the order they happen, and the sessions it leaves;
    the methods of `Bot` are proved to follow those steps on the shared state. */
module Webhook {
  import opened Wrappers
  import opened Strings
  import opened Validation
  import opened Prompts
  import opened Conversation
  import opened Sessions
  import opened Notifications
  import opened Orders
  import opened Keywords
  import opened Comments

  const CancelledByButtonText := "Booking cancelled. Feel free to book anytime!"
  const OtherDate := "Other date"
  const CustomDatePrompt := "Please type your preferred date (e.g., December 25, 2025):"
  const InvalidCustomDateText := "Invalid date! Please use MM/DD/YYYY or Month DD, YYYY."
  const RefreshCommand := "refresh data"
  const RefreshedText := "\U{2705} Keywords refreshed!"
  const BookingUnavailableText := "Sorry, booking is not available at the moment."

  /** What a handler does outside the session map: Send API calls (typing indicator,
      message, image), the Sheets appends (`logPSID`, `saveOrder`), the keyword cache
      refresh, and `sendSMS`. */
  datatype Action =
    | Typing(user: string)
    | Send(user: string, message: Message)
    | SendImage(user: string, url: string)
    | LogUser(user: string)
    | RefreshKeywords
    | SaveOrder(user: string, row: seq<string>)
    | SendSms(number: string, text: string)

  /** The actions of one event, or `Aborted` when the handler throws a `TypeError` and the
      request ends there. */
  datatype Dispatch = Dispatched(actions: seq<Action>) | Aborted

  /** What the page's configuration and the environment supply to one event: the keyword
      rows, the booking form (`None` when it could not be read), whether an SMS key is
      set, the date parser, the clock in its three renderings, and the random draw. */
  datatype PageContext = PageContext(
    keywords: seq<KeywordRow>,
    bookingConfig: Option<seq<StepRow>>,
    smsEnabled: bool,
    parse: string -> Option<Instant>,
    now: Instant,
    nowMs: int,
    clock: string,
    timestamp: string,
    pick: nat)

  datatype Outcome = Outcome(dispatch: Dispatch, sessions: map<string, Session>)

  datatype CommentOutcome = CommentOutcome(dispatch: Dispatch, sessions: map<string, Session>, seen: set<string>)

  /** `bookingConfig?.length > 0`. */
  predicate BookingAvailable(config: Option<seq<StepRow>>)
  {
    config.Some? && |config.value| > 0
  }

  /** `sendTyping` followed by the delayed `callSendAPI` of a reply. */
  function Reply(user: string, message: Message): seq<Action>
  {
    [Typing(user), Send(user, message)]
  }

  /** One image message per URL, in order. */
  function ImageActions(user: string, urls: seq<string>): (r: seq<Action>)
    ensures |r| == |urls|
    ensures forall i :: 0 <= i < |urls| ==> r[i] == SendImage(user, urls[i])
    ensures forall a :: a in r ==> a.SendImage?
  {
    if urls == [] then [] else [SendImage(user, urls[0])] + ImageActions(user, urls[1..])
  }

  /** The SMS of a completed booking: sent when the session holds a non-empty mobile
      number and the SMS key is set. */
  function SmsActions(s: Session, enabled: bool): (r: seq<Action>)
    ensures |r| <= 1
    ensures r != [] <==> enabled && s.mobileNumber.Some? && s.mobileNumber.value != ""
    ensures r != [] ==> r[0] == SendSms(s.mobileNumber.value, SmsText(SmsFields(s.config, s.data)))
  {
    if s.mobileNumber.Some? && s.mobileNumber.value != "" && enabled then
      [SendSms(s.mobileNumber.value, SmsText(SmsFields(s.config, s.data)))]
    else []
  }

  /* ---------- postbacks ---------- */

  /** A `BOOKING_ANSWER_` postback with the decoded `answer` (server.js:723-749): "Other
      date" raises the custom-date flag (and throws without a session); any other answer
      is stored under the current row and then fed to `processBookingStep`. The result
      is never checked for completion here. */
  function AnswerPostbackStep(sessions: map<string, Session>, psid: string, answer: string, ctx: PageContext): Outcome
  {
    if psid !in sessions then
      Outcome(if answer == OtherDate then Aborted else Dispatched([]), sessions)
    else if answer == OtherDate then
      Outcome(Dispatched([Send(psid, Text(CustomDatePrompt))]),
              sessions[psid := sessions[psid].(waitingForCustomDate := true)])
    else
      var (r, after) := BookingStep(sessions[psid := StoreChoice(sessions[psid], answer)], psid, answer, ctx.parse, ctx.now);
      Outcome(if r.Threw? then Aborted else Dispatched(Reply(psid, r.message)), after)
  }

  /** A postback (server.js:702-752). */
  function PostbackStep(sessions: map<string, Session>, psid: string, payload: string, ctx: PageContext): Outcome
  {
    match DecodePostback(payload)
    case Confirm =>
      if psid in sessions && sessions[psid].step == 0 then
        var t := AskAt(sessions[psid].(step := 1), 1);
        Outcome(Dispatched(Reply(psid, t.reply)), sessions[psid := t.session])
      else Outcome(Dispatched([]), sessions)
    case Cancel => Outcome(Dispatched([Send(psid, Text(CancelledByButtonText))]), sessions - {psid})
    case Choose(answer) => AnswerPostbackStep(sessions, psid, answer, ctx)
    case Unrecognised => Outcome(Dispatched([]), sessions)
  }

  /* ---------- text messages ---------- */

  /** A text typed while the session waits for a custom date (server.js:770-794). */
  function CustomDateStep(sessions: map<string, Session>, psid: string, text: string, ctx: PageContext): Outcome
    requires psid in sessions
  {
    match ValidateDateFormat(text, ctx.parse, ctx.now)
    case None => Outcome(Dispatched([Send(psid, Text(InvalidCustomDateText))]), sessions)
    case Some(formatted) =>
      var t := AcceptCustomDate(sessions[psid], formatted);
      Outcome(Dispatched(Reply(psid, t.reply)), sessions[psid := t.session])
  }

  /** A text from a user with a session (server.js:767-821): the custom-date branch, or
      `processBookingStep` followed by the completion check that saves the order, texts
      the customer and forgets the session. */
  ghost function BookingTextStep(sessions: map<string, Session>, psid: string, text: string, ctx: PageContext): Outcome
    requires psid in sessions
  {
    if sessions[psid].waitingForCustomDate then CustomDateStep(sessions, psid, text, ctx)
    else
      var (r, after) := BookingStep(sessions, psid, text, ctx.parse, ctx.now);
      if r.Threw? then Outcome(Aborted, after)
      else if psid in after && after[psid].completed then
        var s := after[psid];
        Outcome(Dispatched([SaveOrder(psid, OrderRow(psid, s.data, ctx.timestamp))]
                           + SmsActions(s, ctx.smsEnabled) + Reply(psid, r.message)),
                after - {psid})
      else Outcome(Dispatched(Reply(psid, r.message)), after)
  }

  /** The actions for a text from a user without a session, given its normalised form
      (server.js:824-881): the user is logged, then a booking starts on "order" or "book",
      and otherwise the keyword reply and its images are sent. */
  function NewConversationActions(psid: string, received: string, ctx: PageContext): seq<Action>
  {
    if TextBookingIntent(received) then
      if BookingAvailable(ctx.bookingConfig) then [LogUser(psid)] + Reply(psid, ConfirmationPrompt)
      else [LogUser(psid), Send(psid, Text(BookingUnavailableText))]
    else
      var kr := TextReply(ctx.keywords, received, ctx.clock, ctx.pick);
      [LogUser(psid)] + Reply(psid, Text(kr.text)) + ImageActions(psid, kr.images)
  }

  /** A text message (server.js:755-883). An empty text is no message event at all. */
  ghost function TextStep(sessions: map<string, Session>, psid: string, text: string, ctx: PageContext): Outcome
  {
    if text == "" then Outcome(Dispatched([]), sessions)
    else if Normalise(text) == RefreshCommand then
      Outcome(Dispatched([RefreshKeywords, Send(psid, Text(RefreshedText))]), sessions)
    else if psid in sessions then BookingTextStep(sessions, psid, text, ctx)
    else
      var received := Normalise(text);
      Outcome(Dispatched(NewConversationActions(psid, received, ctx)),
              NewConversationSessions(sessions, psid, received, ctx))
  }

  /** A new conversation that asks to book, with a form configured, starts a session. */
  function NewConversationSessions(sessions: map<string, Session>, psid: string, received: string,
                                   ctx: PageContext): map<string, Session>
  {
    if TextBookingIntent(received) && BookingAvailable(ctx.bookingConfig)
    then sessions[psid := NewSession(ctx.bookingConfig.value, ctx.nowMs)]
    else sessions
  }

  /* ---------- comments ---------- */

  /** The actions answering a new comment, given its normalised text (server.js:918-990):
      typing, the PSID log, the DM and its images, and the booking prompt when the comment
      asks to book and a form is configured. */
  function CommentActions(commenterId: string, lowered: string, ctx: PageContext): seq<Action>
  {
    var kr := CommentReply(ctx.keywords, lowered, ctx.pick);
    [Typing(commenterId), LogUser(commenterId), Send(commenterId, Text(kr.text))]
    + ImageActions(commenterId, kr.images)
    + (if CommentBookingIntent(lowered) && BookingAvailable(ctx.bookingConfig)
       then [Send(commenterId, ConfirmationPrompt)] else [])
  }

  /** A comment on a post (server.js:888-994): dropped when the sender or the text is
      missing, dropped when its id was answered before, otherwise recorded and answered;
      a booking request starts a session for the commenter. */
  function CommentStep(sessions: map<string, Session>, seen: set<string>, commenterId: string,
                       commentId: string, message: string, ctx: PageContext): (r: CommentOutcome)
    ensures r.sessions == sessions || r.sessions == CommentSessions(sessions, commenterId, Normalise(message), ctx)
  {
    if commenterId == "" || message == "" then CommentOutcome(Dispatched([]), sessions, seen)
    else
      var a := Admit(seen, commentId);
      if !a.isNew then CommentOutcome(Dispatched([]), sessions, a.seen)
      else
        var lowered := Normalise(message);
        CommentOutcome(Dispatched(CommentActions(commenterId, lowered, ctx)),
                       CommentSessions(sessions, commenterId, lowered, ctx), a.seen)
  }

  /** A comment that asks to book, with a form configured, starts a session for the
      commenter, replacing any session in progress. */
  function CommentSessions(sessions: map<string, Session>, commenterId: string, lowered: string,
                           ctx: PageContext): map<string, Session>
  {
    if CommentBookingIntent(lowered) && BookingAvailable(ctx.bookingConfig)
    then sessions[commenterId := NewSession(ctx.bookingConfig.value, ctx.nowMs)]
    else sessions
  }

  /* ---------- properties of the steps ---------- */

  /** A postback never saves an order nor sends an SMS, even when its answer completes the
      booking. */
  lemma PostbackNeverSaves(sessions: map<string, Session>, psid: string, payload: string, ctx: PageContext)
    ensures var d := PostbackStep(sessions, psid, payload, ctx).dispatch;
      d.Dispatched? ==> forall a :: a in d.actions ==> !a.SaveOrder? && !a.SendSms?
  {
  }

  /** A button answer to the last row (neither phone nor date) completes the session in
      place: it stays in the map, completed, and nothing is saved. */
  lemma LastRowButtonLeavesCompletedSession(sessions: map<string, Session>, psid: string, payload: string,
                                            ctx: PageContext)
    requires psid in sessions
    requires var s := sessions[psid];
      1 <= s.step == |s.config| && !IsPhoneKind(s.config[s.step - 1].kind) && s.config[s.step - 1].kind != "date"
    requires DecodePostback(payload).Choose? && DecodePostback(payload).answer != OtherDate
    ensures var r := PostbackStep(sessions, psid, payload, ctx);
      && r.dispatch.Dispatched?
      && psid in r.sessions && r.sessions[psid].completed
      && forall a :: a in r.dispatch.actions ==> !a.SaveOrder?
  {
    ChoiceOnLastRowCompletesInPlace(sessions[psid], DecodePostback(payload).answer, ctx.parse, ctx.now);
  }

  /** The "Other date" button pressed without a session throws. */
  lemma OtherDateNeedsSession(sessions: map<string, Session>, psid: string, value: string, ctx: PageContext)
    requires psid !in sessions && ReplaceChar(value, '_', ' ') == OtherDate
    ensures PostbackStep(sessions, psid, AnswerPayload(value), ctx).dispatch == Aborted
  {
    DecodeAnswerPayload(value);
  }

  /** The order is saved exactly when `processBookingStep` leaves the session completed;
      the saved row is built from the final answers, and the session is then forgotten. */
  lemma SaveExactlyOnCompletion(sessions: map<string, Session>, psid: string, text: string, ctx: PageContext)
    requires psid in sessions && !sessions[psid].waitingForCustomDate
    ensures var r := BookingTextStep(sessions, psid, text, ctx);
      var next := Advance(sessions[psid], text, ctx.parse, ctx.now);
      && (r.dispatch.Dispatched? && r.dispatch.actions != [] && r.dispatch.actions[0].SaveOrder?
          <==> next.Continue? && next.session.completed)
      && (next.Continue? && next.session.completed ==>
            r.dispatch.actions[0] == SaveOrder(psid, OrderRow(psid, next.session.data, ctx.timestamp))
            && psid !in r.sessions)
  {
  }

  /** When a text completes the booking, the order is followed by an SMS exactly when the
      SMS key is set and the completed session holds a non-empty mobile number; the SMS
      carries the text `formatBookingSMS` builds from the final answers. */
  lemma SmsOnCompletion(sessions: map<string, Session>, psid: string, text: string, ctx: PageContext)
    requires psid in sessions && !sessions[psid].waitingForCustomDate
    requires var next := Advance(sessions[psid], text, ctx.parse, ctx.now);
      next.Continue? && next.session.completed
    ensures var d := BookingTextStep(sessions, psid, text, ctx).dispatch;
      var s := Advance(sessions[psid], text, ctx.parse, ctx.now).session;
      && d.Dispatched? && |d.actions| >= 3
      && (d.actions[1].SendSms? <==> ctx.smsEnabled && s.mobileNumber.Some? && s.mobileNumber.value != "")
      && (d.actions[1].SendSms? ==> d.actions[1] == SendSms(s.mobileNumber.value, SmsText(SmsFields(s.config, s.data))))
  {
    var next := Advance(sessions[psid], text, ctx.parse, ctx.now);
    assert BookingStep(sessions, psid, text, ctx.parse, ctx.now) == (Said(next.reply), sessions[psid := next.session]);
    var d := BookingTextStep(sessions, psid, text, ctx).dispatch;
    var sms := SmsActions(next.session, ctx.smsEnabled);
    assert d.actions == [d.actions[0]] + sms + Reply(psid, next.reply);
  }

  /** A text that does not complete the booking sends no SMS and saves nothing. */
  lemma NoSmsBeforeCompletion(sessions: map<string, Session>, psid: string, text: string, ctx: PageContext)
    requires psid in sessions && !sessions[psid].waitingForCustomDate
    requires var next := Advance(sessions[psid], text, ctx.parse, ctx.now);
      !(next.Continue? && next.session.completed)
    ensures var d := BookingTextStep(sessions, psid, text, ctx).dispatch;
      d.Dispatched? ==> forall a :: a in d.actions ==> !a.SaveOrder? && !a.SendSms?
  {
    var next := Advance(sessions[psid], text, ctx.parse, ctx.now);
    if !next.Crashed? {
      assert BookingTextStep(sessions, psid, text, ctx).dispatch == Dispatched(Reply(psid, next.reply));
    }
  }

  /** A date typed after "Other date" never saves an order nor sends an SMS, even when
      it completes the booking. */
  lemma CustomDateNeverSaves(sessions: map<string, Session>, psid: string, text: string, ctx: PageContext)
    requires psid in sessions
    ensures var d := CustomDateStep(sessions, psid, text, ctx).dispatch;
      d.Dispatched? && forall a :: a in d.actions ==> !a.SaveOrder? && !a.SendSms?
  {
    var d := CustomDateStep(sessions, psid, text, ctx).dispatch;
    match ValidateDateFormat(text, ctx.parse, ctx.now)
    case None =>
      assert d == Dispatched([Send(psid, Text(InvalidCustomDateText))]);
    case Some(formatted) =>
      assert d == Dispatched(Reply(psid, AcceptCustomDate(sessions[psid], formatted).reply));
  }

  /** A first message never saves an order nor sends an SMS. */
  lemma NewConversationNeverSaves(psid: string, received: string, ctx: PageContext)
    ensures forall a :: a in NewConversationActions(psid, received, ctx) ==> !a.SaveOrder? && !a.SendSms?
  {
    if !TextBookingIntent(received) {
      var kr := TextReply(ctx.keywords, received, ctx.clock, ctx.pick);
      var images := ImageActions(psid, kr.images);
      assert NewConversationActions(psid, received, ctx) == [LogUser(psid)] + Reply(psid, Text(kr.text)) + images;
    }
  }

  /** "refresh data" is answered even in the middle of a booking, and is not taken as an
      answer. */
  lemma RefreshKeepsSessions(sessions: map<string, Session>, psid: string, text: string, ctx: PageContext)
    requires text != "" && Normalise(text) == RefreshCommand
    ensures TextStep(sessions, psid, text, ctx) ==
      Outcome(Dispatched([RefreshKeywords, Send(psid, Text(RefreshedText))]), sessions)
  {
  }

  /** A postback changes at most the session of its own user. */
  lemma PostbackTouchesOnlyItsUser(sessions: map<string, Session>, psid: string, payload: string, ctx: PageContext)
    ensures var p := PostbackStep(sessions, psid, payload, ctx).sessions;
      p - {psid} == sessions - {psid}
  {
  }

  /** A text from a user with a session changes at most that session. */
  lemma BookingTextTouchesOnlyItsUser(sessions: map<string, Session>, psid: string, text: string, ctx: PageContext)
    requires psid in sessions
    ensures var t := BookingTextStep(sessions, psid, text, ctx).sessions;
      t - {psid} == sessions - {psid}
  {
  }

  /** A text message changes at most the session of its own user. */
  lemma TextTouchesOnlyItsUser(sessions: map<string, Session>, psid: string, text: string, ctx: PageContext)
    ensures var t := TextStep(sessions, psid, text, ctx).sessions;
      t - {psid} == sessions - {psid}
  {
    var t := TextStep(sessions, psid, text, ctx).sessions;
    if text == "" || Normalise(text) == RefreshCommand {
      assert t == sessions;
    } else if psid in sessions {
      assert t == BookingTextStep(sessions, psid, text, ctx).sessions;
      BookingTextTouchesOnlyItsUser(sessions, psid, text, ctx);
    } else {
      var received := Normalise(text);
      assert t == NewConversationSessions(sessions, psid, received, ctx);
      if TextBookingIntent(received) && BookingAvailable(ctx.bookingConfig) {
        UpdateThenRemove(sessions, psid, NewSession(ctx.bookingConfig.value, ctx.nowMs));
      }
    }
  }

  lemma UpdateThenRemove(m: map<string, Session>, k: string, v: Session)
    ensures m[k := v] - {k} == m - {k}
  {
  }

  /** A comment changes at most the session of its author. */
  lemma CommentTouchesOnlyItsAuthor(sessions: map<string, Session>, seen: set<string>, commenterId: string,
                                    commentId: string, message: string, ctx: PageContext)
    ensures var c := CommentStep(sessions, seen, commenterId, commentId, message, ctx).sessions;
      c - {commenterId} == sessions - {commenterId}
  {
    CommentSessionsFrame(sessions, commenterId, Normalise(message), ctx);
  }

  lemma CommentSessionsFrame(sessions: map<string, Session>, commenterId: string, lowered: string, ctx: PageContext)
    ensures CommentSessions(sessions, commenterId, lowered, ctx) - {commenterId} == sessions - {commenterId}
  {
    if CommentBookingIntent(lowered) && BookingAvailable(ctx.bookingConfig) {
      UpdateThenRemove(sessions, commenterId, NewSession(ctx.bookingConfig.value, ctx.nowMs));
    }
  }

  /** A comment delivered twice is answered once: the second delivery does nothing. */
  lemma CommentAnsweredOnce(sessions: map<string, Session>, seen: set<string>, commenterId: string,
                            commentId: string, message: string, ctx: PageContext)
    ensures var first := CommentStep(sessions, seen, commenterId, commentId, message, ctx);
      CommentStep(first.sessions, first.seen, commenterId, commentId, message, ctx) ==
        CommentOutcome(Dispatched([]), first.sessions, first.seen)
  {
  }

  /** A comment without a sender or a text is not recorded, so a later complete delivery
      of the same id is still answered. */
  lemma IncompleteCommentNotRecorded(sessions: map<string, Session>, seen: set<string>, commenterId: string,
                                     commentId: string, message: string, ctx: PageContext)
    requires commenterId == "" || message == ""
    requires commentId !in seen
    ensures var r := CommentStep(sessions, seen, commenterId, commentId, message, ctx);
      r.seen == seen && commentId !in r.seen
  {
  }

  /** A new comment asking to book, with a form configured, replies with the DM first
      and ends with the booking prompt, and the commenter's session starts at step 0. */
  lemma CommentStartsBooking(sessions: map<string, Session>, seen: set<string>, commenterId: string,
                             commentId: string, message: string, ctx: PageContext)
    requires commenterId != "" && message != "" && commentId !in seen
    requires CommentBookingIntent(Normalise(message)) && BookingAvailable(ctx.bookingConfig)
    ensures var r := CommentStep(sessions, seen, commenterId, commentId, message, ctx);
      var dm := CommentReply(ctx.keywords, Normalise(message), ctx.pick).text;
      && r.dispatch.Dispatched?
      && |r.dispatch.actions| >= 4
      && r.dispatch.actions[2] == Send(commenterId, Text(dm))
      && r.dispatch.actions[|r.dispatch.actions| - 1] == Send(commenterId, ConfirmationPrompt)
      && r.sessions[commenterId] == NewSession(ctx.bookingConfig.value, ctx.nowMs)
      && commentId in r.seen
  {
    var lowered := Normalise(message);
    BookingCommentActions(commenterId, lowered, ctx);
    assert CommentStep(sessions, seen, commenterId, commentId, message, ctx) ==
      CommentOutcome(Dispatched(CommentActions(commenterId, lowered, ctx)),
                     CommentSessions(sessions, commenterId, lowered, ctx), seen + {commentId});
  }

  /** The actions answering a booking request: the keyword reply third, the booking
      prompt last. */
  lemma BookingCommentActions(commenterId: string, lowered: string, ctx: PageContext)
    requires CommentBookingIntent(lowered) && BookingAvailable(ctx.bookingConfig)
    ensures var acts := CommentActions(commenterId, lowered, ctx);
      && |acts| >= 4
      && acts[2] == Send(commenterId, Text(CommentReply(ctx.keywords, lowered, ctx.pick).text))
      && acts[|acts| - 1] == Send(commenterId, ConfirmationPrompt)
  {
    var kr := CommentReply(ctx.keywords, lowered, ctx.pick);
    var head := [Typing(commenterId), LogUser(commenterId), Send(commenterId, Text(kr.text))];
    var acts := head + ImageActions(commenterId, kr.images) + [Send(commenterId, ConfirmationPrompt)];
    assert CommentActions(commenterId, lowered, ctx) == acts;
    assert acts[2] == head[2];
  }

  /** The state of one page's bot: the booking sessions and the answered comment ids. */
  class Bot {
    const store: BookingStore
    const comments: CommentLog

    constructor ()
      ensures fresh(store) && fresh(comments)
      ensures store.sessions == map[] && comments.processed == {}
    {
      store := new BookingStore();
      comments := new CommentLog();
    }

    /** Lines 702-752. */
    method HandlePostback(psid: string, payload: string, ctx: PageContext) returns (d: Dispatch)
      modifies store
      ensures Outcome(d, store.sessions) == PostbackStep(old(store.sessions), psid, payload, ctx)
    {
      match DecodePostback(payload)
      case Confirm =>
        var q := store.ConfirmByButton(psid);
        d := if q.Some? then Dispatched(Reply(psid, q.value)) else Dispatched([]);
      case Cancel =>
        store.Remove(psid);
        d := Dispatched([Send(psid, Text(CancelledByButtonText))]);
      case Choose(answer) =>
        d := HandleAnswerPostback(psid, answer, ctx);
      case Unrecognised =>
        d := Dispatched([]);
    }

    /** Lines 723-749. */
    method HandleAnswerPostback(psid: string, answer: string, ctx: PageContext) returns (d: Dispatch)
      modifies store
      ensures Outcome(d, store.sessions) == AnswerPostbackStep(old(store.sessions), psid, answer, ctx)
    {
      if psid !in store.sessions {
        d := if answer == OtherDate then Aborted else Dispatched([]);
        return;
      }
      if answer == OtherDate {
        store.AwaitCustomDate(psid);
        d := Dispatched([Send(psid, Text(CustomDatePrompt))]);
        return;
      }
      store.StoreChosenAnswer(psid, answer);
      var r := store.ProcessBookingStep(psid, answer, ctx.parse, ctx.now);
      d := if r.Threw? then Aborted else Dispatched(Reply(psid, r.message));
    }

    /** Lines 755-883. */
    method HandleText(psid: string, text: string, ctx: PageContext) returns (d: Dispatch)
      modifies store
      ensures Outcome(d, store.sessions) == TextStep(old(store.sessions), psid, text, ctx)
    {
      if text == "" {
        return Dispatched([]);
      }
      var received := Normalise(text);
      if received == RefreshCommand {
        return Dispatched([RefreshKeywords, Send(psid, Text(RefreshedText))]);
      }
      if psid in store.sessions {
        if store.sessions[psid].waitingForCustomDate {
          d := HandleCustomDate(psid, text, ctx);
        } else {
          d := HandleBookingText(psid, text, ctx);
        }
      } else {
        d := HandleNewConversation(psid, received, ctx);
      }
    }

    /** Lines 770-794. */
    method HandleCustomDate(psid: string, text: string, ctx: PageContext) returns (d: Dispatch)
      requires psid in store.sessions
      modifies store
      ensures Outcome(d, store.sessions) == CustomDateStep(old(store.sessions), psid, text, ctx)
    {
      var validation := ValidateDateFormat(text, ctx.parse, ctx.now);
      if validation.None? {
        return Dispatched([Send(psid, Text(InvalidCustomDateText))]);
      }
      var reply := store.AnswerCustomDate(psid, validation.value);
      d := Dispatched(Reply(psid, reply));
    }

    /** Lines 797-820. */
    method HandleBookingText(psid: string, text: string, ctx: PageContext) returns (d: Dispatch)
      requires psid in store.sessions && !store.sessions[psid].waitingForCustomDate
      modifies store
      ensures Outcome(d, store.sessions) == BookingTextStep(old(store.sessions), psid, text, ctx)
    {
      var r := store.ProcessBookingStep(psid, text, ctx.parse, ctx.now);
      if r.Threw? {
        return Aborted;
      }
      var tail := Reply(psid, r.message);
      if psid in store.sessions && store.sessions[psid].completed {
        var session := store.sessions[psid];
        var _, row := BuildOrderRow(psid, session.data, ctx.timestamp);
        var sms := [];
        if session.mobileNumber.Some? && session.mobileNumber.value != "" && ctx.smsEnabled {
          var smsText := FormatBookingSms(session.data, session.config);
          sms := [SendSms(session.mobileNumber.value, smsText)];
        }
        store.Remove(psid);
        d := Dispatched([SaveOrder(psid, row)] + sms + tail);
      } else {
        d := Dispatched(tail);
      }
    }

    /** Lines 824-881, given the normalised text. */
    method HandleNewConversation(psid: string, received: string, ctx: PageContext) returns (d: Dispatch)
      requires psid !in store.sessions
      modifies store
      ensures d == Dispatched(NewConversationActions(psid, received, ctx))
      ensures store.sessions == NewConversationSessions(old(store.sessions), psid, received, ctx)
    {
      if TextBookingIntent(received) {
        if BookingAvailable(ctx.bookingConfig) {
          var prompt := store.StartBooking(psid, ctx.bookingConfig.value, ctx.nowMs);
          return Dispatched([LogUser(psid)] + Reply(psid, prompt));
        }
        return Dispatched([LogUser(psid), Send(psid, Text(BookingUnavailableText))]);
      }
      var kr := TextReply(ctx.keywords, received, ctx.clock, ctx.pick);
      var actions := [LogUser(psid)] + Reply(psid, Text(kr.text));
      actions := AppendImages(psid, kr.images, actions);
      d := Dispatched(actions);
    }

    /** Lines 888-990. */
    method HandleComment(commenterId: string, commentId: string, message: string, ctx: PageContext)
      returns (d: Dispatch)
      modifies store, comments
      ensures CommentOutcome(d, store.sessions, comments.processed) ==
        CommentStep(old(store.sessions), old(comments.processed), commenterId, commentId, message, ctx)
    {
      if commenterId == "" || message == "" {
        return Dispatched([]);
      }
      var isNew := comments.Check(commentId);
      if !isNew {
        return Dispatched([]);
      }
      d := AnswerComment(commenterId, Normalise(message), ctx);
    }

    /** Lines 918-990, given the normalised text of a new comment. */
    method AnswerComment(commenterId: string, lowered: string, ctx: PageContext) returns (d: Dispatch)
      modifies store
      ensures d == Dispatched(CommentActions(commenterId, lowered, ctx))
      ensures store.sessions == CommentSessions(old(store.sessions), commenterId, lowered, ctx)
    {
      var kr := CommentReply(ctx.keywords, lowered, ctx.pick);
      var actions := [Typing(commenterId), LogUser(commenterId), Send(commenterId, Text(kr.text))];
      actions := AppendImages(commenterId, kr.images, actions);
      if CommentBookingIntent(lowered) && BookingAvailable(ctx.bookingConfig) {
        var prompt := store.StartBooking(commenterId, ctx.bookingConfig.value, ctx.nowMs);
        actions := actions + [Send(commenterId, prompt)];
        assert actions == CommentActions(commenterId, lowered, ctx);
      } else {
        assert actions == CommentActions(commenterId, lowered, ctx);
      }
      d := Dispatched(actions);
    }
  }

  /** `imageUrls.forEach(url => callSendAPI(...))`: one image message per URL, after the
      actions already taken. */
  method AppendImages(user: string, urls: seq<string>, actions: seq<Action>) returns (r: seq<Action>)
    ensures r == actions + ImageActions(user, urls)
  {
    r := actions;
    var i := 0;
    while i < |urls|
      invariant 0 <= i <= |urls|
      invariant r == actions + ImageActions(user, urls[..i])
    {
      ImageActionsSnoc(user, urls[..i], urls[i]);
      assert urls[..i + 1] == urls[..i] + [urls[i]];
      r := r + [SendImage(user, urls[i])];
      i := i + 1;
    }
    assert urls[..i] == urls;
  }

  lemma {:induction false} ImageActionsSnoc(user: string, urls: seq<string>, url: string)
    ensures ImageActions(user, urls + [url]) == ImageActions(user, urls) + [SendImage(user, url)]
  {
    if urls != [] {
      assert (urls + [url])[1..] == urls[1..] + [url];
      ImageActionsSnoc(user, urls[1..], url);
    }
  }
}
