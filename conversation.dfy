/** The booking conversation as values: a session, the reply and next session each input
    produces, the completion summary and the stale-session filter. The class
    `Sessions.BookingStore` performs these transitions in place on its map and is
    proved equal to them. Source: server.js:305-498. */
module Conversation {
  import opened Wrappers
  import opened Strings
  import opened Validation
  import opened Prompts

  /** One user's booking, the value stored under their id in `bookingSessions`.
      `step` 0 awaits the confirmation; `step` N >= 1 awaits the answer to row N - 1. */
  datatype Session = Session(
    step: nat,
    config: seq<StepRow>,
    data: map<string, string>,
    startedAt: int,
    waitingForCustomDate: bool,
    completed: bool,
    mobileNumber: Option<string>)

  const RestartText := "Something went wrong. Please type 'order' to start again."
  const CancelledText := "Booking cancelled. No problem! Feel free to book anytime."
  const InvalidMobileText := "Invalid mobile number!\n\nPlease enter exactly 11 digits starting with 09.\nExample: 09123456789"
  const InvalidDateText := "Invalid date format!\n\nPlease enter the date using a standard format.\nExample: 12/25/2025 or December 25, 2025"
  const SummaryHeader := "\U{2705} BOOKING RECEIVED!\n\nSummary:\n"
  const SummaryFooter := "\nThank you! We'll confirm your booking shortly."
  const SmsNotice := "\n\n\U{1F4F1} A confirmation SMS will be sent to your number."

  /** `BOOKING_TIMEOUT`: thirty minutes in milliseconds. */
  const BookingTimeoutMs := 30 * 60 * 1000

  /** The session `startBooking` stores, `now` being the clock in milliseconds. */
  function NewSession(config: seq<StepRow>, now: int): (s: Session)
    ensures s.step == 0 && s.config == config && s.data == map[] && s.startedAt == now
    ensures !s.waitingForCustomDate && !s.completed && s.mobileNumber == None
  {
    Session(0, config, map[], now, false, false, None)
  }

  /* ---------- completion summary ---------- */

  /** `session.data[key] || 'N/A'`: a missing or empty answer reads "N/A". */
  function AnswerOrNA(data: map<string, string>, key: string): (r: string)
    ensures r != ""
  {
    if key in data && data[key] != "" then data[key] else "N/A"
  }

  /** `${question.replace('?', '').substring(0, 30)}: ${answer}\n`. */
  function SummaryLine(row: StepRow, data: map<string, string>): string
  {
    Take(RemoveFirst(row.question, '?'), 30) + ": " + AnswerOrNA(data, row.fieldKey) + "\n"
  }

  /** The lines `completeBooking` appends, one per row, in row order. */
  function SummaryLines(config: seq<StepRow>, data: map<string, string>): string
  {
    if config == [] then ""
    else SummaryLines(config[..|config| - 1], data) + SummaryLine(config[|config| - 1], data)
  }

  /** `mobileNumber` after the `forEach` of `completeBooking`: every phone-typed row
      overwrites it with its own answer, present or not, so it ends as the answer of the
      last phone-typed row (`None` for `undefined`, or when there is no such row). */
  function LastPhoneAnswer(config: seq<StepRow>, data: map<string, string>): Option<string>
  {
    if config == [] then None
    else
      var row := config[|config| - 1];
      if IsPhoneKind(row.kind) then (if row.fieldKey in data then Some(data[row.fieldKey]) else None)
      else LastPhoneAnswer(config[..|config| - 1], data)
  }

  /** `if (mobileNumber)`: the number to text, when it is a non-empty string. */
  function MobileFor(config: seq<StepRow>, data: map<string, string>): (r: Option<string>)
    ensures r.Some? ==> r.value != "" && LastPhoneAnswer(config, data) == r
  {
    match LastPhoneAnswer(config, data)
    case Some(x) => if x != "" then Some(x) else None
    case None => None
  }

  /** The whole text `completeBooking` replies with. */
  function SummaryText(config: seq<StepRow>, data: map<string, string>): string
  {
    SummaryHeader + SummaryLines(config, data) + SummaryFooter
      + (if MobileFor(config, data).Some? then SmsNotice else "")
  }

  /** The summary lists every row of the form, with its answer or "N/A". */
  lemma {:induction false} SummaryListsEveryRow(config: seq<StepRow>, data: map<string, string>, i: nat)
    requires i < |config|
    ensures Contains(SummaryLines(config, data), SummaryLine(config[i], data))
  {
    var init := config[..|config| - 1];
    if i == |config| - 1 {
      ContainsConcat(SummaryLines(init, data), SummaryLine(config[i], data), "");
      assert SummaryLines(init, data) + SummaryLine(config[i], data) + "" == SummaryLines(config, data);
    } else {
      SummaryListsEveryRow(init, data, i);
      assert init[i] == config[i];
      ContainsPrefix(SummaryLines(init, data), SummaryLine(config[|config| - 1], data), SummaryLine(config[i], data));
    }
  }

  /** The number kept is the answer of the last phone-typed row, when non-empty. */
  lemma {:induction false} MobileIsLastPhoneAnswer(config: seq<StepRow>, data: map<string, string>, i: nat)
    requires i < |config| && IsPhoneKind(config[i].kind)
    requires forall j :: i < j < |config| ==> !IsPhoneKind(config[j].kind)
    ensures MobileFor(config, data) ==
      if config[i].fieldKey in data && data[config[i].fieldKey] != "" then Some(data[config[i].fieldKey]) else None
  {
    if i < |config| - 1 {
      var init := config[..|config| - 1];
      assert init[i] == config[i];
      assert !IsPhoneKind(config[|config| - 1].kind);
      MobileIsLastPhoneAnswer(init, data, i);
    }
  }

  /** Without a phone-typed row there is no number to text. */
  lemma {:induction false} NoPhoneRowNoMobile(config: seq<StepRow>, data: map<string, string>)
    requires forall j :: 0 <= j < |config| ==> !IsPhoneKind(config[j].kind)
    ensures MobileFor(config, data) == None
  {
    if config != [] {
      NoPhoneRowNoMobile(config[..|config| - 1], data);
    }
  }

  /* ---------- transitions ---------- */

  /** A reply together with the session as it stands afterwards. */
  datatype Turn = Turn(reply: Message, session: Session)

  /** `completeBooking`: the summary, `completed` set, and `mobileNumber` set when there
      is a number to text (left as it was otherwise). */
  function Complete(s: Session): (t: Turn)
    ensures t.session == s.(completed := true, mobileNumber := t.session.mobileNumber)
    ensures t.session.completed
    ensures MobileFor(s.config, s.data).Some? ==> t.session.mobileNumber == MobileFor(s.config, s.data)
    ensures MobileFor(s.config, s.data).None? ==> t.session.mobileNumber == s.mobileNumber
    ensures t.reply == Text(SummaryText(s.config, s.data))
  {
    var mobile := MobileFor(s.config, s.data);
    Turn(Text(SummaryText(s.config, s.data)),
         s.(completed := true, mobileNumber := if mobile.Some? then mobile else s.mobileNumber))
  }

  /** `askQuestion(psid, k)`: the prompt of row k - 1, or completion when there is none. */
  function AskAt(s: Session, k: nat): (t: Turn)
    ensures 1 <= k <= |s.config| ==> t == Turn(Prompt(s.config[k - 1]), s)
    ensures !(1 <= k <= |s.config|) ==> t == Complete(s)
  {
    if 1 <= k <= |s.config| then Turn(Prompt(s.config[k - 1]), s) else Complete(s)
  }

  /** `userMessage.toLowerCase().trim()`. */
  function Normalise(userMessage: string): string
  {
    Trim(ToLower(userMessage))
  }

  predicate IsAffirmative(message: string)
  {
    Contains(message, "yes") || Contains(message, "oo") || Contains(message, "sige")
  }

  predicate IsNegative(message: string)
  {
    Contains(message, "no") || Contains(message, "cancel")
  }

  /** What an answer to `row` does to the answers: stored (normalised for phone and date
      rows, raw otherwise) or refused with the retry text. */
  datatype Capture = Stored(data: map<string, string>) | Refused(reply: Message)

  function CaptureAnswer(row: StepRow, data: map<string, string>, userMessage: string,
                         parse: string -> Option<Instant>, now: Instant): (r: Capture)
    ensures IsPhoneKind(row.kind) ==>
      (r.Refused? <==> !IsMobileForm(DigitsOnly(userMessage)))
      && (r.Refused? ==> r.reply == Text(InvalidMobileText))
      && (r.Stored? ==> r.data == data[row.fieldKey := DigitsOnly(userMessage)])
    ensures row.kind == "date" ==>
      (r.Refused? <==> ValidateDateFormat(userMessage, parse, now).None?)
      && (r.Refused? ==> r.reply == Text(InvalidDateText))
      && (r.Stored? ==> r.data == data[row.fieldKey := LongDate(parse(Trim(userMessage)).value.date)])
    ensures !IsPhoneKind(row.kind) && row.kind != "date" ==> r == Stored(data[row.fieldKey := userMessage])
  {
    if IsPhoneKind(row.kind) then
      match ValidateMobileNumber(userMessage)
      case None => Refused(Text(InvalidMobileText))
      case Some(f) => Stored(data[row.fieldKey := f])
    else if row.kind == "date" then
      match ValidateDateFormat(userMessage, parse, now)
      case None => Refused(Text(InvalidDateText))
      case Some(f) => Stored(data[row.fieldKey := f])
    else Stored(data[row.fieldKey := userMessage])
  }

  /** The outcome of `processBookingStep` on an existing session. `Crashed` is the
      `TypeError` the source raises when `step - 1` is past the last row. */
  datatype Transition = Continue(reply: Message, session: Session) | Cancelled(reply: Message) | Crashed

  /** `processBookingStep` for a user who has a session. */
  function Advance(s: Session, userMessage: string, parse: string -> Option<Instant>, now: Instant): Transition
  {
    if s.step == 0 then Confirmation(s, Normalise(userMessage))
    else AnswerStep(s, userMessage, parse, now)
  }

  /** The end of `processBookingStep` once the answer is stored: completion when the
      session's step is at or past the last row, otherwise the next step and its question. */
  function Proceed(s: Session): Turn
  {
    if s.step >= |s.config| then Complete(s) else AskAt(s.(step := s.step + 1), s.step + 1)
  }

  /** Step 0: "yes", "oo" or "sige" confirms; otherwise "no" or "cancel" deletes the
      session; anything else falls through to the common advance. */
  function Confirmation(s: Session, message: string): Transition
    requires s.step == 0
  {
    if IsAffirmative(message) then
      var t := AskAt(s.(step := 1), 1);
      Continue(t.reply, t.session)
    else if IsNegative(message) then
      Cancelled(Text(CancelledText))
    else
      var t := Proceed(s);
      Continue(t.reply, t.session)
  }

  /** Step N >= 1: the answer is checked against row N - 1; a step past the last row
      makes the source throw. */
  function AnswerStep(s: Session, userMessage: string, parse: string -> Option<Instant>, now: Instant): Transition
    requires s.step > 0
  {
    if s.step > |s.config| then Crashed
    else
      match CaptureAnswer(s.config[s.step - 1], s.data, userMessage, parse, now)
      case Refused(reply) => Continue(reply, s)
      case Stored(data) =>
        var t := Proceed(s.(data := data));
        Continue(t.reply, t.session)
  }

  /** At step 0 an affirmative reply moves to step 1 and asks the first question. */
  lemma ConfirmationAccepted(s: Session, userMessage: string, parse: string -> Option<Instant>, now: Instant)
    requires s.step == 0 && |s.config| > 0 && IsAffirmative(Normalise(userMessage))
    ensures Advance(s, userMessage, parse, now) == Continue(Prompt(s.config[0]), s.(step := 1))
  {
  }

  /** At step 0 a reply that is not affirmative but contains "no" or "cancel" ends the
      session; "yes" is checked first, so "yes, no" still confirms. */
  lemma ConfirmationRefused(s: Session, userMessage: string, parse: string -> Option<Instant>, now: Instant)
    requires s.step == 0 && !IsAffirmative(Normalise(userMessage)) && IsNegative(Normalise(userMessage))
    ensures Advance(s, userMessage, parse, now) == Cancelled(Text(CancelledText))
  {
  }

  /** At step 0 any other reply does not stall: it moves to step 1 exactly as "yes" does. */
  lemma UnrecognisedConfirmationAdvances(s: Session, userMessage: string, parse: string -> Option<Instant>, now: Instant)
    requires s.step == 0 && |s.config| > 0
    requires !IsAffirmative(Normalise(userMessage)) && !IsNegative(Normalise(userMessage))
    ensures Advance(s, userMessage, parse, now) == Continue(Prompt(s.config[0]), s.(step := 1))
  {
  }

  /** A refused answer changes nothing: same step, same answers; the reply is the retry
      text `CaptureAnswer` names for the row's kind. */
  lemma RefusedAnswerKeepsSession(s: Session, userMessage: string, parse: string -> Option<Instant>, now: Instant,
                                   retry: Message)
    requires 1 <= s.step <= |s.config|
    requires CaptureAnswer(s.config[s.step - 1], s.data, userMessage, parse, now) == Refused(retry)
    ensures Advance(s, userMessage, parse, now) == Continue(retry, s)
  {
    assert AnswerStep(s, userMessage, parse, now) == Continue(retry, s);
  }

  /** An accepted answer is stored under its row's key and leaves every other answer as
      it was. */
  lemma AnswerKeepsOtherAnswers(row: StepRow, data: map<string, string>, userMessage: string,
                                parse: string -> Option<Instant>, now: Instant)
    requires CaptureAnswer(row, data, userMessage, parse, now).Stored?
    ensures var d := CaptureAnswer(row, data, userMessage, parse, now).data;
      && d.Keys == data.Keys + {row.fieldKey}
      && forall k :: k in data && k != row.fieldKey ==> d[k] == data[k]
  {
  }

  /** An accepted answer at step N moves the session to step N + 1 and asks row N, or
      completes the booking when row N - 1 was the last. */
  lemma AcceptedAnswerAdvances(s: Session, userMessage: string, parse: string -> Option<Instant>, now: Instant)
    requires 1 <= s.step <= |s.config|
    requires CaptureAnswer(s.config[s.step - 1], s.data, userMessage, parse, now).Stored?
    ensures var data := CaptureAnswer(s.config[s.step - 1], s.data, userMessage, parse, now).data;
      && (s.step < |s.config| ==>
            Advance(s, userMessage, parse, now) == Continue(Prompt(s.config[s.step]), s.(data := data, step := s.step + 1)))
      && (s.step == |s.config| ==>
            Advance(s, userMessage, parse, now) == Continue(Complete(s.(data := data)).reply, Complete(s.(data := data)).session))
  {
    var data := CaptureAnswer(s.config[s.step - 1], s.data, userMessage, parse, now).data;
    StoredAnswerProceeds(s, userMessage, parse, now, data);
    var s1 := s.(data := data);
    if s.step < |s.config| {
      assert Proceed(s1) == AskAt(s1.(step := s.step + 1), s.step + 1);
    }
  }

  /** A stored answer continues with `Proceed` on the session holding it. */
  lemma StoredAnswerProceeds(s: Session, userMessage: string, parse: string -> Option<Instant>, now: Instant,
                             data: map<string, string>)
    requires 1 <= s.step <= |s.config|
    requires CaptureAnswer(s.config[s.step - 1], s.data, userMessage, parse, now) == Stored(data)
    ensures Advance(s, userMessage, parse, now) == Continue(Proceed(s.(data := data)).reply, Proceed(s.(data := data)).session)
  {
    assert AnswerStep(s, userMessage, parse, now) == Continue(Proceed(s.(data := data)).reply, Proceed(s.(data := data)).session);
  }

  /** Past the last row the source reads a row that is not there and throws. */
  lemma StepPastFormCrashes(s: Session, userMessage: string, parse: string -> Option<Instant>, now: Instant)
    requires s.step > |s.config| && s.step > 0
    ensures Advance(s, userMessage, parse, now) == Crashed
  {
  }

  /** A transition never moves the step back, never changes the form or the start time,
      and changes the answers only when the step moves or the booking completes. */
  lemma AdvanceIsMonotonic(s: Session, userMessage: string, parse: string -> Option<Instant>, now: Instant)
    requires Advance(s, userMessage, parse, now).Continue?
    ensures var s' := Advance(s, userMessage, parse, now).session;
      && s'.step >= s.step
      && s'.config == s.config && s'.startedAt == s.startedAt
      && s'.waitingForCustomDate == s.waitingForCustomDate
      && (s'.step == s.step && !s'.completed ==> s'.data == s.data)
  {
    var message := Normalise(userMessage);
    if s.step == 0 && IsAffirmative(message) {
    } else if s.step == 0 && IsNegative(message) {
    } else if s.step == 0 {
    } else {
      var c := CaptureAnswer(s.config[s.step - 1], s.data, userMessage, parse, now);
      if c.Refused? {
        RefusedAnswerKeepsSession(s, userMessage, parse, now, c.reply);
      } else {
        AcceptedAnswerAdvances(s, userMessage, parse, now);
      }
    }
  }

  /* ---------- button answers and the custom-date branch ---------- */

  /** A `BOOKING_ANSWER_` postback first writes the chosen value under the key of row
      `step - 1`, when that row exists (server.js:733-738). */
  function StoreChoice(s: Session, answer: string): (s': Session)
    ensures 1 <= s.step <= |s.config| ==> s' == s.(data := s.data[s.config[s.step - 1].fieldKey := answer])
    ensures !(1 <= s.step <= |s.config|) ==> s' == s
  {
    if 1 <= s.step <= |s.config| then s.(data := s.data[s.config[s.step - 1].fieldKey := answer]) else s
  }

  /** A date typed after "Other date" and accepted as `formatted` (server.js:777-785):
      stored under row `step - 1` when it exists, the flag cleared, the step incremented,
      and the question at the new step asked. */
  function AcceptCustomDate(s: Session, formatted: string): (t: Turn)
    ensures t.session.step == s.step + 1 && !t.session.waitingForCustomDate
    ensures 1 <= s.step < |s.config| ==>
      t == Turn(Prompt(s.config[s.step]),
                s.(data := s.data[s.config[s.step - 1].fieldKey := formatted],
                   waitingForCustomDate := false, step := s.step + 1))
    ensures s.step == 0 && s.config != [] ==>
      t == Turn(Prompt(s.config[0]), s.(waitingForCustomDate := false, step := 1))
    ensures 1 <= s.step == |s.config| ==>
      t == Complete(s.(data := s.data[s.config[s.step - 1].fieldKey := formatted],
                       waitingForCustomDate := false, step := s.step + 1))
    ensures s.step > |s.config| || s.config == [] ==>
      t == Complete(s.(waitingForCustomDate := false, step := s.step + 1))
  {
    var s1 := StoreChoice(s, formatted).(waitingForCustomDate := false, step := s.step + 1);
    AskAt(s1, s.step + 1)
  }

  /** On the last row the custom-date branch asks for a row that does not exist, so
      `askQuestion` completes the booking with the step one past the form; a later text
      message then makes `processBookingStep` throw. */
  lemma CustomDateOnLastRowOvershoots(s: Session, formatted: string, userMessage: string,
                                     parse: string -> Option<Instant>, now: Instant)
    requires 1 <= s.step == |s.config|
    ensures var s' := AcceptCustomDate(s, formatted).session;
      && s'.completed && s'.step == |s.config| + 1
      && s'.data[s.config[|s.config| - 1].fieldKey] == formatted
      && Advance(s', userMessage, parse, now) == Crashed
  {
  }

  /** A button answer to the last row, when that row is neither a phone nor a date row,
      completes the booking from inside the postback handler, which has no completion
      check: the session stays in the map, completed, at the same step. */
  lemma ChoiceOnLastRowCompletesInPlace(s: Session, answer: string, parse: string -> Option<Instant>, now: Instant)
    requires 1 <= s.step == |s.config|
    requires !IsPhoneKind(s.config[s.step - 1].kind) && s.config[s.step - 1].kind != "date"
    ensures var next := Advance(StoreChoice(s, answer), answer, parse, now);
      && next.Continue? && next.session.completed && next.session.step == s.step
      && next.session.data == s.data[s.config[s.step - 1].fieldKey := answer]
  {
    var key := s.config[s.step - 1].fieldKey;
    var s1 := StoreChoice(s, answer);
    assert s1 == s.(data := s.data[key := answer]);
    assert CaptureAnswer(s1.config[s1.step - 1], s1.data, answer, parse, now) == Stored(s1.data);
    AcceptedAnswerAdvances(s1, answer, parse, now);
    assert s1.(data := s1.data) == s1;
  }

  /** The next text message of that user is taken as a new answer to the last row: it
      replaces the chosen value and completes the booking again, and only this second
      completion reaches the text handler that saves the order. */
  lemma TextAfterCompletedChoiceReplacesIt(s: Session, answer: string, text: string,
                                           parse: string -> Option<Instant>, now: Instant)
    requires 1 <= s.step == |s.config|
    requires !IsPhoneKind(s.config[s.step - 1].kind) && s.config[s.step - 1].kind != "date"
    ensures var s1 := Advance(StoreChoice(s, answer), answer, parse, now).session;
      var next := Advance(s1, text, parse, now);
      && next.Continue? && next.session.completed
      && next.session.data == s.data[s.config[s.step - 1].fieldKey := text]
  {
    ChoiceOnLastRowCompletesInPlace(s, answer, parse, now);
    var key := s.config[s.step - 1].fieldKey;
    var s1 := Advance(StoreChoice(s, answer), answer, parse, now).session;
    assert CaptureAnswer(s1.config[s1.step - 1], s1.data, text, parse, now) == Stored(s1.data[key := text]);
    assert s1.data[key := text] == s.data[key := text];
  }

  /* ---------- stale sessions ---------- */

  /** `now - session.startedAt.getTime() > BOOKING_TIMEOUT`. */
  predicate IsStale(s: Session, now: int)
  {
    now - s.startedAt > BookingTimeoutMs
  }

  /** The map `cleanupStaleSessions` leaves: exactly the sessions that are not stale,
      each untouched. */
  function WithoutStale(sessions: map<string, Session>, now: int): (r: map<string, Session>)
    ensures forall id :: id in r <==> id in sessions && !IsStale(sessions[id], now)
    ensures forall id :: id in r ==> r[id] == sessions[id]
  {
    map id | id in sessions && !IsStale(sessions[id], now) :: sessions[id]
  }
}
