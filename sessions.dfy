/** The global `bookingSessions` map and the functions of server.js that change it in
    place: `startBooking`, `processBookingStep`, `askQuestion`, `completeBooking`,
    `cleanupStaleSessions`, and the session updates of the postback and custom-date
    branches of the webhook. */
module Sessions {
  import opened Wrappers
  import opened Strings
  import opened Validation
  import opened Prompts
  import opened Conversation

  /** The value `processBookingStep` returns, or `Threw` for the `TypeError` it raises
      when the session's step is past the last row. */
  datatype StepReply = Said(message: Message) | Threw

  /** One more row of the `forEach` of `completeBooking`. */
  lemma SummaryStep(config: seq<StepRow>, data: map<string, string>, i: nat)
    requires i < |config|
    ensures SummaryLines(config[..i + 1], data) == SummaryLines(config[..i], data) + SummaryLine(config[i], data)
    ensures LastPhoneAnswer(config[..i + 1], data) ==
      if IsPhoneKind(config[i].kind) then (if config[i].fieldKey in data then Some(data[config[i].fieldKey]) else None)
      else LastPhoneAnswer(config[..i], data)
  {
    assert config[..i + 1][..i] == config[..i];
  }

  /** The `forEach` of `completeBooking`: one line per row, and the answer of the last
      phone-typed row. */
  method GatherSummaryLines(config: seq<StepRow>, data: map<string, string>)
    returns (lines: string, mobileNumber: Option<string>)
    ensures lines == SummaryLines(config, data)
    ensures mobileNumber == LastPhoneAnswer(config, data)
  {
    lines := "";
    mobileNumber := None;
    var i := 0;
    while i < |config|
      invariant 0 <= i <= |config|
      invariant lines == SummaryLines(config[..i], data)
      invariant mobileNumber == LastPhoneAnswer(config[..i], data)
    {
      var row := config[i];
      var answer := if row.fieldKey in data && data[row.fieldKey] != "" then data[row.fieldKey] else "N/A";
      var title := Take(RemoveFirst(row.question, '?'), 30);
      lines := lines + (title + ": " + answer + "\n");
      if IsPhoneKind(row.kind) {
        mobileNumber := if row.fieldKey in data then Some(data[row.fieldKey]) else None;
      }
      SummaryStep(config, data, i);
      i := i + 1;
    }
    assert config[..i] == config;
  }

  /** The reply of `completeBooking` and the number to text. The lines are gathered first
      and the header put in front of them, which yields the same text as appending them
      to the header one by one. */
  method BuildSummary(config: seq<StepRow>, data: map<string, string>) returns (summary: string, mobile: Option<string>)
    ensures summary == SummaryText(config, data)
    ensures mobile == MobileFor(config, data)
  {
    var lines, mobileNumber := GatherSummaryLines(config, data);
    mobile := if mobileNumber.Some? && mobileNumber.value != "" then mobileNumber else None;
    summary := SummaryHeader + lines + SummaryFooter + (if mobile.Some? then SmsNotice else "");
  }

  /** `processBookingStep` on the whole map: the restart text without a session, and
      otherwise the session's transition written back (kept, replaced or deleted). */
  function BookingStep(sessions: map<string, Session>, psid: string, userMessage: string,
                       parse: string -> Option<Instant>, now: Instant): (r: (StepReply, map<string, Session>))
    ensures psid !in sessions ==> r == (Said(Text(RestartText)), sessions)
    ensures r.0.Threw? <==> psid in sessions && Advance(sessions[psid], userMessage, parse, now).Crashed?
    ensures r.0.Threw? ==> r.1 == sessions
    ensures forall id :: id != psid ==> (id in r.1 <==> id in sessions)
    ensures forall id :: id != psid && id in r.1 ==> r.1[id] == sessions[id]
  {
    if psid !in sessions then (Said(Text(RestartText)), sessions)
    else
      match Advance(sessions[psid], userMessage, parse, now)
      case Continue(reply, s) => (Said(reply), sessions[psid := s])
      case Cancelled(reply) => (Said(reply), sessions - {psid})
      case Crashed => (Threw, sessions)
  }

  class BookingStore {
    var sessions: map<string, Session>

    constructor ()
      ensures sessions == map[]
    {
      sessions := map[];
    }

    /** `startBooking`: a fresh session at step 0, replacing any earlier one. */
    method StartBooking(psid: string, config: seq<StepRow>, now: int) returns (reply: Message)
      modifies this
      ensures sessions == old(sessions)[psid := NewSession(config, now)]
      ensures sessions[psid].step == 0 && sessions[psid].data == map[]
      ensures reply == ConfirmationPrompt
    {
      sessions := sessions[psid := Session(0, config, map[], now, false, false, None)];
      reply := ConfirmationPrompt;
    }

    /** `completeBooking`. */
    method CompleteBooking(psid: string) returns (reply: Message)
      requires psid in sessions
      modifies this
      ensures reply == Complete(old(sessions[psid])).reply
      ensures sessions == old(sessions)[psid := Complete(old(sessions[psid])).session]
    {
      var session := sessions[psid];
      var summary, mobile := BuildSummary(session.config, session.data);
      if mobile.Some? {
        session := session.(mobileNumber := mobile);
      }
      session := session.(completed := true);
      sessions := sessions[psid := session];
      reply := Text(summary);
    }

    /** `askQuestion`: the prompt of row `k - 1`, or completion when there is none. */
    method AskQuestion(psid: string, k: nat) returns (reply: Message)
      requires psid in sessions
      modifies this
      ensures reply == AskAt(old(sessions[psid]), k).reply
      ensures sessions == old(sessions)[psid := AskAt(old(sessions[psid]), k).session]
    {
      var session := sessions[psid];
      if 1 <= k <= |session.config| {
        reply := Prompt(session.config[k - 1]);
        assert sessions == sessions[psid := session];
      } else {
        reply := CompleteBooking(psid);
      }
    }

    /** Lines 392-410 of `processBookingStep`: the answer is checked against the type of
        row `step - 1` and, when accepted, stored under that row's key. */
    method RecordAnswer(psid: string, userMessage: string, parse: string -> Option<Instant>, now: Instant)
      returns (refusal: Option<Message>)
      requires psid in sessions && 1 <= sessions[psid].step <= |sessions[psid].config|
      modifies this
      ensures var s := old(sessions[psid]);
        var c := CaptureAnswer(s.config[s.step - 1], s.data, userMessage, parse, now);
        && (c.Refused? ==> refusal == Some(c.reply) && sessions == old(sessions))
        && (c.Stored? ==> refusal == None && sessions == old(sessions)[psid := s.(data := c.data)])
    {
      var session := sessions[psid];
      var prev := session.config[session.step - 1];
      match CaptureAnswer(prev, session.data, userMessage, parse, now)
      case Refused(reply) =>
        refusal := Some(reply);
      case Stored(data) =>
        sessions := sessions[psid := session.(data := data)];
        refusal := None;
    }

    /** `processBookingStep`. The two halves of its body, for step 0 and for a later
        step, are the methods below. */
    method ProcessBookingStep(psid: string, userMessage: string, parse: string -> Option<Instant>, now: Instant)
      returns (r: StepReply)
      modifies this
      ensures (r, sessions) == BookingStep(old(sessions), psid, userMessage, parse, now)
    {
      if psid !in sessions {
        return Said(Text(RestartText));
      }
      if sessions[psid].step == 0 {
        r := ProcessConfirmation(psid, userMessage, parse, now);
      } else {
        r := ProcessAnswer(psid, userMessage, parse, now);
      }
    }

    /** `processBookingStep` at step 0: "yes", "oo" or "sige" confirms; otherwise "no" or
        "cancel" deletes the session; any other reply falls through to the advance at
        the end of the function. */
    method ProcessConfirmation(psid: string, userMessage: string, parse: string -> Option<Instant>, now: Instant)
      returns (r: StepReply)
      requires psid in sessions && sessions[psid].step == 0
      modifies this
      ensures var next := Confirmation(old(sessions[psid]), Normalise(userMessage));
        && (next.Continue? ==> r == Said(next.reply) && sessions == old(sessions)[psid := next.session])
        && (next.Cancelled? ==> r == Said(next.reply) && sessions == old(sessions) - {psid})
        && !next.Crashed?
    {
      var session := sessions[psid];
      var message := Trim(ToLower(userMessage));
      if IsAffirmative(message) {
        var q := BeginQuestions(psid);
        return Said(q);
      } else if IsNegative(message) {
        sessions := sessions - {psid};
        return Said(Text(CancelledText));
      }
      var reply := FinishStep(psid);
      r := Said(reply);
    }

    /** `processBookingStep` at a step N >= 1: the answer to row N - 1 is checked and
        stored, then the booking completes or moves to step N + 1. */
    method ProcessAnswer(psid: string, userMessage: string, parse: string -> Option<Instant>, now: Instant)
      returns (r: StepReply)
      requires psid in sessions && sessions[psid].step > 0
      modifies this
      ensures var next := AnswerStep(old(sessions[psid]), userMessage, parse, now);
        && (next.Continue? ==> r == Said(next.reply) && sessions == old(sessions)[psid := next.session])
        && (next.Crashed? ==> r == Threw && sessions == old(sessions))
        && !next.Cancelled?
    {
      var session := sessions[psid];
      if session.step > |session.config| {
        return Threw;
      }
      ghost var captured := CaptureAnswer(session.config[session.step - 1], session.data, userMessage, parse, now);
      var refusal := RecordAnswer(psid, userMessage, parse, now);
      if refusal.Some? {
        return Said(refusal.value);
      }
      assert sessions[psid] == session.(data := captured.data);
      var reply := FinishStep(psid);
      r := Said(reply);
    }

    /** The end of `processBookingStep` (lines 413-418): complete when the step is at or
        past the last row, otherwise move to the next step and ask its question. */
    method FinishStep(psid: string) returns (reply: Message)
      requires psid in sessions
      modifies this
      ensures var t := Proceed(old(sessions[psid]));
        reply == t.reply && sessions == old(sessions)[psid := t.session]
    {
      ghost var before := sessions;
      var session := sessions[psid];
      var current := session.step;
      if current >= |session.config| {
        reply := CompleteBooking(psid);
        assert Proceed(session) == Complete(session);
      } else {
        var next := session.(step := current + 1);
        sessions := sessions[psid := next];
        reply := AskQuestion(psid, current + 1);
        assert Proceed(session) == AskAt(next, current + 1);
        assert sessions == before[psid := AskAt(next, current + 1).session];
      }
    }

    /** `session.step = 1` followed by `askQuestion(psid, 1)`, as both a typed
        confirmation and the `BOOKING_YES` button do. */
    method BeginQuestions(psid: string) returns (reply: Message)
      requires psid in sessions
      modifies this
      ensures var t := AskAt(old(sessions[psid]).(step := 1), 1);
        reply == t.reply && sessions == old(sessions)[psid := t.session]
    {
      sessions := sessions[psid := sessions[psid].(step := 1)];
      reply := AskQuestion(psid, 1);
    }

    /** The `BOOKING_YES` postback: only a session at step 0 moves to step 1 and is asked
      its first question; otherwise nothing happens. */
    method ConfirmByButton(psid: string) returns (reply: Option<Message>)
      modifies this
      ensures psid in old(sessions) && old(sessions[psid]).step == 0 ==>
        var t := AskAt(old(sessions[psid]).(step := 1), 1);
        reply == Some(t.reply) && sessions == old(sessions)[psid := t.session]
      ensures !(psid in old(sessions) && old(sessions[psid]).step == 0) ==>
        reply == None && sessions == old(sessions)
    {
      if psid in sessions && sessions[psid].step == 0 {
        var q := BeginQuestions(psid);
        reply := Some(q);
      } else {
        reply := None;
      }
    }

    /** `delete bookingSessions[psid]`: cancellation, and the end of a saved booking. */
    method Remove(psid: string)
      modifies this
      ensures sessions == old(sessions) - {psid}
    {
      sessions := sessions - {psid};
    }

    /** The "Other date" button: raises the custom-date flag. */
    method AwaitCustomDate(psid: string)
      requires psid in sessions
      modifies this
      ensures sessions == old(sessions)[psid := old(sessions[psid]).(waitingForCustomDate := true)]
    {
      sessions := sessions[psid := sessions[psid].(waitingForCustomDate := true)];
    }

    /** A `BOOKING_ANSWER_` postback writing its value under the current row's key. */
    method StoreChosenAnswer(psid: string, answer: string)
      requires psid in sessions
      modifies this
      ensures sessions == old(sessions)[psid := StoreChoice(old(sessions[psid]), answer)]
    {
      var session := sessions[psid];
      var step := session.step;
      if 1 <= step <= |session.config| {
        session := session.(data := session.data[session.config[step - 1].fieldKey := answer]);
      }
      sessions := sessions[psid := session];
    }

    /** An accepted custom date: stored, flag cleared, step incremented, next question. */
    method AnswerCustomDate(psid: string, formatted: string) returns (reply: Message)
      requires psid in sessions
      modifies this
      ensures reply == AcceptCustomDate(old(sessions[psid]), formatted).reply
      ensures sessions == old(sessions)[psid := AcceptCustomDate(old(sessions[psid]), formatted).session]
    {
      StoreChosenAnswer(psid, formatted);
      var session := sessions[psid];
      sessions := sessions[psid := session.(waitingForCustomDate := false, step := session.step + 1)];
      reply := AskQuestion(psid, sessions[psid].step);
    }

    /** `cleanupStaleSessions`: visits every id and deletes the stale sessions. */
    method CleanupStaleSessions(now: int)
      modifies this
      ensures sessions == WithoutStale(old(sessions), now)
    {
      var ids := sessions.Keys;
      while ids != {}
        invariant ids <= sessions.Keys <= old(sessions).Keys
        invariant forall id :: id in sessions ==> sessions[id] == old(sessions)[id]
        invariant forall id :: id in old(sessions) && id !in ids ==>
          (id in sessions <==> !IsStale(old(sessions)[id], now))
        decreases ids
      {
        var id :| id in ids;
        if IsStale(sessions[id], now) {
          sessions := sessions - {id};
        }
        ids := ids - {id};
      }
    }
  }
}
