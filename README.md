# Booking bot core, modelled in Dafny

This project models the core of `server.js`, a Facebook Messenger bot for a shop. For
each event the page receives, the bot does one of three things:

- it answers direct messages and comments from a keyword sheet;
- it runs a short booking form in a chat (the `bookingSessions` state machine);
- when a booking completes, it saves the order row to a sheet and texts the shop by SMS.

The model covers:

- the booking session of each user and its transitions: `startBooking`,
  `processBookingStep`, `askQuestion`, `completeBooking` and `cleanupStaleSessions`;
- the two input validators, `validateMobileNumber` and `validateDateFormat`;
- `formatBookingSMS`, and the row that `saveOrder` appends;
- the payload decoding of the postbacks, and the custom-date branch;
- the `POST /webhook` handling of postbacks, text messages and comments, including the
  keyword match, the reply choice, the image URLs and the booking-intent words;
- the `processedComments` duplicate filter and its hourly sweep.

The modules follow the program's structure:

- `Strings`: the JavaScript string operations the code uses.
- `Validation`: the two validators.
- `Prompts`: the form rows, the messages `askQuestion` renders, and payload decoding.
- `Conversation`: a session as a value, and the reply and next session each input gives.
- `Sessions`: the mutable `bookingSessions` map as class `BookingStore`, whose methods are
  proved equal to the `Conversation` functions.
- `Notifications`: `formatBookingSMS`.
- `Orders`: the sorted order row.
- `Keywords`: the keyword routing.
- `Comments`: `processedComments`, as a value and as class `CommentLog`.
- `Webhook`: the handlers. Each event is a pure step from the state to the actions
  performed (in the order they happen) and the state left. Class `Bot` performs the event
  on the shared state and is proved to follow that step.

Several behaviours of the code are modelled as written:

- `completeBooking` keeps the answer of the *last* phone-typed row as the number to text.
  Each phone row overwrites it, even with a missing answer.
- A button answer to the last row completes the booking inside the postback handler. That
  handler has no completion check, so the order is not saved and the session stays. The
  user's next text is taken as a new answer to that row: it replaces the chosen value,
  completes the booking again, and only then is the order saved
  (`Conversation.ChoiceOnLastRowCompletesInPlace`,
  `Conversation.TextAfterCompletedChoiceReplacesIt`).
- A custom date typed for the last row completes the booking with the step one past the
  form. That order is not saved, and the user's next text makes `processBookingStep`
  throw (`Conversation.CustomDateOnLastRowOvershoots`).
- The "Other date" button throws when the user has no session
  (`Webhook.OtherDateNeedsSession`).
- A keyword cell ending in a comma has an empty keyword, so its row matches every text
  (`Keywords.TrailingCommaMatchesEverything`).

## Model

| member | source | states |
|---|---|---|
| Validation.ValidateMobileNumber | server.js:345-350 | accepted exactly when the digits of the input are 11 long and start with "09"; the accepted form is those digits |
| Validation.MobileNormalFormIsStable | server.js:345-350 | an accepted number is normalised to 11 digits starting with "09", and validating it again accepts it unchanged |
| Validation.DashedNumberAccepted | server.js:346-347 | separators are ignored: "0912-345-6789" is accepted as "09123456789" |
| Validation.ShortNumberRejected | server.js:346-349 | nine digits are refused |
| Validation.BookingWindowByDay | server.js:358-361 | a date is in range exactly when it is not before today, not after December 31 two years on, and not past midnight on that last day |
| Validation.BookingWindowEnds | server.js:358-361 | earlier days are refused; today's midnight and the first moment of the last day are accepted |
| Validation.LongDate | server.js:363-367 | the formatted date starts with the month's long name |
| Validation.ValidateDateFormat | server.js:352-370 | valid exactly when the trimmed text parses and lies in the window; the result is the long date of the parsed day |
| Prompts.OptionLabel | server.js:440 | the label of an option never contains a dash |
| Prompts.OptionValue | server.js:440 | an option without a dash is its own value |
| Prompts.Prompt | server.js:421-471 | a text prompt starts with the question; a button prompt carries the question; it is a template exactly for a buttons row with options |
| Prompts.ShortChoicePrompt | server.js:436-450 | up to three options give a button template with one postback per option, titled with its label and carrying `BOOKING_ANSWER_` plus its value |
| Prompts.LongChoicePrompt | server.js:451-467 | more options give a generic template with one entry per option, whose one button is titled "Choose <label>" |
| Prompts.DecodePostback | server.js:708-725 | a payload decodes to an answer exactly when it is neither confirmation token and starts with `BOOKING_ANSWER_` |
| Prompts.DecodeAnswerPayload | server.js:724-725 | an answer payload decodes to its value with underscores read as spaces; the two tokens decode to confirm and cancel |
| Prompts.ChoiceButtonsDecode | server.js:436-467 | the payload of the i-th button of any choice prompt decodes to the value of the i-th option |
| Conversation.NewSession | server.js:321-327 | a new session is at step 0 with the given form, no answers, the start time, and no flags |
| Conversation.SummaryListsEveryRow | server.js:478-487 | the summary holds a line for every row of the form, with its answer or "N/A" |
| Conversation.MobileIsLastPhoneAnswer | server.js:478-494 | the number to text is the answer of the last phone-typed row, when it is not empty |
| Conversation.NoPhoneRowNoMobile | server.js:478-494 | without a phone-typed row there is no number to text |
| Conversation.MobileFor | server.js:491-494 | a number is kept only when non-empty, and it is the last phone row's answer |
| Conversation.Complete | server.js:473-498 | completion marks the session completed, sets the number only when there is one, changes nothing else, and replies with the summary |
| Conversation.AskAt | server.js:421-427 | asking row k gives that row's prompt and leaves the session as it was; past the form it completes the booking |
| Conversation.CaptureAnswer | server.js:397-410 | a phone answer is refused exactly when invalid and stored as its digits; a date answer is refused exactly when invalid and stored as the long date; any other answer is stored as typed |
| Conversation.ConfirmationAccepted | server.js:380-383 | at step 0, "yes"/"oo"/"sige" moves to step 1 and asks the first question |
| Conversation.ConfirmationRefused | server.js:384-387 | at step 0, a reply without a yes-word that contains "no" or "cancel" ends the session with the cancel text |
| Conversation.UnrecognisedConfirmationAdvances | server.js:379-418 | at step 0 any other reply also moves to step 1 and asks the first question |
| Conversation.RefusedAnswerKeepsSession | server.js:392-410 | a refused answer leaves the session exactly as it was and replies with the retry text |
| Conversation.AnswerKeepsOtherAnswers | server.js:392-410 | an accepted answer adds its row's key and leaves every other answer unchanged |
| Conversation.AcceptedAnswerAdvances | server.js:392-418 | an accepted answer at step N asks row N at step N + 1, or completes the booking when row N - 1 was the last |
| Conversation.StepPastFormCrashes | server.js:392-395 | a step past the last row makes the handler throw |
| Conversation.AdvanceIsMonotonic | server.js:372-419 | a transition never moves the step back, never changes the form, start time or date flag, and changes answers only when the step moves or the booking completes |
| Conversation.StoreChoice | server.js:733-738 | a button answer is written under the key of row step - 1 when that row exists; otherwise nothing changes |
| Conversation.AcceptCustomDate | server.js:777-785 | mid-form, the date is stored under the key of row step-1, the flag is cleared, the step becomes step+1 and row step is asked; at step 0 nothing is stored and row 0 is asked; on the last row it is stored and the booking completes at step+1; past the form the booking completes with the answers unchanged |
| Conversation.CustomDateOnLastRowOvershoots | server.js:777-785 | on the last row the custom date completes the booking one step past the form, and the next text crashes |
| Conversation.ChoiceOnLastRowCompletesInPlace | server.js:733-740 | a button answer to a plain last row completes the session at the same step with the chosen value |
| Conversation.TextAfterCompletedChoiceReplacesIt | server.js:797-801 | the following text completes the booking again with the text in place of the chosen value |
| Conversation.WithoutStale | server.js:308-317 | cleanup keeps exactly the sessions started at most 30 minutes ago, each unchanged |
| Sessions.GatherSummaryLines | server.js:478-487 | the loop builds one summary line per row and ends with the last phone row's answer |
| Sessions.BuildSummary | server.js:473-496 | the summary text and the number to text are those of `Complete` |
| Sessions.BookingStep | server.js:372-419 | without a session the reply is the restart text and nothing changes; the handler throws exactly on a step past the form, and then nothing changes; other users' sessions are untouched |
| Sessions.BookingStore.constructor | server.js:305 | the session map starts empty |
| Sessions.BookingStore.StartBooking | server.js:321-343 | stores a new session for the user, replacing any other, and returns the confirmation prompt |
| Sessions.BookingStore.CompleteBooking | server.js:473-498 | the reply and the stored session are those of `Complete` |
| Sessions.BookingStore.AskQuestion | server.js:421-471 | the reply and the stored session are those of `AskAt` |
| Sessions.BookingStore.RecordAnswer | server.js:392-410 | a refused answer returns the retry text and changes nothing; an accepted one is stored and nothing else changes |
| Sessions.BookingStore.ProcessBookingStep | server.js:372-419 | the reply and the new map are those of `BookingStep` |
| Sessions.BookingStore.ProcessConfirmation | server.js:379-389 | step 0 follows the confirmation transition: asks, cancels or advances, and never throws |
| Sessions.BookingStore.ProcessAnswer | server.js:391-418 | a later step follows the answer transition: retry, advance or complete, or throws past the form |
| Sessions.BookingStore.FinishStep | server.js:413-418 | completes at or past the last row, otherwise moves to the next step and asks it |
| Sessions.BookingStore.BeginQuestions | server.js:381-382 | sets step 1 and asks the first question |
| Sessions.BookingStore.ConfirmByButton | server.js:708-720 | the YES button moves only a session at step 0 to step 1 and asks; otherwise it does nothing |
| Sessions.BookingStore.Remove | server.js:722 | deletes only that user's session |
| Sessions.BookingStore.AwaitCustomDate | server.js:727-731 | raises only the custom-date flag of that session |
| Sessions.BookingStore.StoreChosenAnswer | server.js:733-738 | the session becomes `StoreChoice` of it |
| Sessions.BookingStore.AnswerCustomDate | server.js:777-792 | the reply and the stored session are those of `AcceptCustomDate` |
| Sessions.BookingStore.CleanupStaleSessions | server.js:308-317 | the map becomes `WithoutStale` of the old map |
| Notifications.FormatBookingSms | server.js:267-299 | the text is the one built from the accumulators after every row |
| Notifications.SmsNameIsLastNameRow | server.js:276-281 | the name is the answer of the last answered row whose question mentions "name" |
| Notifications.SmsNameEmptyWithoutNameRow | server.js:268-281 | without such a row the greeting names nobody |
| Notifications.SmsDateIsLastDateRow | server.js:276-283 | the date is the answer of the last answered date row |
| Notifications.SmsGreeting | server.js:291-296 | the message opens "Booking Alert! New booking from <name>", adds " on <date>" when there is a date, and ends there without details |
| Notifications.SmsDetailsCount | server.js:276-288 | one detail line per answered row that is not a name, date or phone row |
| Orders.SortKeys | server.js:503 | the sorted keys list every key exactly once, in strictly increasing order |
| Orders.SortedEnumerationUnique | server.js:503 | two sorted listings of the same keys are equal, so the column order depends only on the keys |
| Orders.SortedKeysOf | server.js:503 | the sorted listing of a key set lists it, each key once |
| Orders.OrderRow | server.js:501-505 | the row is the user id, then the answer of each sorted key in order, then the timestamp |
| Orders.BuildOrderRow | server.js:500-505 | the loop builds exactly `OrderRow`, alongside the sorted keys |
| Keywords.AnyOccursMeansSome | server.js:846 | `some` holds exactly when one of the keywords occurs in the text |
| Keywords.EmptyKeywordOccurs | server.js:846 | an empty keyword occurs in every text |
| Keywords.Find | server.js:843-847 | the row found is accepted and no earlier row is; with none found, no row is accepted |
| Keywords.FirstMatchIsFirst | server.js:843-847 | the keyword row chosen is the first that matches the text |
| Keywords.TrailingCommaGivesEmptyKeyword | server.js:845 | a keyword cell ending in a comma has an empty last keyword |
| Keywords.TrailingCommaMatchesEverything | server.js:843-847 | such a row matches every text |
| Keywords.ImageUrls | server.js:853-857 | image URLs are non-empty and contain no bar character; a column C not starting with "http" gives none |
| Keywords.HttpCellHasImages | server.js:856-861 | a column C starting with "http" gives at least one image, so the special-action branch is not reached |
| Keywords.PickReply | server.js:865-866 | the drawn reply is one of the options |
| Keywords.EveryOptionCanBeDrawn | server.js:865-866 | every option is drawn by some value of the random draw |
| Keywords.TextReply | server.js:849-868 | no matching row gives the default reply and no image; a match sends the images of its column C |
| Keywords.CommentReply | server.js:929-945 | the same for comments, with the comment default reply |
| Keywords.MatchedReplyIsAnOption | server.js:849-866 | a matched row with replies and an empty or image column C answers with one of its trimmed bar-separated replies, and an image cell also sends at least one image |
| Keywords.CommentReplyIsAnOption | server.js:929-945 | a matched comment row with replies answers with one of its trimmed bar-separated replies |
| Keywords.TimeActionAnswersClock | server.js:861-863 | column C reading "time" in any case answers with the current time and no image |
| Keywords.ReserveIsCommentOnly | server.js:971-974 | "reserve" starts a booking from a comment but not from a direct message |
| Comments.Admit | server.js:906-911 | an id is new exactly when not seen; it is then recorded, and a seen id changes nothing |
| Comments.RedeliveryIsDropped | server.js:906-911 | a second delivery of the same id is not new and leaves the set as the first left it |
| Comments.AnsweredIds | server.js:906-911 | over a run of deliveries the answered ids are exactly those not seen before, each answered once |
| Comments.Sweep | server.js:656-661 | the sweep empties the set exactly when it holds more than 1000 ids |
| Comments.SweepBoundsSize | server.js:654-661 | after a sweep the set holds at most 1000 ids |
| Comments.CommentLog.Check | server.js:906-911 | the duplicate check is `Admit` on the stored set |
| Comments.CommentLog.PeriodicReset | server.js:656-661 | the set becomes `Sweep` of the old set |
| Webhook.ImageActions | server.js:872-878 | one image message per URL, in order, and nothing else |
| Webhook.SmsActions | server.js:804-807 | an SMS is sent exactly when the key is set and the session holds a non-empty number, with the text of `formatBookingSMS` |
| Webhook.AppendImages | server.js:872-878 | the loop appends exactly `ImageActions` |
| Webhook.CommentStep | server.js:893-993 | a comment leaves the sessions as they were or as `CommentSessions` makes them |
| Webhook.PostbackNeverSaves | server.js:702-752 | a postback never saves an order nor sends an SMS |
| Webhook.LastRowButtonLeavesCompletedSession | server.js:733-749 | a button answer to a plain last row leaves the session in the map, completed, and saves nothing |
| Webhook.OtherDateNeedsSession | server.js:727-731 | the "Other date" button without a session throws |
| Webhook.SaveExactlyOnCompletion | server.js:798-810 | a text saves the order exactly when it completes the booking; the row is built from the final answers and the session is then removed |
| Webhook.SmsOnCompletion | server.js:801-810 | on completion the SMS follows the order exactly when the key is set and the number is non-empty, and it carries the booking text |
| Webhook.NoSmsBeforeCompletion | server.js:798-820 | a text that does not complete the booking sends no SMS and saves nothing |
| Webhook.CustomDateNeverSaves | server.js:770-794 | a custom date never saves an order nor sends an SMS |
| Webhook.NewConversationNeverSaves | server.js:824-881 | a first message never saves an order nor sends an SMS |
| Webhook.RefreshKeepsSessions | server.js:760-764 | "refresh data" refreshes the keywords and replies, even during a booking, and changes no session |
| Webhook.PostbackTouchesOnlyItsUser | server.js:702-752 | a postback changes at most its sender's session |
| Webhook.BookingTextTouchesOnlyItsUser | server.js:767-821 | a booking text changes at most its sender's session |
| Webhook.TextTouchesOnlyItsUser | server.js:755-883 | a text message changes at most its sender's session |
| Webhook.CommentTouchesOnlyItsAuthor | server.js:893-993 | a comment changes at most its author's session |
| Webhook.CommentAnsweredOnce | server.js:906-911 | a comment delivered twice is answered once; the second delivery does nothing |
| Webhook.IncompleteCommentNotRecorded | server.js:900-911 | a comment without sender or text is not recorded, so a complete later delivery is still answered |
| Webhook.CommentStartsBooking | server.js:947-990 | a new booking comment with a form configured sends the DM third and the booking prompt last, and starts the author's session at step 0 |
| Webhook.BookingCommentActions | server.js:947-990 | the actions answering a booking comment: keyword reply third, booking prompt last |
| Webhook.Bot.HandlePostback | server.js:702-752 | the dispatch and the new sessions are those of `PostbackStep` |
| Webhook.Bot.HandleAnswerPostback | server.js:724-749 | the dispatch and the new sessions are those of `AnswerPostbackStep` |
| Webhook.Bot.HandleText | server.js:755-883 | the dispatch and the new sessions are those of `TextStep` |
| Webhook.Bot.HandleCustomDate | server.js:770-794 | the dispatch and the new sessions are those of `CustomDateStep` |
| Webhook.Bot.HandleBookingText | server.js:797-820 | the dispatch and the new sessions are those of `BookingTextStep` |
| Webhook.Bot.HandleNewConversation | server.js:824-881 | the actions and sessions are those of a first message |
| Webhook.Bot.HandleComment | server.js:893-993 | the dispatch, sessions and answered ids are those of `CommentStep` |
| Webhook.Bot.AnswerComment | server.js:918-990 | the actions and sessions answering a new comment |

## Left out

- Express routes other than `POST /webhook` (`/health`, `/subscribe-feed`, `/check-subscriptions`, the verification `GET /webhook`) and the server start: plumbing that holds no booking logic.
- Google Sheets reads (`getPageConfig`, `getKeywords`, `getBookingConfig`): their results are inputs (`PageContext.keywords`, `PageContext.bookingConfig`); the keyword cache and its forced refresh become the `RefreshKeywords` action.
- Sheets appends (`logPSID`, `saveOrder`'s append), `sendSMS`, `sendTyping` and `callSendAPI`: these network calls become the `LogUser`, `SaveOrder`, `SendSms`, `Typing`, `Send` and `SendImage` actions; their failures and retries are not modelled.
- Timers and concurrency: the `setTimeout` delays are not modelled. Each event is handled atomically and its actions are listed in the order they happen. The comment branch starts its booking session 5 seconds after the comment arrives; the model starts it at once.
- `setInterval` scheduling: `cleanupStaleSessions` and the comment sweep are methods called with the clock as a parameter.
- Clock, date parsing and locale: `new Date(string)` is the parameter `parse`, the current time is `now` / `nowMs`, `getCurrentTime`'s Manila rendering is `clock`, and `toISOString()` is `timestamp`.
- `Math.random`: the draw is the parameter `pick`.
- `toLowerCase`: only ASCII letters are folded. JavaScript strings are UTF-16 code units; the model uses Unicode scalar values.
- The entry loop over `body.entry` and `entry.messaging`, and the `object === 'page'` check: the model handles one event of a configured page.
- Missing spreadsheet cells and missing event fields (`payload`, `commenterId`, the comment text) are modelled as empty strings. The question cell is assumed present. A postback without a `payload` makes `payload.startsWith` throw (server.js:724); the model decodes the empty payload as unrecognised and does nothing, so that throw is not modelled.
- A keyword row whose special action is not "time" and that has no reply replies with `undefined`. The model sends column B as it is (empty).
- `Conversation.WithoutStale`: the `session.startedAt &&` guard is not modelled; every session has a start time.
- `Notifications.DetailLabel`: the source's emoji character class has no `u` flag, so it removes UTF-16 surrogate halves, which can also damage other emoji in a question. The model removes the listed emoji as whole characters.
