/** The booking form's rows and the messages the bot renders from them: the pure part of
    `askQuestion` (server.js:421-471), the confirmation template of `startBooking`
    (server.js:329-342) and the decoding of the postback payloads those messages carry
    (server.js:708-727). */
module Prompts {
  import opened Strings

  /** One row of the booking sheet, `[fieldKey, question, type, options]`. A cell the
      sheet leaves out is the empty string: every place that reads `type` or `options`
      takes the same branch for a missing cell as for an empty one. */
  datatype StepRow = StepRow(fieldKey: string, question: string, kind: string, options: string)

  /** The three type names that mean "a mobile number". */
  predicate IsPhoneKind(kind: string)
  {
    kind == "mobile" || kind == "phone" || kind == "contact"
  }

  datatype Button = Postback(title: string, payload: string)

  datatype Element = Element(title: string, buttons: seq<Button>)

  /** An outbound Messenger message: plain text, a button template or a generic template. */
  datatype Message =
    | Text(body: string)
    | ButtonTemplate(text: string, buttons: seq<Button>)
    | GenericTemplate(elements: seq<Element>)

  const YesPayload := "BOOKING_YES"
  const NoPayload := "BOOKING_NO"
  const AnswerPrefix := "BOOKING_ANSWER_"

  /** What `startBooking` asks first. */
  const ConfirmationPrompt: Message := ButtonTemplate(
    "Great! I'll help you with your booking.\n\nAre you ready to proceed?",
    [Postback("YES, Continue", YesPayload), Postback("NO, Cancel", NoPayload)])

  const PhoneHint := "\n\n(Enter 11 digits, e.g., 09123456789)"
  const DateHint := "\n\n(Format: MM/DD/YYYY or Month DD, YYYY)"

  /** `options.split(',').map(opt => opt.trim())`. */
  function OptionList(options: string): seq<string>
  {
    TrimmedPieces(options, ',')
  }

  /** `opt.includes('-') ? opt.split('-') : [opt, opt]`, first component. */
  function OptionLabel(opt: string): (r: string)
    ensures '-' !in r
  {
    SplitPiecesLackSeparator(opt, '-');
    Split(opt, '-')[0]
  }

  /** `opt.includes('-') ? opt.split('-') : [opt, opt]`, second component: the text after
      the first dash, up to the next one. */
  function OptionValue(opt: string): (r: string)
    ensures '-' !in opt ==> r == opt
  {
    if '-' in opt then SplitAtSeparator(opt, '-'); Split(opt, '-')[1] else opt
  }

  function AnswerPayload(value: string): string
  {
    AnswerPrefix + value
  }

  function OptionButton(opt: string): Button
  {
    Postback(OptionLabel(opt), AnswerPayload(OptionValue(opt)))
  }

  /** One entry of the scrolling list. Its button says "Choose <label>": the source takes
      `label.split('-')[0]`, and a label never holds a dash, so that is the label itself. */
  function OptionElement(opt: string): Element
  {
    var title := OptionLabel(opt);
    Element(title, [Postback("Choose " + Split(title, '-')[0], AnswerPayload(OptionValue(opt)))])
  }

  /** The message `askQuestion` renders for a row that exists. */
  function Prompt(row: StepRow): (r: Message)
    ensures r.Text? ==> StartsWith(r.body, row.question)
    ensures r.ButtonTemplate? ==> r.text == row.question
    ensures !r.Text? <==> row.kind == "buttons" && row.options != ""
  {
    if row.kind == "text" then Text(row.question)
    else if IsPhoneKind(row.kind) then
      assert (row.question + PhoneHint)[..|row.question|] == row.question;
      Text(row.question + PhoneHint)
    else if row.kind == "date" then
      assert (row.question + DateHint)[..|row.question|] == row.question;
      Text(row.question + DateHint)
    else if row.kind == "buttons" && row.options != "" then
      var opts := OptionList(row.options);
      if |opts| <= 3 then ButtonTemplate(row.question, seq(|opts|, i requires 0 <= i < |opts| => OptionButton(opts[i])))
      else GenericTemplate(seq(|opts|, i requires 0 <= i < |opts| => OptionElement(opts[i])))
    else
      assert row.question[..|row.question|] == row.question;
      Text(row.question)
  }

  /** A choice row with at most three options becomes one button per option, titled with
      the option's label and carrying its value. */
  lemma ShortChoicePrompt(row: StepRow)
    requires row.kind == "buttons" && row.options != "" && |OptionList(row.options)| <= 3
    ensures var opts := OptionList(row.options);
      var r := Prompt(row);
      && r.ButtonTemplate? && |r.buttons| == |opts|
      && forall i :: 0 <= i < |opts| ==>
           r.buttons[i] == Postback(OptionLabel(opts[i]), AnswerPrefix + OptionValue(opts[i]))
  {
    var opts := OptionList(row.options);
    assert Prompt(row) == ButtonTemplate(row.question, seq(|opts|, i requires 0 <= i < |opts| => OptionButton(opts[i])));
  }

  /** A choice row with more than three options becomes a list with one single-button
      entry per option, its button titled "Choose <label>". */
  lemma LongChoicePrompt(row: StepRow)
    requires row.kind == "buttons" && row.options != "" && |OptionList(row.options)| > 3
    ensures var opts := OptionList(row.options);
      var r := Prompt(row);
      && r.GenericTemplate? && |r.elements| == |opts|
      && forall i :: 0 <= i < |opts| ==>
           r.elements[i] == Element(OptionLabel(opts[i]),
             [Postback("Choose " + OptionLabel(opts[i]), AnswerPrefix + OptionValue(opts[i]))])
  {
    var opts := OptionList(row.options);
    assert Prompt(row) == GenericTemplate(seq(|opts|, i requires 0 <= i < |opts| => OptionElement(opts[i])));
    forall i | 0 <= i < |opts|
      ensures OptionElement(opts[i]) == Element(OptionLabel(opts[i]),
                [Postback("Choose " + OptionLabel(opts[i]), AnswerPrefix + OptionValue(opts[i]))])
    {
      assert Split(OptionLabel(opts[i]), '-') == [OptionLabel(opts[i])];
    }
  }

  /** The inbound actions a postback payload stands for. */
  datatype PostbackAction = Confirm | Cancel | Choose(answer: string) | Unrecognised

  /** The payload tests of the webhook: the two exact tokens, then the answer prefix.
      `payload.replace('BOOKING_ANSWER_', '')` removes the first occurrence of the prefix,
      which for a payload that starts with it is the prefix itself; underscores then
      become spaces. */
  function DecodePostback(payload: string): (r: PostbackAction)
    ensures r.Choose? <==> payload != YesPayload && payload != NoPayload && StartsWith(payload, AnswerPrefix)
  {
    if payload == YesPayload then Confirm
    else if payload == NoPayload then Cancel
    else if StartsWith(payload, AnswerPrefix) then
      Choose(ReplaceChar(payload[|AnswerPrefix|..], '_', ' '))
    else Unrecognised
  }

  /** The payload of every option button decodes back to the option's value, with
      underscores read as spaces; the confirmation buttons decode to confirm and cancel. */
  lemma DecodeAnswerPayload(value: string)
    ensures DecodePostback(AnswerPayload(value)) == Choose(ReplaceChar(value, '_', ' '))
    ensures '_' !in value ==> DecodePostback(AnswerPayload(value)) == Choose(value)
    ensures DecodePostback(YesPayload) == Confirm && DecodePostback(NoPayload) == Cancel
  {
    var p := AnswerPayload(value);
    assert p[..|AnswerPrefix|] == AnswerPrefix;
    assert p[|AnswerPrefix|..] == value;
    assert p != YesPayload by { assert p[8] == 'A' && YesPayload[8] == 'Y'; }
    assert p != NoPayload by { assert |p| >= 15 && |NoPayload| == 10; }
    if '_' !in value {
      assert ReplaceChar(value, '_', ' ') == value;
    }
  }

  /** The payload of the `i`th choice a message offers: the `i`th button of a button
      template, or the button of the `i`th list entry; empty when there is none. */
  function OfferedPayload(m: Message, i: nat): string
  {
    match m
    case ButtonTemplate(_, bs) => if i < |bs| then bs[i].payload else ""
    case GenericTemplate(es) => if i < |es| && es[i].buttons != [] then es[i].buttons[0].payload else ""
    case Text(_) => ""
  }

  /** Each button a choice prompt offers carries a payload that decodes to the value of
      its option. */
  lemma ChoiceButtonsDecode(row: StepRow, i: nat)
    requires row.kind == "buttons" && row.options != ""
    requires i < |OptionList(row.options)|
    ensures DecodePostback(OfferedPayload(Prompt(row), i))
              == Choose(ReplaceChar(OptionValue(OptionList(row.options)[i]), '_', ' '))
  {
    var value := OptionValue(OptionList(row.options)[i]);
    if |OptionList(row.options)| <= 3 {
      ShortChoicePrompt(row);
    } else {
      LongChoicePrompt(row);
    }
    assert OfferedPayload(Prompt(row), i) == AnswerPayload(value);
    DecodeAnswerPayload(value);
  }
}
