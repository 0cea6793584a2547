/** `formatBookingSMS` (server.js:267-299): the text sent to the shop owner when a
    booking with a mobile number completes. */
module Notifications {
  import opened Strings
  import opened Prompts

  /** The emoji the source strips from a question before taking its last word. */
  const QuestionEmoji: set<char> := {'\U{1F4C5}', '\U{1F4F1}', '\U{1F464}', '\U{1F368}', '\U{1F4CF}',
    '\U{1F4DD}', '\U{23F0}', '\U{1F487}', '\U{1F3AF}', '\U{2705}', '\U{274C}'}

  /** A row whose answer is used: present, not empty and not "N/A". */
  predicate Answered(row: StepRow, data: map<string, string>)
  {
    row.fieldKey in data && data[row.fieldKey] != "" && data[row.fieldKey] != "N/A"
  }

  /** An answered row whose question mentions "name". */
  predicate IsNameRow(row: StepRow, data: map<string, string>)
  {
    Answered(row, data) && Contains(ToLower(row.question), "name")
  }

  /** An answered row, not a name row, that is date-typed or mentions "date". */
  predicate IsDateRow(row: StepRow, data: map<string, string>)
  {
    Answered(row, data) && !Contains(ToLower(row.question), "name")
    && (row.kind == "date" || Contains(ToLower(row.question), "date"))
  }

  /** An answered row that is neither a name, a date nor a phone row. */
  predicate IsDetailRow(row: StepRow, data: map<string, string>)
  {
    Answered(row, data) && !IsNameRow(row, data) && !IsDateRow(row, data) && !IsPhoneKind(row.kind)
  }

  /** The label of a detail line: the question without '?' and the listed emoji, trimmed,
      then its last white-space separated word. Removing '?' and then the emoji, as the
      source does in two passes, removes the same characters as one pass over both. */
  function DetailLabel(question: string): string
  {
    LastWord(Trim(RemoveAll(question, {'?'} + QuestionEmoji)))
  }

  /** The three accumulators of the `forEach`. */
  datatype SmsDraft = SmsDraft(name: string, date: string, details: seq<string>)

  /** The accumulators after the `forEach` has seen every row of `config`, in order. */
  function SmsFields(config: seq<StepRow>, data: map<string, string>): SmsDraft
  {
    if config == [] then SmsDraft("", "", [])
    else
      var d := SmsFields(config[..|config| - 1], data);
      var row := config[|config| - 1];
      if IsNameRow(row, data) then d.(name := data[row.fieldKey])
      else if IsDateRow(row, data) then d.(date := data[row.fieldKey])
      else if IsDetailRow(row, data) then d.(details := d.details + [DetailLabel(row.question) + ": " + data[row.fieldKey]])
      else d
  }

  /** The message built from the accumulators. */
  function SmsText(d: SmsDraft): string
  {
    "Booking Alert! New booking from " + d.name
      + (if d.date != "" then " on " + d.date else "") + "."
      + (if |d.details| > 0 then "\n\n" + Join(d.details, "\n") else "")
  }

  lemma SmsFieldsStep(config: seq<StepRow>, data: map<string, string>, i: nat)
    requires i < |config|
    ensures var d := SmsFields(config[..i], data);
      var row := config[i];
      SmsFields(config[..i + 1], data) ==
        if IsNameRow(row, data) then d.(name := data[row.fieldKey])
        else if IsDateRow(row, data) then d.(date := data[row.fieldKey])
        else if IsDetailRow(row, data) then d.(details := d.details + [DetailLabel(row.question) + ": " + data[row.fieldKey]])
        else d
  {
    assert config[..i + 1][..i] == config[..i];
  }

  /** `formatBookingSMS`. */
  method FormatBookingSms(bookingData: map<string, string>, config: seq<StepRow>) returns (smsText: string)
    ensures smsText == SmsText(SmsFields(config, bookingData))
  {
    var name := "";
    var date := "";
    var details: seq<string> := [];
    var i := 0;
    while i < |config|
      invariant 0 <= i <= |config|
      invariant SmsDraft(name, date, details) == SmsFields(config[..i], bookingData)
    {
      var row := config[i];
      SmsFieldsStep(config, bookingData, i);
      i := i + 1;
      if !(row.fieldKey in bookingData) || bookingData[row.fieldKey] == "" || bookingData[row.fieldKey] == "N/A" {
        continue;
      }
      var answer := bookingData[row.fieldKey];
      var questionLower := ToLower(row.question);
      if Contains(questionLower, "name") {
        name := answer;
      } else if row.kind == "date" || Contains(questionLower, "date") {
        date := answer;
      } else if !IsPhoneKind(row.kind) {
        var title := DetailLabel(row.question);
        details := details + [title + ": " + answer];
      }
    }
    assert config[..i] == config;
    smsText := "Booking Alert! New booking from " + name;
    if date != "" {
      smsText := smsText + " on " + date;
    }
    smsText := smsText + ".";
    if |details| > 0 {
      smsText := smsText + "\n\n" + Join(details, "\n");
    }
  }

  /** The name in the message is the answer of the LAST answered row whose question
      mentions "name": each later match overwrites the earlier one. */
  lemma {:induction false} SmsNameIsLastNameRow(config: seq<StepRow>, data: map<string, string>, i: nat)
    requires i < |config| && IsNameRow(config[i], data)
    requires forall j :: i < j < |config| ==> !IsNameRow(config[j], data)
    ensures SmsFields(config, data).name == data[config[i].fieldKey]
  {
    var init := config[..|config| - 1];
    if i < |config| - 1 {
      assert init[i] == config[i];
      assert !IsNameRow(config[|config| - 1], data);
      SmsNameIsLastNameRow(init, data, i);
    }
  }

  /** Without an answered name row the greeting names nobody. */
  lemma {:induction false} SmsNameEmptyWithoutNameRow(config: seq<StepRow>, data: map<string, string>)
    requires forall j :: 0 <= j < |config| ==> !IsNameRow(config[j], data)
    ensures SmsFields(config, data).name == ""
  {
    if config != [] {
      SmsNameEmptyWithoutNameRow(config[..|config| - 1], data);
    }
  }

  /** The date in the message is the answer of the LAST answered date row. */
  lemma {:induction false} SmsDateIsLastDateRow(config: seq<StepRow>, data: map<string, string>, i: nat)
    requires i < |config| && IsDateRow(config[i], data)
    requires forall j :: i < j < |config| ==> !IsDateRow(config[j], data)
    ensures SmsFields(config, data).date == data[config[i].fieldKey]
  {
    var init := config[..|config| - 1];
    if i < |config| - 1 {
      assert init[i] == config[i];
      assert !IsDateRow(config[|config| - 1], data);
      SmsDateIsLastDateRow(init, data, i);
    }
  }

  /** The greeting names the date when there is one: "... from <name> on <date>." */
  lemma SmsGreeting(d: SmsDraft)
    ensures d.date != "" ==> StartsWith(SmsText(d), "Booking Alert! New booking from " + d.name + " on " + d.date + ".")
    ensures d.date == "" ==> StartsWith(SmsText(d), "Booking Alert! New booking from " + d.name + ".")
    ensures |d.details| == 0 ==>
      SmsText(d) == "Booking Alert! New booking from " + d.name + (if d.date != "" then " on " + d.date else "") + "."
  {
    var head := "Booking Alert! New booking from " + d.name + (if d.date != "" then " on " + d.date else "") + ".";
    var tail := if |d.details| > 0 then "\n\n" + Join(d.details, "\n") else "";
    assert SmsText(d) == head + tail;
    assert (head + tail)[..|head|] == head;
  }

  /** The indices of the detail rows of `config`. */
  function DetailRows(config: seq<StepRow>, data: map<string, string>): set<nat>
  {
    set j: nat | j < |config| && IsDetailRow(config[j], data)
  }

  lemma DetailRowsStep(config: seq<StepRow>, data: map<string, string>)
    requires config != []
    ensures |DetailRows(config, data)| ==
      |DetailRows(config[..|config| - 1], data)| + (if IsDetailRow(config[|config| - 1], data) then 1 else 0)
  {
    var n := |config| - 1;
    DetailRowsPrefix(config, data);
    if IsDetailRow(config[n], data) {
      assert DetailRows(config, data) == DetailRows(config[..n], data) + {n};
    } else {
      assert DetailRows(config, data) == DetailRows(config[..n], data);
    }
  }

  /** The detail rows of all but the last row are those of the whole form below `n`. */
  lemma DetailRowsPrefix(config: seq<StepRow>, data: map<string, string>)
    requires config != []
    ensures var n := |config| - 1;
      DetailRows(config[..n], data) == set j: nat | j < n && IsDetailRow(config[j], data)
  {
    var n := |config| - 1;
    forall j: nat | j < n ensures config[..n][j] == config[j] { }
  }

  /** One detail line per detail row: phone rows, unanswered rows and the name and date
      rows never produce one. */
  lemma {:induction false} SmsDetailsCount(config: seq<StepRow>, data: map<string, string>)
    ensures |SmsFields(config, data).details| == |DetailRows(config, data)|
  {
    if config != [] {
      SmsDetailsCount(config[..|config| - 1], data);
      DetailRowsStep(config, data);
    }
  }
}
