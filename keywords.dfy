/** Keyword routing of incoming messages and comments (server.js:828, 843-868,
    923-945, 971-974): the first sheet row one of whose keywords occurs in the text, the
    reply chosen from that row, its image URLs, and the booking-intent words. */
module Keywords {
  import opened Wrappers
  import opened Strings

  /** A row of the KeywordsDM sheet: column A holds comma-separated keywords, column B
      the replies separated by '|', column C image URLs separated by '|' or the name of
      a special action. A missing cell reads "". */
  datatype KeywordRow = KeywordRow(keywords: string, reply: string, extra: string)

  const DefaultTextReply := "Sorry, I didn't understand that. Can you rephrase?"
  const DefaultCommentReply := "Hi! Thanks for commenting on our post. How can I help you? \U{1F60A}"
  const TimePrefix := "Current time: "

  /** `row[0].toLowerCase().split(',').map(k => k.trim())`. */
  function KeywordList(keywords: string): seq<string>
  {
    TrimmedPieces(ToLower(keywords), ',')
  }

  /** `keywordList.some(keyword => text.includes(keyword))`. */
  predicate AnyOccurs(keywords: seq<string>, text: string)
  {
    keywords != [] && (Contains(text, keywords[0]) || AnyOccurs(keywords[1..], text))
  }

  /** `some` holds exactly when one of the keywords occurs in the text. */
  lemma {:induction false} AnyOccursMeansSome(keywords: seq<string>, text: string)
    ensures AnyOccurs(keywords, text) <==> exists i :: 0 <= i < |keywords| && Contains(text, keywords[i])
  {
    if keywords != [] {
      AnyOccursMeansSome(keywords[1..], text);
      if !Contains(text, keywords[0]) && exists i :: 0 <= i < |keywords| && Contains(text, keywords[i]) {
        var i :| 0 <= i < |keywords| && Contains(text, keywords[i]);
        assert keywords[1..][i - 1] == keywords[i];
      }
    }
  }

  /** One keyword occurring is enough for `some`. */
  lemma {:induction false} OccurrenceMakesSome(keywords: seq<string>, text: string, i: nat)
    requires i < |keywords| && Contains(text, keywords[i])
    ensures AnyOccurs(keywords, text)
  {
    if i > 0 {
      OccurrenceMakesSome(keywords[1..], text, i - 1);
    }
  }

  /** Every text includes the empty string, so an empty keyword always occurs. */
  lemma EmptyKeywordOccurs(keywords: seq<string>, text: string)
    requires "" in keywords
    ensures AnyOccurs(keywords, text)
  {
    var i :| 0 <= i < |keywords| && keywords[i] == "";
    assert OccursAt(text, keywords[i], 0);
    OccurrenceMakesSome(keywords, text, i);
  }

  /** The `find` callback: a row with keywords, one of which occurs in `text`. */
  predicate RowMatches(row: KeywordRow, text: string)
  {
    row.keywords != "" && AnyOccurs(KeywordList(row.keywords), text)
  }

  /** `Array.prototype.find`, as the index of the row found: the first row the callback
      accepts. */
  function Find(rows: seq<KeywordRow>, accepts: KeywordRow -> bool): (r: Option<nat>)
    ensures r.Some? ==> r.value < |rows| && accepts(rows[r.value])
    ensures r.Some? ==> forall j :: 0 <= j < r.value ==> !accepts(rows[j])
    ensures r.None? ==> forall j :: 0 <= j < |rows| ==> !accepts(rows[j])
  {
    if rows == [] then None
    else if accepts(rows[0]) then Some(0)
    else
      match Find(rows[1..], accepts)
      case None => None
      case Some(i) => Some(i + 1)
  }

  /** The keyword row a normalised text selects: the first one that matches it. */
  function FirstMatch(rows: seq<KeywordRow>, text: string): Option<nat>
  {
    Find(rows, row => RowMatches(row, text))
  }

  /** The row found matches, and no earlier row does; with no row found, none
      matches. */
  lemma FirstMatchIsFirst(rows: seq<KeywordRow>, text: string)
    ensures var r := FirstMatch(rows, text);
      && (r.Some? ==> r.value < |rows| && RowMatches(rows[r.value], text))
      && (r.Some? ==> forall j :: 0 <= j < r.value ==> !RowMatches(rows[j], text))
      && (r.None? ==> forall j :: 0 <= j < |rows| ==> !RowMatches(rows[j], text))
  {
  }

  /** `Split` ends with an empty piece when the input ends with the separator. */
  lemma {:induction false} SplitEndsEmpty(s: string, c: char)
    requires s != [] && s[|s| - 1] == c
    ensures var parts := Split(s, c); parts[|parts| - 1] == ""
  {
    var rest := Split(s[1..], c);
    if |s| > 1 {
      SplitEndsEmpty(s[1..], c);
      assert s[1..][|s| - 2] == c;
      SplitAtSeparator(s[1..], c);
      if s[0] == c {
        assert Split(s, c) == [""] + rest;
      } else {
        assert Split(s, c) == [[s[0]] + rest[0]] + rest[1..];
      }
    } else {
      assert Split(s, c) == [""] + rest;
    }
  }

  lemma LowerSplitEndsEmpty(s: string)
    requires s != [] && s[|s| - 1] == ','
    ensures var parts := Split(ToLower(s), ','); parts[|parts| - 1] == ""
  {
    assert ToLower(s)[|s| - 1] == ',';
    SplitEndsEmpty(ToLower(s), ',');
  }

  lemma TrimAllKeepsLastEmpty(parts: seq<string>)
    requires parts != [] && parts[|parts| - 1] == ""
    ensures var r := TrimAll(parts); r != [] && r[|r| - 1] == ""
  {
    var last := parts[|parts| - 1];
    assert |Trim(last)| <= |last| == 0;
  }

  /** A keyword cell ending in a comma has an empty last keyword. */
  lemma TrailingCommaGivesEmptyKeyword(keywords: string)
    requires keywords != "" && keywords[|keywords| - 1] == ','
    ensures var list := KeywordList(keywords); list[|list| - 1] == ""
    ensures "" in KeywordList(keywords)
  {
    var parts := Split(ToLower(keywords), ',');
    LowerSplitEndsEmpty(keywords);
    TrimAllKeepsLastEmpty(parts);
    assert KeywordList(keywords) == TrimAll(parts);
  }

  /** Every text contains the empty string, so a row whose keyword cell ends in a comma
      matches every message. */
  lemma TrailingCommaMatchesEverything(row: KeywordRow, text: string)
    requires row.keywords != "" && row.keywords[|row.keywords| - 1] == ','
    ensures RowMatches(row, text)
  {
    TrailingCommaGivesEmptyKeyword(row.keywords);
    EmptyKeywordOccurs(KeywordList(row.keywords), text);
  }

  /* ---------- column C: images ---------- */

  /** `Split` keeps a separator-free prefix of the input at the head of its first
      piece. */
  lemma {:induction false} SplitHeadKeepsPrefix(s: string, c: char, p: string)
    requires StartsWith(s, p) && c !in p
    ensures StartsWith(Split(s, c)[0], p)
  {
    if p != [] {
      assert s[0] == p[0] && p[1..] == s[1..][..|p| - 1];
      SplitHeadKeepsPrefix(s[1..], c, p[1..]);
      assert Split(s, c)[0] == [s[0]] + Split(s[1..], c)[0];
    }
  }

  lemma {:induction false} TrimEndKeepsHead(s: string)
    requires s != [] && !IsSpace(s[0])
    ensures TrimEnd(s) != [] && TrimEnd(s)[0] == s[0]
  {
    if IsSpace(s[|s| - 1]) {
      TrimEndKeepsHead(s[..|s| - 1]);
    }
  }

  /** Trimming a string that starts with a non-space keeps that first character. */
  lemma TrimKeepsHead(s: string)
    requires s != [] && !IsSpace(s[0])
    ensures Trim(s) != [] && Trim(s)[0] == s[0]
  {
    assert TrimStart(s) == s;
    TrimEndKeepsHead(s);
  }

  /** `column_c.split('|').map(url => url.trim()).filter(Boolean)` when the trimmed
      column C starts with "http", and no image otherwise. */
  function ImageUrls(extra: string): (r: seq<string>)
    ensures forall u :: u in r ==> u != "" && '|' !in u
    ensures !StartsWith(Trim(extra), "http") ==> r == []
  {
    var columnC := Trim(extra);
    if StartsWith(columnC, "http") then
      var parts := Split(columnC, '|');
      SplitPiecesLackSeparator(columnC, '|');
      PiecesKeepNoSeparator(parts, '|');
      NonEmpty(TrimAll(parts))
    else []
  }

  lemma PiecesKeepNoSeparator(parts: seq<string>, c: char)
    requires forall i :: 0 <= i < |parts| ==> c !in parts[i]
    ensures forall u :: u in NonEmpty(TrimAll(parts)) ==> c !in u
  {
    var trimmed := TrimAll(parts);
    forall i | 0 <= i < |trimmed| ensures c !in trimmed[i] {
      TrimAddsNothing(parts[i], c);
    }
  }

  /** A URL cell always yields at least one image: its first piece starts with "http"
      and survives the trim and the filter. So the special-action branch, which needs
      no image, is only reached when column C does not start with "http". */
  lemma HttpCellHasImages(extra: string)
    requires StartsWith(Trim(extra), "http")
    ensures |ImageUrls(extra)| >= 1
  {
    var columnC := Trim(extra);
    var parts := Split(columnC, '|');
    SplitHeadKeepsPrefix(columnC, '|', "http");
    TrimKeepsHead(parts[0]);
    assert TrimAll(parts)[0] == Trim(parts[0]) != "";
    assert Trim(parts[0]) in NonEmpty(TrimAll(parts));
  }

  /* ---------- column B: the reply ---------- */

  /** `match[1].split('|').map(r => r.trim())`. */
  function ReplyOptions(reply: string): seq<string>
  {
    TrimmedPieces(reply, '|')
  }

  /** `responses[Math.floor(Math.random() * responses.length)]`, the random draw being
      the parameter `pick`. */
  function PickReply(options: seq<string>, pick: nat): (r: string)
    requires options != []
    ensures r in options
  {
    options[pick % |options|]
  }

  /** Every option can be drawn. */
  lemma EveryOptionCanBeDrawn(options: seq<string>, i: nat)
    requires i < |options|
    ensures PickReply(options, i) == options[i]
  {
  }

  /** What a keyword match sends: a text and the images to send after it. */
  datatype KeywordReply = KeywordReply(text: string, images: seq<string>)

  /** The reply to a direct message (server.js:849-868). `clock` stands for the Manila
      local time `getCurrentTime` renders; `pick` for the random draw. When column C is
      a special action, `executeSpecialAction` answers "time" with the current time and
      anything else with `null`, and the reply falls back to column B as it is. */
  function TextReply(rows: seq<KeywordRow>, text: string, clock: string, pick: nat): (r: KeywordReply)
    ensures FirstMatch(rows, text).None? ==> r == KeywordReply(DefaultTextReply, [])
    ensures FirstMatch(rows, text).Some? ==> r.images == ImageUrls(rows[FirstMatch(rows, text).value].extra)
  {
    match FirstMatch(rows, text)
    case None => KeywordReply(DefaultTextReply, [])
    case Some(i) =>
      var row := rows[i];
      var columnC := Trim(row.extra);
      var images := ImageUrls(row.extra);
      if |images| == 0 && columnC != "" then
        KeywordReply(if ToLower(columnC) == "time" then TimePrefix + clock else row.reply, images)
      else if row.reply != "" then
        KeywordReply(PickReply(ReplyOptions(row.reply), pick), images)
      else
        KeywordReply(DefaultTextReply, images)
  }

  /** The DM answering a comment (server.js:929-945): no special actions here. */
  function CommentReply(rows: seq<KeywordRow>, text: string, pick: nat): (r: KeywordReply)
    ensures FirstMatch(rows, text).None? ==> r == KeywordReply(DefaultCommentReply, [])
    ensures FirstMatch(rows, text).Some? ==> r.images == ImageUrls(rows[FirstMatch(rows, text).value].extra)
  {
    match FirstMatch(rows, text)
    case None => KeywordReply(DefaultCommentReply, [])
    case Some(i) =>
      var row := rows[i];
      var reply := if row.reply != "" then PickReply(ReplyOptions(row.reply), pick) else DefaultCommentReply;
      KeywordReply(reply, ImageUrls(row.extra))
  }

  /** A matched row with a reply and either no column C or an image cell answers with
      one of its '|'-separated replies, trimmed; with an image cell it also sends its
      images. */
  lemma MatchedReplyIsAnOption(rows: seq<KeywordRow>, text: string, clock: string, pick: nat, i: nat)
    requires FirstMatch(rows, text) == Some(i)
    requires rows[i].reply != ""
    requires Trim(rows[i].extra) == "" || StartsWith(Trim(rows[i].extra), "http")
    ensures var r := TextReply(rows, text, clock, pick);
      && r.text in ReplyOptions(rows[i].reply)
      && (exists j :: 0 <= j < |Split(rows[i].reply, '|')| && r.text == Trim(Split(rows[i].reply, '|')[j]))
      && (StartsWith(Trim(rows[i].extra), "http") ==> |r.images| >= 1)
  {
    var row := rows[i];
    var options := ReplyOptions(row.reply);
    var j := pick % |options|;
    if StartsWith(Trim(row.extra), "http") {
      HttpCellHasImages(row.extra);
    } else {
      assert ImageUrls(row.extra) == [];
    }
    assert TextReply(rows, text, clock, pick) == KeywordReply(options[j], ImageUrls(row.extra));
  }

  /** The DM answering a comment on a matched row with a reply is one of that row's
      '|'-separated replies, trimmed, whatever column C holds. */
  lemma CommentReplyIsAnOption(rows: seq<KeywordRow>, text: string, pick: nat, i: nat)
    requires FirstMatch(rows, text) == Some(i)
    requires rows[i].reply != ""
    ensures var r := CommentReply(rows, text, pick);
      && r.text in ReplyOptions(rows[i].reply)
      && (exists j :: 0 <= j < |Split(rows[i].reply, '|')| && r.text == Trim(Split(rows[i].reply, '|')[j]))
  {
    var options := ReplyOptions(rows[i].reply);
    var j := pick % |options|;
    assert CommentReply(rows, text, pick).text == options[j];
  }

  /** Column C reading "time" (any case, any surrounding space) makes the reply the
      current time and sends no image. */
  lemma TimeActionAnswersClock(rows: seq<KeywordRow>, text: string, clock: string, pick: nat)
    requires FirstMatch(rows, text).Some?
    requires ToLower(Trim(rows[FirstMatch(rows, text).value].extra)) == "time"
    ensures TextReply(rows, text, clock, pick) == KeywordReply(TimePrefix + clock, [])
  {
    var row := rows[FirstMatch(rows, text).value];
    LowerTimeIsNotHttp(Trim(row.extra), "time");
    assert ImageUrls(row.extra) == [];
  }

  /** A cell reading "time" in any case is not an image cell. */
  lemma LowerTimeIsNotHttp(cell: string, word: string)
    requires word == "time" && ToLower(cell) == word
    ensures cell != [] && !StartsWith(cell, "http")
  {
    assert LowerChar(cell[0]) == word[0] == 't';
    assert cell[..4][0] == cell[0];
  }

  /* ---------- booking intent ---------- */

  /** A direct message asks to book when it mentions "order" or "book" (server.js:828). */
  predicate TextBookingIntent(text: string)
  {
    Contains(text, "order") || Contains(text, "book")
  }

  /** A comment asks to book on four words (server.js:971-974). */
  predicate CommentBookingIntent(text: string)
  {
    Contains(text, "book") || Contains(text, "order") || Contains(text, "reserve") || Contains(text, "appointment")
  }

  /** "reserve" starts a booking from a comment but not from a direct message. */
  lemma ReserveIsCommentOnly(text: string)
    requires text == "reserve"
    ensures CommentBookingIntent(text) && !TextBookingIntent(text)
  {
    assert OccursAt(text, "reserve", 0);
    forall k | 0 <= k <= |text| ensures !OccursAt(text, "order", k) && !OccursAt(text, "book", k)
    {
      if k + 4 <= |text| {
        assert text[k] != 'b';
      }
      if k + 5 <= |text| {
        assert text[k] != 'o';
      }
    }
  }
}
