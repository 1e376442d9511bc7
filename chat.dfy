/**
 * The chat state of `src/hooks/useChat.ts`: the message list and its pure
 * updaters, the compose/send predicates, the texts the assistant posts, the
 * snippet formatting used for web references, and `sendMessage` as a sequence
 * of state updates on a `ChatSession`.
 *
 * The network, `crypto.randomUUID` and `Number(...)` are not modelled: their
 * results are parameters (a fresh id, a parsed document number, the outcome of
 * the request).
 */
module Chat {
  import opened Wrappers
  import opened Text

  datatype Role = User | Assistant

  datatype ChatMessage = ChatMessage(id: string, role: Role, content: string)

  /** The fields of a document summary that the chat reads. An absent title is "". */
  datatype DocumentSummary = DocumentSummary(id: int, title: string, fileName: string)

  const WelcomeId: string := "welcome-1"
  const WelcomeText: string := "Welcome to Ask My Doc! Please upload your documents to get started."
  const NewChatText: string := "New chat started. Ask anything about your uploaded documents."

  const InfoMark: string := "\U{2139}\U{FE0F}"
  const CrossMark: string := "\U{274C}"
  const WarningMark: string := "\U{26A0}\U{FE0F}"
  const BooksMark: string := "\U{1F4DA}"
  const Ellipsis: char := '\U{2026}'

  const SelectDocumentText: string := InfoMark + " Please select a document from the sidebar before asking a question."
  const NoResponseText: string := WarningMark + " No response from API."
  const NetworkErrorText: string := "Network error contacting backend."
  const NoContextText: string := "\n\n" + InfoMark + " *No relevant context found in the selected document.*"

  // ---------------------------------------------------------------------------
  // Compose and send (lines 28-29)

  /** `canCompose`: a document id is selected, i.e. it is not blank. */
  function CanCompose(selectedDocumentId: string): (b: bool)
    ensures b <==> !IsBlank(selectedDocumentId)
  {
    |Trim(selectedDocumentId)| > 0
  }

  /** `canSend`: a document is selected, nothing is being sent and the input is not blank. */
  function CanSend(selectedDocumentId: string, isSending: bool, input: string): (b: bool)
    ensures b <==> !IsBlank(selectedDocumentId) && !isSending && !IsBlank(input)
    ensures b ==> CanCompose(selectedDocumentId)
  {
    CanCompose(selectedDocumentId) && !isSending && |Trim(input)| > 0
  }

  // ---------------------------------------------------------------------------
  // The message-list updaters (lines 31-57)

  /** `id ?? crypto.randomUUID()`: the caller's id when given (even ""), else a fresh one. */
  function MessageId(id: Option<string>, freshId: string): (r: string)
    ensures id.Some? ==> r == id.value
    ensures id.None? ==> r == freshId
  {
    id.GetOr(freshId)
  }

  /** The updater of lines 33-36: the list with one assistant message added at the end. */
  function AppendAssistant(prev: seq<ChatMessage>, messageId: string, content: string): (r: seq<ChatMessage>)
    ensures |r| == |prev| + 1 && r[..|prev|] == prev
    ensures r[|prev|].id == messageId && r[|prev|].role == Assistant && r[|prev|].content == content
  {
    prev + [ChatMessage(messageId, Assistant, content)]
  }

  /**
   * The updater of lines 41-45: every message whose id is `messageId` gets the
   * new content; ids, roles, order and all other messages stay as they were.
   */
  function ReplaceContent(prev: seq<ChatMessage>, messageId: string, content: string): (r: seq<ChatMessage>)
    ensures |r| == |prev|
    ensures forall i :: 0 <= i < |r| ==> r[i].id == prev[i].id && r[i].role == prev[i].role
    ensures forall i :: 0 <= i < |r| ==> r[i].content == if prev[i].id == messageId then content else prev[i].content
  {
    if prev == [] then []
    else
      var m := prev[0];
      [if m.id == messageId then m.(content := content) else m] + ReplaceContent(prev[1..], messageId, content)
  }

  /** The list `resetChat` installs (lines 49-56). */
  function ResetMessages(): (r: seq<ChatMessage>)
    ensures |r| == 1 && r[0].id == WelcomeId && r[0].role == Assistant && r[0].content == NewChatText
  {
    [ChatMessage(WelcomeId, Assistant, NewChatText)]
  }

  /** An update for an id that no message has leaves the list as it is. */
  lemma ReplaceUnknownId(prev: seq<ChatMessage>, messageId: string, content: string)
    requires forall i :: 0 <= i < |prev| ==> prev[i].id != messageId
    ensures ReplaceContent(prev, messageId, content) == prev
  {
    var r := ReplaceContent(prev, messageId, content);
    assert forall i :: 0 <= i < |r| ==> r[i] == prev[i];
  }

  /** Of two updates of the same message, the later one wins. */
  lemma {:induction false} ReplaceLastWins(prev: seq<ChatMessage>, messageId: string, first: string, second: string)
    ensures ReplaceContent(ReplaceContent(prev, messageId, first), messageId, second)
         == ReplaceContent(prev, messageId, second)
  {
    if prev != [] {
      ReplaceLastWins(prev[1..], messageId, first, second);
      assert ReplaceContent(prev, messageId, first)[1..] == ReplaceContent(prev[1..], messageId, first);
    }
  }

  /** Updates of two different messages can be applied in either order. */
  lemma {:induction false} ReplaceCommutes(prev: seq<ChatMessage>, id1: string, content1: string, id2: string, content2: string)
    requires id1 != id2
    ensures ReplaceContent(ReplaceContent(prev, id1, content1), id2, content2)
         == ReplaceContent(ReplaceContent(prev, id2, content2), id1, content1)
  {
    if prev != [] {
      ReplaceCommutes(prev[1..], id1, content1, id2, content2);
      assert ReplaceContent(prev, id1, content1)[1..] == ReplaceContent(prev[1..], id1, content1);
      assert ReplaceContent(prev, id2, content2)[1..] == ReplaceContent(prev[1..], id2, content2);
    }
  }

  /**
   * The placeholder pattern of `fetchReferences` (lines 157-159 then 173 or
   * 218): appending a placeholder under a fresh id and then updating that id
   * is the same as appending the final text directly.
   */
  lemma ReplaceAfterAppend(prev: seq<ChatMessage>, freshId: string, placeholder: string, text: string)
    requires forall i :: 0 <= i < |prev| ==> prev[i].id != freshId
    ensures ReplaceContent(AppendAssistant(prev, freshId, placeholder), freshId, text)
         == AppendAssistant(prev, freshId, text)
  {
    ReplaceConcat(prev, [ChatMessage(freshId, Assistant, placeholder)], freshId, text);
    ReplaceUnknownId(prev, freshId, text);
  }

  /** An update applies to the two halves of a list separately. */
  lemma {:induction false} ReplaceConcat(a: seq<ChatMessage>, b: seq<ChatMessage>, messageId: string, content: string)
    ensures ReplaceContent(a + b, messageId, content) == ReplaceContent(a, messageId, content) + ReplaceContent(b, messageId, content)
  {
    if a == [] {
      assert a + b == b;
    } else {
      assert (a + b)[1..] == a[1..] + b;
      ReplaceConcat(a[1..], b, messageId, content);
    }
  }

  // ---------------------------------------------------------------------------
  // The texts of the reply (lines 95-123)

  /** `documents.find(doc => doc.id === payload)`: the first document with that number. */
  function FindDocument(documents: seq<DocumentSummary>, payload: real): (r: Option<DocumentSummary>)
    ensures r.None? <==> forall i :: 0 <= i < |documents| ==> documents[i].id as real != payload
    ensures r.Some? ==>
      exists i ::
        && 0 <= i < |documents| && documents[i] == r.value
        && r.value.id as real == payload
        && forall k :: 0 <= k < i ==> documents[k].id as real != payload
  {
    if documents == [] then None
    else if documents[0].id as real == payload then Some(documents[0])
    else
      var r := FindDocument(documents[1..], payload);
      assert forall i :: 1 <= i < |documents| ==> documents[i] == documents[1..][i - 1];
      if r.Some? then
        var i :| 0 <= i < |documents[1..]| && documents[1..][i] == r.value
          && r.value.id as real == payload
          && forall k :: 0 <= k < i ==> documents[1..][k].id as real != payload;
        assert documents[i + 1] == r.value;
        r
      else r
  }

  /** Lines 108-110: the title, else the file name; "" (falsy) when no document was found. */
  function DocumentLabel(doc: Option<DocumentSummary>): (name: string)
    ensures doc.None? ==> name == ""
    ensures doc.Some? && doc.value.title != "" ==> name == doc.value.title
    ensures doc.Some? && doc.value.title == "" ==> name == doc.value.fileName
  {
    match doc
    case None => ""
    case Some(d) => if d.title != "" then d.title else d.fileName
  }

  /** The words before the count in the context indicator. */
  const AnswerBasedOn: string := "\n\n" + BooksMark + " *Answer based on "

  /** Where the sections came from when the document has no label (lines 117-119). */
  const FromSelectedDocument: string := " from the selected document"
  const FromYourDocuments: string := " from your documents"

  /** The indicator up to and including "section", before the plural "s". */
  function IndicatorHead(sourcesCount: int): string {
    AnswerBasedOn + IntString(sourcesCount) + " relevant section"
  }

  /** The source phrase of lines 115-119: the quoted label, else one of the two fallbacks. */
  function SourcePhrase(docLabel: string, payloadPresent: bool): (phrase: string)
    ensures phrase != [] && phrase[0] == ' '
  {
    if docLabel != "" then " from \"" + docLabel + "\""
    else if payloadPresent then FromSelectedDocument
    else FromYourDocuments
  }

  /**
   * The context indicator of lines 111-121. `payloadPresent` is the test
   * `documentIdPayload != null` of line 117; `docLabel == ""` stands for a
   * falsy label.
   */
  function ContextIndicator(contextUsed: bool, sourcesCount: int, docLabel: string, payloadPresent: bool): (s: string)
    ensures !contextUsed ==> s == NoContextText
    ensures contextUsed ==> |AnswerBasedOn| < |s| && s[..|AnswerBasedOn|] == AnswerBasedOn && s[|s| - 1] == '*'
  {
    if contextUsed then
      var s := IndicatorHead(sourcesCount)
        + (if sourcesCount > 1 then "s" else "")
        + SourcePhrase(docLabel, payloadPresent)
        + "*";
      assert s[..|AnswerBasedOn|] == AnswerBasedOn by {
        var head := IndicatorHead(sourcesCount);
        assert head[..|AnswerBasedOn|] == AnswerBasedOn;
        assert s[..|head|] == head;
      }
      s
    else NoContextText
  }

  /**
   * With context, the indicator reports the count and says "sections" exactly
   * when there is more than one; it names the document when there is a label.
   * Without context it is the fixed no-context line.
   */
  lemma {:induction false} IndicatorPlural(contextUsed: bool, sourcesCount: int, docLabel: string, payloadPresent: bool)
    ensures var s := ContextIndicator(contextUsed, sourcesCount, docLabel, payloadPresent);
      var head := IndicatorHead(sourcesCount);
      && (!contextUsed ==> s == NoContextText)
      && (contextUsed ==>
            && |head| < |s|
            && s[..|head|] == head
            && (s[|head|] == 's' <==> sourcesCount > 1)
            && (docLabel != "" ==> EndsWith(s, " from \"" + docLabel + "\"*"))
            && (docLabel == "" ==>
                  EndsWith(s, (if payloadPresent then FromSelectedDocument else FromYourDocuments) + "*")))
  {
    if contextUsed {
      var head := IndicatorHead(sourcesCount);
      var plural := if sourcesCount > 1 then "s" else "";
      var from := SourcePhrase(docLabel, payloadPresent);
      var s := ContextIndicator(contextUsed, sourcesCount, docLabel, payloadPresent);
      assert |head| < |s| && s[..|head|] == head && (s[|head|] == 's' <==> plural == "s") && EndsWith(s, from + "*") by {
        assert s == head + plural + from + "*";
        IndicatorParts(s, head, plural, from);
      }
      if docLabel != "" {
        assert from + "*" == " from \"" + docLabel + "\"*";
      }
    }
  }

  /**
   * The pieces of an indicator: the head comes first, the plural "s" is
   * recognisable after it, and the text ends with the source phrase and the
   * closing `*`.
   */
  lemma IndicatorParts(s: string, head: string, plural: string, from: string)
    requires s == head + plural + from + "*"
    requires (plural == "" || plural == "s") && from != [] && from[0] == ' '
    ensures |head| < |s| && s[..|head|] == head
    ensures s[|head|] == 's' <==> plural == "s"
    ensures EndsWith(s, from + "*")
  {
    assert s[..|head|] == head;
    assert s[|s| - |from + "*"|..] == from + "*";
  }

  /** What `t` starts and ends with, `lead + t` has right after `lead` and at its end. */
  lemma AfterLead(s: string, lead: string, t: string, prefix: string, suffix: string)
    requires s == lead + t && |prefix| <= |t| && t[..|prefix|] == prefix && EndsWith(t, suffix)
    ensures |lead| + |prefix| <= |s| && s[|lead|..|lead| + |prefix|] == prefix && EndsWith(s, suffix)
  {
    assert s[|lead|..|lead| + |prefix|] == t[..|prefix|];
    assert s[|s| - |suffix|..] == t[|t| - |suffix|..];
  }

  /** `s` ends with `suffix`. */
  predicate EndsWith(s: string, suffix: string) {
    |suffix| <= |s| && s[|s| - |suffix|..] == suffix
  }

  /** The count printed in the indicator reads back as `sourcesCount`. */
  lemma IndicatorCount(sourcesCount: nat)
    ensures var digits := IndicatorHead(sourcesCount)[|AnswerBasedOn|..|AnswerBasedOn| + |DecimalString(sourcesCount)|];
      (forall i :: 0 <= i < |digits| ==> IsDigit(digits[i])) && DecimalValue(digits) == sourcesCount
  {
    var head := IndicatorHead(sourcesCount);
    assert head == AnswerBasedOn + DecimalString(sourcesCount) + " relevant section";
    assert head[|AnswerBasedOn|..|AnswerBasedOn| + |DecimalString(sourcesCount)|] == DecimalString(sourcesCount);
    DecimalRoundTrip(sourcesCount);
  }

  /** How a request of `sendMessage` ended. Absent or empty strings are "". */
  datatype ChatResponse =
    | Failed(status: int, error: string, message: string)       // `!res.ok`, lines 94-98
    | Answered(reply: string, contextUsed: bool, sourcesCount: int)  // lines 101-123
    | Threw(message: string)                                     // `fetch` or `res.json()` threw, lines 124-127

  /** The first non-empty string of `a` and `b` (`a || b`). */
  function Or(a: string, b: string): (r: string)
    ensures a != "" ==> r == a
    ensures a == "" ==> r == b
    ensures r == "" <==> a == "" && b == ""
  {
    if a != "" then a else b
  }

  /** The assistant message `sendMessage` posts once the request for document `payload` has ended. */
  function ReplyText(response: ChatResponse, documents: seq<DocumentSummary>, payload: real): (s: string)
    ensures |s| > 2
    ensures !response.Answered? ==> s[0] == CrossMark[0] && s[1] == ' '
    ensures response.Answered? ==> s[|s| - 1] == '*'
  {
    match response
    case Failed(status, error, message) =>
      CrossMark + " " + Or(error, Or(message, "Request failed (" + IntString(status) + ")"))
    case Answered(reply, contextUsed, sourcesCount) =>
      Or(reply, NoResponseText)
        + ContextIndicator(contextUsed, sourcesCount, DocumentLabel(FindDocument(documents, payload)), true)
    case Threw(message) =>
      CrossMark + " " + Or(message, NetworkErrorText)
  }

  /**
   * A failed request is reported as the cross mark and the server's `error`,
   * else its `message`, else the status line; a request that threw as the
   * cross mark and the exception's message, else the network notice. The
   * detail is never empty.
   */
  lemma ErrorReplyShape(response: ChatResponse, documents: seq<DocumentSummary>, payload: real)
    requires !response.Answered?
    ensures var s := ReplyText(response, documents, payload);
      var prefix := CrossMark + " ";
      && |s| > |prefix| && s[..|prefix|] == prefix
      && (response.Failed? && response.error != "" ==> s == prefix + response.error)
      && (response.Failed? && response.error == "" && response.message != "" ==> s == prefix + response.message)
      && (response.Failed? && response.error == "" && response.message == "" ==>
            s == prefix + "Request failed (" + IntString(response.status) + ")")
      && (response.Threw? && response.message != "" ==> s == prefix + response.message)
      && (response.Threw? && response.message == "" ==> s == prefix + NetworkErrorText)
  {
    var s := ReplyText(response, documents, payload);
    if response.Failed? {
      var status := IntString(response.status);
      var detail := Or(response.error, Or(response.message, "Request failed (" + status + ")"));
      assert s == (CrossMark + " ") + detail;
    } else {
      assert s == (CrossMark + " ") + Or(response.message, NetworkErrorText);
    }
  }

  /**
   * An answered request posts the reply (or the no-response notice when the
   * reply is empty) followed by the context indicator for the selected
   * document: the indicator reports the count and names the document by its
   * label, or says "the selected document" when it has none.
   */
  lemma AnsweredReplyShape(reply: string, contextUsed: bool, sourcesCount: int, documents: seq<DocumentSummary>, payload: real)
    ensures var s := ReplyText(Answered(reply, contextUsed, sourcesCount), documents, payload);
      var lead := Or(reply, NoResponseText);
      var docLabel := DocumentLabel(FindDocument(documents, payload));
      var head := IndicatorHead(sourcesCount);
      && lead != ""
      && s == lead + ContextIndicator(contextUsed, sourcesCount, docLabel, true)
      && s[..|lead|] == lead
      && (contextUsed ==> |lead| + |head| < |s| && s[|lead|..|lead| + |head|] == head)
      && (contextUsed && docLabel != "" ==> EndsWith(s, " from \"" + docLabel + "\"*"))
      && (contextUsed && docLabel == "" ==> EndsWith(s, FromSelectedDocument + "*"))
      && (!contextUsed ==> s[|lead|..] == NoContextText)
  {
    var s := ReplyText(Answered(reply, contextUsed, sourcesCount), documents, payload);
    var lead := Or(reply, NoResponseText);
    var docLabel := DocumentLabel(FindDocument(documents, payload));
    var indicator := ContextIndicator(contextUsed, sourcesCount, docLabel, true);
    assert s == lead + indicator;
    if contextUsed {
      IndicatorAfterLead(s, lead, sourcesCount, docLabel);
    }
  }

  /** The with-context facts of `AnsweredReplyShape`, for any text before the indicator. */
  lemma IndicatorAfterLead(s: string, lead: string, sourcesCount: int, docLabel: string)
    requires s == lead + ContextIndicator(true, sourcesCount, docLabel, true)
    ensures |lead| + |IndicatorHead(sourcesCount)| < |s|
    ensures s[|lead|..|lead| + |IndicatorHead(sourcesCount)|] == IndicatorHead(sourcesCount)
    ensures docLabel != "" ==> EndsWith(s, " from \"" + docLabel + "\"*")
    ensures docLabel == "" ==> EndsWith(s, FromSelectedDocument + "*")
  {
    var indicator := ContextIndicator(true, sourcesCount, docLabel, true);
    var head := IndicatorHead(sourcesCount);
    var from := SourcePhrase(docLabel, true);
    assert |head| < |indicator| && indicator[..|head|] == head && EndsWith(indicator, from + "*") by {
      var plural := if sourcesCount > 1 then "s" else "";
      assert indicator == head + plural + from + "*";
      IndicatorParts(indicator, head, plural, from);
    }
    assert s[|lead|..|lead| + |head|] == head && EndsWith(s, from + "*") by {
      AfterLead(s, lead, indicator, head, from + "*");
    }
    if docLabel != "" {
      assert from + "*" == " from \"" + docLabel + "\"*";
    }
  }

  // ---------------------------------------------------------------------------
  // formatSnippet (lines 185-192)

  const SnippetLimit: nat := 220
  const SnippetKeep: nat := 217

  lemma EllipsisIsNotWhite()
    ensures !IsWhite(Ellipsis)
  {
    if IsWhite(Ellipsis) {
      var k := ContainsWitness(WhiteChars, Ellipsis);
    }
  }

  /**
   * `formatSnippet(snippet)`: nothing for a missing, empty or blank snippet;
   * otherwise the snippet on one line, cut to its first 217 characters and an
   * ellipsis when it is longer than 220.
   */
  function FormatSnippet(snippet: Option<string>): (r: Option<string>)
    ensures r.None? <==> snippet.None? || IsBlank(snippet.value)
    ensures r.Some? ==> 0 < |r.value| <= SnippetLimit && SingleLine(r.value)
    ensures r.Some? && |SingleLineOf(snippet.value)| <= SnippetLimit ==> r.value == SingleLineOf(snippet.value)
    ensures r.Some? && |SingleLineOf(snippet.value)| > SnippetLimit ==>
      && |r.value| == SnippetKeep + 1
      && r.value[..SnippetKeep] == SingleLineOf(snippet.value)[..SnippetKeep]
      && r.value[SnippetKeep] == Ellipsis
  {
    if snippet.None? || snippet.value == "" then None
    else
      var singleLine := SingleLineOf(snippet.value);
      if singleLine == "" then None
      else if |singleLine| > SnippetLimit then
        var cut := singleLine[..SnippetKeep] + [Ellipsis];
        CutIsSingleLine(singleLine);
        Some(cut)
      else Some(singleLine)
  }

  /** Cutting a long line and adding the ellipsis leaves it on one line. */
  lemma CutIsSingleLine(line: string)
    requires SingleLine(line) && |line| > SnippetLimit
    ensures var cut := line[..SnippetKeep] + [Ellipsis];
      && SingleLine(cut)
      && |cut| == SnippetKeep + 1 && cut[..SnippetKeep] == line[..SnippetKeep] && cut[SnippetKeep] == Ellipsis
  {
    var cut := line[..SnippetKeep] + [Ellipsis];
    assert cut[..SnippetKeep] == line[..SnippetKeep];
    EllipsisIsNotWhite();
    assert Spaced(cut) by {
      assert forall i :: 0 <= i < SnippetKeep ==> cut[i] == line[i];
    }
  }

  /** A formatted snippet keeps every non-whitespace character unless it had to be cut. */
  lemma FormatSnippetKeepsText(snippet: string)
    requires !IsBlank(snippet) && |SingleLineOf(snippet)| <= SnippetLimit
    ensures FormatSnippet(Some(snippet)).Some?
    ensures NonWhite(FormatSnippet(Some(snippet)).value) == NonWhite(snippet)
  {
  }

  /** Formatting a formatted snippet again changes nothing. */
  lemma FormatSnippetIdempotent(snippet: Option<string>)
    requires FormatSnippet(snippet).Some?
    ensures FormatSnippet(FormatSnippet(snippet)) == FormatSnippet(snippet)
  {
    var v := FormatSnippet(snippet).value;
    SingleLineFixed(v);
    assert !IsBlank(v) by {
      assert !IsWhite(v[0]);
    }
  }

  // ---------------------------------------------------------------------------
  // The hook's state

  /** The state `useChat` keeps: the message list, the input box and the sending flag. */
  class ChatSession {
    var messages: seq<ChatMessage>
    var input: string
    var isSending: bool

    /** Lines 16-25: one welcome message, an empty input, nothing being sent. */
    constructor ()
      ensures messages == [ChatMessage(WelcomeId, Assistant, WelcomeText)]
      ensures input == "" && !isSending
    {
      messages := [ChatMessage(WelcomeId, Assistant, WelcomeText)];
      input := "";
      isSending := false;
    }

    /** `setInput`. */
    method SetInput(value: string)
      modifies this
      ensures input == value
      ensures messages == old(messages) && isSending == old(isSending)
    {
      input := value;
    }

    /** `appendAssistantMessage(content, id)`, lines 31-38. */
    method AppendAssistantMessage(content: string, id: Option<string>, freshId: string) returns (messageId: string)
      modifies this
      ensures messageId == MessageId(id, freshId)
      ensures messages == AppendAssistant(old(messages), messageId, content)
      ensures input == old(input) && isSending == old(isSending)
    {
      messageId := MessageId(id, freshId);
      messages := AppendAssistant(messages, messageId, content);
    }

    /** `updateMessageContent(messageId, content)`, lines 40-46. */
    method UpdateMessageContent(messageId: string, content: string)
      modifies this
      ensures messages == ReplaceContent(old(messages), messageId, content)
      ensures input == old(input) && isSending == old(isSending)
    {
      messages := ReplaceContent(messages, messageId, content);
    }

    /** `resetChat`, lines 48-57. */
    method ResetChat()
      modifies this
      ensures messages == ResetMessages()
      ensures input == old(input) && isSending == old(isSending)
    {
      messages := ResetMessages();
    }

    /**
     * `sendMessage`, lines 59-131. `documentNumber` is `Number(selectedDocumentId)`
     * (`None` for NaN), `userMessageId` and `replyId` are the ids
     * `crypto.randomUUID` hands out, and `response` is how the request ended.
     * Blank input changes nothing; without a usable document id only a notice
     * is appended; otherwise the trimmed input is posted as a user message,
     * the input box is cleared, the reply is appended and sending is over.
     */
    method SendMessage(selectedDocumentId: string, documents: seq<DocumentSummary>, documentNumber: Option<real>,
                       userMessageId: string, replyId: string, response: ChatResponse)
      modifies this
      ensures IsBlank(old(input)) ==>
        messages == old(messages) && input == old(input) && isSending == old(isSending)
      ensures !IsBlank(old(input)) && (IsBlank(selectedDocumentId) || documentNumber.None?) ==>
        && messages == AppendAssistant(old(messages), replyId, SelectDocumentText)
        && input == old(input) && isSending == old(isSending)
      ensures !IsBlank(old(input)) && !IsBlank(selectedDocumentId) && documentNumber.Some? ==>
        && messages == old(messages)
             + [ChatMessage(userMessageId, User, Trim(old(input))),
                ChatMessage(replyId, Assistant, ReplyText(response, documents, documentNumber.value))]
        && input == "" && !isSending
    {
      var text := Trim(input);
      if |text| == 0 {
        return;
      }
      if |Trim(selectedDocumentId)| == 0 || documentNumber.None? {
        var _ := AppendAssistantMessage(SelectDocumentText, None, replyId);
        return;
      }
      var payload := documentNumber.value;
      var userMsg := ChatMessage(userMessageId, User, text);
      input := "";
      messages := messages + [userMsg];
      isSending := true;
      var reply := ReplyText(response, documents, payload);
      var _ := AppendAssistantMessage(reply, None, replyId);
      isSending := false;
    }
  }
}
