/** The chat session of the app: the indexed document, the message log, the
    queued sample question, and the handlers that change them (clear chat,
    clear document, index, ask, consume the queued question) plus the Markdown
    export. Ingestion, the passage store and retrieval are collaborators whose
    outcomes are parameters. */
module Session {
  import opened Text
  import opened Errors
  import opened Context
  import opened Providers
  import opened Orchestrator

  datatype Role = User | Assistant

  /** One entry of the chat log. User messages and error replies carry no
      citations, mode or retrieved hits. */
  datatype Message = Message(role: Role, content: string, citations: seq<string>, mode: Option<Mode>, retrieved: seq<Hit>)

  function UserMessage(question: string): Message {
    Message(User, question, [], None, [])
  }

  function AssistantText(text: string): Message {
    Message(Assistant, text, [], None, [])
  }

  const NoDocumentReply := "Please upload and index a document first."
  const ErrorPrefix := "\U{26A0}\U{FE0F} Error while answering: "

  /** `k` passed to retrieval. */
  const RetrieveCount: nat := 6

  /** A stored passage of an indexed document. */
  datatype Chunk = Chunk(id: string, ref: string, text: string)

  /** The retrieval collaborators: `load_store("store", doc_id)` and
      `retrieve(doc, question, k)`, each returning a value or raising. */
  datatype Rag = Rag(load: string -> Result<seq<Chunk>>, retrieve: (seq<Chunk>, string, nat) -> Result<seq<Hit>>)

  /** The assistant message an exception turns into. */
  function ErrorReply(e: Error): (m: Message)
    ensures m.role == Assistant && WellFormed(m) && m.mode == None
    ensures m.content == ErrorPrefix + ErrorText(e)
  {
    AssistantText(ErrorPrefix + ErrorText(e))
  }

  /** What every message of the log looks like: user messages and plain
      assistant replies carry nothing else; a grounded reply cites the ref of
      every hit it was given; an off-document reply cites nothing. */
  predicate WellFormed(m: Message) {
    && (m.role == User ==> m.mode == None)
    && (m.mode == None ==> m.citations == [] && m.retrieved == [])
    && (m.mode == Some(Doc) ==> m.citations == Citations(m.retrieved))
    && (m.mode == Some(OffDoc) ==> m.citations == [])
  }

  /** The assistant reply of one turn and the backend requests it made. */
  datatype Turn = Turn(reply: Message, calls: seq<Call>)

  /** The assistant side of `ask_and_answer`: the guard on the indexed
      document, then load, retrieve and answer, any exception becoming an
      error reply. */
  function TurnFor(docId: Option<string>, question: string, provider: string, host: Host, rag: Rag): (t: Turn)
    ensures t.reply.role == Assistant && WellFormed(t.reply)
    ensures |t.calls| <= 2
    ensures !Truthy(docId) ==> t == Turn(AssistantText(NoDocumentReply), [])
    ensures Truthy(docId) && t.reply.mode == None ==> exists e :: t.reply == ErrorReply(e)
    ensures t.reply.mode.Some? ==>
              && Truthy(docId) && rag.load(docId.value).Ok?
              && rag.retrieve(rag.load(docId.value).value, question, RetrieveCount) == Ok(t.reply.retrieved)
    ensures Truthy(docId) && rag.load(docId.value).Err? ==>
              t == Turn(ErrorReply(rag.load(docId.value).error), [])
    ensures Truthy(docId) && rag.load(docId.value).Ok?
            && rag.retrieve(rag.load(docId.value).value, question, RetrieveCount).Err? ==>
              t == Turn(ErrorReply(rag.retrieve(rag.load(docId.value).value, question, RetrieveCount).error), [])
    ensures Truthy(docId) && rag.load(docId.value).Ok?
            && rag.retrieve(rag.load(docId.value).value, question, RetrieveCount).Ok? ==>
              var hits := rag.retrieve(rag.load(docId.value).value, question, RetrieveCount).value;
              var o := Answering(host, provider, hits, question);
              && t.calls == o.calls
              && (o.result.Err? ==> t.reply == ErrorReply(o.result.error))
              && (o.result.Ok? ==> t.reply == Message(Assistant, o.result.value.content, o.result.value.citations,
                                                      Some(o.result.value.mode), hits))
  {
    if !Truthy(docId) then Turn(AssistantText(NoDocumentReply), [])
    else
      match rag.load(docId.value)
      case Err(e) => Turn(ErrorReply(e), [])
      case Ok(doc) =>
        match rag.retrieve(doc, question, RetrieveCount)
        case Err(e) => Turn(ErrorReply(e), [])
        case Ok(hits) =>
          var o := Answering(host, provider, hits, question);
          Turn(ReplyFor(o, hits), o.calls)
  }

  /** The message an answering outcome becomes: the answer with its mode,
      citations and the hits it used, or the error reply. */
  function ReplyFor(o: Outcome, hits: seq<Hit>): Message {
    match o.result
    case Err(e) => ErrorReply(e)
    case Ok(a) => Message(Assistant, a.content, a.citations, Some(a.mode), hits)
  }

  /** The answering step of `ask_and_answer` once hits are retrieved: the
      grounded answer, the fallback test and, when it fires, the topical answer. */
  method AnswerHits(hits: seq<Hit>, question: string, provider: string, host: Host) returns (reply: Message, calls: seq<Call>)
    ensures reply == ReplyFor(Answering(host, provider, hits, question), hits)
    ensures calls == Answering(host, provider, hits, question).calls
    ensures reply.role == Assistant && WellFormed(reply) && |calls| <= 2
  {
    var grounded := GenerateDocAnswer(host, provider, hits, question);
    calls := grounded.calls;
    if grounded.result.Err? {
      return ErrorReply(grounded.result.error), calls;
    }
    var answer, mode, citations;
    if SaysNotFound(grounded.result.value) {
      var topical := GenerateTopicalAnswer(host, provider, question);
      calls := calls + topical.calls;
      if topical.result.Err? {
        return ErrorReply(topical.result.error), calls;
      }
      answer, mode, citations := topical.result.value, OffDoc, [];
    } else {
      answer, mode, citations := grounded.result.value, Doc, Citations(hits);
    }
    reply := Message(Assistant, answer, citations, Some(mode), hits);
  }

  /** A log made of turns: a user message, then its well-formed assistant reply. */
  predicate ValidLog(ms: seq<Message>) {
    && |ms| % 2 == 0
    && (forall k :: 0 <= k < |ms| ==> WellFormed(ms[k]))
    && (forall k :: 0 <= k < |ms| ==> (ms[k].role == User <==> k % 2 == 0))
  }

  /** Appending a question and its well-formed reply keeps the log made of turns. */
  lemma AppendTurnKeepsLog(ms: seq<Message>, question: string, reply: Message)
    requires ValidLog(ms) && reply.role == Assistant && WellFormed(reply)
    ensures ValidLog(ms + [UserMessage(question), reply])
  {
  }

  /** The question the app asks this run: typed input wins; otherwise a
      queued sample question is taken. */
  function Selected(pending: Option<string>, chatInput: Option<string>): (q: Option<string>)
    ensures Truthy(chatInput) ==> q == chatInput
    ensures !Truthy(chatInput) && Truthy(pending) ==> q == pending
    ensures Truthy(q) <==> Truthy(chatInput) || Truthy(pending)
  {
    if Truthy(pending) && !Truthy(chatInput) then pending else chatInput
  }

  /** The distinct refs of a document's chunks in ascending order. */
  function DocumentRefs(chunks: seq<Chunk>): (r: seq<string>)
    ensures StrictlySorted(r)
    ensures forall ref :: ref in r <==> exists k :: 0 <= k < |chunks| && chunks[k].ref == ref
  {
    var refs := seq(|chunks|, k requires 0 <= k < |chunks| => chunks[k].ref);
    assert forall k :: 0 <= k < |chunks| ==> refs[k] == chunks[k].ref;
    SortedSet(refs)
  }

  /** A dispatch or configuration failure reaches the log as an error reply
      and sends no request: an unknown provider name, a missing library or a
      missing key. */
  lemma ConfigurationFailureReply(docId: Option<string>, question: string, provider: string, host: Host, rag: Rag)
    requires Truthy(docId) && rag.load(docId.value).Ok?
    requires rag.retrieve(rag.load(docId.value).value, question, RetrieveCount).Ok?
    requires provider in ProviderNames() ==> !(Installed(host, Select(provider).value) && HasKey(host, Select(provider).value))
    ensures var t := TurnFor(docId, question, provider, host, rag);
      && t.calls == []
      && (provider !in ProviderNames() ==> t.reply == AssistantText(ErrorPrefix + "Unknown provider: " + provider))
      && (provider in ProviderNames() && !Installed(host, Select(provider).value) ==>
            t.reply == AssistantText(ErrorPrefix + MissingLibraryMessage(Select(provider).value)))
      && (provider in ProviderNames() && Installed(host, Select(provider).value) ==>
            t.reply == AssistantText(ErrorPrefix + KeyVariable(Select(provider).value) + " missing in secrets"))
  {
    if provider in ProviderNames() && Installed(host, Select(provider).value) {
      var p := Select(provider).value;
      assert ErrorPrefix + (KeyVariable(p) + " missing in secrets") == ErrorPrefix + KeyVariable(p) + " missing in secrets";
    }
  }

  /** Without an indexed document (or with an empty id) the reply is the fixed
      prompt to upload one, and nothing is loaded, retrieved or generated,
      whatever the collaborators would do. */
  lemma NoDocumentScenario(question: string, provider: string, host: Host, rag: Rag, rag': Rag)
    ensures TurnFor(None, question, provider, host, rag) == TurnFor(Some(""), question, provider, host, rag')
    ensures TurnFor(None, question, provider, host, rag) == Turn(AssistantText("Please upload and index a document first."), [])
  {
  }

  // ---------------------------------------------------------------------------
  // Markdown export

  function RoleLabel(role: Role): string {
    if role == User then "**User:** " else "**Assistant:** "
  }

  /** The lines one message contributes: its labelled content, its distinct
      citations in ascending order when it has any, and an empty line. */
  function MessageLines(m: Message): seq<string> {
    [RoleLabel(m.role) + m.content]
    + (if m.citations != [] then [CitationLine(m.citations)] else [])
    + [""]
  }

  /** `_Citations:_` followed by the distinct citations in ascending order. */
  function CitationLine(citations: seq<string>): string {
    "_Citations:_ " + Join(SortedSet(citations), ", ")
  }

  function MarkdownLines(ms: seq<Message>): seq<string>
    decreases |ms|
  {
    if |ms| == 0 then [] else MarkdownLines(ms[..|ms| - 1]) + MessageLines(ms[|ms| - 1])
  }

  /** Sequence concatenation is associative. Dafny knows this already; the
      lemma hands the instance over explicitly so that the proof of
      `MarkdownLinesConcat` stays cheap on every solver seed. */
  lemma ConcatAssociative(x: seq<string>, y: seq<string>, z: seq<string>)
    ensures (x + y) + z == x + (y + z)
  {
  }

  lemma MarkdownLinesSnoc(ms: seq<Message>, m: Message)
    ensures MarkdownLines(ms + [m]) == MarkdownLines(ms) + MessageLines(m)
  {
    assert (ms + [m])[..|ms|] == ms;
  }

  /** The export of a log is the export of its parts, one after the other. */
  lemma {:induction false} MarkdownLinesConcat(a: seq<Message>, b: seq<Message>)
    ensures MarkdownLines(a + b) == MarkdownLines(a) + MarkdownLines(b)
    decreases |b|
  {
    if |b| == 0 {
      assert a + b == a;
    } else {
      var b', last := b[..|b| - 1], b[|b| - 1];
      assert b == b' + [last];
      assert a + b == (a + b') + [last];
      MarkdownLinesConcat(a, b');
      MarkdownLinesSnoc(a + b', last);
      MarkdownLinesSnoc(b', last);
      ConcatAssociative(MarkdownLines(a), MarkdownLines(b'), MessageLines(last));
    }
  }

  /** Asking a question extends the export by the blocks of the two new messages. */
  lemma ExportAfterTurn(ms: seq<Message>, question: string, reply: Message)
    ensures MarkdownLines(ms + [UserMessage(question), reply])
            == MarkdownLines(ms) + MessageLines(UserMessage(question)) + MessageLines(reply)
  {
    var u := UserMessage(question);
    MarkdownLinesConcat(ms, [u, reply]);
    assert [u, reply][..1] == [u];
    assert [u][..0] == [];
    assert MarkdownLines([u]) == MessageLines(u);
    assert MarkdownLines([u, reply]) == MessageLines(u) + MessageLines(reply);
  }

  /** Each message contributes two lines, three when it has citations; the
      citations line lists each ref once, in ascending order. */
  lemma MessageLinesShape(m: Message)
    ensures var lines := MessageLines(m);
      && |lines| == (if m.citations == [] then 2 else 3)
      && lines[0] == RoleLabel(m.role) + m.content && lines[|lines| - 1] == ""
      && (m.citations != [] ==>
            exists refs :: lines[1] == "_Citations:_ " + Join(refs, ", ")
                           && StrictlySorted(refs) && (forall r :: r in refs <==> r in m.citations))
  {
    if m.citations != [] {
      var refs := SortedSet(m.citations);
      assert MessageLines(m)[1] == CitationLine(m.citations);
    }
  }

  // ---------------------------------------------------------------------------
  // The session

  class ChatSession {
    var docId: Option<string>
    var docName: Option<string>
    var docRefs: seq<string>
    var messages: seq<Message>
    var pendingQuestion: Option<string>

    /** The log is a sequence of turns, each a user message followed by its
        well-formed assistant reply. */
    ghost predicate Valid()
      reads this
    {
      ValidLog(messages)
    }

    /** `_init_state` on a fresh session. */
    constructor ()
      ensures Valid()
      ensures docId == None && docName == None && docRefs == [] && messages == [] && pendingQuestion == None
    {
      docId := None;
      docName := None;
      docRefs := [];
      messages := [];
      pendingQuestion := None;
    }

    /** The Clear Chat button. */
    method ClearChat()
      requires Valid()
      modifies this`messages
      ensures Valid() && messages == []
    {
      messages := [];
    }

    /** The Clear Doc button. */
    method ClearDocument()
      requires Valid()
      modifies this`docId, this`docName, this`docRefs
      ensures Valid() && docId == None && docName == None && docRefs == []
    {
      docId := None;
      docName := None;
      docRefs := [];
    }

    /** A sample-question button queues its question. */
    method QueueQuestion(q: string)
      requires Valid()
      modifies this`pendingQuestion
      ensures Valid() && pendingQuestion == Some(q)
    {
      pendingQuestion := Some(q);
    }

    /** The Index document button: `ingest_file` gives the id, then the
        passages are loaded for their refs. A failed ingest changes nothing;
        a failed load leaves the new id and name with the old refs. */
    method IndexDocument(fileName: string, ingested: Result<string>, rag: Rag) returns (failure: Option<Error>)
      requires Valid()
      modifies this`docId, this`docName, this`docRefs
      ensures Valid()
      ensures ingested.Err? ==> failure == Some(ingested.error)
                                && docId == old(docId) && docName == old(docName) && docRefs == old(docRefs)
      ensures ingested.Ok? ==> docId == Some(ingested.value) && docName == Some(fileName)
      ensures ingested.Ok? && rag.load(ingested.value).Err? ==>
                failure == Some(rag.load(ingested.value).error) && docRefs == old(docRefs)
      ensures ingested.Ok? && rag.load(ingested.value).Ok? ==>
                failure == None && docRefs == DocumentRefs(rag.load(ingested.value).value)
    {
      if ingested.Err? {
        return Some(ingested.error);
      }
      var id := ingested.value;
      docId := Some(id);
      docName := Some(fileName);
      var doc := rag.load(id);
      if doc.Err? {
        return Some(doc.error);
      }
      docRefs := DocumentRefs(doc.value);
      failure := None;
    }

    /** `ask_and_answer`: echo the question, then append exactly one
        assistant reply; returns the backend requests made. */
    method AskAndAnswer(question: string, provider: string, host: Host, rag: Rag) returns (calls: seq<Call>)
      requires Valid()
      modifies this`messages
      ensures Valid()
      ensures messages == old(messages) + [UserMessage(question), TurnFor(docId, question, provider, host, rag).reply]
      ensures calls == TurnFor(docId, question, provider, host, rag).calls
    {
      ghost var before := messages;
      messages := messages + [UserMessage(question)];
      var reply: Message;
      calls := [];
      if !Truthy(docId) {
        reply := AssistantText(NoDocumentReply);
      } else {
        var doc := rag.load(docId.value);
        if doc.Err? {
          reply := ErrorReply(doc.error);
        } else {
          var retrieved := rag.retrieve(doc.value, question, RetrieveCount);
          if retrieved.Err? {
            reply := ErrorReply(retrieved.error);
          } else {
            reply, calls := AnswerHits(retrieved.value, question, provider, host);
          }
        }
      }
      messages := messages + [reply];
      assert messages == before + [UserMessage(question), reply];
      AppendTurnKeepsLog(before, question, reply);
    }

    /** Typed input wins; otherwise a queued question is taken
        and the queue emptied. */
    method NextQuestion(chatInput: Option<string>) returns (question: Option<string>)
      requires Valid()
      modifies this`pendingQuestion
      ensures Valid()
      ensures question == Selected(old(pendingQuestion), chatInput)
      ensures pendingQuestion == if Truthy(old(pendingQuestion)) && !Truthy(chatInput) then None else old(pendingQuestion)
    {
      question := chatInput;
      if Truthy(pendingQuestion) && !Truthy(question) {
        question := pendingQuestion;
        pendingQuestion := None;
      }
    }

    /** One run of the chat input: select the question, and
        ask it when it is not empty. */
    method Submit(chatInput: Option<string>, provider: string, host: Host, rag: Rag) returns (calls: seq<Call>)
      requires Valid()
      modifies this`pendingQuestion, this`messages
      ensures Valid()
      ensures var q := Selected(old(pendingQuestion), chatInput);
        && (Truthy(q) ==> messages == old(messages) + [UserMessage(q.value), TurnFor(docId, q.value, provider, host, rag).reply]
                          && calls == TurnFor(docId, q.value, provider, host, rag).calls)
        && (!Truthy(q) ==> messages == old(messages) && calls == [])
      ensures pendingQuestion == if Truthy(old(pendingQuestion)) && !Truthy(chatInput) then None else old(pendingQuestion)
    {
      var question := NextQuestion(chatInput);
      calls := [];
      if Truthy(question) {
        calls := AskAndAnswer(question.value, provider, host, rag);
      }
    }

    /** The Markdown download: one block of lines per message, joined by newlines. */
    method ExportMarkdown() returns (md: string)
      ensures md == Join(MarkdownLines(messages), "\n")
    {
      var lines: seq<string> := [];
      var i := 0;
      while i < |messages|
        invariant 0 <= i <= |messages|
        invariant lines == MarkdownLines(messages[..i])
      {
        var m := messages[i];
        assert messages[..i + 1][..i] == messages[..i];
        ghost var done := lines;
        var role := if m.role == User then "User" else "Assistant";
        assert "**" + role + ":** " == RoleLabel(m.role);
        lines := lines + ["**" + role + ":** " + m.content];
        if m.citations != [] {
          lines := lines + [CitationLine(m.citations)];
        }
        lines := lines + [""];
        assert lines == done + MessageLines(m);
        i := i + 1;
      }
      assert messages[..|messages|] == messages;
      md := Join(lines, "\n");
    }
  }
}
