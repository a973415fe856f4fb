/** The two answer backends (Gemini and Groq) behind one pair of operations:
    the prompt templates, the client guard, the prompt each answer function
    sends and the name-based dispatch that fails closed. The remote model is
    an abstract function from request to reply; every result carries the list
    of requests actually sent, so that "no call was made" can be stated. */
module Providers {
  import opened Text
  import opened Errors
  import opened Context

  datatype Provider = Gemini | Groq

  /** The names the provider selector offers. */
  function ProviderNames(): seq<string> {
    ["Gemini", "Groq"]
  }

  function Name(p: Provider): string {
    match p
    case Gemini => "Gemini"
    case Groq => "Groq"
  }

  /** The `if provider == ...` chain shared by both dispatchers. */
  function Select(name: string): (r: Result<Provider>)
    ensures r.Ok? <==> name in ProviderNames()
    ensures r.Ok? ==> Name(r.value) == name
    ensures r.Err? ==> r.error == UnknownProvider(name) && ErrorText(r.error) == "Unknown provider: " + name
  {
    if name == "Gemini" then Ok(Gemini)
    else if name == "Groq" then Ok(Groq)
    else Err(UnknownProvider(name))
  }

  /** Every provider is offered under its own name, and selecting that name
      gives the provider back. */
  lemma SelectName(p: Provider)
    ensures Name(p) in ProviderNames() && Select(Name(p)) == Ok(p)
  {
  }

  // ---------------------------------------------------------------------------
  // Prompt templates

  /** The reply the grounded prompt asks for when the excerpts are insufficient. */
  const CanonicalPhrase := "I couldn't find an answer in the document."

  /** The label the topical reply is told to start with. */
  const OffDocLabel := "Off-doc (related):"

  const DocPrompt :=
    "You are a careful assistant. Answer ONLY using the provided DOCUMENT EXCERPTS.\n"
    + "If the excerpts do not contain the answer, say: \"" + CanonicalPhrase + "\"\n"
    + "Always include inline citations like [ref: <page_or_slide_ids>]. Keep answers concise."

  const TopicalPrompt :=
    "You are a helpful assistant. The user's question is on-topic for the uploaded document,\n"
    + "but the document lacks the needed details. Give a concise, correct answer from your general knowledge.\n"
    + "Start your answer with: " + OffDocLabel + " and DO NOT fabricate citations."

  /** The grounded template tells the model to reply with the canonical phrase. */
  lemma DocPromptHasCanonicalPhrase()
    ensures Contains(DocPrompt, CanonicalPhrase)
  {
    var before := "You are a careful assistant. Answer ONLY using the provided DOCUMENT EXCERPTS.\n"
      + "If the excerpts do not contain the answer, say: \"";
    var after := "\"\n" + "Always include inline citations like [ref: <page_or_slide_ids>]. Keep answers concise.";
    assert DocPrompt == before + CanonicalPhrase + after;
    ContainsInfix(before, CanonicalPhrase, after);
  }

  /** The topical template asks for the off-document label. */
  lemma TopicalPromptAsksForLabel()
    ensures Contains(TopicalPrompt, OffDocLabel)
  {
    ContainsInfix(
      "You are a helpful assistant. The user's question is on-topic for the uploaded document,\n"
      + "but the document lacks the needed details. Give a concise, correct answer from your general knowledge.\n"
      + "Start your answer with: ",
      OffDocLabel,
      " and DO NOT fabricate citations.");
  }

  /** The full grounded prompt: the template, a blank line and the assembled context. */
  function DocPromptFor(hits: seq<Hit>, question: string): string {
    DocPrompt + "\n\n" + Assemble(hits, question, MaxContextChars)
  }

  /** The full topical prompt: the template and the raw question. */
  function TopicalPromptFor(question: string): string {
    TopicalPrompt + "\n\nQ: " + question
  }

  /** The question closes both prompts whole, however long the excerpts are. */
  lemma PromptsEndWithQuestion(hits: seq<Hit>, question: string)
    ensures var d, t := DocPromptFor(hits, question), TopicalPromptFor(question);
      && IsPrefix(DocPrompt + "\n\n" + ExcerptsHeader, d)
      && |d| >= |QuestionMarker + question| && d[|d| - |QuestionMarker + question|..] == QuestionMarker + question
      && IsPrefix(TopicalPrompt, t) && t[|t| - |question|..] == question
  {
    var d := DocPromptFor(hits, question);
    assert d == (DocPrompt + "\n\n" + ExcerptsHeader + Excerpts(hits, MaxContextChars)) + (QuestionMarker + question);
  }

  // ---------------------------------------------------------------------------
  // Clients

  /** What the running process offers: which client libraries imported, the
      environment, and the remote model (a reply or a transport error message
      for each request). */
  datatype Host = Host(hasGenai: bool, hasGroq: bool, env: map<string, string>, remote: Call -> Reply)

  /** What the remote model returns for one request: its text, or a transport or API error. */
  datatype Reply = Replied(text: string) | Failed(msg: string)

  datatype Client = Client(provider: Provider, apiKey: string)

  /** One request sent to a backend. */
  datatype Call = Call(client: Client, model: string, prompt: string)

  function Installed(host: Host, p: Provider): bool {
    match p
    case Gemini => host.hasGenai
    case Groq => host.hasGroq
  }

  function KeyVariable(p: Provider): string {
    match p
    case Gemini => "GEMINI_API_KEY"
    case Groq => "GROQ_API_KEY"
  }

  function MissingLibraryMessage(p: Provider): string {
    match p
    case Gemini => "google-genai not installed; add it to requirements.txt"
    case Groq => "groq package not installed; add it to requirements.txt"
  }

  /** `os.getenv(KeyVariable(p))` is truthy. */
  predicate HasKey(host: Host, p: Provider) {
    KeyVariable(p) in host.env && host.env[KeyVariable(p)] != ""
  }

  /** `_gemini_client` / `_groq_client`: the library flag is checked first,
      then the key; a client is built with the key exactly when both pass. */
  function MakeClient(host: Host, p: Provider): (r: Result<Client>)
    ensures r.Ok? <==> Installed(host, p) && HasKey(host, p)
    ensures r.Ok? ==> r.value == Client(p, host.env[KeyVariable(p)])
    ensures !Installed(host, p) ==> r == Err(Configuration(MissingLibraryMessage(p)))
    ensures Installed(host, p) && !HasKey(host, p) ==> r == Err(Configuration(KeyVariable(p) + " missing in secrets"))
  {
    if !Installed(host, p) then Err(Configuration(MissingLibraryMessage(p)))
    else if !HasKey(host, p) then Err(Configuration(KeyVariable(p) + " missing in secrets"))
    else Ok(Client(p, host.env[KeyVariable(p)]))
  }

  /** Without its library a client cannot be built, whatever the environment. */
  lemma LibraryCheckedFirst(host: Host, env: map<string, string>, p: Provider)
    requires !Installed(host, p)
    ensures MakeClient(host.(env := env), p) == MakeClient(host, p)
  {
  }

  // ---------------------------------------------------------------------------
  // Answer functions

  /** A backend result together with the requests sent to obtain it. */
  datatype Generated = Generated(result: Result<string>, calls: seq<Call>)

  function DocModel(p: Provider): string {
    match p
    case Gemini => "gemini-2.5-flash"
    case Groq => "llama-3.1-8b-instant"
  }

  function TopicalModel(p: Provider): string {
    match p
    case Gemini => "gemini-2.5-pro"
    case Groq => "llama-3.3-70b-versatile"
  }

  /** Build the client, send one request, strip the reply. A failing guard
      sends nothing; a transport error is passed on unchanged. */
  function Request(host: Host, p: Provider, model: string, prompt: string): (g: Generated)
    ensures MakeClient(host, p).Err? ==> g == Generated(Err(MakeClient(host, p).error), [])
    ensures MakeClient(host, p).Ok? ==> g.calls == [Call(MakeClient(host, p).value, model, prompt)]
    ensures g.result.Ok? ==> |g.calls| == 1 && host.remote(g.calls[0]).Replied?
                             && g.result.value == Strip(host.remote(g.calls[0]).text)
    ensures g.result.Err? && g.calls != [] ==> host.remote(g.calls[0]).Failed?
                                               && g.result.error == Backend(host.remote(g.calls[0]).msg)
  {
    match MakeClient(host, p)
    case Err(e) => Generated(Err(e), [])
    case Ok(client) =>
      var call := Call(client, model, prompt);
      match host.remote(call)
      case Failed(m) => Generated(Err(Backend(m)), [call])
      case Replied(text) => Generated(Ok(Strip(text)), [call])
  }

  /** `_gemini_doc_answer` / `_groq_doc_answer`: at most one request, to
      provider `p`'s grounded model with the grounded prompt; the answer is
      that request's stripped reply. */
  function DocAnswer(host: Host, p: Provider, hits: seq<Hit>, question: string): (g: Generated)
    ensures |g.calls| <= 1
    ensures forall c :: c in g.calls ==>
              c.client.provider == p && c.model == DocModel(p) && c.prompt == DocPromptFor(hits, question)
    ensures g.result.Ok? ==> |g.calls| == 1 && host.remote(g.calls[0]).Replied?
                             && g.result.value == Strip(host.remote(g.calls[0]).text)
  {
    Request(host, p, DocModel(p), DocPromptFor(hits, question))
  }

  /** `_gemini_topical_answer` / `_groq_topical_answer`: at most one request,
      to provider `p`'s topical model with the topical prompt; the answer is
      that request's stripped reply. */
  function TopicalAnswer(host: Host, p: Provider, question: string): (g: Generated)
    ensures |g.calls| <= 1
    ensures forall c :: c in g.calls ==>
              c.client.provider == p && c.model == TopicalModel(p) && c.prompt == TopicalPromptFor(question)
    ensures g.result.Ok? ==> |g.calls| == 1 && host.remote(g.calls[0]).Replied?
                             && g.result.value == Strip(host.remote(g.calls[0]).text)
  {
    Request(host, p, TopicalModel(p), TopicalPromptFor(question))
  }

  /** `generate_doc_answer`: an unknown name fails before any client is
      built; otherwise at most the one grounded request of that provider is sent. */
  function GenerateDocAnswer(host: Host, name: string, hits: seq<Hit>, question: string): (g: Generated)
    ensures name !in ProviderNames() ==> g == Generated(Err(UnknownProvider(name)), [])
    ensures |g.calls| <= 1
    ensures forall c :: c in g.calls ==>
              Name(c.client.provider) == name && c.model == DocModel(c.client.provider)
              && c.prompt == DocPrompt + "\n\n" + Assemble(hits, question, MaxContextChars)
    ensures g.result.Ok? ==> |g.calls| == 1 && host.remote(g.calls[0]).Replied?
                             && g.result.value == Strip(host.remote(g.calls[0]).text)
  {
    match Select(name)
    case Err(e) => Generated(Err(e), [])
    case Ok(p) => DocAnswer(host, p, hits, question)
  }

  /** `generate_topical_answer`: the same dispatch for the topical request. */
  function GenerateTopicalAnswer(host: Host, name: string, question: string): (g: Generated)
    ensures name !in ProviderNames() ==> g == Generated(Err(UnknownProvider(name)), [])
    ensures |g.calls| <= 1
    ensures forall c :: c in g.calls ==>
              Name(c.client.provider) == name && c.model == TopicalModel(c.client.provider)
              && c.prompt == TopicalPrompt + "\n\nQ: " + question
    ensures g.result.Ok? ==> |g.calls| == 1 && host.remote(g.calls[0]).Replied?
                             && g.result.value == Strip(host.remote(g.calls[0]).text)
  {
    match Select(name)
    case Err(e) => Generated(Err(e), [])
    case Ok(p) => TopicalAnswer(host, p, question)
  }

  /** A name the selector offers reaches its backend: with the library and the
      key present both dispatchers send exactly one request, with that key. */
  lemma OfferedNamesReachBackend(host: Host, name: string, hits: seq<Hit>, question: string)
    requires name in ProviderNames()
    requires Installed(host, Select(name).value) && HasKey(host, Select(name).value)
    ensures var p := Select(name).value;
      && GenerateDocAnswer(host, name, hits, question).calls
           == [Call(Client(p, host.env[KeyVariable(p)]), DocModel(p), DocPromptFor(hits, question))]
      && GenerateTopicalAnswer(host, name, question).calls
           == [Call(Client(p, host.env[KeyVariable(p)]), TopicalModel(p), TopicalPromptFor(question))]
  {
  }
}
