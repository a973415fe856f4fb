/** The fallback policy of the answer path: ask the grounded backend first;
    only when its reply contains the not-found phrase, in any letter case, ask
    the topical backend and label the answer off-document without citations.
    Otherwise the grounded reply is used verbatim and credited to every
    retrieved hit. */
module Orchestrator {
  import opened Text
  import opened Errors
  import opened Context
  import opened Providers

  /** The lower-case phrase whose presence in the grounded reply triggers the fallback. */
  const FallbackTrigger := "couldn't find an answer in the document"

  datatype Mode = Doc | OffDoc

  datatype Answer = Answer(content: string, mode: Mode, citations: seq<string>)

  /** An answer or the exception that stopped it, with the requests sent. */
  datatype Outcome = Outcome(result: Result<Answer>, calls: seq<Call>)

  /** `"couldn't find an answer in the document" in grounded.lower()` */
  predicate SaysNotFound(grounded: string) {
    Contains(Lower(grounded), FallbackTrigger)
  }

  /** `[h["ref"] for h in hits]`: one citation per hit, in hit order, duplicates kept. */
  function Citations(hits: seq<Hit>): seq<string> {
    seq(|hits|, k requires 0 <= k < |hits| => hits[k].ref)
  }

  /** The grounded attempt and, when it says it found nothing, the topical one. */
  function Answering(host: Host, name: string, hits: seq<Hit>, question: string): (o: Outcome)
    ensures |o.calls| <= 2
    ensures name !in ProviderNames() ==> o == Outcome(Err(UnknownProvider(name)), [])
    ensures o.calls != [] ==> o.calls[0].prompt == DocPromptFor(hits, question)
    ensures |o.calls| == 2 ==> host.remote(o.calls[0]).Replied?
                               && SaysNotFound(Strip(host.remote(o.calls[0]).text))
                               && o.calls[1].prompt == TopicalPromptFor(question)
    ensures o.result.Ok? && o.result.value.mode == Doc ==>
              && |o.calls| == 1 && host.remote(o.calls[0]).Replied?
              && o.result.value.content == Strip(host.remote(o.calls[0]).text)
              && !SaysNotFound(o.result.value.content)
              && o.result.value.citations == Citations(hits)
    ensures o.result.Ok? && o.result.value.mode == OffDoc ==>
              && |o.calls| == 2 && host.remote(o.calls[1]).Replied?
              && o.result.value.content == Strip(host.remote(o.calls[1]).text)
              && o.result.value.citations == []
  {
    var g := GenerateDocAnswer(host, name, hits, question);
    match g.result
    case Err(e) => Outcome(Err(e), g.calls)
    case Ok(grounded) =>
      if SaysNotFound(grounded) then
        var t := GenerateTopicalAnswer(host, name, question);
        var result := match t.result
          case Ok(text) => Ok(Answer(text, OffDoc, []))
          case Err(e) => Err(e);
        Outcome(result, g.calls + t.calls)
      else
        Outcome(Ok(Answer(grounded, Doc, Citations(hits))), g.calls)
  }

  /** A grounded reply that contains the trigger in any letter case falls back. */
  lemma FallbackIgnoresCase(grounded: string, u: string)
    requires Contains(grounded, u) && Lower(u) == FallbackTrigger
    ensures SaysNotFound(grounded)
  {
    TriggerIsLowerCase();
    ContainsIgnoringCase(grounded, u, FallbackTrigger);
  }

  /** Conversely, a reply falls back only if some slice of it is the trigger
      up to letter case. */
  lemma FallbackNeedsTrigger(grounded: string) returns (i: nat)
    requires SaysNotFound(grounded)
    ensures i + |FallbackTrigger| <= |grounded| && Lower(grounded[i..i + |FallbackTrigger|]) == FallbackTrigger
  {
    i := ContainsWitness(Lower(grounded), FallbackTrigger);
    LowerSlice(grounded, i, i + |FallbackTrigger|);
  }

  /** In particular a reply containing the canonical phrase in any letter
      case falls back. */
  lemma CanonicalPhraseAnyCase(grounded: string, u: string)
    requires Contains(grounded, u) && Lower(u) == Lower(CanonicalPhrase)
    ensures SaysNotFound(grounded)
  {
    ContainsIgnoringCase(grounded, u, CanonicalPhrase);
    LowerCanonicalHasTrigger();
    ContainsTransitive(Lower(grounded), Lower(CanonicalPhrase), FallbackTrigger);
  }

  /** The lower-cased canonical phrase contains the trigger. */
  lemma LowerCanonicalHasTrigger()
    ensures Contains(Lower(CanonicalPhrase), FallbackTrigger)
  {
    TriggerIsLowerCase();
    CanonicalPhraseAroundTrigger();
    LowerKeepsInfix("I ", FallbackTrigger, ".");
  }

  lemma TriggerIsLowerCase()
    ensures Lower(FallbackTrigger) == FallbackTrigger
  {
  }

  lemma CanonicalPhraseAroundTrigger()
    ensures CanonicalPhrase == "I " + FallbackTrigger + "."
  {
  }

  /** The phrase the grounded prompt asks for is one the orchestrator detects. */
  lemma CanonicalPhraseRoundTrips()
    ensures Contains(DocPrompt, CanonicalPhrase) && SaysNotFound(CanonicalPhrase)
  {
    DocPromptHasCanonicalPhrase();
    assert CanonicalPhrase == [] + CanonicalPhrase + [];
    ContainsInfix([], CanonicalPhrase, []);
    CanonicalPhraseAnyCase(CanonicalPhrase, CanonicalPhrase);
  }

  /** When the grounded reply says nothing was found the topical backend is
      asked with the raw question, and its reply (or its failure) is the outcome. */
  lemma FallbackTakesTopicalPath(host: Host, name: string, hits: seq<Hit>, question: string)
    requires GenerateDocAnswer(host, name, hits, question).result.Ok?
    requires SaysNotFound(GenerateDocAnswer(host, name, hits, question).result.value)
    ensures var o, t := Answering(host, name, hits, question), GenerateTopicalAnswer(host, name, question);
      && o.calls == GenerateDocAnswer(host, name, hits, question).calls + t.calls
      && (t.result.Ok? ==> o.result == Ok(Answer(t.result.value, OffDoc, [])))
      && (t.result.Err? ==> o.result == Err(t.result.error))
  {
  }

  /** Otherwise the grounded reply is the answer, credited to every hit. */
  lemma GroundedAnswerCitesAllHits(host: Host, name: string, hits: seq<Hit>, question: string)
    requires GenerateDocAnswer(host, name, hits, question).result.Ok?
    requires !SaysNotFound(GenerateDocAnswer(host, name, hits, question).result.value)
    ensures var o, g := Answering(host, name, hits, question), GenerateDocAnswer(host, name, hits, question);
      o == Outcome(Ok(Answer(g.result.value, Doc, Citations(hits))), g.calls)
  {
  }

  /** A grounded failure (guard or transport) is passed on with no fallback. */
  lemma GroundedFailureHasNoFallback(host: Host, name: string, hits: seq<Hit>, question: string)
    requires GenerateDocAnswer(host, name, hits, question).result.Err?
    ensures var o, g := Answering(host, name, hits, question), GenerateDocAnswer(host, name, hits, question);
      o == Outcome(Err(g.result.error), g.calls)
  {
  }

  /** A grounded reply shorter than the trigger cannot contain it. */
  lemma ShortReplyIsGrounded(grounded: string)
    requires |grounded| < |FallbackTrigger|
    ensures !SaysNotFound(grounded)
  {
    if SaysNotFound(grounded) {
      ContainsNoLonger(Lower(grounded), FallbackTrigger);
    }
  }

  /** A grounded reply without the not-found phrase is the answer, credited to
      every retrieved hit, after exactly one request. */
  lemma GroundedScenario(host: Host, name: string, hits: seq<Hit>, question: string, reply: string)
    requires name in ProviderNames()
    requires Installed(host, Select(name).value) && HasKey(host, Select(name).value)
    requires var p := Select(name).value;
      host.remote(Call(Client(p, host.env[KeyVariable(p)]), DocModel(p), DocPromptFor(hits, question))) == Replied(reply)
    requires !SaysNotFound(Strip(reply))
    ensures var o := Answering(host, name, hits, question);
      o.result == Ok(Answer(Strip(reply), Doc, Citations(hits))) && |o.calls| == 1
  {
  }

  /** The reply "Revenue grew 12%. [ref: page_2]" to a question about a single
      hit on page_2 is a grounded answer kept verbatim and cited as page_2. */
  lemma CitedReplyIsKept()
    ensures var reply := "Revenue grew 12%. [ref: page_2]";
      Strip(reply) == reply && !SaysNotFound(reply)
      && Citations([Hit("1", "page_2", "Revenue grew 12%.")]) == ["page_2"]
  {
    var reply := "Revenue grew 12%. [ref: page_2]";
    assert reply[0] == 'R' && reply[|reply| - 1] == ']';
    StripUnpadded(reply);
    ShortReplyIsGrounded(reply);
  }

  /** A grounded reply that is the canonical phrase sends the raw question to
      the topical backend; the topical reply is the off-document answer. */
  lemma OffDocScenario(host: Host, name: string, hits: seq<Hit>, question: string, topical: string)
    requires name in ProviderNames()
    requires Installed(host, Select(name).value) && HasKey(host, Select(name).value)
    requires var p := Select(name).value; var client := Client(p, host.env[KeyVariable(p)]);
      && host.remote(Call(client, DocModel(p), DocPromptFor(hits, question))) == Replied(CanonicalPhrase)
      && host.remote(Call(client, TopicalModel(p), TopicalPromptFor(question))) == Replied(topical)
    ensures var o := Answering(host, name, hits, question);
      o.result == Ok(Answer(Strip(topical), OffDoc, [])) && |o.calls| == 2
  {
    var p := Select(name).value;
    OfferedNamesReachBackend(host, name, hits, question);
    CanonicalPhraseIsStripped();
    CanonicalPhraseRoundTrips();
    assert GenerateDocAnswer(host, name, hits, question).result == Ok(CanonicalPhrase);
    assert GenerateTopicalAnswer(host, name, question).result == Ok(Strip(topical));
  }

  lemma CanonicalPhraseIsStripped()
    ensures Strip(CanonicalPhrase) == CanonicalPhrase
  {
    assert CanonicalPhrase[0] == 'I' && CanonicalPhrase[|CanonicalPhrase| - 1] == '.';
    StripUnpadded(CanonicalPhrase);
  }
}
