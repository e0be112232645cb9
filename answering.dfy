/**
 * Answer composition in `ask_candidato_ia` (app.py:56-97): embed the question, retrieve
 * up to three chunks, join them into a context block, wrap context and question in the
 * grounded prompt and ask the chat model. The three external calls are oracles that
 * either return a value or fail (`None`, standing for a raised exception); each failure
 * point maps to a fixed user-facing string.
 */
module Answering {
  import opened Wrappers
  import opened Strings
  import opened VectorStore

  /** The number of documents asked of the store (`n_results=3`, app.py:67). */
  const TopK: nat := 3

  /** The separator between retrieved documents in the context block (app.py:69). */
  const ContextSeparator: string := "\n\n"

  /** The chat model (app.py:88). */
  const CompletionModel: string := "gpt-4o-mini"

  /** The system message sent with every prompt (app.py:90). */
  const SystemInstruction: string := "Eres un asistente de campaña política servicial y preciso."

  /** The phrase whose presence marks a response as unanswered (app.py:81, 174). */
  const UnansweredMarker: string := "No tengo la información detallada"

  /** The exact refusal sentence the prompt tells the model to use (app.py:81). */
  const RefusalSentence: string :=
    "Esa es una excelente pregunta. " + UnansweredMarker + " sobre ese punto, lo consultaré con el equipo de campaña."

  /** Returned when the query embedding or the retrieval raises (app.py:72). */
  const SearchFailure: string := "Error al buscar información."

  /** Returned when the completion call raises (app.py:97). */
  const GenerationFailure: string := "Error al generar la respuesta."

  /** The prompt text up to the context block (app.py:75-78). */
  const PromptOpening: string :=
    "\n    Eres el asistente digital de Javier Montoya. Tu misión es responder preguntas basándote "
    + "ESTRICTA Y ÚNICAMENTE en la siguiente información oficial:\n    ---\n    "

  /** The rule that closes the context block (app.py:78-79). */
  const Divider: string := "\n    ---\n    "

  /** The instruction line after the question, up to the refusal sentence (app.py:80-81). */
  const RefusalLead: string :=
    "\n    Si la información no es suficiente para responder, di EXACTAMENTE: \""

  /** The prompt text after the refusal sentence (app.py:81-83). */
  const PromptClosing: string := "\"\n    RESPUESTA:\n    "

  /** One chat-completion request: model, system message and user message (app.py:87-93). */
  datatype Request = Request(model: string, system: string, user: string)

  /**
   * The three external calls of `ask_candidato_ia`, each returning `None` where the
   * real call raises: the question embedding (input and model), the store's nearest-neighbour
   * query (stored entries, query vector, number of results) and the chat completion.
   */
  datatype Oracles<!V> = Oracles(
    embedQuery: (string, string) -> Option<V>,
    query: (seq<Entry<V>>, V, nat) -> Option<seq<string>>,
    complete: Request -> Option<string>)

  /** `"\n\n".join(documents)`: the retrieved documents, in retrieval order, separated by blank lines. */
  function Context(documents: seq<string>): (context: string)
    ensures forall d :: d in documents ==> Contains(context, d)
    ensures documents != [] ==> StartsWith(context, documents[0])
    ensures documents == [] ==> context == []
  {
    JoinContainsParts(documents, ContextSeparator);
    Join(documents, ContextSeparator)
  }

  /**
   * The grounded prompt of app.py:75-83: the fixed opening, the context block at a fixed
   * offset, the question in double quotes, and the instruction carrying the exact refusal sentence.
   */
  function Prompt(context: string, question: string): string
  {
    Template(PromptOpening, context, Divider, Quoted(question), RefusalLead, RefusalSentence, PromptClosing)
  }

  /** The question as it appears in the prompt: labelled and in double quotes (app.py:79). */
  function Quoted(question: string): string
  {
    "PREGUNTA: \"" + question + "\""
  }

  /** The prompt template with its seven pieces in order. */
  function Template(opening: string, context: string, divider: string, quoted: string,
                    lead: string, refusal: string, closing: string): string
  {
    opening + context + divider + quoted + lead + refusal + closing
  }

  /**
   * The prompt starts with the fixed opening, holds the context block right after it,
   * holds the question in double quotes, and holds the exact refusal sentence.
   */
  lemma PromptContents(context: string, question: string)
    ensures var prompt := Prompt(context, question);
      StartsWith(prompt, PromptOpening)
      && |PromptOpening| + |context| <= |prompt| && prompt[|PromptOpening|..|PromptOpening| + |context|] == context
      && Contains(prompt, Quoted(question))
      && Contains(prompt, RefusalSentence)
  {
    TemplateShape(PromptOpening, context, Divider, Quoted(question), RefusalLead, RefusalSentence, PromptClosing);
  }

  /** What the prompt template guarantees of its pieces, whatever their text. */
  lemma TemplateShape(opening: string, context: string, divider: string, quoted: string,
                      lead: string, refusal: string, closing: string)
    ensures var prompt := Template(opening, context, divider, quoted, lead, refusal, closing);
      StartsWith(prompt, opening)
      && |opening| + |context| <= |prompt| && prompt[|opening|..|opening| + |context|] == context
      && Contains(prompt, quoted) && Contains(prompt, refusal)
  {
    var prompt := Template(opening, context, divider, quoted, lead, refusal, closing);
    ContainsWitness(prompt, quoted, |opening| + |context| + |divider|);
    ContainsWitness(prompt, refusal, |opening| + |context| + |divider| + |quoted| + |lead|);
  }

  /** The completion request for a prompt: the chat model, the system instruction and the prompt as user message. */
  function Completion(prompt: string): (request: Request)
    ensures request.model == CompletionModel && request.system == SystemInstruction && request.user == prompt
  {
    Request(CompletionModel, SystemInstruction, prompt)
  }

  /**
   * The documents retrieved for a question, or `None` when the search step fails: the
   * question embedding raises, there is no collection to query (`None.query` raises too),
   * or the query raises.
   */
  function Retrieve<V>(question: string, collection: Option<seq<Entry<V>>>, oracles: Oracles<V>): (documents: Option<seq<string>>)
    ensures oracles.embedQuery(question, EmbeddingModel).None? ==> documents.None?
    ensures collection.None? ==> documents.None?
    ensures oracles.embedQuery(question, EmbeddingModel).Some? && collection.Some? ==>
      documents == oracles.query(collection.value, oracles.embedQuery(question, EmbeddingModel).value, TopK)
  {
    match oracles.embedQuery(question, EmbeddingModel)
    case None => None
    case Some(vector) =>
      match collection
      case None => None
      case Some(entries) => oracles.query(entries, vector, TopK)
  }

  /** `ask_candidato_ia(pregunta, collection)`: the text shown to the user as the assistant's answer. */
  function Ask<V>(question: string, collection: Option<seq<Entry<V>>>, oracles: Oracles<V>): (answer: string)
    ensures Retrieve(question, collection, oracles).None? ==> answer == SearchFailure
  {
    match Retrieve(question, collection, oracles)
    case None => SearchFailure
    case Some(documents) =>
      var prompt := Prompt(Context(documents), question);
      match oracles.complete(Completion(prompt))
      case None => GenerationFailure
      case Some(text) => text
  }

  /**
   * After a successful search the answer is the model's text for the grounded prompt of the
   * retrieved documents, or `GenerationFailure` when the completion call raises.
   */
  lemma AskAfterSearch<V>(question: string, collection: Option<seq<Entry<V>>>, oracles: Oracles<V>)
    requires Retrieve(question, collection, oracles).Some?
    ensures var request := Completion(Prompt(Context(Retrieve(question, collection, oracles).value), question));
      Ask(question, collection, oracles) ==
        if oracles.complete(request).Some? then oracles.complete(request).value else GenerationFailure
  {
  }

  /**
   * When the search step fails the completion oracle is never consulted: any other
   * completion oracle gives the same answer, `SearchFailure`.
   */
  lemma SearchFailureSkipsCompletion<V>(question: string, collection: Option<seq<Entry<V>>>, oracles: Oracles<V>,
                                        other: Request -> Option<string>)
    requires Retrieve(question, collection, oracles).None?
    ensures Ask(question, collection, oracles.(complete := other)) == Ask(question, collection, oracles) == SearchFailure
  {
    assert Retrieve(question, collection, oracles.(complete := other)) == Retrieve(question, collection, oracles);
  }

  /**
   * The completion oracle sees exactly one request when the search succeeds: the chat model,
   * the system instruction, and a prompt holding the context of the retrieved documents, the
   * quoted question and the refusal sentence. The model's text comes back unchanged.
   */
  lemma AnswerIsModelText<V>(question: string, collection: Option<seq<Entry<V>>>, oracles: Oracles<V>, text: string)
    requires Retrieve(question, collection, oracles).Some?
    requires var documents := Retrieve(question, collection, oracles).value;
      oracles.complete(Completion(Prompt(Context(documents), question))) == Some(text)
    ensures Ask(question, collection, oracles) == text
    ensures var prompt := Prompt(Context(Retrieve(question, collection, oracles).value), question);
      Contains(prompt, RefusalSentence) && Contains(prompt, Quoted(question))
      && forall d :: d in Retrieve(question, collection, oracles).value ==> Contains(prompt, d)
  {
    var documents := Retrieve(question, collection, oracles).value;
    var context := Context(documents);
    var prompt := Prompt(context, question);
    PromptContents(context, question);
    forall d | d in documents ensures Contains(prompt, d) {
      ContainsWitness(prompt, context, |PromptOpening|);
      ContainsTransitive(prompt, context, d);
    }
  }

  /** The refusal sentence carries the unanswered marker. */
  lemma RefusalHasMarker()
    ensures Contains(RefusalSentence, UnansweredMarker)
  {
    ContainsInfix("Esa es una excelente pregunta. ", UnansweredMarker,
                  " sobre ese punto, lo consultaré con el equipo de campaña.");
  }

  /** The search failure string does not carry the unanswered marker, so a failed search is never logged as unanswered. */
  lemma SearchFailureLacksMarker()
    ensures !Contains(SearchFailure, UnansweredMarker)
  {
    assert UnansweredMarker[0] == 'N';
    assert 'N' !in SearchFailure;
    if Contains(SearchFailure, UnansweredMarker) { ContainsFirstChar(SearchFailure, UnansweredMarker); }
  }

  /** The generation failure string does not carry the unanswered marker either. */
  lemma GenerationFailureLacksMarker()
    ensures !Contains(GenerationFailure, UnansweredMarker)
  {
    assert UnansweredMarker[0] == 'N';
    assert 'N' !in GenerationFailure;
    if Contains(GenerationFailure, UnansweredMarker) { ContainsFirstChar(GenerationFailure, UnansweredMarker); }
  }
}
