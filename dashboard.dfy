/**
 * The per-session state behind the chat and the campaign dashboard (app.py:99-110,
 * 144-175): the conversation history, the five topic counters and the log of questions
 * the assistant could not answer, and the update that one question makes to all three.
 */
module Dashboard {
  import opened Wrappers
  import opened Strings
  import opened VectorStore
  import opened Answering

  /** Who wrote a chat message (`"user"` or `"assistant"`). */
  datatype Role = User | Assistant

  /** One entry of `st.session_state.messages`. */
  datatype Message = Message(role: Role, content: string)

  /** The five topics of the dashboard. */
  datatype Topic = Seguridad | Empleo | Turismo | Agro | Corrupcion

  /** The topics in the order of the initial map (app.py:108). */
  const Topics: seq<Topic> := [Seguridad, Empleo, Turismo, Agro, Corrupcion]

  /** The key set of the topic map. */
  const AllTopics: set<Topic> := {Seguridad, Empleo, Turismo, Agro, Corrupcion}

  /** The ordered list and the key set name the same five topics, each once, and every topic is among them. */
  lemma TopicsAreAllTopics(t: Topic)
    ensures t in Topics && t in AllTopics
    ensures |Topics| == |AllTopics| == 5
    ensures forall i, j :: 0 <= i < j < |Topics| ==> Topics[i] != Topics[j]
  {
  }

  /** The dictionary key under which app.py stores a topic's counter (app.py:108). */
  function Name(topic: Topic): string
  {
    match topic
    case Seguridad => "Seguridad"
    case Empleo => "Empleo"
    case Turismo => "Turismo"
    case Agro => "Agro"
    case Corrupcion => "Corrupción"
  }

  /** The five keys are distinct strings, so the map keyed by topics is the dictionary keyed by names. */
  lemma NamesDistinct(a: Topic, b: Topic)
    ensures Name(a) == Name(b) <==> a == b
  {
  }

  /** The initial topic counters, all zero (app.py:108). */
  function InitialTally(): (counts: map<Topic, nat>)
    ensures counts.Keys == AllTopics && forall t :: t in counts ==> counts[t] == 0
  {
    map t | t in AllTopics :: 0
  }

  /** The keywords that count a question under a topic (app.py:162-170). */
  function Keywords(topic: Topic): seq<string>
  {
    match topic
    case Seguridad => ["seguridad", "policía", "drones", "hurto"]
    case Empleo => ["empleo", "trabajo", "jóvenes", "emprendimiento"]
    case Turismo => ["turismo", "salento", "filandia", "viajes"]
    case Agro => ["agro", "campo", "cafeteros", "agricultores"]
    case Corrupcion => ["corrupción", "transparencia", "robar"]
  }

  /** `any(keyword in lowered for keyword in Keywords(topic))`. */
  predicate Mentions(topic: Topic, lowered: string)
  {
    exists k :: k in Keywords(topic) && Contains(lowered, k)
  }

  /**
   * The topic map after one question: each counter whose topic the lowercased question
   * mentions rises by exactly one, every other counter keeps its value, and no key is
   * added or removed.
   */
  function Tallied(counts: map<Topic, nat>, lowered: string): (r: map<Topic, nat>)
    ensures r.Keys == counts.Keys
    ensures forall t :: t in counts ==> counts[t] <= r[t] <= counts[t] + 1
    ensures forall t :: t in counts ==> (r[t] == counts[t] + 1 <==> Mentions(t, lowered))
  {
    map t | t in counts :: if Mentions(t, lowered) then counts[t] + 1 else counts[t]
  }

  /** One topic's check: its counter rises by one if the question mentions it, and nothing else changes. */
  function Bump(counts: map<Topic, nat>, topic: Topic, lowered: string): (r: map<Topic, nat>)
    requires topic in counts
    ensures r.Keys == counts.Keys
    ensures r[topic] == if Mentions(topic, lowered) then counts[topic] + 1 else counts[topic]
    ensures forall u :: u in counts && u != topic ==> r[u] == counts[u]
  {
    if Mentions(topic, lowered) then counts[topic := counts[topic] + 1] else counts
  }

  /** The five checks one after another, in the source's order, give the tallied map. */
  lemma TalliedInSteps(counts: map<Topic, nat>, lowered: string)
    requires counts.Keys == AllTopics
    ensures var m1 := Bump(counts, Seguridad, lowered);
      var m2 := Bump(m1, Empleo, lowered);
      var m3 := Bump(m2, Turismo, lowered);
      var m4 := Bump(m3, Agro, lowered);
      Bump(m4, Corrupcion, lowered) == Tallied(counts, lowered)
  {
    var m1 := Bump(counts, Seguridad, lowered);
    var m2 := Bump(m1, Empleo, lowered);
    var m3 := Bump(m2, Turismo, lowered);
    var m4 := Bump(m3, Agro, lowered);
    var m5 := Bump(m4, Corrupcion, lowered);
    var r := Tallied(counts, lowered);
    forall t | t in r ensures m5[t] == r[t] {
      match t
      case Seguridad =>
      case Empleo =>
      case Turismo =>
      case Agro =>
      case Corrupcion =>
    }
  }

  /** The sum of the counters of `topics` (`sum(temas.values())` for the five topics, app.py:187). */
  function Total(counts: map<Topic, nat>, topics: seq<Topic>): nat
    requires forall t :: t in topics ==> t in counts
  {
    if topics == [] then 0 else counts[topics[0]] + Total(counts, topics[1..])
  }

  /** The topics among `topics` that the lowercased question mentions, in order. */
  function Matched(topics: seq<Topic>, lowered: string): (matched: seq<Topic>)
    ensures |matched| <= |topics|
    ensures forall t :: t in matched <==> t in topics && Mentions(t, lowered)
    ensures (forall i, j :: 0 <= i < j < |topics| ==> topics[i] != topics[j]) ==>
      forall i, j :: 0 <= i < j < |matched| ==> matched[i] != matched[j]
  {
    if topics == [] then []
    else (if Mentions(topics[0], lowered) then [topics[0]] else []) + Matched(topics[1..], lowered)
  }

  /** One question raises the total by the number of topics it mentions (at most once each). */
  lemma {:induction false} TallyTotal(counts: map<Topic, nat>, lowered: string, topics: seq<Topic>)
    requires forall t :: t in topics ==> t in counts
    ensures Total(Tallied(counts, lowered), topics) == Total(counts, topics) + |Matched(topics, lowered)|
  {
    if topics != [] {
      TallyTotal(counts, lowered, topics[1..]);
    }
  }

  /** The dashboard total grows by at most five per question, and by none for a question on no topic. */
  lemma TallyTotalBounds(counts: map<Topic, nat>, lowered: string)
    requires counts.Keys == AllTopics
    ensures Total(counts, Topics) <= Total(Tallied(counts, lowered), Topics) <= Total(counts, Topics) + 5
    ensures (forall t :: t in Topics ==> !Mentions(t, lowered)) ==> Tallied(counts, lowered) == counts
  {
    TallyTotal(counts, lowered, Topics);
  }

  /**
   * A question whose lowercased text contains any keyword of a topic raises that topic's
   * counter by exactly one, whatever else it mentions.
   */
  lemma KeywordCounted(counts: map<Topic, nat>, topic: Topic, keyword: string, lowered: string)
    requires topic in counts && keyword in Keywords(topic) && Contains(lowered, keyword)
    ensures Tallied(counts, lowered)[topic] == counts[topic] + 1
  {
    assert Mentions(topic, lowered);
  }

  /** Every question containing "seguridad" is counted under Seguridad. */
  lemma SecurityKeywordCounted(counts: map<Topic, nat>, lowered: string)
    requires Seguridad in counts && Contains(lowered, "seguridad")
    ensures Tallied(counts, lowered)[Seguridad] == counts[Seguridad] + 1
  {
    KeywordCounted(counts, Seguridad, "seguridad", lowered);
  }

  /** The example question "¿qué propone sobre seguridad?" is counted under Seguridad. */
  lemma SecurityQuestionCounted()
    ensures Mentions(Seguridad, "¿qué propone sobre seguridad?")
  {
    var q := "¿qué propone sobre seguridad?";
    assert q[19..28] == "seguridad";
    ContainsWitness(q, "seguridad", 19);
    assert "seguridad" in Keywords(Seguridad);
  }

  /** "trabajo en el campo" mentions Empleo, through the keyword "trabajo". */
  lemma WorkQuestionCounted()
    ensures Mentions(Empleo, "trabajo en el campo")
  {
    var q := "trabajo en el campo";
    assert q[..7] == "trabajo";
    ContainsWitness(q, "trabajo", 0);
    assert "trabajo" in Keywords(Empleo);
  }

  /** "trabajo en el campo" mentions Agro, through the keyword "campo". */
  lemma FieldQuestionCounted()
    ensures Mentions(Agro, "trabajo en el campo")
  {
    var q := "trabajo en el campo";
    assert q[14..19] == "campo";
    ContainsWitness(q, "campo", 14);
    assert "campo" in Keywords(Agro);
  }

  /** The five checks are independent: "trabajo en el campo" counts under both Empleo and Agro. */
  lemma TwoTopicsCounted(counts: map<Topic, nat>)
    requires counts.Keys == AllTopics
    ensures var r := Tallied(counts, "trabajo en el campo");
      r[Empleo] == counts[Empleo] + 1 && r[Agro] == counts[Agro] + 1
  {
    WorkQuestionCounted();
    FieldQuestionCounted();
  }

  /** The unanswered-question log after one answer: the question is appended iff the answer carries the marker. */
  function Logged(log: seq<string>, question: string, response: string): seq<string>
  {
    if Contains(response, UnansweredMarker) then log + [question] else log
  }

  /**
   * The refusal sentence is always logged, and neither failure string ever is: a question
   * lands in the log when the model declined it, not when a service call failed.
   */
  lemma LoggedAnswers(log: seq<string>, question: string)
    ensures Logged(log, question, RefusalSentence) == log + [question]
    ensures Logged(log, question, SearchFailure) == log
    ensures Logged(log, question, GenerationFailure) == log
  {
    RefusalHasMarker();
    SearchFailureLacksMarker();
    GenerationFailureLacksMarker();
  }

  /** Two appends, one after the other, append the pair. */
  lemma AppendTwo(history: seq<Message>, first: Message, second: Message)
    ensures history + [first] + [second] == history + [first, second]
  {
  }

  /** The state that `st.session_state` keeps across reruns of one browser session. */
  class Session {
    var messages: seq<Message>
    var temas: map<Topic, nat>
    var oportunidades: seq<string>

    /** The topic map always has exactly the five topics as keys. */
    predicate Valid()
      reads this
    {
      temas.Keys == AllTopics
    }

    /** The initial session state (app.py:103-110): no messages, all counters zero, an empty log. */
    constructor ()
      ensures Valid()
      ensures messages == [] && temas == InitialTally() && oportunidades == []
      ensures forall t :: t in temas ==> temas[t] == 0
    {
      messages := [];
      temas := InitialTally();
      oportunidades := [];
    }

    /** One keyword check (app.py:162-163, and likewise 164-171): the topic's counter rises if the question mentions it. */
    method CheckTopic(topic: Topic, lowered: string)
      requires Valid()
      modifies this
      ensures Valid()
      ensures temas == Bump(old(temas), topic, lowered)
      ensures messages == old(messages) && oportunidades == old(oportunidades)
    {
      if Mentions(topic, lowered) {
        temas := temas[topic := temas[topic] + 1];
      }
    }

    /** The five keyword checks on the lowercased question (app.py:162-171). */
    method Tally(lowered: string)
      requires Valid()
      modifies this
      ensures Valid()
      ensures temas == Tallied(old(temas), lowered)
      ensures messages == old(messages) && oportunidades == old(oportunidades)
    {
      CheckTopic(Seguridad, lowered);
      CheckTopic(Empleo, lowered);
      CheckTopic(Turismo, lowered);
      CheckTopic(Agro, lowered);
      CheckTopic(Corrupcion, lowered);
      TalliedInSteps(old(temas), lowered);
    }

    /** The unanswered-question log (app.py:174-175): the question is appended iff the response carries the marker. */
    method LogIfUnanswered(question: string, response: string)
      modifies this
      ensures oportunidades == Logged(old(oportunidades), question, response)
      ensures messages == old(messages) && temas == old(temas)
    {
      if Contains(response, UnansweredMarker) {
        oportunidades := oportunidades + [question];
      }
    }

    /**
     * One submitted question (app.py:144-175): record it, ask the assistant, record the
     * answer, update the topic counters on the lowercased question and log the question
     * if the answer is the refusal. `lower` stands for Python's `str.lower`.
     */
    method HandleQuestion<V>(question: string, collection: Collection?<V>, oracles: Oracles<V>,
                             lower: string -> string) returns (response: string)
      requires Valid()
      modifies this
      ensures Valid()
      ensures response == Ask(question, if collection == null then None else Some(collection.entries), oracles)
      ensures messages == old(messages) + [Message(User, question), Message(Assistant, response)]
      ensures temas == Tallied(old(temas), lower(question))
      ensures oportunidades == Logged(old(oportunidades), question, response)
    {
      messages := messages + [Message(User, question)];
      var index := if collection == null then None else Some(collection.entries);
      response := Ask(question, index, oracles);
      AppendTwo(old(messages), Message(User, question), Message(Assistant, response));
      messages := messages + [Message(Assistant, response)];
      var lowered := lower(question);
      Tally(lowered);
      LogIfUnanswered(question, response);
    }
  }
}
