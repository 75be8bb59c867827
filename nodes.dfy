/** The four nodes of the graph: the router and the three answer nodes
    (agent/agent.py:75-168). Each reads the stripped question, builds one
    prompt, calls the backend once, and returns the input state with one key
    added or overwritten. */
module Nodes {
  import opened Maybe
  import opened Text
  import opened Backend
  import opened Tools
  import opened AgentState
  import opened Routing
  import opened Graphs

  /** Sampling temperatures; they are only passed on to the backend. */
  const RouterTemperature: real := 0.0
  const DirectTemperature: real := 0.2
  const RagTemperature: real := 0.2
  const QuizTemperature: real := 0.3

  /** `(state.get("question") or "").strip()`: a missing or `None` question
      is the empty text, any other is stripped. The stripped text is only
      used for the prompt; it is not written back. */
  function QuestionText(st: State): (q: string)
    ensures st.question == Absent || st.question == Present(None) ==> q == []
  {
    Strip(st.question.GetOr(None).GetOr(""))
  }

  /** A question that is present is stripped: what the nodes use is the text
      `strip` returns for it. */
  lemma QuestionTextIsStripped(st: State, s: string)
    requires st.question == Present(Some(s))
    ensures IsStripOf(QuestionText(st), s)
  {
  }

  // ---------- Prompts ----------

  const RouterIntro: string :=
    "Ты — маршрутизатор запросов. Верни ОДНО слово: "
    + "'direct' если на вопрос можно ответить напрямую; "
    + "'rag' если потребуется внешний контекст; "
  const RouterQuizClause: string :=
    "'quiz' " + "если пользователь просит тест/викторину/вопросы."
  const RouterInstruction: string := RouterIntro + RouterQuizClause
  const QuestionLabel: string := "\n\nВопрос: "
  const AnswerLabel: string := "\nОтвет:"

  /** The classification prompt. */
  function RouterPrompt(q: string): string {
    RouterInstruction + QuestionLabel + q + AnswerLabel
  }

  /** The classification prompt quotes the question. */
  lemma RouterPromptQuotesQuestion(q: string)
    ensures Occurs(RouterPrompt(q), q)
  {
    OccursBetween(RouterInstruction + QuestionLabel, q, AnswerLabel);
  }

  const DirectInstruction: string :=
    "Ответь кратко и по делу, оформи в 1–2 абзаца; при необходимости добавь список.\n\n"
    + "Вопрос: "

  /** The direct prompt: the instruction, then the question, which ends it. */
  function DirectPrompt(q: string): (p: string)
    ensures |q| <= |p| && p[|p| - |q|..] == q
    ensures p[..|p| - |q|] == DirectInstruction
  {
    DirectInstruction + q
  }

  const RagInstruction: string :=
    "Ответь, используя предоставленный контекст. Если в контексте нет ответа — скажи об этом явно.\n\n"
  const ContextLabel: string := "[КОНТЕКСТ]\n"
  const RagQuestionLabel: string := "\n\n[ВОПРОС]\n"
  const RagAnswerLabel: string := "\n\nОтвет:"

  /** The retrieval prompt. */
  function RagPrompt(q: string): string {
    RagInstruction + ContextLabel + RagFetchMock(q) + (RagQuestionLabel + q + RagAnswerLabel)
  }

  /** The retrieval prompt holds the helper's context, unaltered, and the
      question, both verbatim. */
  lemma RagPromptQuotes(q: string)
    ensures Occurs(RagPrompt(q), RagFetchMock(q))
    ensures Occurs(RagPrompt(q), q)
  {
    var context := RagFetchMock(q);
    var before := RagInstruction + ContextLabel;
    var after := RagQuestionLabel + q + RagAnswerLabel;
    OccursBetween(before, context, after);
    OccursBetween(RagQuestionLabel, q, RagAnswerLabel);
    OccursPrepend(before + context, after, q);
  }

  const QuizInstruction: string :=
    "Оформи квиз аккуратно: к каждому вопросу добавь краткую подсказку и критерий оценки.\n\n"
  const QuizFormat: string :=
    "\n\nФормат: список вопросов → ниже к каждому одна подсказка и критерий."

  /** The quiz prompt. */
  function QuizPrompt(topic: string): string {
    QuizInstruction + QuizMakeMock(topic) + QuizFormat
  }

  /** The quiz prompt holds the skeleton for the topic, unaltered. */
  lemma QuizPromptQuotesSkeleton(topic: string)
    ensures Occurs(QuizPrompt(topic), QuizMakeMock(topic))
  {
    OccursBetween(QuizInstruction, QuizMakeMock(topic), QuizFormat);
  }

  /** The router's instruction names the quiz route by its word, so a
      backend that echoes the prompt back gets the quiz route, whatever the
      question. */
  lemma EchoedRouterPromptIsQuiz(q: string)
    ensures ClassifyReply(Some(RouterPrompt(q))) == Quiz
  {
    var w := QuizTokens[0];
    assert RouterQuizClause[..7] == "'quiz' ";
    assert RouterQuizClause[1..5] == w;
    assert OccursAt(RouterQuizClause, w, 1);
    OccursPrepend(RouterIntro, RouterQuizClause, w);
    assert RouterPrompt(q) == RouterInstruction + (QuestionLabel + q + AnswerLabel);
    OccursExtend(RouterInstruction, w, QuestionLabel + q + AnswerLabel);
    assert forall i :: 0 <= i < |w| ==> !IsUpper(w[i]);
    assert Lower(w) == w;
    QuizWordWins(RouterPrompt(q), w, 0);
  }

  // ---------- Nodes ----------

  /** The `router` node. It fails exactly when its one backend call raises;
      otherwise it stores the route of the reply and changes nothing else. */
  function Router(gen: Generate, st: State): (r: Result<State>)
    ensures r.Err? <==> gen(RouterPrompt(QuestionText(st)), RouterTemperature).Raised?
    ensures r.Err? ==> r.error == BackendRaised
    ensures r.Ok? ==> SameExceptRoute(st, r.value) && Extends(st, r.value)
    ensures r.Ok? ==> RouteIsClassified(r.value, gen(RouterPrompt(QuestionText(st)), RouterTemperature))
  {
    match gen(RouterPrompt(QuestionText(st)), RouterTemperature)
    case Raised => Err(BackendRaised)
    case Returned(reply) => Ok(st.(route := Present(RouteName(ClassifyReply(reply)))))
  }

  /** The stored route is the classification of the backend's reply `g`. */
  ghost predicate RouteIsClassified(st: State, g: Generated)
    requires g.Returned?
  {
    st.route == Present(RouteName(ClassifyReply(g.reply)))
  }

  /** What an answer node does with the backend's outcome `g`: it fails
      exactly when the call raised, and otherwise stores the reply, `None`
      included, as the answer and changes nothing else. */
  ghost predicate StoresAnswer(st: State, g: Generated, r: Result<State>) {
    && (r.Err? <==> g.Raised?)
    && (r.Err? ==> r.error == BackendRaised)
    && (r.Ok? ==> SameExceptAnswer(st, r.value) && Extends(st, r.value))
    && (r.Ok? ==> g.Returned? && r.value.answer == Present(g.reply))
  }

  /** The `answer_direct` node. */
  function AnswerDirect(gen: Generate, st: State): (r: Result<State>)
    ensures StoresAnswer(st, gen(DirectPrompt(QuestionText(st)), DirectTemperature), r)
  {
    var q := QuestionText(st);
    match gen(DirectPrompt(q), DirectTemperature)
    case Raised => Err(BackendRaised)
    case Returned(answer) => Ok(st.(answer := Present(answer)))
  }

  /** The `answer_rag` node. */
  function AnswerRag(gen: Generate, st: State): (r: Result<State>)
    ensures StoresAnswer(st, gen(RagPrompt(QuestionText(st)), RagTemperature), r)
  {
    var q := QuestionText(st);
    match gen(RagPrompt(q), RagTemperature)
    case Raised => Err(BackendRaised)
    case Returned(answer) => Ok(st.(answer := Present(answer)))
  }

  /** The `answer_quiz` node. */
  function AnswerQuiz(gen: Generate, st: State): (r: Result<State>)
    ensures StoresAnswer(st, gen(QuizPrompt(QuestionText(st)), QuizTemperature), r)
  {
    var topic := QuestionText(st);
    match gen(QuizPrompt(topic), QuizTemperature)
    case Raised => Err(BackendRaised)
    case Returned(answer) => Ok(st.(answer := Present(answer)))
  }

  /** The prompt and the temperature of the answer node for a route. */
  function AnswerPrompt(r: Route, q: string): string {
    match r
    case Direct => DirectPrompt(q)
    case Rag => RagPrompt(q)
    case Quiz => QuizPrompt(q)
  }

  function AnswerTemperature(r: Route): real {
    match r
    case Direct => DirectTemperature
    case Rag => RagTemperature
    case Quiz => QuizTemperature
  }
}
