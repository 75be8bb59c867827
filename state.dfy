/** The execution state threaded through the graph (`AgentState`,
    agent/agent.py:43-48): a dictionary whose four keys may each be missing. */
module AgentState {
  import opened Maybe

  /** The three routes the router can choose. */
  datatype Route = Direct | Rag | Quiz

  /** The text the router stores for a route. */
  function RouteName(r: Route): string {
    match r
    case Direct => "direct"
    case Rag => "rag"
    case Quiz => "quiz"
  }

  /** The state. `route` is kept as text, as in the dictionary, so that values
      the router never writes can be represented; a stored `None` route is not,
      since no node stores one. `question` and `answer` may
      hold `None`: the nodes guard the question with `or ""`, and an answer
      is whatever the backend returned. */
  datatype State = State(
    question: Entry<Option<string>>,
    route: Entry<string>,
    answer: Entry<Option<string>>,
    meta: Entry<map<string, string>>)

  /** The state a run starts from: `{"question": question}`. */
  function Seed(question: Option<string>): State {
    State(Present(question), Absent, Absent, Absent)
  }

  /** `b` has every key that `a` has: no field was removed. */
  predicate Extends(a: State, b: State) {
    && (a.question.Present? ==> b.question.Present?)
    && (a.route.Present? ==> b.route.Present?)
    && (a.answer.Present? ==> b.answer.Present?)
    && (a.meta.Present? ==> b.meta.Present?)
  }

  /** Every field other than `route` is the same in `a` and `b`. */
  predicate SameExceptRoute(a: State, b: State) {
    a.question == b.question && a.answer == b.answer && a.meta == b.meta
  }

  /** Every field other than `answer` is the same in `a` and `b`. */
  predicate SameExceptAnswer(a: State, b: State) {
    a.question == b.question && a.route == b.route && a.meta == b.meta
  }

  function MergeEntry<T>(prev: Entry<T>, upd: Entry<T>): Entry<T> {
    if upd.Present? then upd else prev
  }

  /** The state after a node returns `upd`: every key the node returned takes
      the returned value, every other key keeps its previous value. */
  function Merge(prev: State, upd: State): (r: State)
    ensures upd.question.Present? ==> r.question == upd.question
    ensures upd.question.Absent? ==> r.question == prev.question
    ensures upd.route.Present? ==> r.route == upd.route
    ensures upd.route.Absent? ==> r.route == prev.route
    ensures upd.answer.Present? ==> r.answer == upd.answer
    ensures upd.answer.Absent? ==> r.answer == prev.answer
    ensures upd.meta.Present? ==> r.meta == upd.meta
    ensures upd.meta.Absent? ==> r.meta == prev.meta
  {
    State(
      MergeEntry(prev.question, upd.question),
      MergeEntry(prev.route, upd.route),
      MergeEntry(prev.answer, upd.answer),
      MergeEntry(prev.meta, upd.meta))
  }

  /** Merging never removes a key: the merged state has every key of both. */
  lemma MergeKeepsKeys(prev: State, upd: State)
    ensures Extends(prev, Merge(prev, upd)) && Extends(upd, Merge(prev, upd))
  {
  }

  /** A node that returns the whole state (`{**state, key: value}`) leaves the
      merge nothing to do: what it returned is the new state. */
  lemma {:induction false} MergeOfExtension(prev: State, upd: State)
    requires Extends(prev, upd)
    ensures Merge(prev, upd) == upd
  {
    assert MergeEntry(prev.question, upd.question) == upd.question;
    assert MergeEntry(prev.route, upd.route) == upd.route;
    assert MergeEntry(prev.answer, upd.answer) == upd.answer;
    assert MergeEntry(prev.meta, upd.meta) == upd.meta;
  }
}
