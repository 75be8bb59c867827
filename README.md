# Routing agent: a Dafny model

This project models the routing agent of `agent/agent.py`. The agent is a
four-node state graph. A `router` node asks a language model to classify the
question as `direct`, `rag` or `quiz`. A conditional edge then picks one of
three answer nodes: `answer_direct`, `answer_rag` or `answer_quiz`. The chosen
node builds a prompt, calls the model once, and stores the reply as `answer`.
`run` starts the graph from `{"question": question}` and returns the final
`answer`.

The model is written on values throughout, as the source is:

- The language model is a total function `Generate = (prompt, temperature) ->
  Generated` (module `Backend`). Its outcome is either `Raised` or
  `Returned(reply)`. The reply may be `None`, because the source guards it
  with `or ""`. Every lemma that speaks about a run holds for every backend.
- The state dictionary (`TypedDict(total=False)`) is a record with one
  `Entry` per key, so a key can be missing (module `AgentState`). Merging a
  node's output into the state follows last-value channels: a key the node
  returned takes the returned value, and every other key keeps its value.
  `question` may hold `None`: `run` stores whatever it is given, and every
  node reads the key with `(state.get("question") or "").strip()`, so a
  missing and a `None` question both become the empty text.
- The string operations the agent relies on are written out and specified
  (module `Text`): `strip`, `lower`, the `in` substring test, `any(...)` and
  `s[:n]`. The module also holds `Lines`, a model of `split("\n")` that the
  agent never calls: it is this model's own means of stating that the quiz
  skeleton literal (agent/agent.py:34-39) is a header followed by three
  numbered lines.
- The two stand-in tools are modelled in module `Tools`; the prompts and the
  four nodes in `Nodes`; route classification and `_route_edge` in `Routing`.
- The graph machinery is a small interpreter (module `Graphs`). It handles
  named nodes, static and conditional edges, the end marker, merging after
  each step, and a step limit of 25 (langgraph's default recursion limit).
  The agent's topology and `run` are in module `Workflow`.

The central results:

- `WalkIsPipeline`: with two steps or more to spend, walking the graph is
  exactly the router followed by the one answer node its route selects.
- `Run`: for every backend and every question, `run` returns the backend's
  reply to the answer prompt of the route chosen for the stripped question,
  and it fails exactly when one of the two backend calls raises. A run never
  hits the step limit or a missing node.
- Classification is characterised both ways. `Classify` states each route
  as an if-and-only-if over which token lists occur in the normalised reply.
  `QuizWordWins` and `RagWordWithoutQuizWord` work from the raw reply, in any
  letter case and with any surrounding whitespace.

Two consequences of the code are worth stating plainly:

- `router` calls `generate` with no `try` (agent/agent.py:92), so a raising
  backend ends the run; it is not turned into the `direct` route (`Router`,
  `Run`).
- The retrieval tokens are `rag`, `контекст` and `поиск`
  (agent/agent.py:96). A backend reply such as "need context search" holds
  none of them and no quiz token, so it is classified `direct`.

## Model

| member | source | states |
|---|---|---|
| Text.TrimStart | agent/agent.py:81 | the result is a suffix of the input, everything cut off is whitespace, and the result does not start with whitespace |
| Text.TrimEnd | agent/agent.py:81 | the result is a prefix of the input, everything cut off is whitespace, and the result does not end with whitespace |
| Text.Strip | agent/agent.py:81 | the result is a contiguous piece of the input with only whitespace around it and none at its own ends (`IsStripOf`) |
| Text.StripOfIsUnique | agent/agent.py:81 | that description of `strip` determines its result: any two texts meeting it for the same input are equal |
| Text.StripAllSpace | agent/agent.py:92 | a text that is all whitespace strips to the empty text |
| Text.StripKeepsOccurrence | agent/agent.py:92-96 | a non-empty word without whitespace that occurs in a text still occurs after stripping |
| Text.StripAtKeepsOccurrence | agent/agent.py:92-96 | the same, for a given position of the stripped piece |
| Text.Contains | agent/agent.py:94 | Python's `w in s`: true exactly when `w` occurs in `s` at some position |
| Text.ContainsAny | agent/agent.py:94-96 | Python's `any(w in s for w in ws)`: true exactly when some word of the list occurs in `s` |
| Text.CharAt | agent/agent.py:94 | the characters of an occurrence of a word are the word's characters |
| Text.OccursBetween | agent/agent.py:91 | a text occurs inside anything built as prefix + text + suffix |
| Text.OccursExtend | agent/agent.py:138-139 | an occurrence survives appending |
| Text.OccursPrepend | agent/agent.py:138-139 | an occurrence survives prepending |
| Text.LowerChar | agent/agent.py:92 | A–Z and А–Я move up by 32 code points, Ѐ–Џ by 80, every other character is unchanged; the result is never an upper-case letter, and whitespace stays whitespace |
| Text.UpperChar | agent/agent.py:92 | every lower-case letter of the two alphabets has an upper-case form that lowers back to it |
| Text.Lower | agent/agent.py:92 | lowering keeps the length and lowers each character by `LowerChar` |
| Text.CaseVariantLowers | agent/agent.py:92-96 | any spelling of a lower-case word with some of its letters in upper case lowers to that word |
| Text.LowerSlice | agent/agent.py:92 | lowering commutes with slicing |
| Text.LowerKeepsOccurrence | agent/agent.py:92-96 | if a word occurs in a text, the lowered word occurs in the lowered text |
| Text.Take | agent/agent.py:22 | `s[:n]` has `min(n, len(s))` characters and is a prefix of `s` |
| Text.LinesFrom | agent/agent.py:34-39 | splitting at line breaks gives at least one line (the model's own line split, used to describe the skeleton literal) |
| Text.LinesOfOneLine | agent/agent.py:34-39 | a text without a line break is one line |
| Text.LinesJoin | agent/agent.py:34-39 | splitting `a + "\n" + b` gives the lines of `a` followed by the lines of `b` |
| Tools.RagFetchMock | agent/agent.py:12-23 | the context starts with the fixed head and ends with `...`; what lies between is exactly the first 80 characters of the question |
| Tools.RagContextBounded | agent/agent.py:20-23 | a context is at most the fixed texts plus 80 characters long, however long the question |
| Tools.RagContextQuotesShortQuestion | agent/agent.py:22 | a question of at most 80 characters appears whole in the context |
| Tools.RagContextDependsOnPrefixOnly | agent/agent.py:22 | two questions get the same context if and only if their first 80 characters agree |
| Tools.QuizItem1Shape | agent/agent.py:36 | the first skeleton question is one line numbered `1)` |
| Tools.QuizItem2Shape | agent/agent.py:37 | the second skeleton question is one line numbered `2)` |
| Tools.QuizItem3Shape | agent/agent.py:38 | the third skeleton question is one line numbered `3)` |
| Tools.LinesOfFour | agent/agent.py:34-39 | a text joined by line breaks to three one-line texts splits into its own lines followed by those three |
| Tools.QuizMakeMock | agent/agent.py:26-39 | the skeleton is the header's lines followed by exactly three lines, numbered `1)`, `2)` and `3)`; for a one-line topic it is exactly four lines |
| Tools.QuizSkeletonNamesTopic | agent/agent.py:35 | the skeleton contains the topic verbatim |
| AgentState.Merge | agent/agent.py:43-48 | for each of the four keys: a key present in the update takes the update's value, and a key the update lacks keeps its previous value |
| AgentState.MergeKeepsKeys | agent/agent.py:43-48 | the merged state has every key of the previous state and of the update |
| AgentState.MergeOfExtension | agent/agent.py:103 | when a node returns the whole state with keys added or overwritten, merging its output yields exactly that output |
| Routing.Normalize | agent/agent.py:92 | `(reply or "").strip().lower()` has no whitespace at either end and no upper-case letter of the modelled alphabets, and is empty for a `None` reply; the model's result is no longer than the reply, which Python's need not be (see `Text.Lower` under "## Left out") |
| Routing.Classify | agent/agent.py:94-99 | the route is `quiz` iff a quiz word occurs; `rag` iff no quiz word but a retrieval word occurs; `direct` iff neither occurs |
| Routing.ClassifyReply | agent/agent.py:92-99 | the route of a raw reply is `quiz` iff its normalised text holds a quiz word, `rag` iff it holds a retrieval word and no quiz word, and `direct` for a `None` reply |
| Routing.TokensArePlainWords | agent/agent.py:94-96 | every token is non-empty, holds no whitespace and is already lower case |
| Routing.BlankReplyIsDirect | agent/agent.py:92-99 | a missing, empty or all-whitespace reply gives the `direct` route |
| Routing.TokenSurvivesNormalize | agent/agent.py:92-96 | a word of the raw reply whose lower-case form is a token is still found after `strip().lower()` |
| Routing.QuizWordWins | agent/agent.py:92-95 | a quiz word anywhere in the raw reply, in any letter case, selects `quiz`, whatever retrieval words are also there |
| Routing.RagWordWithoutQuizWord | agent/agent.py:92-97 | a retrieval word in the raw reply, in any letter case, selects `rag` unless the normalised reply holds a quiz word |
| Routing.RouteEdge | agent/agent.py:172-179 | the next node is always an answer node; it is `answer_rag` iff the stored route is `"rag"`, `answer_quiz` iff it is `"quiz"`, and `answer_direct` otherwise (missing or unknown route) |
| Routing.RouteEdgeNeverLoops | agent/agent.py:172-179 | the edge never leads back to the router |
| Routing.RouteEdgeOfStoredRoute | agent/agent.py:103 | after the router stores a route, the edge leads to that route's answer node |
| Nodes.QuestionText | agent/agent.py:81 | a missing or `None` question is the empty text |
| Nodes.QuestionTextIsStripped | agent/agent.py:81 | a present question is used stripped, as `strip` describes it |
| Nodes.RouterPromptQuotesQuestion | agent/agent.py:85-91 | the classification prompt contains the stripped question verbatim |
| Nodes.DirectPrompt | agent/agent.py:115-118 | the direct prompt is the fixed instruction followed by the question, which ends it |
| Nodes.RagPromptQuotes | agent/agent.py:135-141 | the retrieval prompt contains the helper's context unaltered and the question verbatim |
| Nodes.QuizPromptQuotesSkeleton | agent/agent.py:158-163 | the quiz prompt contains the skeleton for the topic unaltered |
| Nodes.EchoedRouterPromptIsQuiz | agent/agent.py:85-95 | the routing instruction itself contains the word `quiz`, so a reply that echoes the prompt is classified `quiz` |
| Nodes.Router | agent/agent.py:75-103 | the node fails iff its one backend call raises; otherwise it stores the classification of the reply as the route and changes no other key |
| Nodes.AnswerDirect | agent/agent.py:105-123 | the node fails iff its backend call on the direct prompt raises; otherwise it stores the reply, `None` included, as the answer and changes no other key |
| Nodes.AnswerRag | agent/agent.py:125-146 | the same for the retrieval prompt |
| Nodes.AnswerQuiz | agent/agent.py:148-168 | the same for the quiz prompt |
| Graphs.Walk | agent/agent.py:218 | a successful walk runs at most as many nodes as its step limit, only nodes that exist, and starts with the node it was started at |
| Graphs.WalkNodeFails | agent/agent.py:218 | a node that fails ends the walk with its failure |
| Graphs.WalkThrough | agent/agent.py:218 | a node whose output extends its input passes that output unchanged to its edge's target |
| Graphs.WalkLast | agent/agent.py:197-199 | a node whose edge leads to the end is the last one run |
| Graphs.WalkTwo | agent/agent.py:195-199 | a walk through a node whose edge leads to a second node, whose edge leads to the end, runs those two and stops at the first failure |
| Workflow.AgentGraph | agent/agent.py:182-203 | the graph starts at the router, has exactly the four nodes, the router's edge is conditional, and each answer node's edge leads to the end |
| Workflow.AgentGraphAt | agent/agent.py:190-196 | each registered name runs its node function, and the router's edge follows `_route_edge` |
| Workflow.AgentNodesExtend | agent/agent.py:103 | every node's output keeps every key of its input, so merging it changes nothing further |
| Workflow.AnswerNode | agent/agent.py:123 | an answer node's output keeps every key of its input |
| Workflow.WalkIsPipeline | agent/agent.py:195-199 | with at least two steps, walking the graph equals the router followed by the answer node its edge selects |
| Workflow.OneStepIsTooFew | agent/agent.py:195-196 | after a successful router, one step is not enough: the walk fails on the step limit, so the two steps of `WalkIsPipeline` are exactly what a run takes |
| Workflow.PipelineAnswers | agent/agent.py:75-168 | the router-then-answer run fails iff one of its two backend calls raises; otherwise the stored answer is the reply to the answer prompt of the chosen route |
| Workflow.Run | agent/agent.py:206-225 | for every backend, `run` returns the reply to the answer prompt of the route classified from the router's reply for the stripped question, `None` included; it fails exactly when one of the two calls raises, and only then |
| Workflow.EchoBackendQuizzes | agent/agent.py:85-95 | with a backend that echoes every prompt, `run` always answers with the quiz prompt for the stripped question |

## Left out

- The `LLMClient`, settings, logging and timing are left out (agent/agent.py:61-72, 82-83, 101-102 and the matching lines in the other nodes). The backend is a parameter of every member, and logging and timing have no effect on the state.
- How `generate` behaves is left out. Its answer for the one prompt is modelled as raise, `None` or a string. Index errors, retries and batching in the client are folded into `Raised`.
- Temperatures are passed on as opaque reals, because the model's sampling is outside the agent.
- The `AIMessage` built in `run` (agent/agent.py:224) is left out. It is thrown away. Langchain may reject a `None` answer there; the model returns the `None`.
- Langgraph's own machinery is left out: schema validation, channel reducers other than last value, streaming, checkpoints and parallel branches. Only what this topology uses is modelled: sequential steps, last-value merging, conditional edges and the step limit.
- The `__main__` demonstration (agent/agent.py:228-234) is left out, because it only prints results.
- `meta` is carried through unchanged. No node writes it.
- A stored `route` of `None` cannot be represented, because the field holds text. The source would send it to `answer_direct` (agent/agent.py:174-179), as the model does for any unknown value; no node ever stores `None` there.
- Text.Lower: covers only Latin A–Z and the Cyrillic block U+0400–U+042F, not every upper-case letter Python's `str.lower` maps. Every routing token is written in these two alphabets. Python's `lower()` can also lengthen a text (U+0130 `İ` becomes `i` followed by U+0307); the model keeps every length, so the length facts of `Lower` and `Normalize` hold of the model only. No such character creates or removes an occurrence of a routing token, so classification is unaffected.
- Text.IsSpace: the whitespace set is Python's for `str`; strings are sequences of Unicode scalar values, so lone surrogates, which Python strings can hold, are not modelled.
