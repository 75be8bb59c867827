/** The two stand-in tools of the agent: a fake retrieval step that wraps the
    question in a fixed context text, and a fake quiz builder that produces a
    fixed three-question skeleton about a topic. Both are pure string
    transforms (agent/agent.py:12-39). */
module Tools {
  import opened Text

  /** The fixed text in front of the keywords. */
  const RagContextHead: string :=
    "Контекст (мок): это фиктивные выдержки из базы знаний. " + "Ключевые слова: "
  /** The fixed text after the keywords. */
  const RagContextTail: string := "..."
  /** How many characters of the question the context quotes. */
  const KeywordLimit: nat := 80

  /** `rag_fetch_mock`: the context text built around the first 80 characters
      of the question. */
  function RagFetchMock(question: string): (r: string)
    ensures |RagContextHead| + |RagContextTail| <= |r|
    ensures RagContextHead <= r && r[|r| - |RagContextTail|..] == RagContextTail
    ensures Keywords(r) == question[..Min(KeywordLimit, |question|)]
  {
    var r := RagContextHead + Take(question, KeywordLimit) + RagContextTail;
    assert r[|RagContextHead|..|r| - |RagContextTail|] == Take(question, KeywordLimit);
    r
  }

  /** The quoted keywords of a context text: what lies between the fixed head
      and the fixed tail. */
  function Keywords(context: string): string
    requires |RagContextHead| + |RagContextTail| <= |context|
  {
    context[|RagContextHead|..|context| - |RagContextTail|]
  }

  /** The context quotes at most 80 characters of the question. */
  lemma RagContextBounded(question: string)
    ensures |RagFetchMock(question)| <= |RagContextHead| + KeywordLimit + |RagContextTail|
  {
    var r := RagFetchMock(question);
    assert |Keywords(r)| <= KeywordLimit;
  }

  /** A question of at most 80 characters is quoted whole. */
  lemma RagContextQuotesShortQuestion(question: string)
    requires |question| <= KeywordLimit
    ensures Occurs(RagFetchMock(question), question)
  {
    var r := RagFetchMock(question);
    assert question[..|question|] == question;
    assert OccursAt(r, question, |RagContextHead|);
  }

  /** Nothing after the 80th character of the question reaches the context, and
      two questions with different first 80 characters get different contexts. */
  lemma RagContextDependsOnPrefixOnly(q1: string, q2: string)
    ensures RagFetchMock(q1) == RagFetchMock(q2)
      <==> q1[..Min(KeywordLimit, |q1|)] == q2[..Min(KeywordLimit, |q2|)]
  {
    var r1, r2 := RagFetchMock(q1), RagFetchMock(q2);
    if q1[..Min(KeywordLimit, |q1|)] == q2[..Min(KeywordLimit, |q2|)] {
      assert Take(q1, KeywordLimit) == Take(q2, KeywordLimit);
    }
  }

  // ---------- Quiz skeleton ----------

  /** The fixed texts around the topic in the skeleton's first line. */
  const QuizTitleOpen: string := "Квиз по теме «"
  const QuizTitleClose: string := "» (мок):"

  /** The first line of the skeleton. */
  function QuizHeader(topic: string): string {
    QuizTitleOpen + topic + QuizTitleClose
  }

  /** The three numbered skeleton questions. */
  const QuizItem1: string := "1) Дайте краткое определение темы."
  const QuizItem2: string := "2) Перечислите 3 ключевые особенности."
  const QuizItem3: string := "3) Приведите практический пример применения."

  /** Each skeleton question is one line that starts with its number and a
      parenthesis. */
  lemma QuizItem1Shape()
    ensures '\n' !in QuizItem1 && QuizItem1[..2] == "1)"
  {
    assert forall i :: 0 <= i < |QuizItem1| ==> QuizItem1[i] != '\n';
    assert QuizItem1[0] == '1' && QuizItem1[1] == ')';
  }

  lemma QuizItem2Shape()
    ensures '\n' !in QuizItem2 && QuizItem2[..2] == "2)"
  {
    assert forall i :: 0 <= i < |QuizItem2| ==> QuizItem2[i] != '\n';
    assert QuizItem2[0] == '2' && QuizItem2[1] == ')';
  }

  lemma QuizItem3Shape()
    ensures '\n' !in QuizItem3 && QuizItem3[..2] == "3)"
  {
    assert forall i :: 0 <= i < |QuizItem3| ==> QuizItem3[i] != '\n';
    assert QuizItem3[0] == '3' && QuizItem3[1] == ')';
  }

  /** Four texts joined by line breaks, the last three of them single lines. */
  lemma {:induction false} LinesOfFour(h: string, x: string, y: string, z: string)
    requires '\n' !in x && '\n' !in y && '\n' !in z
    ensures Lines(h + ("\n" + x + "\n" + y + "\n" + z)) == Lines(h) + [x, y, z]
  {
    assert h + ("\n" + x + "\n" + y + "\n" + z) == h + "\n" + (x + "\n" + (y + "\n" + z));
    LinesOfOneLine("", x);
    LinesOfOneLine("", y);
    LinesOfOneLine("", z);
    LinesJoin("", y, z);
    LinesJoin("", x, y + "\n" + z);
    LinesJoin("", h, x + "\n" + (y + "\n" + z));
    assert "" + x == x && "" + y == y && "" + z == z;
  }

  /** `quiz_make_mock`: the header's lines followed by exactly three lines,
      the questions numbered 1), 2) and 3); for a one-line topic it is four
      lines. */
  function QuizMakeMock(topic: string): (r: string)
    ensures Lines(r) == Lines(QuizHeader(topic)) + [QuizItem1, QuizItem2, QuizItem3]
    ensures '\n' !in topic ==> Lines(r) == [QuizHeader(topic), QuizItem1, QuizItem2, QuizItem3]
    ensures QuizItem1[..2] == "1)" && QuizItem2[..2] == "2)" && QuizItem3[..2] == "3)"
  {
    QuizItem1Shape();
    QuizItem2Shape();
    QuizItem3Shape();
    LinesOfFour(QuizHeader(topic), QuizItem1, QuizItem2, QuizItem3);
    HeaderLines(topic);
    QuizHeader(topic) + ("\n" + QuizItem1 + "\n" + QuizItem2 + "\n" + QuizItem3)
  }

  /** The header of a one-line topic is one line. */
  lemma HeaderLines(topic: string)
    ensures '\n' !in topic ==> Lines(QuizHeader(topic)) == [QuizHeader(topic)]
  {
    if '\n' !in topic {
      var a, b := QuizTitleOpen, QuizTitleClose;
      assert forall i :: 0 <= i < |a| ==> a[i] != '\n';
      assert forall i :: 0 <= i < |b| ==> b[i] != '\n';
      assert QuizHeader(topic) == a + topic + b;
      assert '\n' !in QuizHeader(topic);
      LinesOfOneLine("", QuizHeader(topic));
      assert "" + QuizHeader(topic) == QuizHeader(topic);
    }
  }

  /** The skeleton names its topic verbatim. */
  lemma QuizSkeletonNamesTopic(topic: string)
    ensures Occurs(QuizMakeMock(topic), topic)
  {
    OccursBetween(QuizTitleOpen, topic, QuizTitleClose);
    OccursExtend(QuizHeader(topic), topic, "\n" + QuizItem1 + "\n" + QuizItem2 + "\n" + QuizItem3);
  }
}
