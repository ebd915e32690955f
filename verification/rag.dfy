/** The retrieval-augmented answer of rag_chat/rag.py: the prompt template of
    `PromptBuilder.build_prompt` and the throttling retries of `RAGPipeline.answer`. The
    knowledge-base search and the model's `converse` call are services; what they return is an
    input of the model. */
module Rag {
  import opened PyStr
  import opened TaskClassification
  import opened RetryUtils

  const NL: string := "\n"

  /** The indentation every line of the triple-quoted template carries. */
  const INDENT: string := "            "

  /** The template's two lines of instructions, written in pieces so that their characters can
      be reasoned about. */
  const CONTEXT_INTRO: string := "Here is the " + "context to " + "reference:"
  const QUESTION_INTRO: string := "Referencing " + "the context, " + "answer the " + "user question"

  /** A line break followed by the template's indentation. */
  function Pad(): string {
    NL + INDENT
  }

  /** `x` on a line of its own in the template. */
  function Framed(x: string): string {
    Pad() + x + Pad()
  }

  /** The template before `<context>`. */
  function Lead(): string {
    NL + INDENT + CONTEXT_INTRO + NL + INDENT
  }

  /** The template between `</context>` and `<question>`. */
  function Between(): string {
    NL + NL + INDENT + QUESTION_INTRO + NL + INDENT
  }

  /** `build_prompt(contexts, query)`: the contexts joined by newlines inside `<context>`, then
      the question inside `<question>`, each on its own indented line. */
  function BuildPrompt(contexts: seq<string>, query: string): string {
    Lead() + OpenTag("context") + Framed(Join(contexts, NL)) + CloseTag("context")
      + Between() + OpenTag("question") + Framed(query) + CloseTag("question") + Pad()
  }

  /** A short literal without `<`: each of its characters is one of its own characters, none of
      which is `<`. */
  lemma WordLacksAngle(w: string)
    requires w in {INDENT, "Here is the ", "context to ", "reference:", "Referencing ", "the context, ",
                   "answer the ", "user question"}
    ensures Lacks(w, '<')
  {
    forall i | 0 <= i < |w| ensures w[i] != '<' {
      assert w[i] in w;
    }
  }

  lemma IntrosLackAngle()
    ensures Lacks(INDENT, '<') && Lacks(CONTEXT_INTRO, '<') && Lacks(QUESTION_INTRO, '<')
  {
    WordLacksAngle(INDENT);
    WordLacksAngle("Here is the ");
    WordLacksAngle("context to ");
    WordLacksAngle("reference:");
    WordLacksAngle("Referencing ");
    WordLacksAngle("the context, ");
    WordLacksAngle("answer the ");
    WordLacksAngle("user question");
  }

  /** The fixed text of the template has no `<`, so no tag can start in it. */
  lemma TemplateLacksAngle()
    ensures Lacks(Pad(), '<') && Lacks(Lead(), '<') && Lacks(Between(), '<')
    ensures Pad()[0] == '\n' && Pad()[|Pad()| - 1] == ' '
    ensures Lead()[|Lead()| - 1] == ' ' && Between()[0] == '\n'
  {
    IntrosLackAngle();
  }

  /** A tag's text has neither spaces nor line breaks, and starts with `<`. */
  predicate TagLike(pat: string) {
    |pat| > 0 && pat[0] == '<' && Lacks(pat, ' ') && Lacks(pat, '\n')
  }

  lemma TagsAreTagLike()
    ensures TagLike(CloseTag("context"))
    ensures TagLike(OpenTag("question")) && TagLike(CloseTag("question"))
  {
  }

  /** Putting `x` on a line of its own adds no occurrence of a tag. */
  lemma FramedLacks(x: string, pat: string)
    requires TagLike(pat) && !Contains(x, pat)
    ensures !Contains(Framed(x), pat)
  {
    TemplateLacksAngle();
    LacksFirst(Pad(), pat);
    NotContainsConcat(Pad(), x, pat);
    NotContainsConcat(Pad() + x, Pad(), pat);
  }

  /** The text between the first `<context>` and the first `</context>` of the prompt is the
      joined contexts on their own line, provided no context holds `</context>`. */
  lemma PromptFramesContexts(contexts: seq<string>, query: string)
    requires !Contains(Join(contexts, NL), CloseTag("context"))
    ensures Tagged(BuildPrompt(contexts, query), "context") == Framed(Join(contexts, NL))
  {
    var close := CloseTag("context");
    var rest := Between() + OpenTag("question") + Framed(query) + CloseTag("question") + Pad();
    var text := BuildPrompt(contexts, query);
    assert text == Lead() + OpenTag("context") + Framed(Join(contexts, NL)) + close + rest;
    TemplateLacksAngle();
    TagsAreTagLike();
    LacksFirst(Lead(), OpenTag("context"));
    LacksFirst(Lead(), close);
    FramedLacks(Join(contexts, NL), close);
    TaggedIn(text, Lead(), Framed(Join(contexts, NL)), rest, "context");
  }

  /** No `<question>` or `</question>` occurs before the question's own tag when the contexts
      hold none. */
  lemma QuestionTagNotBefore(joined: string, pat: string)
    requires pat == OpenTag("question") || pat == CloseTag("question")
    requires !Contains(joined, pat)
    ensures !Contains(Lead() + OpenTag("context") + Framed(joined) + CloseTag("context") + Between(), pat)
  {
    TemplateLacksAngle();
    TagsAreTagLike();
    var x1 := Lead();
    var x2 := x1 + OpenTag("context");
    var x3 := x2 + Framed(joined);
    var x4 := x3 + CloseTag("context");
    LacksFirst(x1, pat);
    assert !Contains(OpenTag("context"), pat);
    NotContainsConcat(x1, OpenTag("context"), pat);
    FramedLacks(joined, pat);
    assert Framed(joined)[0] == '\n';
    NotContainsConcat(x2, Framed(joined), pat);
    assert !Contains(CloseTag("context"), pat) by {
      if |pat| == |CloseTag("context")| {
        assert CloseTag("context")[1] != pat[1];
      }
    }
    assert x3[|x3| - 1] == ' ';
    NotContainsConcat(x3, CloseTag("context"), pat);
    LacksFirst(Between(), pat);
    NotContainsConcat(x4, Between(), pat);
  }

  /** The text between the first `<question>` and the first `</question>` of the prompt is the
      query on its own line, provided neither the contexts nor the query hold those tags. */
  lemma PromptFramesQuestion(contexts: seq<string>, query: string)
    requires !Contains(Join(contexts, NL), OpenTag("question"))
    requires !Contains(Join(contexts, NL), CloseTag("question"))
    requires !Contains(query, CloseTag("question"))
    ensures Tagged(BuildPrompt(contexts, query), "question") == Framed(query)
  {
    var joined := Join(contexts, NL);
    var pre := Lead() + OpenTag("context") + Framed(joined) + CloseTag("context") + Between();
    var text := BuildPrompt(contexts, query);
    assert text == pre + OpenTag("question") + Framed(query) + CloseTag("question") + Pad();
    QuestionTagNotBefore(joined, OpenTag("question"));
    QuestionTagNotBefore(joined, CloseTag("question"));
    TagsAreTagLike();
    FramedLacks(query, CloseTag("question"));
    TaggedIn(text, pre, Framed(query), Pad(), "question");
  }

  /** `max_retries` and `initial_delay` of `answer`. */
  const MAX_RETRIES: nat := 5
  const INITIAL_DELAY: real := 1.0

  /** A chat message: its role and the texts of its content blocks. */
  datatype Message = Message(role: string, content: seq<string>)

  /** `{"role": "user", "content": [{"text": prompt}]}` */
  function UserMessage(prompt: string): Message {
    Message("user", [prompt])
  }

  /** What one `converse` call did: returned the model's message, raised botocore's
      `ClientError`, or raised anything else. */
  datatype Converse = Replied(message: Message) | ClientError | OtherError

  /** How `answer` ended: with the first text of the reply, or with the exception that escaped
      (an `IndexError` when the reply has no content block). */
  datatype Reply = Answered(text: string) | ClientErrorRaised | OtherErrorRaised | IndexErrorRaised

  /** The history after `answer`, how it ended, the `converse` calls made and the pauses slept. */
  datatype AnswerRun = AnswerRun(messages: seq<Message>, reply: Reply, calls: nat, sleeps: seq<real>)

  /** The `for attempt in range(max_retries)` loop from `attempt` on, with `messages` already
      ending with the user message. */
  function Attempts(messages: seq<Message>, converse: nat -> Converse, attempt: nat): AnswerRun
    requires attempt < MAX_RETRIES
    decreases MAX_RETRIES - attempt
  {
    match converse(attempt)
    case Replied(m) =>
      AnswerRun(messages + [m], if m.content == [] then IndexErrorRaised else Answered(m.content[0]), 1, [])
    case OtherError =>
      AnswerRun(messages, OtherErrorRaised, 1, [])
    case ClientError =>
      if attempt == MAX_RETRIES - 1 then AnswerRun(messages, ClientErrorRaised, 1, [])
      else
        var rest := Attempts(messages, converse, attempt + 1);
        AnswerRun(rest.messages, rest.reply, rest.calls + 1, [INITIAL_DELAY * Pow(2.0, attempt)] + rest.sleeps)
  }

  /** From `attempt` on, the loop calls `converse` again exactly while it raises `ClientError`
      and attempts remain, pausing twice as long each time; the call that ends it decides the
      outcome: a reply is appended and its first text returned, and an exception escapes with the
      history unchanged. */
  lemma {:induction false} AttemptsSpec(messages: seq<Message>, converse: nat -> Converse, attempt: nat)
    requires attempt < MAX_RETRIES
    ensures var r := Attempts(messages, converse, attempt);
      && 1 <= r.calls <= MAX_RETRIES - attempt
      && r.sleeps == Geometric(INITIAL_DELAY * Pow(2.0, attempt), 2.0, r.calls - 1)
      && (forall i :: attempt <= i < attempt + r.calls - 1 ==> converse(i).ClientError?)
      && match converse(attempt + r.calls - 1)
        case Replied(m) =>
          r.messages == messages + [m]
          && r.reply == if m.content == [] then IndexErrorRaised else Answered(m.content[0])
        case ClientError =>
          attempt + r.calls == MAX_RETRIES && r.messages == messages && r.reply == ClientErrorRaised
        case OtherError =>
          r.messages == messages && r.reply == OtherErrorRaised
  {
    AttemptsCalls(messages, converse, attempt);
    AttemptsSleeps(messages, converse, attempt);
    AttemptsEnd(messages, converse, attempt);
  }

  /** The loop makes between one and the remaining number of calls, all but the last of which
      raised `ClientError`. */
  lemma {:induction false} AttemptsCalls(messages: seq<Message>, converse: nat -> Converse, attempt: nat)
    requires attempt < MAX_RETRIES
    ensures var r := Attempts(messages, converse, attempt);
      && 1 <= r.calls <= MAX_RETRIES - attempt
      && (forall i :: attempt <= i < attempt + r.calls - 1 ==> converse(i).ClientError?)
    decreases MAX_RETRIES - attempt
  {
    if converse(attempt).ClientError? && attempt < MAX_RETRIES - 1 {
      AttemptsCalls(messages, converse, attempt + 1);
    }
  }

  /** The pauses double from `initial_delay * 2 ** attempt`, one fewer than the calls. */
  lemma {:induction false} AttemptsSleeps(messages: seq<Message>, converse: nat -> Converse, attempt: nat)
    requires attempt < MAX_RETRIES
    ensures var r := Attempts(messages, converse, attempt);
      r.calls >= 1 && r.sleeps == Geometric(INITIAL_DELAY * Pow(2.0, attempt), 2.0, r.calls - 1)
    decreases MAX_RETRIES - attempt
  {
    if converse(attempt).ClientError? && attempt < MAX_RETRIES - 1 {
      AttemptsSleeps(messages, converse, attempt + 1);
      var d := Pow(2.0, attempt);
      assert Pow(2.0, attempt + 1) == 2.0 * d;
      assert INITIAL_DELAY * d * 2.0 == INITIAL_DELAY * (2.0 * d);
    }
  }

  /** The call that ends the loop decides its outcome. */
  lemma {:induction false} AttemptsEnd(messages: seq<Message>, converse: nat -> Converse, attempt: nat)
    requires attempt < MAX_RETRIES
    ensures var r := Attempts(messages, converse, attempt);
      && attempt + r.calls <= MAX_RETRIES
      && match converse(attempt + r.calls - 1)
        case Replied(m) =>
          r.messages == messages + [m]
          && r.reply == if m.content == [] then IndexErrorRaised else Answered(m.content[0])
        case ClientError =>
          attempt + r.calls == MAX_RETRIES && r.messages == messages && r.reply == ClientErrorRaised
        case OtherError =>
          r.messages == messages && r.reply == OtherErrorRaised
    decreases MAX_RETRIES - attempt
  {
    if converse(attempt).ClientError? && attempt < MAX_RETRIES - 1 {
      AttemptsEnd(messages, converse, attempt + 1);
    }
  }

  /** `RAGPipeline.answer` from the history `history`: the user message for the built prompt is
      appended before the first call; a reply is appended after it; the history only grows. */
  function RunAnswer(history: seq<Message>, contexts: seq<string>, query: string, converse: nat -> Converse): (r: AnswerRun)
    ensures |history| + 1 <= |r.messages| <= |history| + 2
    ensures r.messages[..|history| + 1] == history + [UserMessage(BuildPrompt(contexts, query))]
    ensures 1 <= r.calls <= MAX_RETRIES && |r.sleeps| == r.calls - 1
    ensures r.reply.Answered? ==>
      && |r.messages| == |history| + 2
      && r.messages[|history| + 1].content != []
      && r.reply.text == r.messages[|history| + 1].content[0]
    ensures r.reply == ClientErrorRaised ==> r.messages == history + [UserMessage(BuildPrompt(contexts, query))]
  {
    AttemptsSpec(history + [UserMessage(BuildPrompt(contexts, query))], converse, 0);
    Attempts(history + [UserMessage(BuildPrompt(contexts, query))], converse, 0)
  }

  /** `answer` gives up with the `ClientError` exactly when all five calls raised it. */
  lemma AnswerGivesUp(history: seq<Message>, contexts: seq<string>, query: string, converse: nat -> Converse)
    ensures RunAnswer(history, contexts, query, converse).reply == ClientErrorRaised
      <==> forall i :: 0 <= i < MAX_RETRIES ==> converse(i).ClientError?
  {
    var r := RunAnswer(history, contexts, query, converse);
    AttemptsSpec(history + [UserMessage(BuildPrompt(contexts, query))], converse, 0);
    if forall i :: 0 <= i < MAX_RETRIES ==> converse(i).ClientError? {
      assert converse(r.calls - 1).ClientError?;
    }
  }

  /** The pause after failed attempt `i` is `initial_delay * 2 ** i` seconds. */
  lemma AnswerBackoff(history: seq<Message>, contexts: seq<string>, query: string, converse: nat -> Converse, i: nat)
    requires i < |RunAnswer(history, contexts, query, converse).sleeps|
    ensures RunAnswer(history, contexts, query, converse).sleeps[i] == INITIAL_DELAY * Pow(2.0, i)
  {
    var r := RunAnswer(history, contexts, query, converse);
    AttemptsSpec(history + [UserMessage(BuildPrompt(contexts, query))], converse, 0);
    assert INITIAL_DELAY * Pow(2.0, 0) == INITIAL_DELAY;
    GeometricAt(INITIAL_DELAY, 2.0, r.calls - 1, i);
  }

  /** An exception other than `ClientError` escapes from the first call with no retry. */
  lemma OtherErrorNotRetried(history: seq<Message>, contexts: seq<string>, query: string, converse: nat -> Converse)
    requires converse(0).OtherError?
    ensures RunAnswer(history, contexts, query, converse)
      == AnswerRun(history + [UserMessage(BuildPrompt(contexts, query))], OtherErrorRaised, 1, [])
  {
  }

  /** `run`, after `calls` calls that slept `sleeps`. */
  function Behind(calls: nat, sleeps: seq<real>, run: AnswerRun): AnswerRun {
    AnswerRun(run.messages, run.reply, calls + run.calls, sleeps + run.sleeps)
  }

  /** A `ClientError` before the last attempt: one call, one pause, then the next attempt. */
  lemma ClientErrorStep(messages: seq<Message>, converse: nat -> Converse, attempt: nat,
                        calls: nat, sleeps: seq<real>)
    requires attempt < MAX_RETRIES - 1 && converse(attempt).ClientError?
    ensures Behind(calls, sleeps, Attempts(messages, converse, attempt))
      == Behind(calls + 1, sleeps + [INITIAL_DELAY * Pow(2.0, attempt)], Attempts(messages, converse, attempt + 1))
  {
    var next := Attempts(messages, converse, attempt + 1);
    var d := INITIAL_DELAY * Pow(2.0, attempt);
    assert Attempts(messages, converse, attempt) == Behind(1, [d], next);
    assert sleeps + ([d] + next.sleeps) == sleeps + [d] + next.sleeps;
  }

  /** The attempt that ends the loop: one more call and no pause. */
  lemma LastStep(messages: seq<Message>, converse: nat -> Converse, attempt: nat, calls: nat, sleeps: seq<real>)
    requires attempt < MAX_RETRIES
    requires !converse(attempt).ClientError? || attempt == MAX_RETRIES - 1
    ensures var r := Attempts(messages, converse, attempt);
      Behind(calls, sleeps, r) == AnswerRun(r.messages, r.reply, calls + 1, sleeps)
  {
    assert sleeps + [] == sleeps;
  }

  /** `RAGPipeline`, whose `messages` keep the whole conversation across calls. */
  class RAGPipeline {
    var messages: seq<Message>

    constructor ()
      ensures messages == []
    {
      messages := [];
    }

    /** `answer(query)`, with the retrieved `contexts` and the outcome of each `converse`
        call given. */
    method Answer(contexts: seq<string>, query: string, converse: nat -> Converse)
      returns (reply: Reply, calls: nat, sleeps: seq<real>)
      modifies this
      ensures AnswerRun(messages, reply, calls, sleeps) == RunAnswer(old(messages), contexts, query, converse)
    {
      var prompt := BuildPrompt(contexts, query);
      messages := messages + [UserMessage(prompt)];
      ghost var start := messages;
      var attempt: nat := 0;
      calls, sleeps := 0, [];
      assert Behind(0, [], Attempts(start, converse, 0)) == Attempts(start, converse, 0);
      while attempt < MAX_RETRIES
        invariant attempt < MAX_RETRIES && messages == start
        invariant Attempts(start, converse, 0) == Behind(calls, sleeps, Attempts(start, converse, attempt))
        decreases MAX_RETRIES - attempt
      {
        var response := converse(attempt);
        if response.ClientError? && attempt < MAX_RETRIES - 1 {
          ClientErrorStep(start, converse, attempt, calls, sleeps);
          var delay := INITIAL_DELAY * Pow(2.0, attempt);
          calls, sleeps := calls + 1, sleeps + [delay];
          attempt := attempt + 1;
        } else {
          LastStep(start, converse, attempt, calls, sleeps);
          calls := calls + 1;
          match response
          case Replied(m) =>
            messages := messages + [m];
            if m.content == [] {
              return IndexErrorRaised, calls, sleeps;
            }
            return Answered(m.content[0]), calls, sleeps;
          case OtherError =>
            return OtherErrorRaised, calls, sleeps;
          case ClientError =>
            return ClientErrorRaised, calls, sleeps;
        }
      }
      assert false;
    }
  }
}
