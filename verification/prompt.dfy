/**
 * Prompt construction: the fixed domain-restriction instruction (app.py,
 * get_system_prompt) followed by a literal separator and the user's question,
 * concatenated without escaping or truncation.
 */
module Prompt {
  import opened Options

  /** The instruction that restricts the model to real-estate questions. */
  const SystemPrompt: string :=
    "\n    Você é um assistente especializado em ajudar usuários com questões relacionadas ao mercado imobiliário. "
    + "\n    Não responda perguntas que não sejam sobre imóveis, compra, venda, aluguel, ou outros tópicos diretamente relacionados ao mercado imobiliário."
    + "\n    Se uma pergunta estiver fora do contexto do mercado imobiliário, gentilmente explique ao usuário que você só pode responder perguntas dentro desse contexto."
    + "\n    "

  /** The literal that separates the instruction from the question. */
  const Separator: string := "\nUsuário: "

  /** Everything in front of the question. */
  const Header: string := SystemPrompt + Separator

  /** The request text handed to the completion client. */
  function BuildPrompt(question: string): (prompt: string)
    ensures |prompt| == |SystemPrompt| + |Separator| + |question|
    ensures prompt[..|SystemPrompt|] == SystemPrompt
    ensures prompt[|SystemPrompt|..|Header|] == Separator
    ensures prompt[|Header|..] == question
  {
    SystemPrompt + Separator + question
  }

  /** Recovers the question from a request text, if the text is one: the inverse of BuildPrompt. */
  function QuestionOf(prompt: string): (question: Option<string>)
    ensures question.Some? <==> Header <= prompt
    ensures question.Some? ==> prompt == Header + question.value
  {
    if Header <= prompt then
      assert prompt == prompt[..|Header|] + prompt[|Header|..];
      Some(prompt[|Header|..])
    else None
  }

  /** Every built prompt reads back as the question it was built from. */
  lemma PromptRoundTrip(question: string)
    ensures QuestionOf(BuildPrompt(question)) == Some(question)
  {
    var p := BuildPrompt(question);
    assert p[..|Header|] == Header;
  }

  /** Every text that reads back as a question is the prompt built from it. */
  lemma PromptParsesBack(prompt: string, question: string)
    requires QuestionOf(prompt) == Some(question)
    ensures BuildPrompt(question) == prompt
  {
    assert prompt == prompt[..|Header|] + prompt[|Header|..];
  }

  /** Distinct questions are never sent as the same request. */
  lemma BuildPromptInjective(a: string, b: string)
    requires BuildPrompt(a) == BuildPrompt(b)
    ensures a == b
  {
    PromptRoundTrip(a);
    PromptRoundTrip(b);
  }
}
