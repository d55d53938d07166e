/**
 * Question selection: the radio list of suggested questions, overridden by
 * a non-empty free-text question.
 */
module Questions {
  const SuggestedQuestions: seq<string> := [
    "Como conseguir compradores (leads)?",
    "Onde encontrar imóveis?",
    "Como divulgar um imóvel nas redes sociais?",
    "Como fazer um hot-site com fotos?",
    "Criar um modelo de contrato de visita, compra e venda."
  ]

  /**
   * The question that is sent. `choice` is the index the radio list returns
   * (it always returns one of its options).
   */
  function SelectQuestion(choice: nat, custom: string): (question: string)
    requires choice < |SuggestedQuestions|
    ensures custom != "" ==> question == custom
    ensures custom == "" ==> question == SuggestedQuestions[choice]
    ensures question != ""
  {
    if custom != "" then custom else SuggestedQuestions[choice]
  }
}
