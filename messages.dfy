/** Chat messages as the conversation state holds them. */
module Messages {

  /** The content of a model reply: plain text, or structured parts (carried by their string form). */
  datatype Content = Text(text: string) | Structured(repr: string)

  datatype Message =
    | SystemMessage(content: string)
    | HumanMessage(content: string)
    | AIMessage(reply: Content)
    | ToolMessage(content: string)
}
