/** The canonical stream vocabulary. Payloads the model never inspects are opaque strings. */
module StreamEvents {
  datatype ContentBlockKind = Text | ToolCall | Reasoning | RedactedReasoning | Image | Audio

  datatype StreamEvent =
    | ResponseStart(id: string)
    | MessageStart(role: string)
    | ContentBlockStart(index: nat, kind: ContentBlockKind)
    | TextDelta(index: nat, text: string)
    | ReasoningDelta(index: nat, text: string)
    | ToolCallStart(index: nat, id: string, name: string)
    | ToolCallArgumentsDelta(index: nat, fragment: string)
    | ToolCallStop(index: nat)
    | ContentBlockStop(index: nat)
    | UsageDelta(usage: string)
    | MessageStop(reason: string)
    | ResponseStop(usage: string)
    | Error(message: string)
    | RawProviderEvent(data: string)
}
