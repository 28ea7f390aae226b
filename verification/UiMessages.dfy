/** Stored conversation history: messages made of parts, as the browser submits them. */
module UiMessages {
  import opened Options

  datatype Json =
    | JNull
    | JBool(value: bool)
    | JNumber(literal: string)
    | JString(text: string)
    | JArray(items: seq<Json>)
    | JObject(fields: seq<Field>)

  datatype Field = Field(name: string, value: Json)

  /** The unparsed arguments of a call whose input failed validation; `parsed` is what
      parsing the text yields, if it parses. */
  datatype RawInput = NoRawInput | NotText(value: Json) | RawText(text: string, parsed: Option<Json>)

  /** The class a part's type string falls into. `Call` covers the static, dynamic and
      legacy tool-call types; `Other` is everything no rule names. */
  datatype Kind =
    | Text
    | Reasoning
    | StepStart
    | Marker
    | Attachment
    | Data
    | ApprovalResponse
    | Call(mcp: bool)
    | Other

  datatype ToolState =
    | NoState
    | InputStreaming | InputAvailable
    | ApprovalRequested | ApprovalResponded
    | OutputAvailable | OutputError | OutputDenied

  /** `toolCallId` is empty when absent. `wholeChars` is the serialized size of a part
      that is measured as a whole; `rest` stands for every field no rule looks at. */
  datatype Part = Part(
    kind: Kind,
    toolCallId: string,
    state: ToolState,
    input: Option<Json>,
    rawInput: RawInput,
    output: Option<Json>,
    errorText: Option<string>,
    hasApproval: bool,
    text: string,
    wholeChars: nat,
    rest: nat)

  datatype Role = User | Assistant | System

  datatype Message = Message(id: string, role: Role, parts: seq<Part>)

  /** A tool-call part with a usable interaction identity. */
  predicate Identified(p: Part) {
    p.kind.Call? && p.toolCallId != ""
  }

  /** A tool call that ended, whatever its outcome. */
  predicate HasResult(p: Part) {
    p.output.Some? || p.state.OutputError? || p.state.OutputDenied?
  }

  predicate IsMeaningful(p: Part) {
    !p.kind.StepStart?
  }
}
