/** The conversation log: messages with parent links, and what they carry besides text. */
module Conversation {
  import opened Text

  type Id = string

  /** The string fields of a JSON object in a tool result; None when absent or not a string. */
  datatype Fields = Fields(typ: Option<string>, toolNameSnake: Option<string>, toolNameCamel: Option<string>,
                           name: Option<string>)

  /** The shapes a tool result's content may have. */
  datatype Content =
    | Reference(toolName: string)
    | References(toolNames: seq<string>)
    | Object(fields: Fields)
    | Objects(list: seq<Fields>)
    | Items(items: seq<Content>)
    | OtherContent

  datatype Block = ToolResult(content: Content) | OtherBlock

  /** A list as it may stand in an attachment payload; an `Anys` element that is no string is "". */
  datatype NameList = NoList | Strings(names: seq<string>) | Anys(elements: seq<string>) | Joined(text: string)

  /** The raw part of a message: compaction metadata, an announcement of deferred tools, or neither. */
  datatype Note =
    | NoNote
    | CompactBoundary(discovered: seq<string>)
    | DeferredDelta(addedNames: NameList, addedSnake: NameList, removedNames: NameList, removedSnake: NameList)

  datatype Message = Message(uuid: Id, parent: Option<Id>, blocks: seq<Block>, note: Note)

  /** Each message's parent is its predecessor. */
  ghost predicate Chain(history: seq<Message>) {
    forall i | 0 < i < |history| :: history[i].parent == Some(history[i - 1].uuid)
  }

  datatype ToolDefinition = ToolDefinition(
    name: string, aliases: seq<string>, alwaysLoad: bool, shouldDefer: bool, isMCP: bool, isToolSearch: bool)
  {
    /** toolDefinitionDeferred. */
    predicate Deferred() {
      !alwaysLoad && !isToolSearch && (isMCP || shouldDefer)
    }
  }
}
