// Messages and the content blocks they are made of.

module Conversation {

  datatype Role = User | Assistant

  type ToolUseId = string

  // `input` is the arguments as they are serialised.
  datatype Content =
    | Text(text: string)
    | ToolUse(id: ToolUseId, name: string, input: string)
    | ToolResult(id: ToolUseId, content: string, isError: bool)

  datatype Message = Message(role: Role, content: seq<Content>)

  function UserText(text: string): Message {
    Message(User, [Text(text)])
  }

  // The ids of the calls a message makes, in order, and of the results it
  // carries.
  function UseIds(cs: seq<Content>): seq<ToolUseId> {
    if cs == [] then []
    else if cs[0].ToolUse? then [cs[0].id] + UseIds(cs[1..])
    else UseIds(cs[1..])
  }

  function ResultIds(cs: seq<Content>): seq<ToolUseId> {
    if cs == [] then []
    else if cs[0].ToolResult? then [cs[0].id] + ResultIds(cs[1..])
    else ResultIds(cs[1..])
  }

  // A message calls an id, or answers one.
  ghost predicate Calls(m: Message, id: ToolUseId) {
    exists j :: 0 <= j < |m.content| && m.content[j].ToolUse? && m.content[j].id == id
  }

  ghost predicate Answers(m: Message, id: ToolUseId) {
    exists j :: 0 <= j < |m.content| && m.content[j].ToolResult? && m.content[j].id == id
  }

  lemma {:induction false} CallsMeaning(m: Message, id: ToolUseId)
    ensures Calls(m, id) <==> id in UseIds(m.content)
    decreases |m.content|
  {
    if m.content != [] {
      var rest := Message(m.role, m.content[1..]);
      CallsMeaning(rest, id);
      if Calls(m, id) && !(m.content[0].ToolUse? && m.content[0].id == id) {
        var j :| 0 <= j < |m.content| && m.content[j].ToolUse? && m.content[j].id == id;
        assert rest.content[j - 1] == m.content[j];
      }
      if Calls(rest, id) {
        var j :| 0 <= j < |rest.content| && rest.content[j].ToolUse? && rest.content[j].id == id;
        assert m.content[j + 1] == rest.content[j];
      }
    }
  }

  lemma {:induction false} AnswersMeaning(m: Message, id: ToolUseId)
    ensures Answers(m, id) <==> id in ResultIds(m.content)
    decreases |m.content|
  {
    if m.content != [] {
      var rest := Message(m.role, m.content[1..]);
      AnswersMeaning(rest, id);
      if Answers(m, id) && !(m.content[0].ToolResult? && m.content[0].id == id) {
        var j :| 0 <= j < |m.content| && m.content[j].ToolResult? && m.content[j].id == id;
        assert rest.content[j - 1] == m.content[j];
      }
      if Answers(rest, id) {
        var j :| 0 <= j < |rest.content| && rest.content[j].ToolResult? && rest.content[j].id == id;
        assert m.content[j + 1] == rest.content[j];
      }
    }
  }
}
