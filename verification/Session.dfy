/**
 * The session state a client shows, and the reducer that every action goes
 * through (ui/neuron-client/src/session.ts).
 */
module Session {
  import opened Wrappers

  /** Parts of an event the reducer only passes on, as text. */
  type Payload = string

  datatype ToolState = Running | AwaitingPermission | Done | Failed | Denied | CutOff

  datatype View = View(kind: string, target: string, detail: Payload)

  datatype Subagent = Subagent(
    description: string, agentType: Option<string>, running: bool,
    status: Option<string>, result: Option<string>, note: Option<string>)

  datatype Attachment = Attachment(path: string, kind: string)

  /** The transcript's items. Item `i7` has key 7. */
  datatype Item =
    | User(key: nat, text: string, attachments: seq<Attachment>)
    | Assistant(key: nat, text: string, streaming: bool)
    | Reasoning(key: nat, text: string, chars: Option<nat>, redacted: bool, streaming: bool)
    | Tool(key: nat, id: string, name: string, input: string, state: ToolState, view: View,
           output: Option<string>, permissionId: Option<int>, subagent: Option<Subagent>)
    | Notice(key: nat, text: string)
    | Question(key: nat, text: string, answered: bool, questionId: Option<int>, options: seq<string>)
    | Problem(key: nat, text: string)

  datatype Request = Request(tool: string, input: string, detail: Payload)

  datatype Permission = Permission(id: int, request: Request, toolKey: Option<nat>)

  datatype Status = Status(sessionId: string, cwd: string, workspaceTrusted: bool, detail: Payload)

  datatype Connection = Connecting | Starting | Ready | Exited

  datatype SessionState = SessionState(
    connection: Connection,
    connectionError: Option<string>,
    version: Option<string>,
    protocol: Option<int>,
    features: seq<string>,
    status: Option<Status>,
    sessions: Option<Payload>,
    todos: Payload,
    restartRequired: bool,
    extensions: Option<Payload>,
    models: Payload,
    busy: bool,
    sessionStarting: bool,
    signInCode: Option<Payload>,
    items: seq<Item>,
    permissions: seq<Permission>,
    usage: Option<Payload>,
    nextKey: nat)

  function InitialSession(): (s: SessionState) {
    SessionState(Connecting, None, None, None, [], None, None, "", false, None, "", false, false, None, [], [], None, 1)
  }

  datatype Entry =
    | UserEntry(text: string)
    | AssistantEntry(text: string)
    | CallEntry(id: string, name: string, input: string)
    | ResultEntry(id: string, name: string, output: string, isError: bool)

  datatype Action =
    // the client's own
    | LocalConnecting
    | LocalReset
    | LocalDisconnected(error: Option<string>)
    | LocalSubmitted(text: string, attachments: seq<Attachment>)
    | LocalSlash(command: string, args: string)
    | LocalPermissionAnswered(id: int, deny: bool)
    | LocalPermissionResolved(id: int)
    | LocalAnswered(id: int, text: string)
    // the engine's
    | EngineReady(version: string, protocol: int, features: seq<string>)
    | StatusChanged(status: Status)
    | SessionStarting
    | SignInCode(code: Payload)
    | Models(models: Payload)
    | TextDelta(text: string)
    | TextBlockEnd
    | ReasoningStarted(chars: Option<nat>, redacted: bool)
    | ReasoningDelta(text: string)
    | ToolCallStarted(callId: string, name: string, input: string, cutOff: bool)
    | ToolResult(resultId: Option<string>, name: string, output: string, isError: bool)
    | Usage(usage: Payload)
    | PermissionRequested(id: int, request: Request)
    | NoticeGiven(message: string)
    | TurnFinished
    | EngineError(message: string)
    | Sessions(sessions: Payload)
    | Transcript(sessionId: string, entries: seq<Entry>, truncated: bool)
    | WorkspaceTrusted(restartRequired: bool)
    | QuestionAsked(id: int, question: string, options: seq<string>)
    | Todos(todos: Payload)
    | Extensions(extensions: Payload)
    | SubagentStarted(callId: string, description: string, agentType: Option<string>)
    | SubagentFinished(callId: string, finalStatus: string, result: Option<string>, note: Option<string>)
    | Unknown

  /** What the reducer calls: tool cards, JSON comparison, the refusal pattern and string trimming. */
  datatype Tools = Tools(
    view: (string, string, Option<string>) -> View,
    withResult: (View, string, string, bool) -> View,
    deniedByUser: string -> bool,
    sameJson: (string, string) -> bool,
    trim: string -> string)

  const QUESTION_PREFIX := "Question:"

  // ------------------------------------------------------------- helpers

  function Push(s: SessionState, item: Item): (r: SessionState) {
    s.(nextKey := s.nextKey + 1, items := s.items + [item.(key := s.nextKey)])
  }

  predicate Streams(item: Item) {
    (item.Assistant? || item.Reasoning?) && item.streaming
  }

  /** The items with the last one no longer streaming. */
  function CloseStreams(items: seq<Item>): (r: seq<Item>)
    ensures |r| == |items|
  {
    if items != [] && Streams(items[|items| - 1]) then items[|items| - 1 := items[|items| - 1].(streaming := false)] else items
  }

  /** Index of the last item that matches, or -1. */
  function LastIndex(items: seq<Item>, matches: Item -> bool, n: nat): (i: int)
    requires n <= |items|
    ensures -1 <= i < n
    ensures i >= 0 ==> matches(items[i])
    ensures forall k :: i < k < n ==> !matches(items[k])
  {
    if n == 0 then -1 else if matches(items[n - 1]) then n - 1 else LastIndex(items, matches, n - 1)
  }

  /** Index of the first item that matches, from `n` on, or -1. */
  function FirstIndex(items: seq<Item>, matches: Item -> bool, n: nat): (i: int)
    requires n <= |items|
    ensures i == -1 || n <= i < |items|
    ensures i >= 0 ==> matches(items[i]) && forall k :: n <= k < i ==> !matches(items[k])
    ensures i == -1 ==> forall k :: n <= k < |items| ==> !matches(items[k])
    decreases |items| - n
  {
    if n == |items| then -1 else if matches(items[n]) then n else FirstIndex(items, matches, n + 1)
  }

  method FindLastIndex(items: seq<Item>, matches: Item -> bool) returns (index: int)
    ensures index == LastIndex(items, matches, |items|)
  {
    index := |items| - 1;
    while index >= 0
      invariant -1 <= index < |items|
      invariant LastIndex(items, matches, |items|) == LastIndex(items, matches, index + 1)
    {
      if matches(items[index]) {
        return;
      }
      index := index - 1;
    }
  }

  function WithoutId(permissions: seq<Permission>, id: int): (r: seq<Permission>) {
    if permissions == [] then []
    else if permissions[0].id == id then WithoutId(permissions[1..], id)
    else [permissions[0]] + WithoutId(permissions[1..], id)
  }

  function WithoutTool(permissions: seq<Permission>, key: nat): (r: seq<Permission>) {
    if permissions == [] then []
    else if permissions[0].toolKey == Some(key) then WithoutTool(permissions[1..], key)
    else [permissions[0]] + WithoutTool(permissions[1..], key)
  }

  function FindPermission(permissions: seq<Permission>, id: int): (p: Option<Permission>)
    ensures p.Some? ==> p.value in permissions && p.value.id == id
    ensures p.None? ==> forall q :: q in permissions ==> q.id != id
  {
    if permissions == [] then None
    else if permissions[0].id == id then Some(permissions[0])
    else FindPermission(permissions[1..], id)
  }

  // ---------------------------------------------------------- one action

  predicate IsUnanswered(item: Item) {
    item.Question? && !item.answered
  }

  predicate IsUnfinished(item: Item) {
    item.Tool? && (item.state == Running || item.state == AwaitingPermission)
  }

  function Stopped(item: Item): (r: Item) {
    if IsUnfinished(item)
    then item.(state := Failed, output := if item.output.Some? then item.output else Some("The engine stopped before this call finished."))
    else item
  }

  function Ended(item: Item): (r: Item) {
    if IsUnfinished(item) then item.(state := Failed) else item
  }

  function MapItems(items: seq<Item>, f: Item -> Item): (r: seq<Item>)
    ensures |r| == |items| && forall i :: 0 <= i < |items| ==> r[i] == f(items[i])
  {
    seq(|items|, i requires 0 <= i < |items| => f(items[i]))
  }

  function Disconnect(s: SessionState, error: Option<string>): (r: SessionState) {
    s.(connection := Exited, connectionError := error, busy := false, permissions := [],
       items := MapItems(CloseStreams(s.items), Stopped))
  }

  function Submit(s: SessionState, text: string, attachments: seq<Attachment>): (r: SessionState) {
    var unanswered := LastIndex(s.items, IsUnanswered, |s.items|);
    var next := if unanswered >= 0 then s.(items := s.items[unanswered := s.items[unanswered].(answered := true)]) else s;
    var pushed := Push(next, User(0, text, attachments));
    if unanswered >= 0 then pushed else pushed.(busy := true)
  }

  function Resolve(s: SessionState, id: int, deny: bool): (r: SessionState) {
    var pending := FindPermission(s.permissions, id);
    if pending.None? then s
    else
      var items :=
        if pending.value.toolKey.None? then s.items
        else
          var key := pending.value.toolKey.value;
          var index := FirstIndex(s.items, (item: Item) => item.key == key, 0);
          if index >= 0 && s.items[index].Tool? && s.items[index].state == AwaitingPermission
          then s.items[index := s.items[index].(state := if deny then Denied else Running)]
          else s.items;
      s.(items := items, permissions := WithoutId(s.permissions, id))
  }

  function Answer(s: SessionState, id: int, text: string): (r: SessionState) {
    var index := LastIndex(s.items, (item: Item) => item.Question? && item.questionId == Some(id), |s.items|);
    if index < 0 then s
    else Push(s.(items := s.items[index := s.items[index].(answered := true)]), User(0, text, []))
  }

  function ChangeStatus(s: SessionState, status: Status): (r: SessionState) {
    var next := s.(status := Some(status));
    if s.status.Some? && s.status.value.sessionId != "" && status.sessionId != "" && s.status.value.sessionId != status.sessionId
    then Push(next, Notice(0, "New session " + status.sessionId))
    else next
  }

  function AddText(s: SessionState, text: string): (r: SessionState) {
    var n := |s.items|;
    if n > 0 && s.items[n - 1].Assistant? && s.items[n - 1].streaming
    then s.(items := s.items[n - 1 := Assistant(s.items[n - 1].key, s.items[n - 1].text + text, true)])
    else Push(s.(items := CloseStreams(s.items)), Assistant(0, text, true))
  }

  function AddReasoning(s: SessionState, text: string): (r: SessionState) {
    var n := |s.items|;
    if n > 0 && s.items[n - 1].Reasoning? && s.items[n - 1].streaming
    then
      var tail := s.items[n - 1];
      s.(items := s.items[n - 1 := Reasoning(tail.key, tail.text + text, tail.chars, tail.redacted, true)])
    else Push(s.(items := CloseStreams(s.items)), Reasoning(0, text, None, false, true))
  }

  function Cwd(s: SessionState): (cwd: Option<string>) {
    if s.status.Some? then Some(s.status.value.cwd) else None
  }

  function StartTool(t: Tools, s: SessionState, id: string, name: string, input: string, cutOff: bool): (r: SessionState) {
    Push(s.(items := CloseStreams(s.items)),
         Tool(0, id, name, input, if cutOff then CutOff else Running, t.view(name, input, Cwd(s)), None, None, None))
  }

  /** The call a result is for: by id, or the oldest open call of that name when there is no id. */
  predicate IsResultFor(item: Item, id: Option<string>, name: string) {
    item.Tool? &&
    if id.Some? && id.value != "" then item.id == id.value
    else (item.state == Running || item.state == AwaitingPermission || item.state == CutOff) && item.name == name
  }

  function ResultIndex(items: seq<Item>, id: Option<string>, name: string): (i: int)
    ensures -1 <= i < |items|
    ensures i >= 0 ==> items[i].Tool?
  {
    FirstIndex(items, (item: Item) => IsResultFor(item, id, name), 0)
  }

  function WithOutcome(t: Tools, item: Item, output: string, isError: bool): (r: Item)
    requires item.Tool?
  {
    var denied := item.state == Denied || (isError && t.deniedByUser(output));
    item.(state := if denied then Denied else if isError then (if item.state == CutOff then CutOff else Failed) else Done,
          output := Some(output),
          view := t.withResult(item.view, item.name, output, isError))
  }

  function FinishCall(t: Tools, s: SessionState, index: int, output: string, isError: bool): (r: SessionState)
    requires 0 <= index < |s.items| && s.items[index].Tool?
  {
    s.(items := s.items[index := WithOutcome(t, s.items[index], output, isError)],
       permissions := WithoutTool(s.permissions, s.items[index].key))
  }

  /** Settles the call a result is for, after starting one when there is none. */
  function TakeResult(t: Tools, s: SessionState, id: Option<string>, name: string, output: string, isError: bool): (r: SessionState) {
    var index := ResultIndex(s.items, id, name);
    if index >= 0 then FinishCall(t, s, index, output, isError)
    else
      var started := StartTool(t, s, if id.Some? then id.value else "", name, "{}", false);
      assert IsResultFor(started.items[|started.items| - 1], id, name);
      FinishCall(t, started, ResultIndex(started.items, id, name), output, isError)
  }

  predicate IsCallOf(t: Tools, item: Item, request: Request) {
    item.Tool? && item.state == Running && item.name == request.tool
    && (item.input == request.input || t.sameJson(item.input, request.input))
  }

  function AskPermission(t: Tools, s: SessionState, id: int, request: Request): (r: SessionState) {
    if FindPermission(s.permissions, id).Some? then s
    else
      var index := LastIndex(s.items, (item: Item) => IsCallOf(t, item, request), |s.items|);
      if index >= 0 then
        s.(items := s.items[index := s.items[index].(state := AwaitingPermission, permissionId := Some(id))],
           permissions := s.permissions + [Permission(id, request, Some(s.items[index].key))])
      else s.(permissions := s.permissions + [Permission(id, request, None)])
  }

  function GiveNotice(t: Tools, s: SessionState, message: string): (r: SessionState) {
    if QUESTION_PREFIX <= message
    then Push(s, Question(0, t.trim(message[|QUESTION_PREFIX|..]), false, None, []))
    else Push(s, Notice(0, message))
  }

  function FinishTurn(s: SessionState): (r: SessionState) {
    s.(items := MapItems(CloseStreams(s.items), Ended), busy := false, sessionStarting := false, signInCode := None, permissions := [])
  }

  function Fail(s: SessionState, message: string): (r: SessionState) {
    if s.connection != Ready then Push(s.(connectionError := Some(message)), Problem(0, message))
    else Push(s.(items := CloseStreams(s.items)), Problem(0, message))
  }

  function IndexOfCall(items: seq<Item>, id: string): (i: int)
    ensures -1 <= i < |items|
    ensures i >= 0 ==> items[i].Tool?
  {
    LastIndex(items, (item: Item) => item.Tool? && item.id == id, |items|)
  }

  function SetSubagent(s: SessionState, id: string, update: Item -> Subagent): (r: SessionState) {
    var index := IndexOfCall(s.items, id);
    if index < 0 then s else s.(items := s.items[index := s.items[index].(subagent := Some(update(s.items[index])))])
  }

  function FinishedSubagent(item: Item, status: string, result: Option<string>, note: Option<string>): (r: Subagent) {
    if !item.Tool? then Subagent("", None, false, Some(status), result, note)
    else
      var old_ := item.subagent;
      Subagent(if old_.Some? then old_.value.description else item.view.target,
               if old_.Some? then old_.value.agentType else None, false, Some(status), result, note)
  }

  // -------------------------------------------------------- a saved chat

  function RestoreEntry(t: Tools, s: SessionState, cwd: Option<string>, entry: Entry): (r: SessionState) {
    match entry
    case UserEntry(text) => Push(s, User(0, text, []))
    case AssistantEntry(text) => Push(s, Assistant(0, text, false))
    case CallEntry(id, name, input) => Push(s, Tool(0, id, name, input, Failed, t.view(name, input, cwd), None, None, None))
    case ResultEntry(id, _, output, isError) =>
      var index := IndexOfCall(s.items, id);
      if index < 0 then s
      else
        var item := s.items[index];
        var denied := isError && t.deniedByUser(output);
        s.(items := s.items[index := item.(state := if denied then Denied else if isError then Failed else Done,
                                           output := Some(output),
                                           view := t.withResult(item.view, item.name, output, isError))])
  }

  function RestoreEntries(t: Tools, s: SessionState, cwd: Option<string>, entries: seq<Entry>, n: nat): (r: SessionState)
    requires n <= |entries|
  {
    if n == 0 then s else RestoreEntry(t, RestoreEntries(t, s, cwd, entries, n - 1), cwd, entries[n - 1])
  }

  const TRUNCATED_NOTICE := "Earlier messages of this chat are not shown."

  /** The state a restored transcript starts from. */
  function Emptied(s: SessionState, sessionId: string, truncated: bool): (r: SessionState) {
    var empty := s.(items := [], permissions := [], todos := "",
                    status := if s.status.Some? then Some(s.status.value.(sessionId := sessionId)) else None);
    if truncated then Push(empty, Notice(0, TRUNCATED_NOTICE)) else empty
  }

  function Restored(t: Tools, s: SessionState, sessionId: string, entries: seq<Entry>, truncated: bool): (r: SessionState) {
    RestoreEntries(t, Emptied(s, sessionId, truncated), Cwd(s), entries, |entries|)
  }

  method RestoreTranscript(t: Tools, s: SessionState, sessionId: string, entries: seq<Entry>, truncated: bool)
    returns (next: SessionState)
    ensures next == Restored(t, s, sessionId, entries, truncated)
  {
    next := s.(items := [], permissions := [], todos := "",
               status := if s.status.Some? then Some(s.status.value.(sessionId := sessionId)) else None);
    if truncated {
      next := Push(next, Notice(0, TRUNCATED_NOTICE));
    }
    for i := 0 to |entries|
      invariant next == RestoreEntries(t, Emptied(s, sessionId, truncated), Cwd(s), entries, i)
    {
      next := RestoreEntry(t, next, Cwd(s), entries[i]);
    }
  }

  // ------------------------------------------------------------- reducer

  predicate IsLocal(a: Action) {
    a.LocalConnecting? || a.LocalReset? || a.LocalDisconnected? || a.LocalSubmitted? || a.LocalSlash?
    || a.LocalPermissionAnswered? || a.LocalPermissionResolved? || a.LocalAnswered?
  }

  /** The eight actions a client makes itself; none calls the tools. */
  function ReduceLocal(s: SessionState, a: Action): (r: SessionState)
    requires IsLocal(a)
  {
    match a
    case LocalConnecting => s.(connection := Connecting, connectionError := None)
    case LocalReset => InitialSession().(nextKey := s.nextKey)
    case LocalDisconnected(error) => Disconnect(s, error)
    case LocalSubmitted(text, attachments) => Submit(s, text, attachments)
    case LocalSlash(command, args) => Push(s, User(0, "/" + command + (if args != "" then " " + args else ""), [])).(busy := true)
    case LocalPermissionAnswered(id, deny) => Resolve(s, id, deny)
    case LocalPermissionResolved(id) => Resolve(s, id, false)
    case LocalAnswered(id, text) => Answer(s, id, text)
  }

  predicate IsTurn(a: Action) {
    a.TextDelta? || a.TextBlockEnd? || a.ReasoningStarted? || a.ReasoningDelta? || a.ToolCallStarted? || a.ToolResult?
    || a.PermissionRequested? || a.TurnFinished? || a.SubagentStarted? || a.SubagentFinished?
  }

  /** What the agent does in a turn. */
  function ReduceTurn(t: Tools, s: SessionState, a: Action): (r: SessionState)
    requires IsTurn(a)
  {
    match a
    case TextDelta(text) => AddText(s, text)
    case TextBlockEnd => s.(items := CloseStreams(s.items))
    case ReasoningStarted(chars, redacted) => Push(s.(items := CloseStreams(s.items)), Reasoning(0, "", chars, redacted, true))
    case ReasoningDelta(text) => AddReasoning(s, text)
    case ToolCallStarted(id, name, input, cutOff) => StartTool(t, s, id, name, input, cutOff)
    case ToolResult(id, name, output, isError) => TakeResult(t, s, id, name, output, isError)
    case PermissionRequested(id, request) => AskPermission(t, s, id, request)
    case TurnFinished => FinishTurn(s)
    case SubagentStarted(id, description, agentType) =>
      SetSubagent(s, id, (item: Item) => Subagent(description, agentType, true, None, None, None))
    case SubagentFinished(id, status, result, note) =>
      SetSubagent(s, id, (item: Item) => FinishedSubagent(item, status, result, note))
  }

  /** What the engine reports about itself and the session. */
  function ReduceReport(t: Tools, s: SessionState, a: Action): (r: SessionState)
    requires !IsLocal(a) && !IsTurn(a)
  {
    match a
    case EngineReady(version, protocol, features) =>
      s.(connection := Ready, connectionError := None, version := Some(version), protocol := Some(protocol),
         features := features, restartRequired := false, extensions := None)
    case StatusChanged(status) => ChangeStatus(s, status)
    case SessionStarting => s.(sessionStarting := true, signInCode := None)
    case SignInCode(code) => s.(signInCode := Some(code), busy := true)
    case Models(models) => s.(models := models)
    case Usage(usage) => s.(usage := Some(usage))
    case NoticeGiven(message) => GiveNotice(t, s, message)
    case EngineError(message) => Fail(s, message)
    case Sessions(sessions) => s.(sessions := Some(sessions))
    case Transcript(sessionId, entries, truncated) => Restored(t, s, sessionId, entries, truncated)
    case WorkspaceTrusted(restartRequired) =>
      s.(restartRequired := restartRequired,
         status := if s.status.Some? then Some(s.status.value.(workspaceTrusted := true)) else None)
    case QuestionAsked(id, question, options) => Push(s, Question(0, question, false, Some(id), options))
    case Todos(todos) => s.(todos := todos)
    case Extensions(extensions) => s.(extensions := Some(extensions))
    case Unknown => s
  }

  function Reduce(t: Tools, s: SessionState, a: Action): (r: SessionState) {
    if IsLocal(a) then ReduceLocal(s, a)
    else if IsTurn(a) then ReduceTurn(t, s, a)
    else ReduceReport(t, s, a)
  }

  /** The first `n` actions of a run. */
  function Run(t: Tools, s: SessionState, actions: seq<Action>, n: nat): (r: SessionState)
    requires n <= |actions|
  {
    if n == 0 then s else Reduce(t, Run(t, s, actions, n - 1), actions[n - 1])
  }
}
