/**
 * What the rest of a session's state follows: which action sets each field,
 * what questions and streamed blocks come to, and how a turn or an engine ends.
 */
module SessionReports {
  import opened Wrappers
  import opened Session
  import opened SessionEffects
  import Text

  // -------------------------------------------------- which action sets what

  /** Nothing but the transcript, its permissions and the next key differs. */
  predicate SameReports(s: SessionState, r: SessionState) {
    r == s.(items := r.items, permissions := r.permissions, nextKey := r.nextKey)
  }

  lemma ResultReportsNothing(t: Tools, s: SessionState, id: Option<string>, name: string, output: string, isError: bool)
    ensures SameReports(s, TakeResult(t, s, id, name, output, isError))
  {}

  lemma TextReportsNothing(s: SessionState, text: string)
    ensures SameReports(s, AddText(s, text)) && SameReports(s, AddReasoning(s, text))
  {}

  lemma TurnReportsNothing(t: Tools, s: SessionState, a: Action)
    requires IsTurn(a) && !a.TurnFinished?
    ensures SameReports(s, ReduceTurn(t, s, a))
  {
    match a {
      case ToolResult(id, name, output, isError) => ResultReportsNothing(t, s, id, name, output, isError);
      case TextDelta(text) => TextReportsNothing(s, text);
      case ReasoningDelta(text) => TextReportsNothing(s, text);
      case _ =>
    }
  }

  lemma EntryReportsNothing(t: Tools, s: SessionState, cwd: Option<string>, entry: Entry)
    ensures var r := RestoreEntry(t, s, cwd, entry);
            SameReports(s, r) && r.permissions == s.permissions
  {}

  lemma {:induction false} RestoreReportsNothing(t: Tools, s: SessionState, cwd: Option<string>, entries: seq<Entry>, n: nat)
    requires n <= |entries|
    ensures var r := RestoreEntries(t, s, cwd, entries, n);
            SameReports(s, r) && r.permissions == s.permissions
  {
    if n > 0 {
      RestoreReportsNothing(t, s, cwd, entries, n - 1);
      EntryReportsNothing(t, RestoreEntries(t, s, cwd, entries, n - 1), cwd, entries[n - 1]);
    }
  }

  predicate IsOpenQuestion(item: Item) {
    item.Question? && !item.answered
  }

  ghost predicate AsksSomething(s: SessionState) {
    exists i :: 0 <= i < |s.items| && IsOpenQuestion(s.items[i])
  }

  /** The agent works from a submitted message or command, or a sign-in, to the end of the turn or of the engine. */
  ghost predicate BusyAfter(s: SessionState, a: Action) {
    || a.SignInCode? || a.LocalSlash? || (a.LocalSubmitted? && !AsksSomething(s))
    || (s.busy && !a.TurnFinished? && !a.LocalDisconnected? && !a.LocalReset?)
  }

  /** How the turn stands after one more action. */
  ghost predicate Stands(s: SessionState, a: Action, r: SessionState) {
    && (r.busy <==> BusyAfter(s, a))
    && (r.sessionStarting <==> a.SessionStarting? || (s.sessionStarting && !a.TurnFinished? && !a.LocalReset?))
    && r.signInCode == (if a.SignInCode? then Some(a.code)
                        else if a.SessionStarting? || a.TurnFinished? || a.LocalReset? then None else s.signInCode)
    && r.restartRequired == (if a.WorkspaceTrusted? then a.restartRequired
                             else if a.EngineReady? || a.LocalReset? then false else s.restartRequired)
  }

  /** How the engine and its session are reached. */
  predicate Connects(s: SessionState, a: Action, r: SessionState) {
    && r.connection == (if a.EngineReady? then Ready else if a.LocalDisconnected? then Exited
                        else if a.LocalConnecting? || a.LocalReset? then Connecting else s.connection)
    && r.connectionError == (if a.LocalDisconnected? then a.error
                             else if a.EngineReady? || a.LocalConnecting? || a.LocalReset? then None
                             else if a.EngineError? && s.connection != Ready then Some(a.message) else s.connectionError)
    && r.status == (if a.StatusChanged? then Some(a.status)
                    else if a.LocalReset? || s.status.None? then None
                    else if a.Transcript? then Some(s.status.value.(sessionId := a.sessionId))
                    else if a.WorkspaceTrusted? then Some(s.status.value.(workspaceTrusted := true)) else s.status)
  }

  /** What the engine last reported of itself, after one more action. */
  predicate Shows(s: SessionState, a: Action, r: SessionState) {
    && (r.version, r.protocol, r.features) ==
       (if a.EngineReady? then (Some(a.version), Some(a.protocol), a.features)
        else if a.LocalReset? then (None, None, []) else (s.version, s.protocol, s.features))
    && r.models == (if a.Models? then a.models else if a.LocalReset? then "" else s.models)
    && r.todos == (if a.Todos? then a.todos else if a.LocalReset? || a.Transcript? then "" else s.todos)
  }

  /** What it last listed of its sessions, servers and use. */
  predicate ShowsLists(s: SessionState, a: Action, r: SessionState) {
    && r.usage == (if a.Usage? then Some(a.usage) else if a.LocalReset? then None else s.usage)
    && r.sessions == (if a.Sessions? then Some(a.sessions) else if a.LocalReset? then None else s.sessions)
    && r.extensions == (if a.Extensions? then Some(a.extensions) else if a.EngineReady? || a.LocalReset? then None else s.extensions)
  }

  lemma SubmitSets(s: SessionState, text: string, attachments: seq<Attachment>)
    ensures var r := Submit(s, text, attachments);
            SameReports(s, r.(busy := s.busy)) && (r.busy <==> s.busy || !AsksSomething(s))
  {
    var i := LastIndex(s.items, IsUnanswered, |s.items|);
    assert forall k :: 0 <= k < |s.items| ==> IsUnanswered(s.items[k]) == IsOpenQuestion(s.items[k]);
    assert i >= 0 ==> IsOpenQuestion(s.items[i]);
  }

  lemma LocalStands(s: SessionState, a: Action)
    requires IsLocal(a)
    ensures Stands(s, a, ReduceLocal(s, a))
  {
    if a.LocalSubmitted? {
      SubmitSets(s, a.text, a.attachments);
    }
  }

  lemma LocalConnects(s: SessionState, a: Action)
    requires IsLocal(a)
    ensures Connects(s, a, ReduceLocal(s, a))
  {
    if a.LocalSubmitted? {
      SubmitSets(s, a.text, a.attachments);
    }
  }

  lemma LocalShows(s: SessionState, a: Action)
    requires IsLocal(a)
    ensures Shows(s, a, ReduceLocal(s, a))
  {}

  lemma LocalShowsLists(s: SessionState, a: Action)
    requires IsLocal(a)
    ensures ShowsLists(s, a, ReduceLocal(s, a))
  {}

  lemma TurnSets(t: Tools, s: SessionState, a: Action)
    requires IsTurn(a)
    ensures var r := ReduceTurn(t, s, a);
            Stands(s, a, r) && Shows(s, a, r) && ShowsLists(s, a, r) && Connects(s, a, r)
  {
    if !a.TurnFinished? {
      TurnReportsNothing(t, s, a);
    }
  }

  lemma TranscriptSets(t: Tools, s: SessionState, a: Action)
    requires a.Transcript?
    ensures var r := ReduceReport(t, s, a);
            Stands(s, a, r) && Shows(s, a, r) && ShowsLists(s, a, r) && Connects(s, a, r)
  {
    RestoreReportsNothing(t, Emptied(s, a.sessionId, a.truncated), Cwd(s), a.entries, |a.entries|);
  }

  lemma ReportStands(t: Tools, s: SessionState, a: Action)
    requires !IsLocal(a) && !IsTurn(a) && !a.Transcript?
    ensures Stands(s, a, ReduceReport(t, s, a))
  {}

  lemma ReportConnects(t: Tools, s: SessionState, a: Action)
    requires !IsLocal(a) && !IsTurn(a) && !a.Transcript?
    ensures Connects(s, a, ReduceReport(t, s, a))
  {}

  lemma ReportShowsLists(t: Tools, s: SessionState, a: Action)
    requires !IsLocal(a) && !IsTurn(a) && !a.Transcript?
    ensures ShowsLists(s, a, ReduceReport(t, s, a))
  {}

  lemma ReportShows(t: Tools, s: SessionState, a: Action)
    requires !IsLocal(a) && !IsTurn(a) && !a.Transcript?
    ensures Shows(s, a, ReduceReport(t, s, a))
  {}

  /** Each field changes by the actions that are to change it, and by no other. */
  lemma FieldsFollowTheirActions(t: Tools, s: SessionState, a: Action)
    ensures var r := Reduce(t, s, a);
            Stands(s, a, r) && Shows(s, a, r) && ShowsLists(s, a, r) && Connects(s, a, r)
  {
    if IsLocal(a) {
      LocalStands(s, a);
      LocalShows(s, a);
      LocalShowsLists(s, a);
      LocalConnects(s, a);
    } else if IsTurn(a) {
      TurnSets(t, s, a);
    } else if a.Transcript? {
      TranscriptSets(t, s, a);
    } else {
      ReportStands(t, s, a);
      ReportShows(t, s, a);
      ReportShowsLists(t, s, a);
      ReportConnects(t, s, a);
    }
  }

  lemma SameSessionIsNotAnnounced(s: SessionState, status: Status)
    requires s.status.Some? ==> s.status.value.sessionId == status.sessionId
    ensures ChangeStatus(s, status) == s.(status := Some(status))
  {}

  lemma TranscriptRestores(t: Tools, s: SessionState, sessionId: string, entries: seq<Entry>, truncated: bool)
    ensures Reduce(t, s, Transcript(sessionId, entries, truncated)) == Restored(t, s, sessionId, entries, truncated)
  {}

  lemma StatusChanges(t: Tools, s: SessionState, status: Status)
    ensures Reduce(t, s, StatusChanged(status)) == ChangeStatus(s, status)
  {}

  /** A restored chat shows no second notice when the status with its session id follows. */
  lemma SwitchIsNotAnnouncedTwice(t: Tools, s: SessionState, sessionId: string, entries: seq<Entry>, truncated: bool, status: Status)
    requires status.sessionId == sessionId
    ensures var restored := Reduce(t, s, Transcript(sessionId, entries, truncated));
            Reduce(t, restored, StatusChanged(status)) == restored.(status := Some(status))
  {
    RestoreReportsNothing(t, Emptied(s, sessionId, truncated), Cwd(s), entries, |entries|);
    TranscriptRestores(t, s, sessionId, entries, truncated);
    var restored := Restored(t, s, sessionId, entries, truncated);
    SameSessionIsNotAnnounced(restored, status);
    StatusChanges(t, restored, status);
  }

  /** Another session is announced exactly when the old and the new one are named and differ. */
  lemma SwitchIsAnnounced(t: Tools, s: SessionState, status: Status)
    ensures var r := Reduce(t, s, StatusChanged(status));
            if s.status.Some? && s.status.value.sessionId !in ["", status.sessionId] && status.sessionId != ""
            then Adds(s.(status := Some(status)), r, Notice(s.nextKey, "New session " + status.sessionId))
            else r == s.(status := Some(status))
  {}

  // ----------------------------------------------------------- questions

  /** A submitted message answers the newest open question, and only without one starts a turn. */
  lemma SubmitAnswersNewest(t: Tools, s: SessionState, text: string, attachments: seq<Attachment>, i: nat)
    requires i < |s.items| && IsOpenQuestion(s.items[i])
    requires forall k :: i < k < |s.items| ==> !IsOpenQuestion(s.items[k])
    ensures var q := s.items[i];
            Adds(s.(items := s.items[i := Question(q.key, q.text, true, q.questionId, q.options)]),
                 Reduce(t, s, LocalSubmitted(text, attachments)), User(s.nextKey, text, attachments))
  {
    assert forall k :: 0 <= k < |s.items| ==> IsUnanswered(s.items[k]) == IsOpenQuestion(s.items[k]);
    assert LastIndex(s.items, IsUnanswered, |s.items|) == i;
  }

  lemma SubmitWithoutQuestion(t: Tools, s: SessionState, text: string, attachments: seq<Attachment>)
    requires !AsksSomething(s)
    ensures Adds(s.(busy := true), Reduce(t, s, LocalSubmitted(text, attachments)), User(s.nextKey, text, attachments))
  {
    var i := LastIndex(s.items, IsUnanswered, |s.items|);
    assert i >= 0 ==> IsOpenQuestion(s.items[i]);
  }

  predicate HasQuestionId(item: Item, id: int) {
    item.Question? && item.questionId.Some? && item.questionId.value == id
  }

  /** An answer by id answers the newest question with that id, open or not, and is nothing without one. */
  lemma AnswerFindsItsQuestion(t: Tools, s: SessionState, id: int, text: string, i: nat)
    requires i < |s.items| && HasQuestionId(s.items[i], id)
    requires forall k :: i < k < |s.items| ==> !HasQuestionId(s.items[k], id)
    ensures var q := s.items[i];
            Adds(s.(items := s.items[i := Question(q.key, q.text, true, q.questionId, q.options)]),
                 Reduce(t, s, LocalAnswered(id, text)), User(s.nextKey, text, []))
  {
    var isIt := (item: Item) => item.Question? && item.questionId == Some(id);
    assert forall k :: 0 <= k < |s.items| ==> isIt(s.items[k]) == HasQuestionId(s.items[k], id);
    assert LastIndex(s.items, isIt, |s.items|) == i;
  }

  lemma AnswerWithoutQuestion(t: Tools, s: SessionState, id: int, text: string)
    requires forall k :: 0 <= k < |s.items| ==> !HasQuestionId(s.items[k], id)
    ensures Reduce(t, s, LocalAnswered(id, text)) == s
  {
    var isIt := (item: Item) => item.Question? && item.questionId == Some(id);
    assert forall k :: 0 <= k < |s.items| ==> isIt(s.items[k]) == HasQuestionId(s.items[k], id);
  }

  /** A question with an id, answered by it, stands answered before the answer. */
  lemma QuestionIsAnswered(t: Tools, s: SessionState, id: int, question: string, options: seq<string>, text: string)
    ensures var asked := Reduce(t, s, QuestionAsked(id, question, options));
            && Adds(s, asked, Question(s.nextKey, question, false, Some(id), options))
            && Reduce(t, asked, LocalAnswered(id, text)) ==
               s.(items := s.items + [Question(s.nextKey, question, true, Some(id), options), User(s.nextKey + 1, text, [])],
                  nextKey := s.nextKey + 2)
  {
    var asked := Reduce(t, s, QuestionAsked(id, question, options));
    AnswerFindsItsQuestion(t, asked, id, text, |s.items|);
  }

  /** A notice that starts as a question is one, with the rest of it trimmed; any other is shown as it is. */
  lemma NoticeMayAsk(t: Tools, s: SessionState, prefix: string, text: string)
    requires prefix == "Question:"
    ensures Adds(s, Reduce(t, s, NoticeGiven(prefix + text)), Question(s.nextKey, t.trim(text), false, None, []))
    ensures !(prefix <= text) ==> Adds(s, Reduce(t, s, NoticeGiven(text)), Notice(s.nextKey, text))
  {
    assert (prefix + text)[|QUESTION_PREFIX|..] == text;
  }

  lemma CommandIsShown(t: Tools, s: SessionState, command: string, args: string)
    ensures Adds(s.(busy := true), Reduce(t, s, LocalSlash(command, args)),
                 User(s.nextKey, if args == "" then "/" + command else "/" + command + " " + args, []))
  {
    Text.Regroup("/" + command, " ", args);
    assert "/" + command + "" == "/" + command;
  }

  lemma FailShows(s: SessionState, message: string)
    ensures if s.connection.Ready? then AddsClosed(s, Fail(s, message), Problem(s.nextKey, message))
            else Adds(s.(connectionError := Some(message)), Fail(s, message), Problem(s.nextKey, message))
  {
    CloseCloses(s, Problem(0, message));
  }

  /** An error is shown; before the engine is ready it is also why there is no connection. */
  lemma ErrorIsShown(t: Tools, s: SessionState, message: string)
    ensures var r := Reduce(t, s, EngineError(message));
            if s.connection.Ready? then AddsClosed(s, r, Problem(s.nextKey, message))
            else Adds(s.(connectionError := Some(message)), r, Problem(s.nextKey, message))
  {
    FailShows(s, message);
  }

  // ------------------------------------------------------ streamed blocks

  /** More text goes on with the open block. */
  lemma {:induction false} TextGoesOn(t: Tools, s: SessionState, r: SessionState, before: string, actions: seq<Action>, parts: seq<string>, n: nat)
    requires AddsClosed(s, r, Assistant(s.nextKey, before, true))
    requires n <= |actions| == |parts| && forall i :: 0 <= i < |parts| ==> actions[i] == TextDelta(parts[i])
    ensures AddsClosed(s, Run(t, r, actions, n), Assistant(s.nextKey, before + Text.Concat(parts[..n]), true))
  {
    if n == 0 {
      assert before + "" == before;
    } else {
      TextGoesOn(t, s, r, before, actions, parts, n - 1);
      OneMoreText(t, s, Run(t, r, actions, n - 1), before + Text.Concat(parts[..n - 1]), parts[n - 1]);
      OneMorePart(before, parts, n);
    }
  }

  lemma OneMorePart(before: string, parts: seq<string>, n: nat)
    requires 0 < n <= |parts|
    ensures before + Text.Concat(parts[..n]) == before + Text.Concat(parts[..n - 1]) + parts[n - 1]
  {
    assert parts[..n] == parts[..n - 1] + [parts[n - 1]];
    Text.ConcatAppend(parts[..n - 1], [parts[n - 1]]);
    assert Text.Concat([parts[n - 1]]) == parts[n - 1];
  }

  lemma OneMoreText(t: Tools, s: SessionState, r: SessionState, before: string, part: string)
    requires AddsClosed(s, r, Assistant(s.nextKey, before, true))
    ensures AddsClosed(s, Reduce(t, r, TextDelta(part)), Assistant(s.nextKey, before + part, true))
  {
    var last, next := |r.items| - 1, Reduce(t, r, TextDelta(part));
    assert next.items[..last] == r.items[..last];
  }

  lemma {:induction false} ReasoningGoesOn(t: Tools, s: SessionState, r: SessionState, chars: Option<nat>, redacted: bool, before: string,
                                           actions: seq<Action>, parts: seq<string>, n: nat)
    requires AddsClosed(s, r, Reasoning(s.nextKey, before, chars, redacted, true))
    requires n <= |actions| == |parts| && forall i :: 0 <= i < |parts| ==> actions[i] == ReasoningDelta(parts[i])
    ensures AddsClosed(s, Run(t, r, actions, n), Reasoning(s.nextKey, before + Text.Concat(parts[..n]), chars, redacted, true))
  {
    if n == 0 {
      assert before + "" == before;
    } else {
      ReasoningGoesOn(t, s, r, chars, redacted, before, actions, parts, n - 1);
      OneMoreReasoning(t, s, Run(t, r, actions, n - 1), chars, redacted, before + Text.Concat(parts[..n - 1]), parts[n - 1]);
      OneMorePart(before, parts, n);
    }
  }

  lemma OneMoreReasoning(t: Tools, s: SessionState, r: SessionState, chars: Option<nat>, redacted: bool, before: string, part: string)
    requires AddsClosed(s, r, Reasoning(s.nextKey, before, chars, redacted, true))
    ensures AddsClosed(s, Reduce(t, r, ReasoningDelta(part)), Reasoning(s.nextKey, before + part, chars, redacted, true))
  {
    var last, next := |r.items| - 1, Reduce(t, r, ReasoningDelta(part));
    assert next.items[..last] == r.items[..last];
  }

  /** The end of a block, or whatever item comes next, closes it and leaves its text alone. */
  lemma BlockEnds(t: Tools, s: SessionState, r: SessionState, item: Item)
    requires AddsClosed(s, r, item) && (item.Assistant? || item.Reasoning?)
    ensures AddsClosed(s, Reduce(t, r, TextBlockEnd), item.(streaming := false))
  {
    var last, next := |r.items| - 1, Reduce(t, r, TextBlockEnd);
    assert next.items[..last] == r.items[..last];
  }

  predicate StreamsText(items: seq<Item>) {
    items != [] && items[|items| - 1].Assistant? && items[|items| - 1].streaming
  }

  predicate StreamsReasoning(items: seq<Item>) {
    items != [] && items[|items| - 1].Reasoning? && items[|items| - 1].streaming
  }

  lemma FirstText(t: Tools, s: SessionState, first: string)
    requires !StreamsText(s.items)
    ensures AddsClosed(s, Reduce(t, s, TextDelta(first)), Assistant(s.nextKey, first, true))
  {
    CloseCloses(s, Assistant(0, first, true));
  }

  /** Text streamed in any number of parts becomes one item with all of it, closed at the end of its block. */
  lemma StreamedTextIsOneItem(t: Tools, s: SessionState, first: string, actions: seq<Action>, parts: seq<string>)
    requires !StreamsText(s.items)
    requires |actions| == |parts| && forall i :: 0 <= i < |parts| ==> actions[i] == TextDelta(parts[i])
    ensures var streamed := Run(t, Reduce(t, s, TextDelta(first)), actions, |actions|);
            && AddsClosed(s, streamed, Assistant(s.nextKey, first + Text.Concat(parts), true))
            && AddsClosed(s, Reduce(t, streamed, TextBlockEnd), Assistant(s.nextKey, first + Text.Concat(parts), false))
  {
    FirstText(t, s, first);
    TextGoesOn(t, s, Reduce(t, s, TextDelta(first)), first, actions, parts, |parts|);
    assert parts[..|parts|] == parts;
    BlockEnds(t, s, Run(t, Reduce(t, s, TextDelta(first)), actions, |actions|), Assistant(s.nextKey, first + Text.Concat(parts), true));
  }

  lemma AnnouncedReasoning(t: Tools, s: SessionState, chars: Option<nat>, redacted: bool)
    ensures AddsClosed(s, Reduce(t, s, ReasoningStarted(chars, redacted)), Reasoning(s.nextKey, "", chars, redacted, true))
  {
    CloseCloses(s, Reasoning(0, "", chars, redacted, true));
  }

  lemma AllParts(parts: seq<string>)
    ensures "" + Text.Concat(parts[..|parts|]) == Text.Concat(parts)
  {
    assert parts[..|parts|] == parts;
  }

  /** So does reasoning, with what it was announced with. */
  lemma StreamedReasoningIsOneItem(t: Tools, s: SessionState, chars: Option<nat>, redacted: bool, actions: seq<Action>, parts: seq<string>)
    requires |actions| == |parts| && forall i :: 0 <= i < |parts| ==> actions[i] == ReasoningDelta(parts[i])
    ensures AddsClosed(s, Run(t, Reduce(t, s, ReasoningStarted(chars, redacted)), actions, |actions|),
                       Reasoning(s.nextKey, Text.Concat(parts), chars, redacted, true))
  {
    AnnouncedReasoning(t, s, chars, redacted);
    ReasoningGoesOn(t, s, Reduce(t, s, ReasoningStarted(chars, redacted)), chars, redacted, "", actions, parts, |parts|);
    AllParts(parts);
  }

  /** Unannounced reasoning has no length and is not redacted. */
  lemma {:induction false} UnannouncedReasoning(t: Tools, s: SessionState, actions: seq<Action>, parts: seq<string>, n: nat)
    requires 0 < n <= |actions| == |parts| && forall i :: 0 <= i < |parts| ==> actions[i] == ReasoningDelta(parts[i])
    requires !StreamsReasoning(s.items)
    ensures AddsClosed(s, Run(t, s, actions, n), Reasoning(s.nextKey, Text.Concat(parts[..n]), None, false, true))
  {
    OneMorePart("", parts, n);
    assert "" + Text.Concat(parts[..n]) == Text.Concat(parts[..n]);
    if n == 1 {
      FirstReasoning(t, s, parts[0]);
      assert "" + Text.Concat(parts[..0]) + parts[0] == parts[0];
      assert Run(t, s, actions, n - 1) == s;
    } else {
      UnannouncedReasoning(t, s, actions, parts, n - 1);
      OneMoreReasoning(t, s, Run(t, s, actions, n - 1), None, false, Text.Concat(parts[..n - 1]), parts[n - 1]);
      assert "" + Text.Concat(parts[..n - 1]) == Text.Concat(parts[..n - 1]);
    }
  }

  lemma FirstReasoning(t: Tools, s: SessionState, part: string)
    requires !StreamsReasoning(s.items)
    ensures AddsClosed(s, Reduce(t, s, ReasoningDelta(part)), Reasoning(s.nextKey, part, None, false, true))
  {
    CloseCloses(s, Reasoning(0, part, None, false, true));
  }

  // ------------------------------------------------- ends and new starts

  /** The items once nothing runs any more: open calls failed, the open block closed. */
  predicate EndsWith(items: seq<Item>, others: seq<Item>, explanation: Option<string>) {
    && |others| == |items|
    && forall i :: 0 <= i < |items| ==>
         var x := items[i];
         others[i] ==
         if x.Tool? && (x.state.Running? || x.state.AwaitingPermission?)
         then Tool(x.key, x.id, x.name, x.input, Failed, x.view, if x.output.None? then explanation else x.output, x.permissionId, x.subagent)
         else if i == |items| - 1 && x.Assistant? then Assistant(x.key, x.text, false)
         else if i == |items| - 1 && x.Reasoning? then Reasoning(x.key, x.text, x.chars, x.redacted, false)
         else x
  }

  lemma FinishEnds(s: SessionState)
    ensures EndsWith(s.items, FinishTurn(s).items, None)
  {}

  lemma DisconnectEnds(s: SessionState, error: Option<string>, explanation: string)
    requires explanation == "The engine stopped before this call finished."
    ensures EndsWith(s.items, Disconnect(s, error).items, Some(explanation))
  {}

  /** The end of a turn fails the calls still open; the end of the engine also says why, where there is no output. */
  lemma EndsFailOpenCalls(t: Tools, s: SessionState, error: Option<string>, explanation: string)
    requires explanation == "The engine stopped before this call finished."
    ensures var r := Reduce(t, s, TurnFinished);
            EndsWith(s.items, r.items, None) && r.permissions == [] && r.nextKey == s.nextKey
    ensures var r := Reduce(t, s, LocalDisconnected(error));
            EndsWith(s.items, r.items, Some(explanation)) && r.permissions == [] && r.nextKey == s.nextKey
  {
    FinishEnds(s);
    DisconnectEnds(s, error, explanation);
  }

  /** Another project or chat keeps no item and no permission; keys go on from where they were. */
  lemma StartsKeepNothing(t: Tools, s: SessionState, sessionId: string, entries: seq<Entry>, truncated: bool)
    ensures var r := Reduce(t, s, LocalReset);
            r.items == [] && r.permissions == [] && r.nextKey == s.nextKey
    ensures Reduce(t, s, Transcript(sessionId, entries, truncated)).permissions == []
  {
    RestoreReportsNothing(t, Emptied(s, sessionId, truncated), Cwd(s), entries, |entries|);
  }

  // ------------------------------------------------------------ subagents

  predicate HasCallId(item: Item, id: string) {
    item.Tool? && item.id == id
  }

  /** A subagent belongs to the newest call with its id and keeps its description and type when it finishes. */
  lemma SubagentIsKept(t: Tools, s: SessionState, id: string, description: string, agentType: Option<string>,
                       status: string, result: Option<string>, note: Option<string>, i: nat)
    requires i < |s.items| && HasCallId(s.items[i], id)
    requires forall k :: i < k < |s.items| ==> !HasCallId(s.items[k], id)
    ensures var started := Reduce(t, s, SubagentStarted(id, description, agentType));
            && started == s.(items := s.items[i := s.items[i].(subagent := Some(Subagent(description, agentType, true, None, None, None)))])
            && Reduce(t, started, SubagentFinished(id, status, result, note)) ==
               s.(items := s.items[i := s.items[i].(subagent := Some(Subagent(description, agentType, false, Some(status), result, note)))])
  {
    IndexOfNewest(s.items, id, i);
    var started := Reduce(t, s, SubagentStarted(id, description, agentType));
    IndexOfNewest(started.items, id, i);
  }

  lemma IndexOfNewest(items: seq<Item>, id: string, i: nat)
    requires i < |items| && HasCallId(items[i], id)
    requires forall k :: i < k < |items| ==> !HasCallId(items[k], id)
    ensures IndexOfCall(items, id) == i
  {
    var isIt := (item: Item) => item.Tool? && item.id == id;
    assert forall k :: 0 <= k < |items| ==> isIt(items[k]) == HasCallId(items[k], id);
  }

  /** Finished without having started it is described by its call; without a call it is nothing. */
  lemma UnstartedSubagent(t: Tools, s: SessionState, id: string, status: string, result: Option<string>, note: Option<string>, i: nat)
    requires i < |s.items| && HasCallId(s.items[i], id) && s.items[i].subagent.None?
    requires forall k :: i < k < |s.items| ==> !HasCallId(s.items[k], id)
    ensures Reduce(t, s, SubagentFinished(id, status, result, note)) ==
            s.(items := s.items[i := s.items[i].(subagent := Some(Subagent(s.items[i].view.target, None, false, Some(status), result, note)))])
  {
    IndexOfNewest(s.items, id, i);
  }

  lemma SubagentWithoutCall(t: Tools, s: SessionState, a: Action)
    requires a.SubagentStarted? || a.SubagentFinished?
    requires forall k :: 0 <= k < |s.items| ==> !HasCallId(s.items[k], a.callId)
    ensures Reduce(t, s, a) == s
  {
    var isIt := (item: Item) => item.Tool? && item.id == a.callId;
    assert forall k :: 0 <= k < |s.items| ==> isIt(s.items[k]) == HasCallId(s.items[k], a.callId);
    assert IndexOfCall(s.items, a.callId) == -1;
  }

  /** A saved result settles the newest call with its id, as a live one would settle a running call, and is nothing without one. */
  lemma SavedResultSettles(t: Tools, s: SessionState, cwd: Option<string>, id: string, name: string, output: string, isError: bool, i: nat)
    requires i < |s.items| && HasCallId(s.items[i], id)
    requires forall k :: i < k < |s.items| ==> !HasCallId(s.items[k], id)
    ensures var call := s.items[i];
            RestoreEntry(t, s, cwd, ResultEntry(id, name, output, isError)) ==
            s.(items := s.items[i := Tool(call.key, call.id, call.name, call.input, Outcome(t, false, output, isError),
                                          t.withResult(call.view, call.name, output, isError), Some(output), call.permissionId, call.subagent)])
  {
    IndexOfNewest(s.items, id, i);
  }

  lemma SavedResultWithoutCall(t: Tools, s: SessionState, cwd: Option<string>, id: string, name: string, output: string, isError: bool)
    requires forall k :: 0 <= k < |s.items| ==> !HasCallId(s.items[k], id)
    ensures RestoreEntry(t, s, cwd, ResultEntry(id, name, output, isError)) == s
  {
    var isIt := (item: Item) => item.Tool? && item.id == id;
    assert forall k :: 0 <= k < |s.items| ==> isIt(s.items[k]) == HasCallId(s.items[k], id);
    assert IndexOfCall(s.items, id) == -1;
  }
}
