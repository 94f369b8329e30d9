/**
 * How a transcript changes over a run: items are only added, keys are never
 * used again, and streamed text is neither lost nor repeated.
 */
module SessionHistory {
  import opened Wrappers
  import opened Session

  // ------------------------------------------------------------ identity

  /**
   * A later state of the same item: what names it never changes, text only
   * grows, a finished call stays finished and a refused one refused.
   */
  predicate IsLater(x: Item, y: Item) {
    x.key == y.key &&
    match (x, y)
    case (User(_, _, _), User(_, _, _)) => x == y
    case (Notice(_, _), Notice(_, _)) => x == y
    case (Problem(_, _), Problem(_, _)) => x == y
    case (Question(_, _, _, _, _), Question(_, _, _, _, _)) =>
      x.text == y.text && x.questionId == y.questionId && x.options == y.options && (x.answered ==> y.answered)
    case (Assistant(_, _, _), Assistant(_, _, _)) => x.text <= y.text
    case (Reasoning(_, _, _, _, _), Reasoning(_, _, _, _, _)) => x.text <= y.text && x.chars == y.chars && x.redacted == y.redacted
    case (Tool(_, _, _, _, _, _, _, _, _), Tool(_, _, _, _, _, _, _, _, _)) =>
      && x.id == y.id && x.name == y.name && x.input == y.input
      && (IsUnfinished(y) ==> IsUnfinished(x))
      && (x.state == Denied ==> y.state == Denied)
      && (x.output.Some? ==> y.output.Some?)
    case _ => false
  }

  /** An item changed without adding to the agent's text. */
  predicate IsLaterQuietly(x: Item, y: Item) {
    IsLater(x, y) && (x.Assistant? ==> x.text == y.text)
  }

  /** Old items in their places, new ones with new keys and none of them the agent's text. */
  ghost predicate GrowsQuietly(items: seq<Item>, nextKey: nat, others: seq<Item>) {
    && |items| <= |others|
    && (forall i :: 0 <= i < |items| ==> IsLaterQuietly(items[i], others[i]))
    && (forall i :: |items| <= i < |others| ==> nextKey <= others[i].key && !others[i].Assistant?)
  }

  /** Old items in their places, new ones with new keys. */
  ghost predicate Grows(items: seq<Item>, nextKey: nat, others: seq<Item>) {
    && |items| <= |others|
    && (forall i :: 0 <= i < |items| ==> IsLater(items[i], others[i]))
    && (forall i :: |items| <= i < |others| ==> nextKey <= others[i].key)
  }

  ghost predicate Quiet(s: SessionState, r: SessionState) {
    s.nextKey <= r.nextKey && GrowsQuietly(s.items, s.nextKey, r.items)
  }

  predicate StartsOver(a: Action) {
    a.LocalReset? || a.Transcript?
  }

  lemma PushIsQuiet(s: SessionState, next: SessionState, item: Item)
    requires Quiet(s, next) && !item.Assistant?
    ensures Quiet(s, Push(next, item))
  {}

  lemma UpdateIsQuiet(s: SessionState, items: seq<Item>, index: nat)
    requires index < |s.items| == |items|
    requires forall i :: 0 <= i < |items| && i != index ==> items[i] == s.items[i]
    requires IsLaterQuietly(s.items[index], items[index])
    ensures Quiet(s, s.(items := items))
  {
    assert forall i :: 0 <= i < |items| && i != index ==> IsLaterQuietly(s.items[i], s.items[i]);
  }

  lemma SameIsQuiet(s: SessionState)
    ensures Quiet(s, s)
  {}

  lemma CloseIsQuiet(s: SessionState)
    ensures Quiet(s, s.(items := CloseStreams(s.items)))
  {
    SameIsQuiet(s);
  }

  lemma PushClosedIsQuiet(s: SessionState, item: Item)
    requires !item.Assistant?
    ensures Quiet(s, Push(s.(items := CloseStreams(s.items)), item))
  {
    CloseIsQuiet(s);
    PushIsQuiet(s, s.(items := CloseStreams(s.items)), item);
  }

  lemma SubmitIsQuiet(s: SessionState, text: string, attachments: seq<Attachment>)
    ensures Quiet(s, Submit(s, text, attachments))
  {
    var unanswered := LastIndex(s.items, IsUnanswered, |s.items|);
    SameIsQuiet(s);
    var next := s;
    if unanswered >= 0 {
      next := s.(items := s.items[unanswered := s.items[unanswered].(answered := true)]);
      UpdateIsQuiet(s, next.items, unanswered);
    }
    PushIsQuiet(s, next, User(0, text, attachments));
  }

  lemma AnswerIsQuiet(s: SessionState, id: int, text: string)
    ensures Quiet(s, Answer(s, id, text))
  {
    var index := LastIndex(s.items, (item: Item) => item.Question? && item.questionId == Some(id), |s.items|);
    SameIsQuiet(s);
    if index >= 0 {
      var next := s.(items := s.items[index := s.items[index].(answered := true)]);
      UpdateIsQuiet(s, next.items, index);
      PushIsQuiet(s, next, User(0, text, []));
    }
  }

  lemma ResolveIsQuiet(s: SessionState, id: int, deny: bool)
    ensures Quiet(s, Resolve(s, id, deny))
  {
    SameIsQuiet(s);
  }

  lemma AskIsQuiet(t: Tools, s: SessionState, id: int, request: Request)
    ensures Quiet(s, AskPermission(t, s, id, request))
  {
    SameIsQuiet(s);
  }

  lemma FinishIsQuiet(t: Tools, s: SessionState, next: SessionState, index: nat, output: string, isError: bool)
    requires Quiet(s, next) && index < |next.items| && next.items[index].Tool?
    ensures Quiet(s, FinishCall(t, next, index, output, isError))
  {}

  lemma TakeResultIsQuiet(t: Tools, s: SessionState, id: Option<string>, name: string, output: string, isError: bool)
    ensures Quiet(s, TakeResult(t, s, id, name, output, isError))
  {
    var index := ResultIndex(s.items, id, name);
    if index >= 0 {
      SameIsQuiet(s);
      FinishIsQuiet(t, s, s, index, output, isError);
    } else {
      var callId := if id.Some? then id.value else "";
      var started := StartTool(t, s, callId, name, "{}", false);
      PushClosedIsQuiet(s, Tool(0, callId, name, "{}", Running, t.view(name, "{}", Cwd(s)), None, None, None));
      assert IsResultFor(started.items[|started.items| - 1], id, name);
      FinishIsQuiet(t, s, started, ResultIndex(started.items, id, name), output, isError);
    }
  }

  lemma MapIsQuiet(s: SessionState, f: Item -> Item)
    requires forall x :: IsLaterQuietly(x, f(x))
    ensures GrowsQuietly(s.items, s.nextKey, MapItems(CloseStreams(s.items), f))
  {
    var closed := CloseStreams(s.items);
    forall i | 0 <= i < |s.items|
      ensures IsLaterQuietly(s.items[i], f(closed[i]))
    {
      assert IsLaterQuietly(s.items[i], closed[i]) && IsLaterQuietly(closed[i], f(closed[i]));
    }
  }

  lemma EndIsQuiet(s: SessionState, error: Option<string>)
    ensures Quiet(s, FinishTurn(s)) && Quiet(s, Disconnect(s, error))
  {
    MapIsQuiet(s, Ended);
    MapIsQuiet(s, Stopped);
  }

  lemma SubagentIsQuiet(s: SessionState, id: string, update: Item -> Subagent)
    ensures Quiet(s, SetSubagent(s, id, update))
  {
    SameIsQuiet(s);
  }

  lemma ReasoningIsQuiet(s: SessionState, text: string)
    ensures Quiet(s, AddReasoning(s, text))
  {
    SameIsQuiet(s);
    PushClosedIsQuiet(s, Reasoning(0, text, None, false, true));
  }

  lemma ReduceLocalIsQuiet(s: SessionState, a: Action)
    requires IsLocal(a) && !a.LocalReset?
    ensures Quiet(s, ReduceLocal(s, a))
  {
    SameIsQuiet(s);
    match a {
      case LocalDisconnected(error) => EndIsQuiet(s, error);
      case LocalSubmitted(text, attachments) => SubmitIsQuiet(s, text, attachments);
      case LocalPermissionAnswered(id, deny) => ResolveIsQuiet(s, id, deny);
      case LocalPermissionResolved(id) => ResolveIsQuiet(s, id, false);
      case LocalAnswered(id, text) => AnswerIsQuiet(s, id, text);
      case _ =>
    }
  }

  lemma ReduceTurnIsQuiet(t: Tools, s: SessionState, a: Action)
    requires IsTurn(a) && !a.TextDelta?
    ensures Quiet(s, ReduceTurn(t, s, a))
  {
    match a {
      case TextBlockEnd => CloseIsQuiet(s);
      case ReasoningStarted(chars, redacted) => PushClosedIsQuiet(s, Reasoning(0, "", chars, redacted, true));
      case ReasoningDelta(text) => ReasoningIsQuiet(s, text);
      case ToolCallStarted(id, name, input, cutOff) =>
        PushClosedIsQuiet(s, Tool(0, id, name, input, if cutOff then CutOff else Running, t.view(name, input, Cwd(s)), None, None, None));
      case ToolResult(id, name, output, isError) => TakeResultIsQuiet(t, s, id, name, output, isError);
      case PermissionRequested(id, request) => AskIsQuiet(t, s, id, request);
      case TurnFinished => EndIsQuiet(s, None);
      case SubagentStarted(id, description, agentType) =>
        SubagentIsQuiet(s, id, (item: Item) => Subagent(description, agentType, true, None, None, None));
      case SubagentFinished(id, status, result, note) =>
        SubagentIsQuiet(s, id, (item: Item) => FinishedSubagent(item, status, result, note));
    }
  }

  lemma ReduceReportIsQuiet(t: Tools, s: SessionState, a: Action)
    requires !IsLocal(a) && !IsTurn(a) && !a.Transcript?
    ensures Quiet(s, ReduceReport(t, s, a))
  {
    SameIsQuiet(s);
    if a.EngineError? {
      PushClosedIsQuiet(s, Problem(0, a.message));
    }
  }

  /** Every action but streamed text and a new start leaves the agent's text alone. */
  lemma {:induction false} ReduceIsQuiet(t: Tools, s: SessionState, a: Action)
    requires !a.TextDelta? && !StartsOver(a)
    ensures Quiet(s, Reduce(t, s, a))
  {
    if IsLocal(a) {
      ReduceLocalIsQuiet(s, a);
    } else if IsTurn(a) {
      ReduceTurnIsQuiet(t, s, a);
    } else {
      ReduceReportIsQuiet(t, s, a);
    }
  }

  /** Streamed text lengthens the open text block or opens a new one. */
  lemma AddTextGrows(s: SessionState, text: string)
    ensures Grows(s.items, s.nextKey, AddText(s, text).items) && s.nextKey <= AddText(s, text).nextKey
  {
    CloseIsQuiet(s);
  }

  // ------------------------------------------------------ steps of a run

  /** The first `n` steps of anything. */
  function Steps<S, A>(step: (S, A) -> S, s: S, actions: seq<A>, n: nat): (r: S)
    requires n <= |actions|
  {
    if n == 0 then s else step(Steps(step, s, actions, n - 1), actions[n - 1])
  }

  /** What is seen of a state after any steps can be told from what was seen of it before them, when it can after one. */
  lemma {:induction false} StepsAreSeen<S(!new), A(!new), V>(step: (S, A) -> S, see: S -> V, next: (V, A) -> V, s: S, actions: seq<A>, n: nat)
    requires n <= |actions| && forall x, a :: see(step(x, a)) == next(see(x), a)
    ensures see(Steps(step, s, actions, n)) == Steps(next, see(s), actions, n)
  {
    if n > 0 {
      StepsAreSeen(step, see, next, s, actions, n - 1);
    }
  }

  /** Whatever relates a state to itself, and goes on over one more step, relates the states of a run. */
  lemma {:induction false} StepsAreRelated<S(!new), A(!new)>(step: (S, A) -> S, related: (S, S) -> bool, s: S, actions: seq<A>, m: nat, n: nat)
    requires m <= n <= |actions|
    requires (forall x :: related(x, x)) && forall x, y, a :: related(x, y) ==> related(x, step(y, a))
    ensures related(Steps(step, s, actions, m), Steps(step, s, actions, n))
    decreases n - m
  {
    if m < n {
      StepsAreRelated(step, related, s, actions, m, n - 1);
    }
  }

  lemma {:induction false} RunTakesSteps(t: Tools, s: SessionState, actions: seq<Action>, n: nat, step: (SessionState, Action) -> SessionState)
    requires n <= |actions| && forall x, a :: step(x, a) == Reduce(t, x, a)
    ensures Steps(step, s, actions, n) == Run(t, s, actions, n)
  {
    if n > 0 {
      RunTakesSteps(t, s, actions, n - 1, step);
    }
  }

  // ------------------------------------------------- keys are used once

  /** Every item of `r` that is not new to `s` is an item of `s`, later. */
  ghost predicate Evolves(s: SessionState, r: SessionState) {
    s.nextKey <= r.nextKey &&
    forall j :: 0 <= j < |r.items| && r.items[j].key < s.nextKey ==> HasEarlier(s.items, r.items[j])
  }

  ghost predicate HasEarlier(items: seq<Item>, y: Item) {
    exists i :: 0 <= i < |items| && IsLater(items[i], y)
  }

  lemma {:induction false} RestoredKeysAreNew(t: Tools, s: SessionState, cwd: Option<string>, entries: seq<Entry>, n: nat, least: nat)
    requires n <= |entries| && least <= s.nextKey && forall i :: 0 <= i < |s.items| ==> least <= s.items[i].key
    ensures var r := RestoreEntries(t, s, cwd, entries, n);
            s.nextKey <= r.nextKey && forall i :: 0 <= i < |r.items| ==> least <= r.items[i].key
  {
    if n > 0 {
      RestoredKeysAreNew(t, s, cwd, entries, n - 1, least);
      RestoredKeyIsNew(t, RestoreEntries(t, s, cwd, entries, n - 1), cwd, entries[n - 1], least);
    }
  }

  lemma RestoredKeyIsNew(t: Tools, s: SessionState, cwd: Option<string>, entry: Entry, least: nat)
    requires least <= s.nextKey && forall i :: 0 <= i < |s.items| ==> least <= s.items[i].key
    ensures var r := RestoreEntry(t, s, cwd, entry);
            s.nextKey <= r.nextKey && forall i :: 0 <= i < |r.items| ==> least <= r.items[i].key
  {}

  lemma {:induction false} ReduceEvolves(t: Tools, s: SessionState, a: Action)
    ensures Evolves(s, Reduce(t, s, a))
  {
    var r := Reduce(t, s, a);
    if a.Transcript? {
      RestoredKeysAreNew(t, Emptied(s, a.sessionId, a.truncated), Cwd(s), a.entries, |a.entries|, s.nextKey);
    } else if a.TextDelta? {
      AddTextGrows(s, a.text);
      GrowsEvolves(s, r);
    } else if !a.LocalReset? {
      ReduceIsQuiet(t, s, a);
      GrowsEvolves(s, r);
    }
  }

  lemma GrowsEvolves(s: SessionState, r: SessionState)
    requires s.nextKey <= r.nextKey && Grows(s.items, s.nextKey, r.items)
    ensures Evolves(s, r)
  {
    forall j | 0 <= j < |r.items| && r.items[j].key < s.nextKey
      ensures HasEarlier(s.items, r.items[j])
    {
      assert j < |s.items| && IsLater(s.items[j], r.items[j]);
    }
  }

  lemma EvolvesTransitive(s: SessionState, m: SessionState, r: SessionState)
    requires Evolves(s, m) && Evolves(m, r)
    ensures Evolves(s, r)
  {
    forall k | 0 <= k < |r.items| && r.items[k].key < s.nextKey
      ensures HasEarlier(s.items, r.items[k])
    {
      assert HasEarlier(m.items, r.items[k]);
      var j :| 0 <= j < |m.items| && IsLater(m.items[j], r.items[k]);
      assert HasEarlier(s.items, m.items[j]);
      var i :| 0 <= i < |s.items| && IsLater(s.items[i], m.items[j]);
      assert IsLater(s.items[i], r.items[k]);
    }
  }

  lemma NextEvolves(t: Tools, s: SessionState, before: SessionState, a: Action, after: SessionState)
    requires Evolves(s, before) && after == Reduce(t, before, a)
    ensures Evolves(s, after)
  {
    ReduceEvolves(t, before, a);
    EvolvesTransitive(s, before, after);
  }

  /**
   * A key never comes to mean another item: whatever an item of a later state
   * of a run shares its key with, it is a later state of that item.
   */
  lemma KeysAreNeverReused(t: Tools, s: SessionState, actions: seq<Action>, m: nat, n: nat)
    requires m <= n <= |actions|
    ensures Evolves(Run(t, s, actions, m), Run(t, s, actions, n))
  {
    var step := (x: SessionState, a: Action) => Reduce(t, x, a);
    var evolves := (x: SessionState, y: SessionState) => Evolves(x, y);
    forall x
      ensures evolves(x, x)
    {
      SameEvolves(x);
    }
    forall x, y, a | evolves(x, y)
      ensures evolves(x, step(y, a))
    {
      NextEvolves(t, x, y, a, step(y, a));
    }
    StepsAreRelated(step, evolves, s, actions, m, n);
    RunTakesSteps(t, s, actions, m, step);
    RunTakesSteps(t, s, actions, n, step);
  }

  lemma SameEvolves(s: SessionState)
    ensures Evolves(s, s)
  {
    forall j | 0 <= j < |s.items|
      ensures HasEarlier(s.items, s.items[j])
    {
      assert IsLater(s.items[j], s.items[j]);
    }
  }

  // --------------------------------------------------------- streamed text

  /** The agent's text in the first `n` items. */
  function AgentText(items: seq<Item>, n: nat): (text: string)
    requires n <= |items|
  {
    if n == 0 then "" else AgentText(items, n - 1) + (if items[n - 1].Assistant? then items[n - 1].text else "")
  }

  function TextOf(s: SessionState): (text: string) {
    AgentText(s.items, |s.items|)
  }

  /** The agent's text in the first `n` entries of a saved chat. */
  function EntriesText(entries: seq<Entry>, n: nat): (text: string)
    requires n <= |entries|
  {
    if n == 0 then "" else EntriesText(entries, n - 1) + (if entries[n - 1].AssistantEntry? then entries[n - 1].text else "")
  }

  /** What the agent has said after one more action. */
  function SaidNext(before: string, a: Action): (text: string) {
    match a
    case TextDelta(text) => before + text
    case LocalReset => ""
    case Transcript(_, entries, _) => EntriesText(entries, |entries|)
    case _ => before
  }

  /** What the agent has said once these actions are taken: text deltas, since the last new start. */
  function Said(before: string, actions: seq<Action>, n: nat): (text: string)
    requires n <= |actions|
  {
    if n == 0 then before else SaidNext(Said(before, actions, n - 1), actions[n - 1])
  }

  lemma {:induction false} SameTextBefore(items: seq<Item>, others: seq<Item>, n: nat)
    requires n <= |items| && n <= |others|
    requires forall i :: 0 <= i < n ==> items[i].Assistant? == others[i].Assistant?
    requires forall i :: 0 <= i < n ==> items[i].Assistant? ==> items[i].text == others[i].text
    ensures AgentText(items, n) == AgentText(others, n)
  {
    if n > 0 {
      SameTextBefore(items, others, n - 1);
    }
  }

  lemma {:induction false} NoTextAfter(items: seq<Item>, m: nat, n: nat)
    requires m <= n <= |items| && forall i :: m <= i < n ==> !items[i].Assistant?
    ensures AgentText(items, n) == AgentText(items, m)
    decreases n
  {
    if m < n {
      NoTextAfter(items, m, n - 1);
    }
  }

  lemma QuietKeepsText(s: SessionState, r: SessionState)
    requires Quiet(s, r)
    ensures TextOf(r) == TextOf(s)
  {
    assert forall i :: 0 <= i < |s.items| ==> IsLaterQuietly(s.items[i], r.items[i]);
    SameTextBefore(s.items, r.items, |s.items|);
    NoTextAfter(r.items, |s.items|, |r.items|);
  }

  lemma AddTextSays(s: SessionState, text: string)
    ensures TextOf(AddText(s, text)) == TextOf(s) + text
  {
    var n, r := |s.items|, AddText(s, text);
    if n > 0 && s.items[n - 1].Assistant? && s.items[n - 1].streaming {
      SameTextBefore(s.items, r.items, n - 1);
    } else {
      SameTextBefore(s.items, r.items, n);
    }
  }

  lemma RestoreSays(t: Tools, s: SessionState, cwd: Option<string>, entries: seq<Entry>, n: nat)
    requires n <= |entries| && TextOf(s) == ""
    ensures TextOf(RestoreEntries(t, s, cwd, entries, n)) == EntriesText(entries, n)
  {
    var step := (x: SessionState, e: Entry) => RestoreEntry(t, x, cwd, e);
    forall x, e
      ensures TextOf(step(x, e)) == WithEntry(TextOf(x), e)
    {
      RestoreEntrySays(t, x, cwd, e);
    }
    StepsAreSeen(step, TextOf, WithEntry, s, entries, n);
    RestoreTakesSteps(t, s, cwd, entries, n, step);
    EntriesTakeSteps(TextOf(s), entries, n);
  }

  function WithEntry(before: string, entry: Entry): (text: string) {
    before + (if entry.AssistantEntry? then entry.text else "")
  }

  lemma {:induction false} RestoreTakesSteps(
    t: Tools, s: SessionState, cwd: Option<string>, entries: seq<Entry>, n: nat, step: (SessionState, Entry) -> SessionState
  )
    requires n <= |entries| && forall x, e :: step(x, e) == RestoreEntry(t, x, cwd, e)
    ensures Steps(step, s, entries, n) == RestoreEntries(t, s, cwd, entries, n)
  {
    if n > 0 {
      RestoreTakesSteps(t, s, cwd, entries, n - 1, step);
    }
  }

  lemma {:induction false} EntriesTakeSteps(before: string, entries: seq<Entry>, n: nat)
    requires n <= |entries| && before == ""
    ensures Steps(WithEntry, before, entries, n) == EntriesText(entries, n)
  {
    if n > 0 {
      EntriesTakeSteps(before, entries, n - 1);
    }
  }

  lemma RestoreEntrySays(t: Tools, s: SessionState, cwd: Option<string>, entry: Entry)
    ensures TextOf(RestoreEntry(t, s, cwd, entry)) == TextOf(s) + (if entry.AssistantEntry? then entry.text else "")
  {
    var r := RestoreEntry(t, s, cwd, entry);
    SameTextBefore(s.items, r.items, |s.items|);
  }

  lemma EmptiedSaysNothing(s: SessionState, sessionId: string, truncated: bool)
    ensures TextOf(Emptied(s, sessionId, truncated)) == ""
  {
    var r := Emptied(s, sessionId, truncated);
    NoTextAfter(r.items, 0, |r.items|);
  }

  lemma ReduceSays(t: Tools, s: SessionState, a: Action)
    ensures TextOf(Reduce(t, s, a)) == SaidNext(TextOf(s), a)
  {
    if a.TextDelta? {
      AddTextSays(s, a.text);
    } else if a.Transcript? {
      EmptiedSaysNothing(s, a.sessionId, a.truncated);
      RestoreSays(t, Emptied(s, a.sessionId, a.truncated), Cwd(s), a.entries, |a.entries|);
    } else if !a.LocalReset? {
      ReduceIsQuiet(t, s, a);
      QuietKeepsText(s, Reduce(t, s, a));
    }
  }

  lemma {:induction false} SaidTakesSteps(before: string, actions: seq<Action>, n: nat)
    requires n <= |actions|
    ensures Steps(SaidNext, before, actions, n) == Said(before, actions, n)
  {
    if n > 0 {
      SaidTakesSteps(before, actions, n - 1);
    }
  }

  /**
   * Streamed text is conserved: the agent's items, joined in order, are what it
   * streamed since the last new start, whatever came between.
   */
  lemma TextIsConserved(t: Tools, s: SessionState, actions: seq<Action>, n: nat)
    requires n <= |actions|
    ensures TextOf(Run(t, s, actions, n)) == Said(TextOf(s), actions, n)
  {
    var step := (x: SessionState, a: Action) => Reduce(t, x, a);
    forall x, a
      ensures TextOf(step(x, a)) == SaidNext(TextOf(x), a)
    {
      ReduceSays(t, x, a);
    }
    StepsAreSeen(step, TextOf, SaidNext, s, actions, n);
    RunTakesSteps(t, s, actions, n, step);
    SaidTakesSteps(TextOf(s), actions, n);
  }
}
