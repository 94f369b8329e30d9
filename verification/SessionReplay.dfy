/** Restoring a saved chat shows what playing it live would have shown. */
module SessionReplay {
  import opened Wrappers
  import opened Session

  /** The actions that lead to one saved entry when a chat is live. */
  function ActionsOf(entry: Entry): (actions: seq<Action>) {
    match entry
    case UserEntry(text) => [LocalSubmitted(text, [])]
    case AssistantEntry(text) => [TextDelta(text), TextBlockEnd]
    case CallEntry(id, name, input) => [ToolCallStarted(id, name, input, false)]
    case ResultEntry(id, name, output, isError) => [ToolResult(Some(id), name, output, isError)]
  }

  function ActionsOfAll(entries: seq<Entry>, n: nat): (actions: seq<Action>)
    requires n <= |entries|
  {
    if n == 0 then [] else ActionsOfAll(entries, n - 1) + ActionsOf(entries[n - 1])
  }

  /** The chat as it happened, up to the end of its last turn. */
  function Live(entries: seq<Entry>, truncated: bool): (actions: seq<Action>) {
    (if truncated then [NoticeGiven(TRUNCATED_NOTICE)] else []) + ActionsOfAll(entries, |entries|) + [TurnFinished]
  }

  ghost predicate HasCallBefore(entries: seq<Entry>, n: nat, id: string) {
    exists i :: 0 <= i < n && i < |entries| && entries[i].CallEntry? && entries[i].id == id
  }

  ghost predicate HasResultBefore(entries: seq<Entry>, n: nat, id: string) {
    exists i :: 0 <= i < n && i < |entries| && entries[i].ResultEntry? && entries[i].id == id
  }

  /** Call ids are unique and not empty; each result follows its call, and there is at most one per call. */
  ghost predicate WellFormed(entries: seq<Entry>) {
    forall n {:trigger entries[n]} :: 0 <= n < |entries| ==>
      && (entries[n].CallEntry? ==> entries[n].id != "" && !HasCallBefore(entries, n, entries[n].id))
      && (entries[n].ResultEntry? ==> HasCallBefore(entries, n, entries[n].id) && !HasResultBefore(entries, n, entries[n].id))
  }

  // --------------------------------------------------- the two side by side

  /** An item as it stands in a live replay between two entries. */
  predicate IsSettled(item: Item) {
    && !Streams(item)
    && !item.Question?
    && (item.Tool? ==> item.state != AwaitingPermission && item.state != CutOff)
  }

  ghost predicate SameButRunning(live: SessionState, restored: SessionState, cwd: Option<string>) {
    && live.nextKey == restored.nextKey
    && live.permissions == restored.permissions == []
    && Cwd(live) == cwd
    && |live.items| == |restored.items|
    && (forall i :: 0 <= i < |live.items| ==> IsSettled(live.items[i]) && restored.items[i] == Ended(live.items[i]))
  }

  /** The calls in a transcript are those of the entries, and the ones that still run have no result. */
  ghost predicate CallsOf(items: seq<Item>, entries: seq<Entry>, n: nat) {
    && (forall i :: 0 <= i < |items| && items[i].Tool? ==>
          HasCallBefore(entries, n, items[i].id) && (items[i].state != Running ==> HasResultBefore(entries, n, items[i].id)))
    && (forall i, j :: 0 <= i < j < |items| && items[i].Tool? && items[j].Tool? ==> items[i].id != items[j].id)
    && (forall id :: HasCallBefore(entries, n, id) ==> HasItem(items, id))
  }

  ghost predicate HasItem(items: seq<Item>, id: string) {
    exists i :: 0 <= i < |items| && items[i].Tool? && items[i].id == id
  }

  ghost predicate SideBySide(live: SessionState, restored: SessionState, cwd: Option<string>, entries: seq<Entry>, n: nat) {
    SameButRunning(live, restored, cwd) && CallsOf(live.items, entries, n)
  }

  lemma NoStreamsToClose(items: seq<Item>)
    requires forall i :: 0 <= i < |items| ==> !Streams(items[i])
    ensures CloseStreams(items) == items
  {}

  /** A pushed item that is settled on both sides. */
  lemma PushBoth(live: SessionState, restored: SessionState, cwd: Option<string>, item: Item)
    requires SameButRunning(live, restored, cwd) && IsSettled(item)
    ensures SameButRunning(Push(live, item), Push(restored, Ended(item)), cwd)
  {}

  lemma CallsAfterOther(items: seq<Item>, entries: seq<Entry>, n: nat, more: seq<Item>)
    requires n < |entries| && CallsOf(items, entries, n) && !entries[n].CallEntry? && !entries[n].ResultEntry?
    requires |more| == |items| + 1 && more[..|items|] == items && !more[|items|].Tool?
    ensures CallsOf(more, entries, n + 1)
  {
    assert forall i :: 0 <= i < |items| ==> more[i] == items[i];
    SameBefore(entries, n);
    forall id | HasCallBefore(entries, n + 1, id)
      ensures HasItem(more, id)
    {
      assert HasItem(items, id);
      var i :| 0 <= i < |items| && items[i].Tool? && items[i].id == id;
      assert more[i].Tool? && more[i].id == id;
    }
  }

  lemma SameBefore(entries: seq<Entry>, n: nat)
    requires n < |entries|
    ensures forall id :: HasCallBefore(entries, n + 1, id) <==>
              HasCallBefore(entries, n, id) || (entries[n].CallEntry? && entries[n].id == id)
    ensures forall id :: HasResultBefore(entries, n + 1, id) <==>
              HasResultBefore(entries, n, id) || (entries[n].ResultEntry? && entries[n].id == id)
  {
    forall id | HasCallBefore(entries, n, id)
      ensures HasCallBefore(entries, n + 1, id)
    {
      var i :| 0 <= i < n && entries[i].CallEntry? && entries[i].id == id;
      assert 0 <= i < n + 1;
    }
    forall id | HasResultBefore(entries, n, id)
      ensures HasResultBefore(entries, n + 1, id)
    {
      var i :| 0 <= i < n && entries[i].ResultEntry? && entries[i].id == id;
      assert 0 <= i < n + 1;
    }
    if entries[n].CallEntry? {
      assert HasCallBefore(entries, n + 1, entries[n].id);
    }
    if entries[n].ResultEntry? {
      assert HasResultBefore(entries, n + 1, entries[n].id);
    }
  }

  lemma CallsAfterCall(items: seq<Item>, entries: seq<Entry>, n: nat, more: seq<Item>)
    requires n < |entries| && CallsOf(items, entries, n) && entries[n].CallEntry? && !HasCallBefore(entries, n, entries[n].id)
    requires |more| == |items| + 1 && more[..|items|] == items
    requires more[|items|].Tool? && more[|items|].id == entries[n].id && more[|items|].state == Running
    ensures CallsOf(more, entries, n + 1)
  {
    assert forall i :: 0 <= i < |items| ==> more[i] == items[i];
    SameBefore(entries, n);
    forall id | HasCallBefore(entries, n + 1, id)
      ensures HasItem(more, id)
    {
      if id == entries[n].id {
        assert more[|items|].id == id;
      } else {
        assert HasItem(items, id);
        var i :| 0 <= i < |items| && items[i].Tool? && items[i].id == id;
        assert more[i].Tool? && more[i].id == id;
      }
    }
  }

  lemma CallsAfterResult(items: seq<Item>, entries: seq<Entry>, n: nat, index: nat, item: Item)
    requires n < |entries| && CallsOf(items, entries, n) && entries[n].ResultEntry?
    requires index < |items| && items[index].Tool? && items[index].id == entries[n].id
    requires item.Tool? && item.id == items[index].id
    ensures CallsOf(items[index := item], entries, n + 1)
  {
    var more := items[index := item];
    SameBefore(entries, n);
    forall id | HasCallBefore(entries, n + 1, id)
      ensures HasItem(more, id)
    {
      assert HasItem(items, id);
      var i :| 0 <= i < |items| && items[i].Tool? && items[i].id == id;
      assert more[i].Tool? && more[i].id == id;
    }
  }

  // --------------------------------------------------------- the entries

  function RunOf(t: Tools, s: SessionState, actions: seq<Action>): (r: SessionState) {
    Run(t, s, actions, |actions|)
  }

  lemma RunOne(t: Tools, s: SessionState, a: Action)
    ensures RunOf(t, s, [a]) == Reduce(t, s, a)
  {
    assert Run(t, s, [a], 0) == s;
  }

  lemma RunTwo(t: Tools, s: SessionState, a: Action, b: Action)
    ensures RunOf(t, s, [a, b]) == Reduce(t, Reduce(t, s, a), b)
  {
    assert Run(t, s, [a, b], 0) == s;
    assert Run(t, s, [a, b], 1) == Reduce(t, s, a);
  }

  /** Running on from the first part of a run is running the whole. */
  ghost predicate RunsOn(t: Tools, s: SessionState, x: seq<Action>, y: seq<Action>, k: nat) {
    k <= |y| && Run(t, s, x + y, |x| + k) == Run(t, RunOf(t, s, x), y, k)
  }

  lemma RunsOnNext(t: Tools, s: SessionState, x: seq<Action>, y: seq<Action>, k: nat)
    requires k < |y| && RunsOn(t, s, x, y, k)
    ensures RunsOn(t, s, x, y, k + 1)
  {
    assert (x + y)[|x| + k] == y[k];
  }

  lemma {:induction false} RunsOnToEnd(t: Tools, s: SessionState, x: seq<Action>, y: seq<Action>, k: nat)
    requires RunsOn(t, s, x, y, k)
    ensures RunsOn(t, s, x, y, |y|)
    decreases |y| - k
  {
    if k < |y| {
      RunsOnNext(t, s, x, y, k);
      RunsOnToEnd(t, s, x, y, k + 1);
    }
  }

  lemma {:induction false} RunPrefix(t: Tools, s: SessionState, x: seq<Action>, z: seq<Action>, n: nat)
    requires n <= |x| && x <= z
    ensures Run(t, s, z, n) == Run(t, s, x, n)
  {
    if n > 0 {
      RunPrefix(t, s, x, z, n - 1);
    }
  }

  lemma RunOfAppend(t: Tools, s: SessionState, x: seq<Action>, y: seq<Action>)
    ensures RunOf(t, s, x + y) == RunOf(t, RunOf(t, s, x), y)
  {
    RunPrefix(t, s, x, x + y, |x|);
    RunsOnToEnd(t, s, x, y, 0);
  }

  lemma UserSideBySide(t: Tools, live: SessionState, restored: SessionState, cwd: Option<string>, entries: seq<Entry>, n: nat)
    requires n < |entries| && entries[n].UserEntry? && SideBySide(live, restored, cwd, entries, n)
    ensures SideBySide(RunOf(t, live, ActionsOf(entries[n])), RestoreEntry(t, restored, cwd, entries[n]), cwd, entries, n + 1)
  {
    var text := entries[n].text;
    RunOne(t, live, LocalSubmitted(text, []));
    var unanswered := LastIndex(live.items, IsUnanswered, |live.items|);
    assert unanswered >= 0 ==> IsSettled(live.items[unanswered]);
    PushBoth(live, restored, cwd, User(0, text, []));
    var next := Submit(live, text, []);
    assert next == Push(live, User(0, text, [])).(busy := true);
    CallsAfterOther(live.items, entries, n, next.items);
  }

  /** A text block, streamed and ended, is one item. */
  lemma TextTurn(t: Tools, live: SessionState, text: string)
    requires forall i :: 0 <= i < |live.items| ==> IsSettled(live.items[i])
    ensures RunOf(t, live, [TextDelta(text), TextBlockEnd]) == Push(live, Assistant(0, text, false))
  {
    RunTwo(t, live, TextDelta(text), TextBlockEnd);
    NoStreamsToClose(live.items);
    var open := AddText(live, text);
    assert live.items != [] ==> IsSettled(live.items[|live.items| - 1]);
    assert open == Push(live, Assistant(0, text, true));
    assert CloseStreams(open.items) == Push(live, Assistant(0, text, false)).items;
  }

  lemma TextSideBySide(t: Tools, live: SessionState, restored: SessionState, cwd: Option<string>, entries: seq<Entry>, n: nat)
    requires n < |entries| && entries[n].AssistantEntry? && SideBySide(live, restored, cwd, entries, n)
    ensures SideBySide(RunOf(t, live, ActionsOf(entries[n])), RestoreEntry(t, restored, cwd, entries[n]), cwd, entries, n + 1)
  {
    var item := Assistant(0, entries[n].text, false);
    TextTurn(t, live, entries[n].text);
    PushBoth(live, restored, cwd, item);
    CallsAfterOther(live.items, entries, n, Push(live, item).items);
  }

  lemma CallSideBySide(t: Tools, live: SessionState, restored: SessionState, cwd: Option<string>, entries: seq<Entry>, n: nat)
    requires WellFormed(entries) && n < |entries| && entries[n].CallEntry? && SideBySide(live, restored, cwd, entries, n)
    ensures SideBySide(RunOf(t, live, ActionsOf(entries[n])), RestoreEntry(t, restored, cwd, entries[n]), cwd, entries, n + 1)
  {
    var CallEntry(id, name, input) := entries[n];
    RunOne(t, live, ToolCallStarted(id, name, input, false));
    NoStreamsToClose(live.items);
    var item := Tool(0, id, name, input, Running, t.view(name, input, cwd), None, None, None);
    assert StartTool(t, live, id, name, input, false) == Push(live, item);
    PushBoth(live, restored, cwd, item);
    CallsAfterCall(live.items, entries, n, Push(live, item).items);
  }

  /** The one call with this id is what both searches find, and it still runs. */
  lemma FindCall(live: SessionState, restored: SessionState, cwd: Option<string>, entries: seq<Entry>, n: nat) returns (index: nat)
    requires WellFormed(entries) && n < |entries| && entries[n].ResultEntry? && SideBySide(live, restored, cwd, entries, n)
    ensures index < |live.items| && live.items[index].Tool? && live.items[index].id == entries[n].id
    ensures live.items[index].state == Running
    ensures IndexOfCall(restored.items, entries[n].id) == index
    ensures ResultIndex(live.items, Some(entries[n].id), entries[n].name) == index
  {
    var id, name := entries[n].id, entries[n].name;
    assert HasCallBefore(entries, n, id);
    CallIdsAreNotEmpty(entries, n, id);
    assert HasItem(live.items, id);
    index :| 0 <= index < |live.items| && live.items[index].Tool? && live.items[index].id == id;
    OnlyItem(live.items, entries, n, id, index);
    var found := ResultIndex(live.items, Some(id), name);
    assert IsResultFor(live.items[index], Some(id), name);
    var last := IndexOfCall(restored.items, id);
    assert restored.items[index] == Ended(live.items[index]);
    assert last >= 0 && restored.items[last] == Ended(live.items[last]);
  }

  lemma OnlyItem(items: seq<Item>, entries: seq<Entry>, n: nat, id: string, index: nat)
    requires CallsOf(items, entries, n) && index < |items| && items[index].Tool? && items[index].id == id
    ensures forall i :: 0 <= i < |items| && items[i].Tool? && items[i].id == id ==> i == index
  {}

  lemma CallIdsAreNotEmpty(entries: seq<Entry>, n: nat, id: string)
    requires WellFormed(entries) && n <= |entries| && HasCallBefore(entries, n, id)
    ensures id != ""
  {}

  lemma ResultSideBySide(t: Tools, live: SessionState, restored: SessionState, cwd: Option<string>, entries: seq<Entry>, n: nat)
    requires WellFormed(entries) && n < |entries| && entries[n].ResultEntry? && SideBySide(live, restored, cwd, entries, n)
    ensures SideBySide(RunOf(t, live, ActionsOf(entries[n])), RestoreEntry(t, restored, cwd, entries[n]), cwd, entries, n + 1)
  {
    var ResultEntry(id, name, output, isError) := entries[n];
    RunOne(t, live, ToolResult(Some(id), name, output, isError));
    var index := FindCall(live, restored, cwd, entries, n);
    var item := WithOutcome(t, live.items[index], output, isError);
    assert TakeResult(t, live, Some(id), name, output, isError) == live.(items := live.items[index := item]);
    RestoredOutcome(t, live, restored, cwd, entries[n], index);
    CallsAfterResult(live.items, entries, n, index, item);
  }

  /** A result does the same to a call that still runs and to its restored counterpart. */
  lemma RestoredOutcome(t: Tools, live: SessionState, restored: SessionState, cwd: Option<string>, entry: Entry, index: nat)
    requires SameButRunning(live, restored, cwd) && entry.ResultEntry?
    requires index < |live.items| && live.items[index].Tool? && live.items[index].state == Running
    requires IndexOfCall(restored.items, entry.id) == index
    ensures var item := WithOutcome(t, live.items[index], entry.output, entry.isError);
            SameButRunning(live.(items := live.items[index := item]), RestoreEntry(t, restored, cwd, entry), cwd)
  {
    assert restored.items[index] == Ended(live.items[index]);
    assert RestoreEntry(t, restored, cwd, entry).items[index] == WithOutcome(t, live.items[index], entry.output, entry.isError);
  }

  lemma EntrySideBySide(t: Tools, live: SessionState, restored: SessionState, cwd: Option<string>, entries: seq<Entry>, n: nat)
    requires WellFormed(entries) && n < |entries| && SideBySide(live, restored, cwd, entries, n)
    ensures SideBySide(RunOf(t, live, ActionsOf(entries[n])), RestoreEntry(t, restored, cwd, entries[n]), cwd, entries, n + 1)
  {
    match entries[n] {
      case UserEntry(_) => UserSideBySide(t, live, restored, cwd, entries, n);
      case AssistantEntry(_) => TextSideBySide(t, live, restored, cwd, entries, n);
      case CallEntry(_, _, _) => CallSideBySide(t, live, restored, cwd, entries, n);
      case ResultEntry(_, _, _, _) => ResultSideBySide(t, live, restored, cwd, entries, n);
    }
  }

  /** The two sides after the first `k` entries. */
  ghost predicate Replayed(t: Tools, live: SessionState, restored: SessionState, cwd: Option<string>, entries: seq<Entry>, k: nat) {
    k <= |entries|
    && SideBySide(RunOf(t, live, ActionsOfAll(entries, k)), RestoreEntries(t, restored, cwd, entries, k), cwd, entries, k)
  }

  lemma NextReplayed(t: Tools, live: SessionState, restored: SessionState, cwd: Option<string>, entries: seq<Entry>, k: nat)
    requires WellFormed(entries) && k < |entries| && Replayed(t, live, restored, cwd, entries, k)
    ensures Replayed(t, live, restored, cwd, entries, k + 1)
  {
    RunOfAppend(t, live, ActionsOfAll(entries, k), ActionsOf(entries[k]));
    EntrySideBySide(t, RunOf(t, live, ActionsOfAll(entries, k)), RestoreEntries(t, restored, cwd, entries, k), cwd, entries, k);
  }

  lemma {:induction false} AllReplayed(t: Tools, live: SessionState, restored: SessionState, cwd: Option<string>, entries: seq<Entry>, k: nat)
    requires WellFormed(entries) && Replayed(t, live, restored, cwd, entries, k)
    ensures Replayed(t, live, restored, cwd, entries, |entries|)
    decreases |entries| - k
  {
    if k < |entries| {
      NextReplayed(t, live, restored, cwd, entries, k);
      AllReplayed(t, live, restored, cwd, entries, k + 1);
    }
  }

  /** The end of the turn is what the two sides differed by. */
  lemma EndBoth(live: SessionState, restored: SessionState, cwd: Option<string>)
    requires SameButRunning(live, restored, cwd)
    ensures var ended := FinishTurn(live);
            && ended.items == restored.items
            && ended.permissions == restored.permissions == []
            && ended.nextKey == restored.nextKey
            && Cwd(ended) == cwd
  {
    NoStreamsToClose(live.items);
  }

  lemma LiveIsRun(t: Tools, live: SessionState, entries: seq<Entry>, truncated: bool)
    ensures var notice := if truncated then [NoticeGiven(TRUNCATED_NOTICE)] else [];
            RunOf(t, live, Live(entries, truncated))
            == FinishTurn(RunOf(t, RunOf(t, live, notice), ActionsOfAll(entries, |entries|)))
  {
    PlayToEnd(t, live, if truncated then [NoticeGiven(TRUNCATED_NOTICE)] else [], ActionsOfAll(entries, |entries|));
  }

  lemma PlayToEnd(t: Tools, s: SessionState, x: seq<Action>, y: seq<Action>)
    ensures RunOf(t, s, x + y + [TurnFinished]) == FinishTurn(RunOf(t, RunOf(t, s, x), y))
  {
    RunOfAppend(t, s, x, y);
    RunOfAppend(t, s, x + y, [TurnFinished]);
    RunOne(t, RunOf(t, s, x + y), TurnFinished);
  }

  /**
   * A well-formed chat, restored, has the items (keys included) that playing it
   * live to the end of its last turn gives, in a session with the same working
   * directory and next key.
   */
  lemma RestoreIsReplay(t: Tools, s: SessionState, live: SessionState, sessionId: string, entries: seq<Entry>, truncated: bool)
    requires WellFormed(entries)
    requires live.items == [] && live.permissions == [] && live.nextKey == s.nextKey && Cwd(live) == Cwd(s)
    ensures var played := RunOf(t, live, Live(entries, truncated));
            var restored := Restored(t, s, sessionId, entries, truncated);
            && played.items == restored.items
            && played.permissions == restored.permissions == []
            && played.nextKey == restored.nextKey
            && Cwd(played) == Cwd(restored)
  {
    var start := RunOf(t, live, if truncated then [NoticeGiven(TRUNCATED_NOTICE)] else []);
    var empty := Emptied(s, sessionId, truncated);
    StartReplayed(t, s, live, sessionId, entries, truncated);
    AllReplayed(t, start, empty, Cwd(s), entries, 0);
    LiveIsRun(t, live, entries, truncated);
    EndBoth(RunOf(t, start, ActionsOfAll(entries, |entries|)), RestoreEntries(t, empty, Cwd(s), entries, |entries|), Cwd(s));
    RestoreKeepsCwd(t, empty, Cwd(s), entries, |entries|);
  }

  lemma NoticeTurn(t: Tools, live: SessionState, message: string)
    requires !(QUESTION_PREFIX <= message)
    ensures RunOf(t, live, [NoticeGiven(message)]) == Push(live, Notice(0, message))
  {
    RunOne(t, live, NoticeGiven(message));
  }

  lemma StartReplayed(t: Tools, s: SessionState, live: SessionState, sessionId: string, entries: seq<Entry>, truncated: bool)
    requires live.items == [] && live.permissions == [] && live.nextKey == s.nextKey && Cwd(live) == Cwd(s)
    ensures var start := RunOf(t, live, if truncated then [NoticeGiven(TRUNCATED_NOTICE)] else []);
            var empty := Emptied(s, sessionId, truncated);
            Replayed(t, start, empty, Cwd(s), entries, 0)
  {
    var start := RunOf(t, live, if truncated then [NoticeGiven(TRUNCATED_NOTICE)] else []);
    if truncated {
      assert TRUNCATED_NOTICE[0] == 'E' && QUESTION_PREFIX[0] == 'Q';
      NoticeTurn(t, live, TRUNCATED_NOTICE);
      assert start == Push(live, Notice(0, TRUNCATED_NOTICE));
    } else {
      assert start == live;
    }
    assert SideBySide(start, Emptied(s, sessionId, truncated), Cwd(s), entries, 0);
  }

  lemma {:induction false} RestoreKeepsCwd(t: Tools, s: SessionState, cwd: Option<string>, entries: seq<Entry>, n: nat)
    requires n <= |entries|
    ensures Cwd(RestoreEntries(t, s, cwd, entries, n)) == Cwd(s)
  {
    if n > 0 {
      RestoreKeepsCwd(t, s, cwd, entries, n - 1);
      EntryKeepsCwd(t, RestoreEntries(t, s, cwd, entries, n - 1), cwd, entries[n - 1]);
    }
  }

  lemma EntryKeepsCwd(t: Tools, s: SessionState, cwd: Option<string>, entry: Entry)
    ensures Cwd(RestoreEntry(t, s, cwd, entry)) == Cwd(s)
  {}
}
