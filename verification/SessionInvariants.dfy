/** What every action keeps of a session, and so what holds in every reachable state. */
module SessionInvariants {
  import opened Wrappers
  import opened Session

  // ---------------------------------------------------------- invariants

  /** Item keys strictly increase and stay below the next one. */
  ghost predicate KeysInOrder(items: seq<Item>, nextKey: nat) {
    && (forall i, j :: 0 <= i < j < |items| ==> items[i].key < items[j].key)
    && (forall i :: 0 <= i < |items| ==> items[i].key < nextKey)
  }

  ghost predicate UniqueIds(permissions: seq<Permission>) {
    forall i, j :: 0 <= i < j < |permissions| ==> permissions[i].id != permissions[j].id
  }

  predicate IsWaiting(item: Item) {
    item.Tool? && item.state == AwaitingPermission
  }

  /** This call waits for this answer. */
  predicate WaitsFor(item: Item, p: Permission) {
    IsWaiting(item) && p.toolKey == Some(item.key) && item.permissionId == Some(p.id)
  }

  ghost predicate HasCall(items: seq<Item>, p: Permission) {
    exists i :: 0 <= i < |items| && WaitsFor(items[i], p)
  }

  ghost predicate HasPermission(permissions: seq<Permission>, item: Item) {
    exists p :: p in permissions && WaitsFor(item, p)
  }

  ghost predicate Linked(items: seq<Item>, permissions: seq<Permission>) {
    && (forall p :: p in permissions && p.toolKey.Some? ==> HasCall(items, p))
    && (forall i :: 0 <= i < |items| && IsWaiting(items[i]) ==> HasPermission(permissions, items[i]))
  }

  ghost predicate Inv(s: SessionState) {
    KeysInOrder(s.items, s.nextKey) && UniqueIds(s.permissions) && Linked(s.items, s.permissions)
  }

  /** Waiting calls and the permissions that name a call are in one-to-one correspondence. */
  lemma OneToOne(s: SessionState, i: nat, j: nat, k: nat, m: nat)
    requires Inv(s) && i < |s.items| && j < |s.items| && k < |s.permissions| && m < |s.permissions|
    ensures WaitsFor(s.items[i], s.permissions[k]) && WaitsFor(s.items[i], s.permissions[m]) ==> k == m
    ensures WaitsFor(s.items[i], s.permissions[k]) && WaitsFor(s.items[j], s.permissions[k]) ==> i == j
  {
    assert WaitsFor(s.items[i], s.permissions[k]) && WaitsFor(s.items[i], s.permissions[m]) ==>
        s.permissions[k].id == s.permissions[m].id;
  }

  // ------------------------------------------------- changes to the items

  /** The same item to permissions: same key, and waiting for the same answer if at all. */
  predicate SameToPermissions(x: Item, y: Item) {
    && x.key == y.key
    && IsWaiting(x) == IsWaiting(y)
    && (IsWaiting(x) ==> x.permissionId == y.permissionId)
  }

  ghost predicate SameShape(items: seq<Item>, others: seq<Item>) {
    |items| == |others| && forall i :: 0 <= i < |items| ==> SameToPermissions(items[i], others[i])
  }

  lemma SameShapeKeepsInv(s: SessionState, r: SessionState)
    requires Inv(s) && r.nextKey == s.nextKey && r.permissions == s.permissions && SameShape(s.items, r.items)
    ensures Inv(r)
  {
    assert forall i :: 0 <= i < |r.items| ==> SameToPermissions(s.items[i], r.items[i]);
    forall p | p in r.permissions && p.toolKey.Some?
      ensures HasCall(r.items, p)
    {
      assert HasCall(s.items, p);
      var i :| 0 <= i < |s.items| && WaitsFor(s.items[i], p);
      assert WaitsFor(r.items[i], p);
    }
    forall i | 0 <= i < |r.items| && IsWaiting(r.items[i])
      ensures HasPermission(r.permissions, r.items[i])
    {
      assert HasPermission(s.permissions, s.items[i]);
      var p :| p in s.permissions && WaitsFor(s.items[i], p);
      assert WaitsFor(r.items[i], p);
    }
  }

  lemma AddKeepsKeys(items: seq<Item>, nextKey: nat, item: Item)
    requires KeysInOrder(items, nextKey) && item.key == nextKey
    ensures KeysInOrder(items + [item], nextKey + 1)
  {}

  lemma AddKeepsLinks(items: seq<Item>, permissions: seq<Permission>, item: Item)
    requires Linked(items, permissions) && !IsWaiting(item)
    ensures Linked(items + [item], permissions)
  {
    var more := items + [item];
    forall p | p in permissions && p.toolKey.Some?
      ensures HasCall(more, p)
    {
      assert HasCall(items, p);
      var i :| 0 <= i < |items| && WaitsFor(items[i], p);
      assert WaitsFor(more[i], p);
    }
    forall i | 0 <= i < |more| && IsWaiting(more[i])
      ensures HasPermission(permissions, more[i])
    {
      assert i < |items| && HasPermission(permissions, items[i]);
    }
  }

  lemma PushKeepsInv(s: SessionState, item: Item)
    requires Inv(s) && !IsWaiting(item)
    ensures Inv(Push(s, item))
  {
    AddKeepsKeys(s.items, s.nextKey, item.(key := s.nextKey));
    AddKeepsLinks(s.items, s.permissions, item.(key := s.nextKey));
  }

  lemma CloseStreamsKeepsShape(items: seq<Item>)
    ensures SameShape(items, CloseStreams(items))
  {}

  lemma CloseKeepsInv(s: SessionState)
    requires Inv(s)
    ensures Inv(s.(items := CloseStreams(s.items)))
  {
    CloseStreamsKeepsShape(s.items);
    SameShapeKeepsInv(s, s.(items := CloseStreams(s.items)));
  }

  /** Nothing waits, and nothing is asked. */
  lemma QuietKeepsInv(r: SessionState)
    requires KeysInOrder(r.items, r.nextKey) && r.permissions == []
    requires forall i :: 0 <= i < |r.items| ==> !IsWaiting(r.items[i])
    ensures Inv(r)
  {}

  // ------------------------------------------------ changes to permissions

  lemma {:induction false} WithoutIdMembers(permissions: seq<Permission>, id: int)
    ensures var r := WithoutId(permissions, id);
            forall p :: p in r <==> p in permissions && p.id != id
    ensures UniqueIds(permissions) ==> UniqueIds(WithoutId(permissions, id))
  {
    if permissions != [] {
      WithoutIdMembers(permissions[1..], id);
      if UniqueIds(permissions) {
        UniqueTail(permissions);
        FirstIsUnique(permissions, WithoutId(permissions[1..], id));
      }
    }
  }

  lemma {:induction false} WithoutToolMembers(permissions: seq<Permission>, key: nat)
    ensures var r := WithoutTool(permissions, key);
            forall p :: p in r <==> p in permissions && p.toolKey != Some(key)
    ensures UniqueIds(permissions) ==> UniqueIds(WithoutTool(permissions, key))
  {
    if permissions != [] {
      WithoutToolMembers(permissions[1..], key);
      if UniqueIds(permissions) {
        UniqueTail(permissions);
        FirstIsUnique(permissions, WithoutTool(permissions[1..], key));
      }
    }
  }

  lemma UniqueTail(permissions: seq<Permission>)
    requires permissions != [] && UniqueIds(permissions)
    ensures UniqueIds(permissions[1..])
  {
    assert forall i :: 0 <= i < |permissions| - 1 ==> permissions[1..][i] == permissions[i + 1];
  }

  lemma FirstIsUnique(permissions: seq<Permission>, rest: seq<Permission>)
    requires permissions != [] && UniqueIds(permissions) && UniqueIds(rest)
    requires forall p :: p in rest ==> p in permissions[1..]
    ensures UniqueIds([permissions[0]] + rest)
  {
    forall i | 0 <= i < |rest|
      ensures rest[i].id != permissions[0].id
    {
      assert rest[i] in permissions[1..];
      var k :| 0 <= k < |permissions| - 1 && permissions[1..][k] == rest[i];
      assert permissions[k + 1] == rest[i];
    }
  }

  /** A call that is answered or finished takes its permissions with it. */
  lemma SettleKeepsLinks(
    items: seq<Item>, permissions: seq<Permission>, nextKey: nat, index: nat, item: Item, rest: seq<Permission>
  )
    requires KeysInOrder(items, nextKey) && Linked(items, permissions)
    requires index < |items| && item.key == items[index].key && !IsWaiting(item)
    requires forall p :: p in rest <==> p in permissions && p.toolKey != Some(item.key)
    ensures Linked(items[index := item], rest)
  {
    forall p | p in rest && p.toolKey.Some?
      ensures HasCall(items[index := item], p)
    {
      assert HasCall(items, p);
      var i :| 0 <= i < |items| && WaitsFor(items[i], p);
      assert i != index && WaitsFor(items[index := item][i], p);
    }
    forall i | 0 <= i < |items| && i != index && IsWaiting(items[i])
      ensures HasPermission(rest, items[i])
    {
      assert HasPermission(permissions, items[i]);
      var p :| p in permissions && WaitsFor(items[i], p);
      assert if i < index then items[i].key < items[index].key else items[index].key < items[i].key;
      assert p in rest;
    }
  }

  lemma SettleKeepsInv(s: SessionState, r: SessionState, index: nat, item: Item)
    requires Inv(s) && index < |s.items| && item.key == s.items[index].key && !IsWaiting(item)
    requires r.nextKey == s.nextKey && r.items == s.items[index := item] && UniqueIds(r.permissions)
    requires forall p :: p in r.permissions <==> p in s.permissions && p.toolKey != Some(item.key)
    ensures Inv(r)
  {
    SettleKeepsLinks(s.items, s.permissions, s.nextKey, index, item, r.permissions);
  }

  /** A permission that names no call goes without touching the items. */
  lemma DropKeepsLinks(items: seq<Item>, permissions: seq<Permission>, p: Permission)
    requires Linked(items, permissions) && UniqueIds(permissions) && p in permissions && p.toolKey.None?
    ensures Linked(items, WithoutId(permissions, p.id))
  {
    WithoutIdMembers(permissions, p.id);
    forall i | 0 <= i < |items| && IsWaiting(items[i])
      ensures HasPermission(WithoutId(permissions, p.id), items[i])
    {
      assert HasPermission(permissions, items[i]);
      var q :| q in permissions && WaitsFor(items[i], q);
      if q.id == p.id {
        SameIdSamePermission(permissions, q, p);
      }
      assert q in WithoutId(permissions, p.id);
    }
  }

  lemma SameIdSamePermission(permissions: seq<Permission>, p: Permission, q: Permission)
    requires UniqueIds(permissions) && p in permissions && q in permissions && p.id == q.id
    ensures p == q
  {
    var i :| 0 <= i < |permissions| && permissions[i] == p;
    var j :| 0 <= j < |permissions| && permissions[j] == q;
    assert i == j;
  }

  // ------------------------------------------------------------ the steps

  lemma ResolveKeepsInv(s: SessionState, id: int, deny: bool)
    requires Inv(s)
    ensures Inv(Resolve(s, id, deny))
  {
    var pending := FindPermission(s.permissions, id);
    if pending.Some? {
      var p := pending.value;
      if p.toolKey.None? {
        DropKeepsLinks(s.items, s.permissions, p);
        WithoutIdMembers(s.permissions, id);
      } else {
        ResolveCallKeepsInv(s, p, deny);
      }
    }
  }

  lemma ResolveCallKeepsInv(s: SessionState, p: Permission, deny: bool)
    requires Inv(s) && FindPermission(s.permissions, p.id) == Some(p) && p in s.permissions && p.toolKey.Some?
    ensures Inv(Resolve(s, p.id, deny))
  {
    var index := NamedCall(s, p);
    var item := s.items[index].(state := if deny then Denied else Running);
    WithoutIdIsWithoutTool(s, p);
    WithoutIdMembers(s.permissions, p.id);
    var r := Resolve(s, p.id, deny);
    assert r.items == s.items[index := item];
    SettleKeepsInv(s, r, index, item);
  }

  /** The call a pending permission names is the one its key finds. */
  lemma NamedCall(s: SessionState, p: Permission) returns (index: nat)
    requires Inv(s) && p in s.permissions && p.toolKey.Some?
    ensures index < |s.items| && WaitsFor(s.items[index], p)
    ensures FirstIndex(s.items, (item: Item) => item.key == p.toolKey.value, 0) == index
  {
    assert HasCall(s.items, p);
    index :| 0 <= index < |s.items| && WaitsFor(s.items[index], p);
    var found := FirstIndex(s.items, (item: Item) => item.key == p.toolKey.value, 0);
    assert 0 <= found <= index && s.items[found].key == s.items[index].key;
  }

  /** Only one permission names a call, so dropping it by id is dropping it by call. */
  lemma WithoutIdIsWithoutTool(s: SessionState, p: Permission)
    requires Inv(s) && p in s.permissions && p.toolKey.Some?
    ensures forall q :: q in s.permissions ==> (q.id != p.id <==> q.toolKey != p.toolKey)
  {
    forall q | q in s.permissions
      ensures q.id != p.id <==> q.toolKey != p.toolKey
    {
      if q.id == p.id {
        SameIdSamePermission(s.permissions, p, q);
      }
      if q.toolKey == p.toolKey {
        var i := NamedCall(s, p);
        var j := NamedCall(s, q);
        assert i == j;
      }
    }
  }

  lemma FinishCallKeepsInv(t: Tools, s: SessionState, index: nat, output: string, isError: bool)
    requires Inv(s) && index < |s.items| && s.items[index].Tool?
    ensures Inv(FinishCall(t, s, index, output, isError))
  {
    WithoutToolMembers(s.permissions, s.items[index].key);
    SettleKeepsInv(s, FinishCall(t, s, index, output, isError), index, WithOutcome(t, s.items[index], output, isError));
  }

  lemma StartToolKeepsInv(t: Tools, s: SessionState, id: string, name: string, input: string, cutOff: bool)
    requires Inv(s)
    ensures Inv(StartTool(t, s, id, name, input, cutOff))
  {
    CloseKeepsInv(s);
    PushKeepsInv(s.(items := CloseStreams(s.items)),
                 Tool(0, id, name, input, if cutOff then CutOff else Running, t.view(name, input, Cwd(s)), None, None, None));
  }

  lemma TakeResultKeepsInv(t: Tools, s: SessionState, id: Option<string>, name: string, output: string, isError: bool)
    requires Inv(s)
    ensures Inv(TakeResult(t, s, id, name, output, isError))
  {
    var index := ResultIndex(s.items, id, name);
    if index >= 0 {
      FinishCallKeepsInv(t, s, index, output, isError);
    } else {
      var started := StartTool(t, s, if id.Some? then id.value else "", name, "{}", false);
      StartToolKeepsInv(t, s, if id.Some? then id.value else "", name, "{}", false);
      assert IsResultFor(started.items[|started.items| - 1], id, name);
      FinishCallKeepsInv(t, started, ResultIndex(started.items, id, name), output, isError);
    }
  }

  lemma AskPermissionKeepsInv(t: Tools, s: SessionState, id: int, request: Request)
    requires Inv(s)
    ensures Inv(AskPermission(t, s, id, request))
  {
    if FindPermission(s.permissions, id).None? {
      var index := LastIndex(s.items, (item: Item) => IsCallOf(t, item, request), |s.items|);
      if index >= 0 {
        AskForCallKeepsLinks(s.items, s.permissions, index, Permission(id, request, Some(s.items[index].key)));
      } else {
        AskForNoneKeepsLinks(s.items, s.permissions, Permission(id, request, None));
      }
      UniqueWithNew(s.permissions, AskPermission(t, s, id, request).permissions);
    }
  }

  lemma UniqueWithNew(permissions: seq<Permission>, more: seq<Permission>)
    requires UniqueIds(permissions) && |more| == |permissions| + 1 && more[..|permissions|] == permissions
    requires forall q :: q in permissions ==> q.id != more[|permissions|].id
    ensures UniqueIds(more)
  {
    assert forall i :: 0 <= i < |permissions| ==> permissions[i] in permissions && more[i] == permissions[i];
  }

  lemma AskForNoneKeepsLinks(items: seq<Item>, permissions: seq<Permission>, p: Permission)
    requires Linked(items, permissions) && p.toolKey.None?
    ensures Linked(items, permissions + [p])
  {
    forall i | 0 <= i < |items| && IsWaiting(items[i])
      ensures HasPermission(permissions + [p], items[i])
    {
      assert HasPermission(permissions, items[i]);
      var q :| q in permissions && WaitsFor(items[i], q);
      assert q in permissions + [p];
    }
  }

  lemma AskForCallKeepsLinks(items: seq<Item>, permissions: seq<Permission>, index: nat, p: Permission)
    requires Linked(items, permissions)
    requires index < |items| && items[index].Tool? && !IsWaiting(items[index]) && p.toolKey == Some(items[index].key)
    ensures Linked(items[index := items[index].(state := AwaitingPermission, permissionId := Some(p.id))], permissions + [p])
  {
    var more, all := items[index := items[index].(state := AwaitingPermission, permissionId := Some(p.id))], permissions + [p];
    assert p in all && WaitsFor(more[index], p);
    forall q | q in permissions && q.toolKey.Some?
      ensures HasCall(more, q)
    {
      assert HasCall(items, q);
      var i :| 0 <= i < |items| && WaitsFor(items[i], q);
      assert WaitsFor(more[i], q);
    }
    forall i | 0 <= i < |items| && i != index && IsWaiting(items[i])
      ensures HasPermission(all, items[i])
    {
      assert HasPermission(permissions, items[i]);
      var q :| q in permissions && WaitsFor(items[i], q);
      assert q in all;
    }
  }

  lemma MapKeepsKeys(items: seq<Item>, f: Item -> Item, nextKey: nat)
    requires KeysInOrder(items, nextKey) && forall x :: f(x).key == x.key
    ensures KeysInOrder(MapItems(CloseStreams(items), f), nextKey)
  {
    CloseStreamsKeepsShape(items);
    assert forall i :: 0 <= i < |items| ==> SameToPermissions(items[i], CloseStreams(items)[i]);
  }

  lemma EndingKeepsInv(s: SessionState)
    requires Inv(s)
    ensures Inv(FinishTurn(s)) && forall error :: Inv(Disconnect(s, error))
  {
    MapKeepsKeys(s.items, Ended, s.nextKey);
    MapKeepsKeys(s.items, Stopped, s.nextKey);
    QuietKeepsInv(FinishTurn(s));
    forall error
      ensures Inv(Disconnect(s, error))
    {
      QuietKeepsInv(Disconnect(s, error));
    }
  }

  lemma {:induction false} RestoreKeepsInv(t: Tools, s: SessionState, cwd: Option<string>, entries: seq<Entry>, n: nat)
    requires n <= |entries| && Inv(s) && s.permissions == []
    ensures var r := RestoreEntries(t, s, cwd, entries, n);
            Inv(r) && r.permissions == [] && r.nextKey >= s.nextKey
  {
    if n > 0 {
      RestoreKeepsInv(t, s, cwd, entries, n - 1);
      RestoreEntryKeepsInv(t, RestoreEntries(t, s, cwd, entries, n - 1), cwd, entries[n - 1]);
    }
  }

  lemma RestoreEntryKeepsInv(t: Tools, s: SessionState, cwd: Option<string>, entry: Entry)
    requires Inv(s) && s.permissions == []
    ensures var r := RestoreEntry(t, s, cwd, entry);
            Inv(r) && r.permissions == [] && r.nextKey >= s.nextKey
  {
    match entry {
      case UserEntry(text) => PushKeepsInv(s, User(0, text, []));
      case AssistantEntry(text) => PushKeepsInv(s, Assistant(0, text, false));
      case CallEntry(id, name, input) =>
        PushKeepsInv(s, Tool(0, id, name, input, Failed, t.view(name, input, cwd), None, None, None));
      case ResultEntry(id, _, _, _) =>
        var r := RestoreEntry(t, s, cwd, entry);
        assert forall i :: 0 <= i < |s.items| && IsWaiting(s.items[i]) ==> HasPermission(s.permissions, s.items[i]);
        QuietKeepsInv(r);
    }
  }

  lemma TranscriptKeepsInv(t: Tools, s: SessionState, sessionId: string, entries: seq<Entry>, truncated: bool)
    ensures Inv(Restored(t, s, sessionId, entries, truncated))
  {
    var start := Emptied(s, sessionId, truncated);
    QuietKeepsInv(start);
    RestoreKeepsInv(t, start, Cwd(s), entries, |entries|);
  }

  lemma {:induction false} SubmitKeepsInv(s: SessionState, text: string, attachments: seq<Attachment>)
    requires Inv(s)
    ensures Inv(Submit(s, text, attachments))
  {
    var unanswered := LastIndex(s.items, IsUnanswered, |s.items|);
    var next := if unanswered >= 0 then s.(items := s.items[unanswered := s.items[unanswered].(answered := true)]) else s;
    SameShapeKeepsInv(s, next);
    PushKeepsInv(next, User(0, text, attachments));
  }

  lemma {:induction false} AnswerKeepsInv(s: SessionState, id: int, text: string)
    requires Inv(s)
    ensures Inv(Answer(s, id, text))
  {
    var index := LastIndex(s.items, (item: Item) => item.Question? && item.questionId == Some(id), |s.items|);
    if index >= 0 {
      var next := s.(items := s.items[index := s.items[index].(answered := true)]);
      SameShapeKeepsInv(s, next);
      PushKeepsInv(next, User(0, text, []));
    }
  }

  /** A last item that changes in nothing permissions care about. */
  lemma LastItemKeepsInv(s: SessionState, item: Item)
    requires Inv(s) && s.items != [] && SameToPermissions(s.items[|s.items| - 1], item)
    ensures Inv(s.(items := s.items[|s.items| - 1 := item]))
  {
    var items := s.items[|s.items| - 1 := item];
    assert SameShape(s.items, items);
    SameShapeKeepsInv(s, s.(items := items));
  }

  lemma AddTextKeepsInv(s: SessionState, text: string)
    requires Inv(s)
    ensures Inv(AddText(s, text))
  {
    var n := |s.items|;
    if n > 0 && s.items[n - 1].Assistant? && s.items[n - 1].streaming {
      LastItemKeepsInv(s, Assistant(s.items[n - 1].key, s.items[n - 1].text + text, true));
    } else {
      PushClosedKeepsInv(s, Assistant(0, text, true));
    }
  }

  lemma AddReasoningKeepsInv(s: SessionState, text: string)
    requires Inv(s)
    ensures Inv(AddReasoning(s, text))
  {
    var n := |s.items|;
    if n > 0 && s.items[n - 1].Reasoning? && s.items[n - 1].streaming {
      var tail := s.items[n - 1];
      LastItemKeepsInv(s, Reasoning(tail.key, tail.text + text, tail.chars, tail.redacted, true));
    } else {
      PushClosedKeepsInv(s, Reasoning(0, text, None, false, true));
    }
  }

  lemma SubagentKeepsInv(s: SessionState, id: string, update: Item -> Subagent)
    requires Inv(s)
    ensures Inv(SetSubagent(s, id, update))
  {
    SameShapeKeepsInv(s, SetSubagent(s, id, update));
  }

  lemma PushClosedKeepsInv(s: SessionState, item: Item)
    requires Inv(s) && !IsWaiting(item)
    ensures Inv(Push(s.(items := CloseStreams(s.items)), item))
  {
    CloseKeepsInv(s);
    PushKeepsInv(s.(items := CloseStreams(s.items)), item);
  }

  /** Items, permissions and the next key are all the invariant is about. */
  lemma OtherFieldsDoNotMatter(s: SessionState, r: SessionState)
    requires Inv(s) && r.items == s.items && r.permissions == s.permissions && r.nextKey == s.nextKey
    ensures Inv(r)
  {}

  lemma {:induction false} ReduceTurnKeepsInv(t: Tools, s: SessionState, a: Action)
    requires Inv(s) && IsTurn(a)
    ensures Inv(ReduceTurn(t, s, a))
  {
    match a {
      case TextDelta(text) => AddTextKeepsInv(s, text);
      case TextBlockEnd => CloseKeepsInv(s);
      case ReasoningStarted(chars, redacted) => PushClosedKeepsInv(s, Reasoning(0, "", chars, redacted, true));
      case ReasoningDelta(text) => AddReasoningKeepsInv(s, text);
      case ToolCallStarted(id, name, input, cutOff) => StartToolKeepsInv(t, s, id, name, input, cutOff);
      case ToolResult(id, name, output, isError) => TakeResultKeepsInv(t, s, id, name, output, isError);
      case PermissionRequested(id, request) => AskPermissionKeepsInv(t, s, id, request);
      case TurnFinished => EndingKeepsInv(s);
      case SubagentStarted(id, description, agentType) =>
        SubagentKeepsInv(s, id, (item: Item) => Subagent(description, agentType, true, None, None, None));
      case SubagentFinished(id, status, result, note) =>
        SubagentKeepsInv(s, id, (item: Item) => FinishedSubagent(item, status, result, note));
    }
  }

  lemma ReduceLocalKeepsInv(s: SessionState, a: Action)
    requires Inv(s) && IsLocal(a)
    ensures Inv(ReduceLocal(s, a))
  {
    match a {
      case LocalConnecting => OtherFieldsDoNotMatter(s, ReduceLocal(s, a));
      case LocalReset => QuietKeepsInv(ReduceLocal(s, a));
      case LocalDisconnected(_) => EndingKeepsInv(s);
      case LocalSubmitted(text, attachments) => SubmitKeepsInv(s, text, attachments);
      case LocalSlash(command, args) => SlashKeepsInv(s, command, args);
      case LocalPermissionAnswered(id, deny) => ResolveKeepsInv(s, id, deny);
      case LocalPermissionResolved(id) => ResolveKeepsInv(s, id, false);
      case LocalAnswered(id, text) => AnswerKeepsInv(s, id, text);
    }
  }

  lemma {:induction false} ReduceReportKeepsInv(t: Tools, s: SessionState, a: Action)
    requires Inv(s) && !IsLocal(a) && !IsTurn(a)
    ensures Inv(ReduceReport(t, s, a))
  {
    if a.StatusChanged? {
      PushKeepsInv(s.(status := Some(a.status)), Notice(0, "New session " + a.status.sessionId));
    } else if a.NoticeGiven? {
      GiveNoticeKeepsInv(t, s, a.message);
    } else if a.EngineError? {
      FailKeepsInv(s, a.message);
    } else if a.Transcript? {
      TranscriptKeepsInv(t, s, a.sessionId, a.entries, a.truncated);
    } else if a.QuestionAsked? {
      PushKeepsInv(s, Question(0, a.question, false, Some(a.id), a.options));
    } else {
      OtherFieldsDoNotMatter(s, ReduceReport(t, s, a));
    }
  }

  /** Every action keeps the invariant. */
  lemma {:induction false} ReduceKeepsInv(t: Tools, s: SessionState, a: Action)
    requires Inv(s)
    ensures Inv(Reduce(t, s, a))
  {
    if IsLocal(a) {
      ReduceLocalKeepsInv(s, a);
    } else if IsTurn(a) {
      ReduceTurnKeepsInv(t, s, a);
    } else {
      ReduceReportKeepsInv(t, s, a);
    }
  }

  lemma SlashKeepsInv(s: SessionState, command: string, args: string)
    requires Inv(s)
    ensures Inv(ReduceLocal(s, LocalSlash(command, args)))
  {
    var pushed := Push(s, User(0, "/" + command + (if args != "" then " " + args else ""), []));
    PushKeepsInv(s, User(0, "/" + command + (if args != "" then " " + args else ""), []));
    OtherFieldsDoNotMatter(pushed, pushed.(busy := true));
  }

  lemma GiveNoticeKeepsInv(t: Tools, s: SessionState, message: string)
    requires Inv(s)
    ensures Inv(GiveNotice(t, s, message))
  {
    PushKeepsInv(s, Notice(0, message));
    if QUESTION_PREFIX <= message {
      PushKeepsInv(s, Question(0, t.trim(message[|QUESTION_PREFIX|..]), false, None, []));
    }
  }

  lemma FailKeepsInv(s: SessionState, message: string)
    requires Inv(s)
    ensures Inv(Fail(s, message))
  {
    PushClosedKeepsInv(s, Problem(0, message));
    PushKeepsInv(s.(connectionError := Some(message)), Problem(0, message));
  }

  /** An answered permission settles the call it names, and nothing else. */
  lemma AnswerSettlesItsCall(s: SessionState, p: Permission, deny: bool) returns (index: nat)
    requires Inv(s) && p in s.permissions && p.toolKey.Some?
    ensures index < |s.items| && WaitsFor(s.items[index], p)
    ensures var r := Resolve(s, p.id, deny);
            && r.items == s.items[index := s.items[index].(state := if deny then Denied else Running)]
            && (forall q :: q in r.permissions <==> q in s.permissions && q != p)
  {
    var pending := FindPermission(s.permissions, p.id);
    SameIdSamePermission(s.permissions, p, pending.value);
    index := NamedCall(s, p);
    WithoutIdMembers(s.permissions, p.id);
    forall q | q in s.permissions && q.id == p.id
      ensures q == p
    {
      SameIdSamePermission(s.permissions, p, q);
    }
  }

  /** Nothing runs, waits or is asked once a turn has finished or the engine is gone. */
  lemma NothingUnfinishedAfterEnd(s: SessionState, error: Option<string>)
    ensures var r := FinishTurn(s);
            r.permissions == [] && !r.busy && forall i :: 0 <= i < |r.items| ==> !IsUnfinished(r.items[i])
    ensures var r := Disconnect(s, error);
            r.permissions == [] && !r.busy && forall i :: 0 <= i < |r.items| ==> !IsUnfinished(r.items[i])
  {
    assert forall x :: !IsUnfinished(Ended(x)) && !IsUnfinished(Stopped(x));
  }

  /** The invariant holds after every action of every run. */
  lemma {:induction false} RunKeepsInv(t: Tools, s: SessionState, actions: seq<Action>, n: nat)
    requires n <= |actions| && Inv(s)
    ensures Inv(Run(t, s, actions, n))
  {
    if n > 0 {
      RunKeepsInv(t, s, actions, n - 1);
      ReduceKeepsInv(t, Run(t, s, actions, n - 1), actions[n - 1]);
    }
  }

  lemma ReachableStatesAreLinked(t: Tools, actions: seq<Action>, n: nat)
    requires n <= |actions|
    ensures Inv(Run(t, InitialSession(), actions, n))
  {
    RunKeepsInv(t, InitialSession(), actions, n);
  }
}
