/**
 * What each action does to the state a client sees, said from the outside: which
 * item it concerns, what becomes of that item, and that nothing else changes.
 */
module SessionEffects {
  import opened Wrappers
  import opened Session
  import opened SessionInvariants
  import Text

  // ------------------------------------------------------- permissions

  /** The request could come from this call. */
  predicate CouldAsk(t: Tools, item: Item, request: Request) {
    && item.Tool? && item.state.Running? && item.name == request.tool
    && (item.input != request.input ==> t.sameJson(item.input, request.input))
  }

  predicate IsPending(permissions: seq<Permission>, id: int) {
    exists k :: 0 <= k < |permissions| && permissions[k].id == id
  }

  /** A repeated request changes nothing. */
  lemma RepeatedRequestIsIgnored(t: Tools, s: SessionState, id: int, request: Request)
    requires IsPending(s.permissions, id)
    ensures Reduce(t, s, PermissionRequested(id, request)) == s
  {
    var k :| 0 <= k < |s.permissions| && s.permissions[k].id == id;
    assert s.permissions[k] in s.permissions;
  }

  /** A new request makes the newest call it could come from wait for it, and no other item change. */
  lemma RequestFindsItsCall(t: Tools, s: SessionState, id: int, request: Request, i: nat)
    requires !IsPending(s.permissions, id)
    requires i < |s.items| && CouldAsk(t, s.items[i], request)
    requires forall k :: i < k < |s.items| ==> !CouldAsk(t, s.items[k], request)
    ensures var call := s.items[i];
            Reduce(t, s, PermissionRequested(id, request)) ==
            s.(items := s.items[i := Tool(call.key, call.id, call.name, call.input, AwaitingPermission,
                                          call.view, call.output, Some(id), call.subagent)],
               permissions := s.permissions + [Permission(id, request, Some(call.key))])
  {
    var isCall := (item: Item) => IsCallOf(t, item, request);
    var index := LastIndex(s.items, isCall, |s.items|);
    assert forall k :: 0 <= k < |s.items| ==> isCall(s.items[k]) == CouldAsk(t, s.items[k], request);
    assert index == i;
  }

  /** A request no running call could have made is kept without one. */
  lemma RequestWithoutCall(t: Tools, s: SessionState, id: int, request: Request)
    requires !IsPending(s.permissions, id)
    requires forall k :: 0 <= k < |s.items| ==> !CouldAsk(t, s.items[k], request)
    ensures Reduce(t, s, PermissionRequested(id, request)) ==
            s.(permissions := s.permissions + [Permission(id, request, None)])
  {
    var isCall := (item: Item) => IsCallOf(t, item, request);
    assert forall k :: 0 <= k < |s.items| ==> isCall(s.items[k]) == CouldAsk(t, s.items[k], request);
  }

  // ------------------------------------------------------ open blocks

  /** The same items, with nothing streaming at the end. */
  predicate Closes(items: seq<Item>, closed: seq<Item>) {
    && |closed| == |items|
    && (forall i :: 0 <= i < |items| - 1 ==> closed[i] == items[i])
    && (items != [] ==>
          var x, y := items[|items| - 1], closed[|items| - 1];
          if x.Assistant? then y == Assistant(x.key, x.text, false)
          else if x.Reasoning? then y == Reasoning(x.key, x.text, x.chars, x.redacted, false)
          else y == x)
  }

  /** A state with one more item, under the next key, and whatever streamed closed. */
  predicate AddsClosed(s: SessionState, r: SessionState, item: Item) {
    && r.items != [] && Closes(s.items, r.items[..|r.items| - 1]) && r.items[|r.items| - 1] == item
    && r == s.(items := r.items, nextKey := s.nextKey + 1)
  }

  predicate Adds(s: SessionState, r: SessionState, item: Item) {
    r == s.(items := s.items + [item], nextKey := s.nextKey + 1)
  }

  lemma CloseCloses(s: SessionState, item: Item)
    ensures Closes(s.items, CloseStreams(s.items))
    ensures AddsClosed(s, Push(s.(items := CloseStreams(s.items)), item), item.(key := s.nextKey))
  {
    var r := Push(s.(items := CloseStreams(s.items)), item);
    assert r.items[..|r.items| - 1] == CloseStreams(s.items);
  }

  /** A started call is the last item and runs, unless its input was cut off. */
  lemma CallIsStarted(t: Tools, s: SessionState, id: string, name: string, input: string, cutOff: bool)
    ensures AddsClosed(s, Reduce(t, s, ToolCallStarted(id, name, input, cutOff)),
                       Tool(s.nextKey, id, name, input, if cutOff then CutOff else Running,
                            t.view(name, input, if s.status.Some? then Some(s.status.value.cwd) else None), None, None, None))
  {
    CloseCloses(s, Tool(0, id, name, input, if cutOff then CutOff else Running, t.view(name, input, Cwd(s)), None, None, None));
  }

  // ------------------------------------------------------------ results

  /** The result could be for this call: the one with its id, or an open one of its name when it has none. */
  predicate CouldBeFor(item: Item, id: Option<string>, name: string) {
    && item.Tool?
    && (id.Some? && id.value != "" ==> item.id == id.value)
    && (id.None? || id.value == "" ==> item.name == name && (item.state.Running? || item.state.AwaitingPermission? || item.state.CutOff?))
  }

  predicate IsRefusal(t: Tools, state: ToolState, output: string, isError: bool) {
    state.Denied? || (isError && t.deniedByUser(output))
  }

  /** What a result may make of a call: refused, failed or still cut off, or done. */
  predicate Settles(t: Tools, call: Item, settled: Item, output: string, isError: bool)
    requires call.Tool?
  {
    && settled.Tool? && settled == call.(state := settled.state, output := Some(output), view := t.withResult(call.view, call.name, output, isError))
    && (settled.state.Denied? <==> IsRefusal(t, call.state, output, isError))
    && (settled.state.CutOff? <==> call.state.CutOff? && isError && !IsRefusal(t, call.state, output, isError))
    && (settled.state.Failed? <==> !call.state.CutOff? && isError && !IsRefusal(t, call.state, output, isError))
    && (settled.state.Done? <==> !isError && !call.state.Denied?)
  }

  /** Dropping permissions by the call they name, or by their id, drops those and nothing else. */
  lemma {:induction false} DropsNone(permissions: seq<Permission>, id: int, key: nat)
    ensures (forall k :: 0 <= k < |permissions| ==> permissions[k].toolKey != Some(key)) ==> WithoutTool(permissions, key) == permissions
    ensures !IsPending(permissions, id) ==> WithoutId(permissions, id) == permissions
  {
    if permissions != [] {
      var rest := permissions[1..];
      assert forall k :: 0 <= k < |rest| ==> rest[k] == permissions[k + 1];
      DropsNone(rest, id, key);
      assert permissions == [permissions[0]] + rest;
    }
  }

  lemma {:induction false} DropsByCall(permissions: seq<Permission>, key: nat, k: nat)
    requires k < |permissions| && permissions[k].toolKey == Some(key)
    requires forall j :: 0 <= j < |permissions| && j != k ==> permissions[j].toolKey != Some(key)
    ensures WithoutTool(permissions, key) == permissions[..k] + permissions[k + 1..]
  {
    var rest := permissions[1..];
    assert forall j :: 0 <= j < |rest| ==> rest[j] == permissions[j + 1];
    if k == 0 {
      DropsNone(rest, 0, key);
    } else {
      DropsByCall(rest, key, k - 1);
      assert permissions[..k] == [permissions[0]] + rest[..k - 1];
      assert permissions[k + 1..] == rest[k..];
      Text.Regroup([permissions[0]], rest[..k - 1], rest[k..]);
    }
  }

  lemma {:induction false} DropsById(permissions: seq<Permission>, id: int, k: nat)
    requires k < |permissions| && permissions[k].id == id
    requires forall j :: 0 <= j < |permissions| && j != k ==> permissions[j].id != id
    ensures WithoutId(permissions, id) == permissions[..k] + permissions[k + 1..]
  {
    var rest := permissions[1..];
    assert forall j :: 0 <= j < |rest| ==> rest[j] == permissions[j + 1];
    if k == 0 {
      DropsNone(rest, id, 0);
    } else {
      DropsById(rest, id, k - 1);
      assert permissions[..k] == [permissions[0]] + rest[..k - 1];
      assert permissions[k + 1..] == rest[k..];
      Text.Regroup([permissions[0]], rest[..k - 1], rest[k..]);
    }
  }

  lemma TakeResultSettles(t: Tools, s: SessionState, id: Option<string>, name: string, output: string, isError: bool, i: nat)
    requires i < |s.items| && CouldBeFor(s.items[i], id, name)
    requires forall k :: 0 <= k < i ==> !CouldBeFor(s.items[k], id, name)
    ensures TakeResult(t, s, id, name, output, isError) == FinishCall(t, s, i, output, isError)
  {
    var isFor := (item: Item) => IsResultFor(item, id, name);
    assert forall k :: 0 <= k < |s.items| ==> isFor(s.items[k]) == CouldBeFor(s.items[k], id, name);
    assert FirstIndex(s.items, isFor, 0) == i;
  }

  lemma OutcomeSettles(t: Tools, call: Item, output: string, isError: bool)
    requires call.Tool?
    ensures Settles(t, call, WithOutcome(t, call, output, isError), output, isError)
  {}

  /** A result settles the first call it could be for, and drops the permission that names this call. */
  lemma ResultSettlesItsCall(t: Tools, s: SessionState, id: Option<string>, name: string, output: string, isError: bool, i: nat)
    requires i < |s.items| && CouldBeFor(s.items[i], id, name)
    requires forall k :: 0 <= k < i ==> !CouldBeFor(s.items[k], id, name)
    ensures var r := Reduce(t, s, ToolResult(id, name, output, isError));
            && |r.items| == |s.items| && Settles(t, s.items[i], r.items[i], output, isError)
            && r == s.(items := s.items[i := r.items[i]], permissions := WithoutTool(s.permissions, s.items[i].key))
  {
    TakeResultSettles(t, s, id, name, output, isError, i);
    OutcomeSettles(t, s.items[i], output, isError);
  }

  lemma TakeResultStarts(t: Tools, s: SessionState, id: Option<string>, name: string, output: string, isError: bool)
    requires forall k :: 0 <= k < |s.items| ==> !CouldBeFor(s.items[k], id, name)
    ensures var started := StartTool(t, s, if id.Some? then id.value else "", name, "{}", false);
            TakeResult(t, s, id, name, output, isError) == TakeResult(t, started, id, name, output, isError)
  {
    var isFor := (item: Item) => IsResultFor(item, id, name);
    assert forall k :: 0 <= k < |s.items| ==> isFor(s.items[k]) == CouldBeFor(s.items[k], id, name);
    var started := StartTool(t, s, if id.Some? then id.value else "", name, "{}", false);
    assert isFor(started.items[|started.items| - 1]);
    assert ResultIndex(started.items, id, name) >= 0;
  }

  /** A result for a call never seen starts the call it settles. */
  lemma ResultStartsItsCall(t: Tools, s: SessionState, id: Option<string>, name: string, output: string, isError: bool)
    requires forall k :: 0 <= k < |s.items| ==> !CouldBeFor(s.items[k], id, name)
    ensures var started := Reduce(t, s, ToolCallStarted(if id.Some? then id.value else "", name, "{}", false));
            Reduce(t, s, ToolResult(id, name, output, isError)) == Reduce(t, started, ToolResult(id, name, output, isError))
  {
    TakeResultStarts(t, s, id, name, output, isError);
  }

  // ------------------------------------------------- a call from start to end

  /** An answer nobody waits for changes nothing. */
  lemma AnswerToNothing(t: Tools, s: SessionState, id: int, deny: bool)
    requires !IsPending(s.permissions, id)
    ensures Reduce(t, s, LocalPermissionAnswered(id, deny)) == s && Reduce(t, s, LocalPermissionResolved(id)) == s
  {}

  /** An answer drops its permission and settles the waiting call it names; only a client's own "deny" refuses it. */
  lemma AnswerReachesItsCall(t: Tools, s: SessionState, k: nat, i: nat, deny: bool)
    requires UniqueIds(s.permissions) && k < |s.permissions| && i < |s.items|
    requires WaitsFor(s.items[i], s.permissions[k])
    requires forall j :: 0 <= j < |s.items| && j != i ==> s.items[j].key != s.items[i].key
    ensures var answered := s.(items := s.items[i := s.items[i].(state := if deny then Denied else Running)],
                               permissions := s.permissions[..k] + s.permissions[k + 1..]);
            Reduce(t, s, LocalPermissionAnswered(s.permissions[k].id, deny)) == answered
    ensures Reduce(t, s, LocalPermissionResolved(s.permissions[k].id)) ==
            s.(items := s.items[i := s.items[i].(state := Running)], permissions := s.permissions[..k] + s.permissions[k + 1..])
  {
    var p := s.permissions[k];
    assert forall j :: 0 <= j < |s.permissions| && j != k ==> s.permissions[j].id != p.id;
    DropsById(s.permissions, p.id, k);
    SameIdSamePermission(s.permissions, p, FindPermission(s.permissions, p.id).value);
    var key := s.items[i].key;
    var hasKey := (item: Item) => item.key == key;
    assert forall j :: 0 <= j < |s.items| ==> hasKey(s.items[j]) == (j == i);
    assert FirstIndex(s.items, hasKey, 0) == i;
  }

  /** What has become of the call when its result is in. */
  function Outcome(t: Tools, denied: bool, output: string, isError: bool): (state: ToolState) {
    if denied || (isError && t.deniedByUser(output)) then Denied else if isError then Failed else Done
  }

  lemma NewKeyIsNotNamed(s: SessionState)
    requires Inv(s)
    ensures forall k :: 0 <= k < |s.permissions| ==> s.permissions[k].toolKey != Some(s.nextKey)
  {
    forall k | 0 <= k < |s.permissions|
      ensures s.permissions[k].toolKey != Some(s.nextKey)
    {
      if s.permissions[k].toolKey.Some? {
        assert HasCall(s.items, s.permissions[k]);
      }
    }
  }

  /** The call just started asks, whatever else there is. */
  lemma StartedCallAsks(t: Tools, s: SessionState, s1: SessionState, call: Item, id: int, request: Request)
    requires Inv(s) && AddsClosed(s, s1, call) && !IsPending(s.permissions, id) && CouldAsk(t, call, request)
    ensures var s2 := Reduce(t, s1, PermissionRequested(id, request));
            && AddsClosed(s, s2.(permissions := s.permissions), call.(state := AwaitingPermission, permissionId := Some(id)))
            && s2.permissions == s.permissions + [Permission(id, request, Some(call.key))]
  {
    var last := |s1.items| - 1;
    RequestFindsItsCall(t, s1, id, request, last);
    var s2 := Reduce(t, s1, PermissionRequested(id, request));
    assert s2.items[..last] == s1.items[..last];
  }

  lemma WaitingCallIsAnswered(t: Tools, s: SessionState, s2: SessionState, call: Item, id: int, request: Request, deny: bool)
    requires Inv(s) && !IsPending(s.permissions, id) && call.Tool? && call.key == s.nextKey
    requires AddsClosed(s, s2.(permissions := s.permissions), call.(state := AwaitingPermission, permissionId := Some(id)))
    requires s2.permissions == s.permissions + [Permission(id, request, Some(call.key))]
    ensures AddsClosed(s, Reduce(t, s2, LocalPermissionAnswered(id, deny)),
                       call.(state := if deny then Denied else Running, permissionId := Some(id)))
  {
    var last, k := |s2.items| - 1, |s.permissions|;
    assert forall j :: 0 <= j < last ==> s2.items[j].key == s2.items[..last][j].key == s.items[j].key < s.nextKey;
    AnswerReachesItsCall(t, s2, k, last, deny);
    assert s2.permissions[..k] + s2.permissions[k + 1..] == s.permissions;
    var s3 := Reduce(t, s2, LocalPermissionAnswered(id, deny));
    assert s3.items[..last] == s2.items[..last];
  }

  lemma SettledAtTheEnd(t: Tools, s: SessionState, s3: SessionState, s4: SessionState, call: Item, output: string, isError: bool)
    requires call.Tool? && call.key == s.nextKey && AddsClosed(s, s3, call) && !call.state.CutOff?
    requires |s4.items| == |s3.items| && Settles(t, call, s4.items[|s4.items| - 1], output, isError)
    requires s4 == s3.(items := s3.items[|s3.items| - 1 := s4.items[|s4.items| - 1]])
    ensures AddsClosed(s, s4, call.(state := Outcome(t, call.state == Denied, output, isError), output := Some(output),
                                    view := t.withResult(call.view, call.name, output, isError)))
  {
    assert s4.items[..|s4.items| - 1] == s3.items[..|s3.items| - 1];
  }

  lemma CallGetsItsResult(t: Tools, s: SessionState, s3: SessionState, call: Item, name: string, output: string, isError: bool)
    requires Inv(s) && call.Tool? && call.key == s.nextKey && AddsClosed(s, s3, call) && !call.state.CutOff?
    requires call.id != "" && forall k :: 0 <= k < |s.items| && s.items[k].Tool? ==> s.items[k].id != call.id
    ensures AddsClosed(s, Reduce(t, s3, ToolResult(Some(call.id), name, output, isError)),
                       call.(state := Outcome(t, call.state == Denied, output, isError), output := Some(output),
                             view := t.withResult(call.view, call.name, output, isError)))
  {
    var last := |s3.items| - 1;
    assert forall j :: 0 <= j < last ==> s3.items[j] == s3.items[..last][j];
    ResultSettlesItsCall(t, s3, Some(call.id), name, output, isError, last);
    NewKeyIsNotNamed(s);
    DropsNone(s.permissions, 0, call.key);
    SettledAtTheEnd(t, s, s3, Reduce(t, s3, ToolResult(Some(call.id), name, output, isError)), call, output, isError);
  }

  /**
   * A call that starts, asks, is answered and gets its result: one more item, refused when the
   * client denied it whatever the result says, and every permission is as it was before.
   */
  lemma CallFromStartToEnd(t: Tools, s: SessionState, callId: string, name: string, request: Request, id: int, deny: bool,
                           output: string, isError: bool)
    requires Inv(s) && !IsPending(s.permissions, id) && name == request.tool
    requires callId != "" && forall k :: 0 <= k < |s.items| && s.items[k].Tool? ==> s.items[k].id != callId
    ensures var started := Reduce(t, s, ToolCallStarted(callId, name, request.input, false));
            var asked := Reduce(t, started, PermissionRequested(id, request));
            var answered := Reduce(t, asked, LocalPermissionAnswered(id, deny));
            var view := t.view(name, request.input, if s.status.Some? then Some(s.status.value.cwd) else None);
            && AddsClosed(s, started, Tool(s.nextKey, callId, name, request.input, Running, view, None, None, None))
            && AddsClosed(s, asked.(permissions := s.permissions),
                          Tool(s.nextKey, callId, name, request.input, AwaitingPermission, view, None, Some(id), None))
            && asked.permissions == s.permissions + [Permission(id, request, Some(s.nextKey))]
            && AddsClosed(s, answered, Tool(s.nextKey, callId, name, request.input, if deny then Denied else Running, view, None, Some(id), None))
            && AddsClosed(s, Reduce(t, answered, ToolResult(Some(callId), name, output, isError)),
                          Tool(s.nextKey, callId, name, request.input, Outcome(t, deny, output, isError),
                               t.withResult(view, name, output, isError), Some(output), Some(id), None))
  {
    CallIsStarted(t, s, callId, name, request.input, false);
    var started := Reduce(t, s, ToolCallStarted(callId, name, request.input, false));
    var call := started.items[|started.items| - 1];
    StartedCallAsks(t, s, started, call, id, request);
    var asked := Reduce(t, started, PermissionRequested(id, request));
    WaitingCallIsAnswered(t, s, asked, call, id, request, deny);
    var answered := Reduce(t, asked, LocalPermissionAnswered(id, deny));
    CallGetsItsResult(t, s, answered, answered.items[|answered.items| - 1], name, output, isError);
  }
}
