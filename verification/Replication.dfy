/**
 * One host, many clients (ui/neuron-client/src/remote.ts and controller.ts): a
 * client takes a snapshot, then the numbered actions after it.
 */
module Replication {
  import opened Wrappers
  import opened Session

  // --------------------------------------------------------- the protocol

  datatype HostFrame =
    | Welcome(clientCount: nat)
    | Snapshot(seqNo: int, state: SessionState)
    | ActionFrame(seqNo: int, action: Action)
    | RpcResult(id: nat, result: Result<string, string>)
    | ClientCount(clientCount: nat)
    | OtherFrame

  datatype ClientMessage =
    | SubmitMessage(text: string, attachments: seq<Attachment>)
    | SlashMessage(command: string, args: string)
    | AnswerMessage(id: int, text: string)
    | PermissionMessage(id: int, deny: bool)

  /** What a client has of the session: the number of the last action it applied, and the state. */
  datatype Replica = Replica(lastSeq: int, state: SessionState)

  function Receive(t: Tools, r: Replica, f: HostFrame): (r': Replica) {
    match f
    case Snapshot(n, state) => Replica(n, state)
    case ActionFrame(n, action) => if n <= r.lastSeq then r else Replica(n, Reduce(t, r.state, action))
    case _ => r
  }

  // ----------------------------------------------------------- controller

  class SessionController {
    const tools: Tools
    /** Whether what this client does comes back to it as an action. */
    const echoesActions: bool
    var state: SessionState
    var connected: bool
    var sent: seq<ClientMessage>

    constructor (tools: Tools, echoesActions: bool)
      ensures this.tools == tools && this.echoesActions == echoesActions
      ensures state == InitialSession() && !connected && sent == []
    {
      this.tools := tools;
      this.echoesActions := echoesActions;
      state := InitialSession();
      connected := false;
      sent := [];
    }

    method Replace(state: SessionState)
      modifies this`state
      ensures this.state == state
    {
      this.state := state;
    }

    method Apply(action: Action)
      modifies this`state
      ensures state == Reduce(tools, old(state), action)
    {
      state := Reduce(tools, state, action);
    }

    /** Appends to the messages sent, while there is a connection. */
    method Transmit(message: ClientMessage) returns (ok: bool)
      modifies this`sent
      ensures ok == connected && sent == if ok then old(sent) + [message] else old(sent)
    {
      ok := connected;
      if ok {
        sent := sent + [message];
      }
    }

    /** Reduces the client's own action at once, unless it will come back. */
    method Local(action: Action)
      modifies this`state
      ensures state == if echoesActions then old(state) else Reduce(tools, old(state), action)
    {
      if !echoesActions {
        Apply(action);
      }
    }

    method Submit(text: string, attachments: seq<Attachment>) returns (ok: bool)
      modifies this`state, this`sent
      ensures ok == connected && sent == if ok then old(sent) + [SubmitMessage(text, attachments)] else old(sent)
      ensures state == if !ok || echoesActions then old(state) else Reduce(tools, old(state), LocalSubmitted(text, attachments))
    {
      ok := Transmit(SubmitMessage(text, attachments));
      if ok {
        Local(LocalSubmitted(text, attachments));
      }
    }

    /** `/name args`, with or without its slash. */
    method Slash(command: string, args: string) returns (ok: bool)
      modifies this`state, this`sent
      ensures var name := WithoutSlash(command);
              && ok == connected
              && sent == (if ok then old(sent) + [SlashMessage(name, args)] else old(sent))
              && state == if !ok || echoesActions then old(state) else Reduce(tools, old(state), LocalSlash(name, args))
    {
      var name := WithoutSlash(command);
      ok := Transmit(SlashMessage(name, args));
      if ok {
        Local(LocalSlash(name, args));
      }
    }

    method Answer(id: int, text: string) returns (ok: bool)
      modifies this`state, this`sent
      ensures ok == connected && sent == if ok then old(sent) + [AnswerMessage(id, text)] else old(sent)
      ensures state == if !ok || echoesActions then old(state) else Reduce(tools, old(state), LocalAnswered(id, text))
    {
      ok := Transmit(AnswerMessage(id, text));
      if ok {
        Local(LocalAnswered(id, text));
      }
    }

    method AnswerPermission(id: int, deny: bool) returns (ok: bool)
      modifies this`state, this`sent
      ensures ok == connected && sent == if ok then old(sent) + [PermissionMessage(id, deny)] else old(sent)
      ensures state == if !ok || echoesActions then old(state) else Reduce(tools, old(state), LocalPermissionAnswered(id, deny))
    {
      ok := Transmit(PermissionMessage(id, deny));
      if ok {
        Local(LocalPermissionAnswered(id, deny));
      }
    }
  }

  // ------------------------------------------------------------ transport

  class WebSocketTransport {
    const controller: SessionController
    /** The largest action number reduced, or the last snapshot's. */
    var lastSeq: int
    var clients: nat
    var pending: set<nat>
    var settled: map<nat, Result<string, string>>
    var nextRpc: nat

    constructor (controller: SessionController)
      requires controller.echoesActions
      ensures this.controller == controller && lastSeq == -1 && Valid() && pending == {} && settled == map[]
    {
      this.controller := controller;
      lastSeq := -1;
      clients := 0;
      pending := {};
      settled := map[];
      nextRpc := 1;
    }

    /** The host reports actions back; a call is pending or settled, not both, and its number was handed out. */
    ghost predicate Valid()
      reads this
    {
      && controller.echoesActions
      && pending !! settled.Keys
      && forall id :: id in pending || id in settled ==> id < nextRpc
    }

    ghost function View(): (r: Replica)
      reads this, controller
    {
      Replica(lastSeq, controller.state)
    }

    /** The socket is open: messages can be sent. */
    method OnOpen()
      requires Valid()
      modifies controller`connected
      ensures Valid() && controller.connected
    {
      controller.connected := true;
    }

    method OnMessage(frame: HostFrame)
      requires Valid()
      modifies this, controller`state
      ensures Valid() && nextRpc == old(nextRpc)
      ensures View() == Receive(controller.tools, old(View()), frame)
      ensures frame.RpcResult? && frame.id in old(pending) ==>
                pending == old(pending) - {frame.id} && settled == old(settled)[frame.id := frame.result]
      ensures !(frame.RpcResult? && frame.id in old(pending)) ==> pending == old(pending) && settled == old(settled)
      ensures clients == if frame.Welcome? || frame.ClientCount? then frame.clientCount else old(clients)
    {
      match frame {
        case Welcome(n) => clients := n;
        case Snapshot(n, state) =>
          lastSeq := n;
          controller.Replace(state);
        case ActionFrame(n, action) =>
          if n <= lastSeq {
            return;
          }
          lastSeq := n;
          controller.Apply(action);
        case ClientCount(n) => clients := n;
        case RpcResult(id, result) =>
          if id in pending {
            pending := pending - {id};
            settled := settled[id := result];
          }
        case OtherFrame =>
      }
    }

    /** A new call: its number is unused, and without a connection it is settled as failed. */
    method Rpc() returns (id: nat)
      requires Valid()
      modifies this`nextRpc, this`pending, this`settled
      ensures Valid() && id == old(nextRpc) && nextRpc == id + 1
      ensures id !in old(pending) && id !in old(settled)
      ensures if controller.connected then pending == old(pending) + {id} && settled == old(settled)
              else pending == old(pending) && settled == old(settled)[id := Err("Not connected to the Neuron host.")]
    {
      id := nextRpc;
      nextRpc := nextRpc + 1;
      if controller.connected {
        pending := pending + {id};
      } else {
        settled := settled[id := Err("Not connected to the Neuron host.")];
      }
    }

    /** The socket is gone: every pending call fails, and settled ones stay as they were. */
    method OnClose(error: Option<string>)
      requires Valid()
      modifies this`pending, this`settled, controller`state, controller`connected
      ensures Valid() && pending == {} && !controller.connected
      ensures settled == old(settled) + map id | id in old(pending) :: Err("The Neuron host closed the connection.")
      ensures controller.state == Reduce(controller.tools, old(controller.state), LocalDisconnected(error))
    {
      settled := settled + map id | id in pending :: Err("The Neuron host closed the connection.");
      pending := {};
      controller.connected := false;
      controller.Apply(LocalDisconnected(error));
    }
  }

  // ----------------------------------------------------------- the theorem

  /** The host's state once it has taken action `n`; `-1` is before the first. */
  function HostState(t: Tools, start: SessionState, history: seq<Action>, n: int): (s: SessionState)
    requires -1 <= n < |history|
  {
    Run(t, start, history, n + 1)
  }

  /** A frame such as this host sends. */
  ghost predicate IsFromHost(t: Tools, start: SessionState, history: seq<Action>, f: HostFrame) {
    && (f.Snapshot? ==> -1 <= f.seqNo < |history| && f.state == HostState(t, start, history, f.seqNo))
    && (f.ActionFrame? ==> 0 <= f.seqNo < |history| && f.action == history[f.seqNo])
  }

  /** Something that happens at a client: a frame arrives, or its user acts. */
  datatype Event = Arrives(frame: HostFrame) | UserActs(message: ClientMessage)

  /** What it does to the replica: the user's own actions wait for the host to report them. */
  function Happens(t: Tools, r: Replica, e: Event): (r': Replica) {
    if e.Arrives? then Receive(t, r, e.frame) else r
  }

  function HappensAll(t: Tools, r: Replica, events: seq<Event>, n: nat): (r': Replica)
    requires n <= |events|
  {
    if n == 0 then r else Happens(t, HappensAll(t, r, events, n - 1), events[n - 1])
  }

  function WithoutSlash(command: string): (name: string) {
    if command != "" && command[0] == '/' then command[1..] else command
  }

  /** One slash is dropped when the command starts with it, and nothing else. */
  lemma OneSlashIsDropped(name: string)
    ensures WithoutSlash("/" + name) == name
    ensures (name == "" || name[0] != '/') ==> WithoutSlash(name) == name
  {
    assert ("/" + name)[1..] == name;
  }

  /** The message sent for what the user does. */
  function Wire(m: ClientMessage): (sent: ClientMessage) {
    if m.SlashMessage? then SlashMessage(WithoutSlash(m.command), m.args) else m
  }

  /** The messages of the first `n` events. */
  function Messages(events: seq<Event>, n: nat): (messages: seq<ClientMessage>)
    requires n <= |events|
  {
    if n == 0 then []
    else if events[n - 1].UserActs? then Messages(events, n - 1) + [Wire(events[n - 1].message)]
    else Messages(events, n - 1)
  }

  /** The user acts through the controller. */
  method Act(c: SessionController, m: ClientMessage)
    requires c.echoesActions
    modifies c`state, c`sent
    ensures c.state == old(c.state)
    ensures c.sent == if c.connected then old(c.sent) + [Wire(m)] else old(c.sent)
  {
    var ok;
    match m {
      case SubmitMessage(text, attachments) => ok := c.Submit(text, attachments);
      case SlashMessage(command, args) => ok := c.Slash(command, args);
      case AnswerMessage(id, text) => ok := c.Answer(id, text);
      case PermissionMessage(id, deny) => ok := c.AnswerPermission(id, deny);
    }
  }

  /** Any events at a client, frames and the user's own acts in any order, do what the theorems are about. */
  method AnyEvents(w: WebSocketTransport, events: seq<Event>)
    requires w.Valid()
    modifies w, w.controller`state, w.controller`sent
    ensures w.Valid() && w.View() == HappensAll(w.controller.tools, old(w.View()), events, |events|)
    ensures w.controller.sent == old(w.controller.sent) + if w.controller.connected then Messages(events, |events|) else []
  {
    for i := 0 to |events|
      invariant w.Valid() && w.View() == HappensAll(w.controller.tools, old(w.View()), events, i)
      invariant w.controller.sent == old(w.controller.sent) + if w.controller.connected then Messages(events, i) else []
    {
      if events[i].Arrives? {
        w.OnMessage(events[i].frame);
      } else {
        Act(w.controller, events[i].message);
      }
    }
  }

  /** Frames of this host in order: an action is the next one, or one that came before. */
  ghost predicate InOrder(t: Tools, start: SessionState, history: seq<Action>, r: Replica, events: seq<Event>) {
    forall k :: 0 <= k < |events| && events[k].Arrives? ==>
      && IsFromHost(t, start, history, events[k].frame)
      && (events[k].frame.ActionFrame? ==> events[k].frame.seqNo <= HappensAll(t, r, events, k).lastSeq + 1)
  }

  /** The replica is the host's state as of the last action it applied. */
  ghost predicate IsReplica(t: Tools, start: SessionState, history: seq<Action>, r: Replica) {
    -1 <= r.lastSeq < |history| && r.state == HostState(t, start, history, r.lastSeq)
  }

  lemma ReceiveKeepsReplica(t: Tools, start: SessionState, history: seq<Action>, r: Replica, f: HostFrame)
    requires IsReplica(t, start, history, r) && IsFromHost(t, start, history, f)
    requires f.ActionFrame? ==> f.seqNo <= r.lastSeq + 1
    ensures IsReplica(t, start, history, Receive(t, r, f))
    ensures f.ActionFrame? ==> Receive(t, r, f).lastSeq == if f.seqNo <= r.lastSeq then r.lastSeq else f.seqNo
  {}

  /** A snapshot makes a replica of anything: a fresh client, or one that was disconnected. */
  lemma SnapshotMakesReplica(t: Tools, start: SessionState, history: seq<Action>, r: Replica, f: HostFrame)
    requires f.Snapshot? && IsFromHost(t, start, history, f)
    ensures IsReplica(t, start, history, Receive(t, r, f))
  {}

  /** The client started as a replica, or a snapshot has made it one. */
  ghost predicate IsAttached(t: Tools, start: SessionState, history: seq<Action>, r: Replica, events: seq<Event>, n: nat)
    requires n <= |events|
  {
    IsReplica(t, start, history, r) || exists k :: 0 <= k < n && events[k].Arrives? && events[k].frame.Snapshot?
  }

  /**
   * From a snapshot on, the first or a later one, a client's state is the
   * host's after all actions up to its last number. Repeated frames change
   * nothing, and neither do the user's own acts until they come back.
   */
  lemma {:induction false} ClientsFollowTheHost(
    t: Tools, start: SessionState, history: seq<Action>, r: Replica, events: seq<Event>, n: nat
  )
    requires n <= |events| && IsAttached(t, start, history, r, events, n) && InOrder(t, start, history, r, events)
    ensures IsReplica(t, start, history, HappensAll(t, r, events, n))
  {
    if n > 0 {
      var before, e := HappensAll(t, r, events, n - 1), events[n - 1];
      if e.Arrives? && e.frame.Snapshot? {
        SnapshotMakesReplica(t, start, history, before, e.frame);
      } else {
        ClientsFollowTheHost(t, start, history, r, events, n - 1);
        if e.Arrives? {
          ReceiveKeepsReplica(t, start, history, before, e.frame);
        }
      }
    }
  }

  /** The numbers of the actions reduced since the last snapshot, or since the start. */
  function Reduced(t: Tools, r: Replica, events: seq<Event>, n: nat): (numbers: seq<int>)
    requires n <= |events|
  {
    if n == 0 then []
    else
      var e := events[n - 1];
      if e.UserActs? then Reduced(t, r, events, n - 1)
      else if e.frame.Snapshot? then []
      else if e.frame.ActionFrame? && e.frame.seqNo > HappensAll(t, r, events, n - 1).lastSeq
      then Reduced(t, r, events, n - 1) + [e.frame.seqNo]
      else Reduced(t, r, events, n - 1)
  }

  /** The number of the last snapshot, or the one at the start. */
  function SnapshotSeq(r: Replica, events: seq<Event>, n: nat): (number: int)
    requires n <= |events|
  {
    if n == 0 then r.lastSeq
    else if events[n - 1].Arrives? && events[n - 1].frame.Snapshot? then events[n - 1].frame.seqNo
    else SnapshotSeq(r, events, n - 1)
  }

  /**
   * Every action takes effect exactly once: since a snapshot, the numbers
   * reduced are the consecutive ones from the snapshot's to the last.
   */
  lemma {:induction false} ReducedExactlyOnce(
    t: Tools, start: SessionState, history: seq<Action>, r: Replica, events: seq<Event>, n: nat
  )
    requires n <= |events| && InOrder(t, start, history, r, events)
    ensures var numbers, first := Reduced(t, r, events, n), SnapshotSeq(r, events, n);
            && HappensAll(t, r, events, n).lastSeq == first + |numbers|
            && forall i :: 0 <= i < |numbers| ==> numbers[i] == first + 1 + i
  {
    if n > 0 {
      ReducedExactlyOnce(t, start, history, r, events, n - 1);
    }
  }

  lemma SameNumberSameState(t: Tools, start: SessionState, history: seq<Action>, r1: Replica, r2: Replica)
    requires IsReplica(t, start, history, r1) && IsReplica(t, start, history, r2) && r1.lastSeq == r2.lastSeq
    ensures r1 == r2
  {}

  /** A client after everything that happened to it. */
  function After(t: Tools, r: Replica, events: seq<Event>): (r': Replica) {
    HappensAll(t, r, events, |events|)
  }

  /** Two clients that have applied the same last action agree, wherever each attached and whatever was repeated. */
  lemma ClientsAgree(
    t: Tools, start: SessionState, history: seq<Action>, r1: Replica, events1: seq<Event>, r2: Replica, events2: seq<Event>
  )
    requires IsAttached(t, start, history, r1, events1, |events1|) && InOrder(t, start, history, r1, events1)
    requires IsAttached(t, start, history, r2, events2, |events2|) && InOrder(t, start, history, r2, events2)
    requires After(t, r1, events1).lastSeq == After(t, r2, events2).lastSeq
    ensures After(t, r1, events1) == After(t, r2, events2)
  {
    ClientsFollowTheHost(t, start, history, r1, events1, |events1|);
    ClientsFollowTheHost(t, start, history, r2, events2, |events2|);
    SameNumberSameState(t, start, history, After(t, r1, events1), After(t, r2, events2));
  }

  /** Every action number delivered is applied in the end: a client that got the host's frames up to `n` is at `n`. */
  lemma {:induction false} DeliveredIsApplied(t: Tools, r: Replica, events: seq<Event>, n: nat, k: nat)
    requires k < n <= |events| && events[k].Arrives? && events[k].frame.ActionFrame?
    requires forall i :: 0 <= i < |events| && events[i].Arrives? ==> !events[i].frame.Snapshot?
    ensures HappensAll(t, r, events, n).lastSeq >= events[k].frame.seqNo
  {
    if k < n - 1 {
      DeliveredIsApplied(t, r, events, n - 1, k);
    }
  }
}
