/** The recorder's request handlers (app.py): which devices are connected, which are being
    recorded, and what each recording holds. The two module-level dictionaries
    `device_connections` and `recording_sessions` become the fields of a `Recorder`; each
    handler is a method, proved against a step function on a `State` value, and the
    behaviour of whole request sequences is stated as lemmas about the step functions. */
module Recorder {
  import opened Wrappers
  import opened Hierarchy
  import opened Resolution
  import opened Script

  /** Why a request was refused; the handlers answer `{'success': False, 'error': ...}`. */
  datatype Failure =
    | NotConnected      // the device id has no connection
    | ConnectFailed     // `u2.connect` raised
    | NotRecording      // no session, or its `start_time` is `None`
    | DeviceError       // `dump_hierarchy`, `click` or `swipe` raised
    | NothingToSave     // no session, or a session without actions

  type Reply = Result<(), Failure>

  /** A recording session: the actions so far and, while recording, the start time. */
  datatype Session = Session(actions: seq<Action>, startTime: Option<real>)

  /** The connected device ids and the session of each. */
  datatype State = State(connections: set<string>, sessions: map<string, Session>)

  datatype Outcome = Outcome(state: State, reply: Reply)

  const Initial := State({}, map[])

  /** Every connected device has a session and every session a connected device. */
  predicate Consistent(s: State)
  {
    s.sessions.Keys == s.connections
  }

  predicate Recording(s: State, id: string)
  {
    id in s.connections && id in s.sessions && s.sessions[id].startTime.Some?
  }

  // ---------------------------------------------------------------------------------------
  // One request
  // ---------------------------------------------------------------------------------------

  /** `connect(device_id)`. `reachable` is whether `u2.connect` succeeds. An id already
      connected is answered with success and nothing changes; a new connection gets an
      empty, stopped session. */
  function ConnectStep(s: State, id: string, reachable: bool): (o: Outcome)
    ensures Consistent(s) ==> Consistent(o.state)
    ensures o.reply.Ok? <==> id in s.connections || reachable
    ensures id in s.connections || !reachable ==> o.state == s
    ensures id !in s.connections && reachable ==>
      o.state.connections == s.connections + {id} &&
      id in o.state.sessions && o.state.sessions[id] == Session([], None) &&
      forall d :: d != id ==> (d in o.state.sessions <==> d in s.sessions)
    ensures id !in s.connections && reachable ==>
      o.state == State(s.connections + {id}, s.sessions[id := Session([], None)])
  {
    if id in s.connections then Outcome(s, Ok(()))
    else if !reachable then Outcome(s, Err(ConnectFailed))
    else Outcome(State(s.connections + {id}, s.sessions[id := Session([], None)]), Ok(()))
  }

  /** `disconnect(device_id)`: forget the connection and the session, always with success. */
  function DisconnectStep(s: State, id: string): (o: Outcome)
    ensures Consistent(s) ==> Consistent(o.state)
    ensures o.reply.Ok? && !Recording(o.state, id) && id !in o.state.sessions && id !in o.state.connections
    ensures o.state == State(s.connections - {id}, s.sessions - {id})
    ensures forall d :: d != id ==> (d in o.state.connections <==> d in s.connections)
    ensures forall d :: d != id && d in s.sessions ==> d in o.state.sessions && o.state.sessions[d] == s.sessions[d]
  {
    Outcome(State(s.connections - {id}, s.sessions - {id}), Ok(()))
  }

  /** `start_recording(device_id)` at time `now`: a fresh session, started now. Actions
      recorded before are dropped. */
  function StartStep(s: State, id: string, now: real): (o: Outcome)
    ensures Consistent(s) ==> Consistent(o.state)
    ensures o.reply.Ok? <==> id in s.connections
    ensures o.reply.Ok? ==> Recording(o.state, id) && o.state.sessions[id] == Session([], Some(now))
    ensures o.reply.Ok? ==> o.state == State(s.connections, s.sessions[id := Session([], Some(now))])
    ensures o.reply.Err? ==> o.state == s && o.reply.error == NotConnected
  {
    if id !in s.connections then Outcome(s, Err(NotConnected))
    else Outcome(State(s.connections, s.sessions[id := Session([], Some(now))]), Ok(()))
  }

  /** `stop_recording(device_id)`: clear the start time, keep the actions. Stopping a
      session that is not recording also succeeds. */
  function StopStep(s: State, id: string): (o: Outcome)
    ensures Consistent(s) ==> Consistent(o.state)
    ensures o.reply.Ok? <==> id in s.connections && id in s.sessions
    ensures o.reply.Ok? ==>
      !Recording(o.state, id) && id in o.state.sessions &&
      o.state.sessions[id].actions == s.sessions[id].actions
    ensures o.reply.Ok? ==>
      o.state == State(s.connections, s.sessions[id := Session(s.sessions[id].actions, None)])
    ensures o.reply.Err? ==> o.state == s
    ensures o.reply.Err? ==> o.reply.error == (if id !in s.connections then NotConnected else NotRecording)
  {
    if id !in s.connections then Outcome(s, Err(NotConnected))
    else if id !in s.sessions then Outcome(s, Err(NotRecording))
    else Outcome(State(s.connections, s.sessions[id := s.sessions[id].(startTime := None)]), Ok(()))
  }

  /** What the handler learns from the device while recording one action. */
  datatype Screen =
    | DumpFailed                   // `dump_hierarchy` raised
    | Dumped(root: Option<Element>)   // the dump, parsed; `None` when it is not well-formed XML

  /** One posted action: its gesture, the time it arrives, the screen dumped for a click,
      and whether replaying it on the device succeeds. */
  datatype Input = Input(gesture: Gesture, now: real, screen: Screen, dispatched: bool)

  /** The action stored for an input, `start` being the session's start time. */
  function ActionOf(b: Build, input: Input, start: real): Action
    requires input.gesture.Click? ==> input.screen.Dumped?
  {
    var element :=
      if input.gesture.Click? then
        Some(Describe(b, input.screen.root, input.gesture.x, input.gesture.y))
      else None;
    Action(input.gesture, input.now - start, element)
  }

  /** Whether the handler gets as far as storing the action. */
  predicate Stores(s: State, id: string, input: Input)
  {
    Recording(s, id) && (input.gesture.Click? ==> input.screen.Dumped?)
  }

  /** `record_action(device_id)`: while recording, stamp the action with the seconds since
      the start, attach the element under a click, store it, then replay it on the device.
      A failed dump stops the handler before anything is stored; a failed replay comes
      after the store, so the action is kept although the reply is a failure. */
  function RecordStep(b: Build, s: State, id: string, input: Input): (o: Outcome)
    ensures Consistent(s) ==> Consistent(o.state)
    ensures !Stores(s, id, input) ==> o.state == s && o.reply.Err?
    ensures !Stores(s, id, input) ==>
      o.reply.error == (if id !in s.connections then NotConnected
                        else if !Recording(s, id) then NotRecording
                        else DeviceError)
    ensures Stores(s, id, input) ==>
      var session := s.sessions[id];
      o.state.connections == s.connections &&
      o.state.sessions == s.sessions[id := Session(
        session.actions + [ActionOf(b, input, session.startTime.value)], session.startTime)]
    ensures o.reply.Ok? <==> Stores(s, id, input) && (input.gesture.Other? || input.dispatched)
  {
    if id !in s.connections then Outcome(s, Err(NotConnected))
    else if id !in s.sessions || s.sessions[id].startTime.None? then Outcome(s, Err(NotRecording))
    else if input.gesture.Click? && input.screen.DumpFailed? then Outcome(s, Err(DeviceError))
    else
      var session := s.sessions[id];
      var action := ActionOf(b, input, session.startTime.value);
      var next := State(s.connections, s.sessions[id := Session(session.actions + [action], session.startTime)]);
      Outcome(next, if input.gesture.Other? || input.dispatched then Ok(()) else Err(DeviceError))
  }

  /** `save_script(device_id)`: the script text of the session's actions, recording or not.
      Writing the file is not modelled. */
  function SaveReply(s: State, id: string): (r: Result<string, Failure>)
    ensures r.Ok? <==> id in s.connections && id in s.sessions && s.sessions[id].actions != []
    ensures r.Ok? ==> r.value == ScriptText(id, s.sessions[id].actions)
    ensures r.Err? && id !in s.connections ==> r.error == NotConnected
    ensures r.Err? && id in s.connections ==> r.error == NothingToSave
  {
    if id !in s.connections then Err(NotConnected)
    else if id !in s.sessions || s.sessions[id].actions == [] then Err(NothingToSave)
    else Ok(ScriptText(id, s.sessions[id].actions))
  }

  // ---------------------------------------------------------------------------------------
  // The handlers, updating the two dictionaries in place
  // ---------------------------------------------------------------------------------------

  class Recorder {
    /** Which parser and locator generator the element lookup uses. */
    const build: Build
    var connections: set<string>
    var sessions: map<string, Session>

    function Current(): State
      reads this
    {
      State(connections, sessions)
    }

    ghost predicate Valid()
      reads this
    {
      Consistent(Current())
    }

    constructor (build: Build)
      ensures this.build == build && Current() == Initial && Valid()
    {
      this.build := build;
      connections := {};
      sessions := map[];
    }

    method Connect(id: string, reachable: bool) returns (reply: Reply)
      requires Valid()
      modifies this
      ensures Valid()
      ensures Outcome(Current(), reply) == ConnectStep(old(Current()), id, reachable)
    {
      if id in connections {
        return Ok(());
      }
      if !reachable {
        return Err(ConnectFailed);
      }
      connections := connections + {id};
      sessions := sessions[id := Session([], None)];
      return Ok(());
    }

    method Disconnect(id: string) returns (reply: Reply)
      requires Valid()
      modifies this
      ensures Valid()
      ensures Outcome(Current(), reply) == DisconnectStep(old(Current()), id)
    {
      if id in connections {
        connections := connections - {id};
      }
      if id in sessions {
        sessions := sessions - {id};
      }
      return Ok(());
    }

    method StartRecording(id: string, now: real) returns (reply: Reply)
      requires Valid()
      modifies this
      ensures Valid()
      ensures Outcome(Current(), reply) == StartStep(old(Current()), id, now)
    {
      if id !in connections {
        return Err(NotConnected);
      }
      sessions := sessions[id := Session([], Some(now))];
      return Ok(());
    }

    method StopRecording(id: string) returns (reply: Reply)
      requires Valid()
      modifies this
      ensures Valid()
      ensures Outcome(Current(), reply) == StopStep(old(Current()), id)
    {
      if id !in connections {
        return Err(NotConnected);
      }
      if id !in sessions {
        return Err(NotRecording);
      }
      sessions := sessions[id := sessions[id].(startTime := None)];
      return Ok(());
    }

    method RecordAction(id: string, input: Input) returns (reply: Reply)
      requires Valid()
      modifies this
      ensures Valid()
      ensures Outcome(Current(), reply) == RecordStep(build, old(Current()), id, input)
    {
      if id !in connections {
        return Err(NotConnected);
      }
      if id !in sessions || sessions[id].startTime.None? {
        return Err(NotRecording);
      }
      var session := sessions[id];
      var time := input.now - session.startTime.value;
      var element: Option<ElementInfo> := None;
      if input.gesture.Click? {
        if input.screen.DumpFailed? {
          return Err(DeviceError);
        }
        var info := ParseElementByCoords(build, input.screen.root, input.gesture.x, input.gesture.y);
        element := Some(info);
      }
      sessions := sessions[id := Session(session.actions + [Action(input.gesture, time, element)], session.startTime)];
      if !input.gesture.Other? && !input.dispatched {
        return Err(DeviceError);
      }
      return Ok(());
    }

    method SaveScript(id: string) returns (reply: Result<string, Failure>)
      ensures reply == SaveReply(Current(), id)
    {
      if id !in connections {
        return Err(NotConnected);
      }
      if id !in sessions || sessions[id].actions == [] {
        return Err(NothingToSave);
      }
      var content := GenerateScript(id, sessions[id].actions);
      return Ok(content);
    }
  }

  // ---------------------------------------------------------------------------------------
  // Sequences of requests
  // ---------------------------------------------------------------------------------------

  /** Posting `inputs` one after the other. */
  function RecordAll(b: Build, s: State, id: string, inputs: seq<Input>): State
    decreases |inputs|
  {
    if inputs == [] then s
    else RecordAll(b, RecordStep(b, s, id, inputs[0]).state, id, inputs[1..])
  }

  /** The actions a run of inputs stores, for a session started at `start`. */
  function ActionsOf(b: Build, inputs: seq<Input>, start: real): seq<Action>
    requires AllDumped(inputs)
    decreases |inputs|
  {
    if inputs == [] then [] else [ActionOf(b, inputs[0], start)] + ActionsOf(b, inputs[1..], start)
  }

  predicate AllDumped(inputs: seq<Input>)
  {
    forall k :: 0 <= k < |inputs| ==> (inputs[k].gesture.Click? ==> inputs[k].screen.Dumped?)
  }

  /** While a device is being recorded and every click's screen can be dumped, each posted
      action is stored, in order, stamped relative to the start, whether or not replaying
      it on the device succeeds; nothing else changes. */
  lemma {:induction false} RecordAllAppends(b: Build, s: State, id: string, inputs: seq<Input>)
    requires Recording(s, id) && AllDumped(inputs)
    ensures var t := RecordAll(b, s, id, inputs);
      Recording(t, id) && t.connections == s.connections &&
      t.sessions == s.sessions[id := Session(
        s.sessions[id].actions + ActionsOf(b, inputs, s.sessions[id].startTime.value),
        s.sessions[id].startTime)]
    decreases |inputs|
  {
    if inputs != [] {
      var start := s.sessions[id].startTime.value;
      var next := RecordStep(b, s, id, inputs[0]).state;
      assert AllDumped(inputs[1..]) by {
        forall k | 0 <= k < |inputs[1..]|
          ensures inputs[1..][k].gesture.Click? ==> inputs[1..][k].screen.Dumped?
        {
          assert inputs[1..][k] == inputs[k + 1];
        }
      }
      RecordAllAppends(b, next, id, inputs[1..]);
      assert s.sessions[id].actions + ActionsOf(b, inputs, start) ==
        (s.sessions[id].actions + [ActionOf(b, inputs[0], start)]) + ActionsOf(b, inputs[1..], start);
    } else {
      assert s.sessions[id].actions + [] == s.sessions[id].actions;
      assert s.sessions[id := s.sessions[id]] == s.sessions;
    }
  }

  /** Requests on a device that is not being recorded change nothing. */
  lemma {:induction false} RecordAllWhileStopped(b: Build, s: State, id: string, inputs: seq<Input>)
    requires !Recording(s, id)
    ensures RecordAll(b, s, id, inputs) == s
    decreases |inputs|
  {
    if inputs != [] {
      RecordAllWhileStopped(b, s, id, inputs[1..]);
    }
  }

  /** Stopping does not change what would be saved. */
  lemma StopKeepsScript(s: State, id: string)
    requires StopStep(s, id).reply.Ok?
    ensures SaveReply(StopStep(s, id).state, id) == SaveReply(s, id)
  {
  }

  /** After a disconnect nothing can be saved, and reconnecting starts from an empty
      session: what was recorded is lost. */
  lemma DisconnectLosesRecording(s: State, id: string)
    ensures SaveReply(DisconnectStep(s, id).state, id) == Err(NotConnected)
    ensures var t := ConnectStep(DisconnectStep(s, id).state, id, true).state;
      t.sessions[id] == Session([], None) && SaveReply(t, id) == Err(NothingToSave)
  {
  }

  /** A request to one of the handlers, with what the device and the clock contribute. */
  datatype Request =
    | ConnectTo(id: string, reachable: bool)
    | DisconnectFrom(id: string)
    | StartAt(id: string, now: real)
    | Stop(id: string)
    | Post(id: string, input: Input)
    | Save(id: string)

  /** The state after one request; saving changes nothing. */
  function Apply(b: Build, s: State, r: Request): State
  {
    match r
    case ConnectTo(id, reachable) => ConnectStep(s, id, reachable).state
    case DisconnectFrom(id) => DisconnectStep(s, id).state
    case StartAt(id, now) => StartStep(s, id, now).state
    case Stop(id) => StopStep(s, id).state
    case Post(id, input) => RecordStep(b, s, id, input).state
    case Save(_) => s
  }

  /** The state after handling `requests` in order. */
  function Run(b: Build, s: State, requests: seq<Request>): State
    decreases |requests|
  {
    if requests == [] then s else Run(b, Apply(b, s, requests[0]), requests[1..])
  }

  /** Every handler keeps each connected device paired with a session. */
  lemma {:induction false} RunKeepsConsistent(b: Build, s: State, requests: seq<Request>)
    requires Consistent(s)
    ensures Consistent(Run(b, s, requests))
    decreases |requests|
  {
    if requests != [] {
      RunKeepsConsistent(b, Apply(b, s, requests[0]), requests[1..]);
    }
  }

  /** In a consistent state, stopping a connected device always succeeds. */
  lemma StopConnectedSucceeds(s: State, id: string)
    requires Consistent(s) && id in s.connections
    ensures StopStep(s, id).reply.Ok?
  {
  }

  /** Whatever requests came before, `stop_recording` never answers "not recording": a
      connected device always has a session. */
  lemma StopNeverNotRecording(b: Build, requests: seq<Request>, id: string)
    ensures StopStep(Run(b, Initial, requests), id).reply ==
      if id in Run(b, Initial, requests).connections then Ok(()) else Err(NotConnected)
  {
    RunKeepsConsistent(b, Initial, requests);
    var s := Run(b, Initial, requests);
    if id in s.connections {
      StopConnectedSucceeds(s, id);
    }
  }

  /** A whole session: connect a new device, start recording at `t0`, post `inputs` (at
      least one), stop, save. The saved script is the script of the stored actions, each
      stamped with its time since `t0`. */
  lemma RecordingWorkflow(b: Build, id: string, reachable: bool, t0: real, inputs: seq<Input>)
    requires reachable && inputs != [] && AllDumped(inputs)
    ensures var s1 := ConnectStep(Initial, id, reachable).state;
      var s2 := StartStep(s1, id, t0).state;
      var s3 := RecordAll(b, s2, id, inputs);
      var s4 := StopStep(s3, id).state;
      SaveReply(s4, id) == Ok(ScriptText(id, ActionsOf(b, inputs, t0)))
  {
    var s1 := ConnectStep(Initial, id, reachable).state;
    var s2 := StartStep(s1, id, t0).state;
    RecordAllAppends(b, s2, id, inputs);
    var s3 := RecordAll(b, s2, id, inputs);
    assert s3.sessions[id].actions == [] + ActionsOf(b, inputs, t0);
    assert [] + ActionsOf(b, inputs, t0) == ActionsOf(b, inputs, t0);
    StopKeepsScript(s3, id);
  }
}
