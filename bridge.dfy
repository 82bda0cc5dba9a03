/** The node itself: the command slot with its timestamp, the publish tick, the
    instruction callback, the stop service and the final stop at shutdown. */
module Bridge {
  import opened Wrappers
  import opened JsonValue
  import opened Motion
  import opened Extractor
  import opened Payload
  import Text

  /** The node's settings: the request settings, the hold window
      (`command_hold_duration`, seconds) and the speed limits. */
  datatype Config = Config(prompt: PromptConfig, holdDuration: real, limits: Limits)

  const DefaultConfig: Config := Config(DefaultPromptConfig, 1.5, Limits(0.6, 0.2, 1.2, false))

  /** The code the callback calls but the node does not define: the HTTP round trip
      (`session.post`, `raise_for_status`, `response.json()`, None when any of them
      raises), the decoders of the extractor, and Python's `float()` of a string. */
  datatype Env = Env(transport: Json -> Option<Json>, codec: Codec, parseFloat: string -> Option<real>)

  /** The body of the callback's `try` block for a non-empty instruction: build the
      request, send it, extract the reply and convert it. */
  function Handle(cfg: Config, instruction: string, env: Env): (r: Result<Converted, Fault>)
    ensures r.Success? ==> WithinLimits(cfg.limits, r.value.twist)
    ensures env.transport(BuildPayload(cfg.prompt, instruction)).None? ==> r == Failure(RequestFailed)
    ensures env.transport(BuildPayload(cfg.prompt, instruction)).Some? ==>
      var e := ExtractTwist(env.transport(BuildPayload(cfg.prompt, instruction)).value, env.codec);
      && (e.Failure? ==> r == Failure(e.error))
      && (e.Success? ==> r == ToTwist(e.value, cfg.limits, env.parseFloat))
  {
    var payload := BuildPayload(cfg.prompt, instruction);
    var reply := env.transport(payload);
    if reply.None? then Failure(RequestFailed)
    else
      var data :- ExtractTwist(reply.value, env.codec);
      ToTwist(data, cfg.limits, env.parseFloat)
  }

  /** End to end: when the service answers, in either shape, with a text that
      wraps an encoded reply of the prompted shape, the instruction yields that
      reply's axes, clamped. */
  lemma HandleWrappedReply(cfg: Config, instruction: string, env: Env,
                           pre: string, body: string, post: string, lx: real, ly: real, az: real)
    requires env.transport(BuildPayload(cfg.prompt, instruction)).Some?
    requires CarriesContent(env.transport(BuildPayload(cfg.prompt, instruction)).value, JStr(pre + body + post))
    requires '{' !in pre && '}' !in post
    requires |body| >= 2 && body[0] == '{' && body[|body| - 1] == '}'
    requires env.codec.decode(body) == Some(Reply(lx, ly, az))
    ensures Handle(cfg, instruction, env).Success?
    ensures Handle(cfg, instruction, env).value.twist == Twist(
      Vector3(Clamp(lx, cfg.limits.maxLinear), if cfg.limits.allowY then Clamp(ly, cfg.limits.maxSide) else 0.0, 0.0),
      Vector3(0.0, 0.0, Clamp(az, cfg.limits.maxAngular)))
  {
    ExtractWrapped(env.transport(BuildPayload(cfg.prompt, instruction)).value, pre, body, post, Reply(lx, ly, az), env.codec);
    ToTwistOfReply(lx, ly, az, cfg.limits, env.parseFloat);
  }

  /** What one tick publishes: the held command while its age is at most the hold
      window, the zero command once it is older. */
  function TickOutput(held: Twist, last: real, now: real, hold: real): (r: Twist)
    ensures now - last <= hold ==> r == held
    ensures now - last > hold ==> r == Zero
    ensures r == Zero <==> (held == Zero || now - last > hold)
  {
    if now - last > hold then Zero else held
  }

  /** Whatever a tick publishes obeys the limits when the held command does. */
  lemma TickWithinLimits(l: Limits, held: Twist, last: real, now: real, hold: real)
    requires WithinLimits(l, held)
    ensures WithinLimits(l, TickOutput(held, last, now, hold))
  {
  }

  /** After a stop the slot holds zero at the epoch: every later tick publishes
      zero, and a tick later than the hold window would have done so whatever
      the slot held. */
  lemma TickAfterStop(held: Twist, now: real, hold: real)
    ensures TickOutput(Zero, 0.0, now, hold) == Zero
    ensures now > hold ==> TickOutput(held, 0.0, now, hold) == Zero
  {
  }

  /** The reply of the `~stop` service. */
  datatype TriggerResponse = TriggerResponse(success: bool, message: string)

  /** The node's shared state: the current command and the time it was set, and
      the commands it has published so far. */
  class MotionBridge {
    const cfg: Config
    var currentCmd: Twist
    var lastCommandTime: real
    ghost var published: seq<Twist>

    /** The held command and everything published obey the limits. */
    ghost predicate Valid()
      reads this
    {
      WithinLimits(cfg.limits, currentCmd)
      && forall i :: 0 <= i < |published| ==> WithinLimits(cfg.limits, published[i])
    }

    constructor (cfg: Config)
      ensures Valid()
      ensures this.cfg == cfg
      ensures currentCmd == Zero && lastCommandTime == 0.0 && published == []
    {
      this.cfg := cfg;
      currentCmd := Zero;
      lastCommandTime := 0.0;
      published := [];
    }

    /** `_timer_publish`: publish the held command if it is fresh, zero otherwise. */
    method TimerPublish(now: real)
      requires Valid()
      modifies this`published
      ensures Valid()
      ensures published == old(published) + [TickOutput(currentCmd, lastCommandTime, now, cfg.holdDuration)]
    {
      var publishCmd: Twist;
      if now - lastCommandTime > cfg.holdDuration {
        publishCmd := Zero;
      } else {
        publishCmd := currentCmd;
      }
      ZeroWithinLimits(cfg.limits);
      published := published + [publishCmd];
    }

    /** `_apply_stop`: reset the slot to zero at the epoch and publish zero at once. */
    method ApplyStop()
      requires Valid()
      modifies this`currentCmd, this`lastCommandTime, this`published
      ensures Valid()
      ensures currentCmd == Zero && lastCommandTime == 0.0
      ensures published == old(published) + [Zero]
    {
      currentCmd := Zero;
      lastCommandTime := 0.0;
      ZeroWithinLimits(cfg.limits);
      published := published + [Zero];
    }

    /** `_handle_stop`: the stop service always succeeds. */
    method HandleStop() returns (resp: TriggerResponse)
      requires Valid()
      modifies this`currentCmd, this`lastCommandTime, this`published
      ensures Valid()
      ensures resp == TriggerResponse(true, "Command reset to zero velocities")
      ensures currentCmd == Zero && lastCommandTime == 0.0
      ensures published == old(published) + [Zero]
    {
      ApplyStop();
      resp := TriggerResponse(true, "Command reset to zero velocities");
    }

    /** `_instruction_callback` for a message `data` whose processing ends at time
        `now`.  A blank instruction changes nothing; a failure anywhere is a stop;
        a success replaces command and timestamp together and publishes nothing.
        Returns the remark that would be logged. */
    method InstructionCallback(data: string, now: real, env: Env) returns (comment: Option<string>)
      requires Valid()
      modifies this`currentCmd, this`lastCommandTime, this`published
      ensures Valid()
      ensures Text.AllSpace(data) ==>
        currentCmd == old(currentCmd) && lastCommandTime == old(lastCommandTime)
        && published == old(published) && comment == None
      ensures !Text.AllSpace(data) && Handle(cfg, Text.Strip(data), env).Failure? ==>
        currentCmd == Zero && lastCommandTime == 0.0 && published == old(published) + [Zero] && comment == None
      ensures !Text.AllSpace(data) && Handle(cfg, Text.Strip(data), env).Success? ==>
        var c := Handle(cfg, Text.Strip(data), env).value;
        currentCmd == c.twist && lastCommandTime == now && published == old(published)
        && comment == (if c.comment == Some("") then None else c.comment)
    {
      var instruction := Text.Strip(data);
      if instruction == "" {
        return None;
      }
      var outcome := Handle(cfg, instruction, env);
      if outcome.Failure? {
        ApplyStop();
        return None;
      }
      currentCmd := outcome.value.twist;
      lastCommandTime := now;
      comment := if outcome.value.comment == Some("") then None else outcome.value.comment;
    }
  }

  /** What reaches the node while it spins. */
  datatype Event =
    | Instruction(data: string, at: real, env: Env)
    | Tick(at: real)
    | StopRequest

  /** `main`: start the node, dispatch the events `rospy.spin` delivers, one
      callback at a time, then stop the robot at shutdown. */
  method Run(cfg: Config, events: seq<Event>) returns (bridge: MotionBridge)
    ensures fresh(bridge) && bridge.Valid() && bridge.cfg == cfg
    ensures bridge.currentCmd == Zero && bridge.lastCommandTime == 0.0
    ensures |bridge.published| > 0 && bridge.published[|bridge.published| - 1] == Zero
  {
    bridge := new MotionBridge(cfg);
    for i := 0 to |events|
      invariant bridge.Valid() && bridge.cfg == cfg
    {
      match events[i]
      case Instruction(data, at, env) =>
        var _ := bridge.InstructionCallback(data, at, env);
      case Tick(at) =>
        bridge.TimerPublish(at);
      case StopRequest =>
        var _ := bridge.HandleStop();
    }
    bridge.ApplyStop();
  }
}
