/** The velocity command and the clamp that turns an untrusted decoded reply
    into a bounded command (`_clamp` and `_to_twist`). */
module Motion {
  import opened Wrappers
  import opened JsonValue
  import Text

  datatype Vector3 = Vector3(x: real, y: real, z: real)

  /** A `geometry_msgs/Twist`: linear and angular velocity. */
  datatype Twist = Twist(linear: Vector3, angular: Vector3)

  /** `Twist()`: every component zero. */
  const Zero: Twist := Twist(Vector3(0.0, 0.0, 0.0), Vector3(0.0, 0.0, 0.0))

  /** The speed limits read at start-up (`max_linear_speed`, `max_side_speed`,
      `max_angular_speed`, `allow_y_motion`). */
  datatype Limits = Limits(maxLinear: real, maxSide: real, maxAngular: real, allowY: bool)

  /** A converted reply: the command and the optional remark that is logged. */
  datatype Converted = Converted(twist: Twist, comment: Option<string>)

  /** What a value on one axis may be: zero when the axis is disabled by a limit
      that is not positive, otherwise inside the closed interval [-limit, limit]. */
  predicate AxisWithin(v: real, limit: real) {
    if limit <= 0.0 then v == 0.0 else -limit <= v <= limit
  }

  /** The command invariant: the three axes the platform does not use are zero,
      lateral motion is zero unless it is enabled, and every axis obeys its limit. */
  predicate WithinLimits(l: Limits, t: Twist) {
    && t.linear.z == 0.0 && t.angular.x == 0.0 && t.angular.y == 0.0
    && AxisWithin(t.linear.x, l.maxLinear)
    && (if l.allowY then AxisWithin(t.linear.y, l.maxSide) else t.linear.y == 0.0)
    && AxisWithin(t.angular.z, l.maxAngular)
  }

  lemma ZeroWithinLimits(l: Limits)
    ensures WithinLimits(l, Zero)
  {
  }

  /** Python's two-argument `min` and `max`: the first argument unless the second
      compares smaller (larger). */
  function Min(a: real, b: real): (r: real)
    ensures b < a ==> r == b
    ensures !(b < a) ==> r == a
    ensures r <= a && r <= b && (r == a || r == b)
  {
    if b < a then b else a
  }

  function Max(a: real, b: real): (r: real)
    ensures b > a ==> r == b
    ensures !(b > a) ==> r == a
    ensures r >= a && r >= b && (r == a || r == b)
  {
    if b > a then b else a
  }

  /** `_clamp(value, limit)`: saturation of one axis. */
  function Clamp(value: real, limit: real): (r: real)
    ensures AxisWithin(r, limit)
    ensures limit <= 0.0 ==> r == 0.0
    ensures r == value <==> AxisWithin(value, limit)
    ensures limit > 0.0 && value > limit ==> r == limit
    ensures limit > 0.0 && value < -limit ==> r == -limit
  {
    if limit <= 0.0 then 0.0 else Max(Min(value, limit), -limit)
  }

  /** Clamping a clamped value changes nothing. */
  lemma ClampIdempotent(value: real, limit: real)
    ensures Clamp(Clamp(value, limit), limit) == Clamp(value, limit)
  {
  }

  /** Clamping keeps the order of values. */
  lemma ClampMonotone(a: real, b: real, limit: real)
    requires a <= b
    ensures Clamp(a, limit) <= Clamp(b, limit)
  {
  }

  /** Python's `float(v)` on a decoded JSON value; a string goes through the
      float parser given as `parse`. */
  function FloatOf(v: Json, parse: string -> Option<real>): (r: Result<real, Fault>)
    ensures v.JNum? ==> r == Success(v.n)
    ensures v == JBool(true) ==> r == Success(1.0)
    ensures v == JBool(false) ==> r == Success(0.0)
    ensures v.JStr? && parse(v.s).Some? ==> r == Success(parse(v.s).value)
    ensures v.JStr? && parse(v.s).None? ==> r == Failure(BadNumber)
    ensures v.JNull? || v.JArr? || v.JObj? ==> r == Failure(BadNumber)
  {
    match v
    case JNum(n) => Success(n)
    case JBool(b) => Success(if b then 1.0 else 0.0)
    case JStr(s) => if parse(s).Some? then Success(parse(s).value) else Failure(BadNumber)
    case _ => Failure(BadNumber)
  }

  /** `float(group.get(key, 0.0))`. */
  function AxisInput(group: Json, key: string, parse: string -> Option<real>): (r: Result<real, Fault>)
    ensures group.JObj? && key !in group.fields ==> r == Success(0.0)
    ensures group.JObj? && key in group.fields ==> r == FloatOf(group.fields[key], parse)
    ensures !group.JObj? ==> r == Failure(BadShape)
  {
    var v :- Get(group, key, JNum(0.0));
    FloatOf(v, parse)
  }

  /** `data.get(key, {})` on a mapping. */
  function GroupOf(data: map<string, Json>, key: string): (r: Json)
    ensures key in data ==> r == data[key]
    ensures key !in data ==> r == EmptyObject
  {
    if key in data then data[key] else EmptyObject
  }

  /** The remark: the stripped text when `comment` is a string, nothing otherwise. */
  function CommentOf(data: map<string, Json>): (r: Option<string>)
    ensures r.Some? <==> "comment" in data && data["comment"].JStr?
    ensures r.Some? ==> r.value == Text.Strip(data["comment"].s)
  {
    if "comment" in data && data["comment"].JStr? then Some(Text.Strip(data["comment"].s)) else None
  }

  /** `_to_twist(data)`.  Failure stands for the exception the Python code raises
      when a value has the wrong type: `data`, `linear` or `angular` not a mapping,
      or an axis value `float()` rejects.  The lateral value is read and converted
      even when lateral motion is disabled. */
  function ToTwist(data: Json, limits: Limits, parse: string -> Option<real>): (r: Result<Converted, Fault>)
    ensures !data.JObj? ==> r == Failure(BadShape)
    ensures data.JObj? ==>
      (r.Success? <==>
        && AxisInput(GroupOf(data.fields, "linear"), "x", parse).Success?
        && AxisInput(GroupOf(data.fields, "linear"), "y", parse).Success?
        && AxisInput(GroupOf(data.fields, "angular"), "z", parse).Success?)
    ensures r.Success? ==> data.JObj? && WithinLimits(limits, r.value.twist)
    ensures r.Success? ==>
      r.value.twist.linear.x == Clamp(AxisInput(GroupOf(data.fields, "linear"), "x", parse).value, limits.maxLinear)
    ensures r.Success? ==>
      r.value.twist.linear.y ==
        if limits.allowY then Clamp(AxisInput(GroupOf(data.fields, "linear"), "y", parse).value, limits.maxSide) else 0.0
    ensures r.Success? ==>
      r.value.twist.angular.z == Clamp(AxisInput(GroupOf(data.fields, "angular"), "z", parse).value, limits.maxAngular)
    ensures r.Success? && HasAxis(data, "linear", "x") && data.fields["linear"].fields["x"].JNum? ==>
      r.value.twist.linear.x == Clamp(data.fields["linear"].fields["x"].n, limits.maxLinear)
    ensures r.Success? && limits.allowY && HasAxis(data, "linear", "y") && data.fields["linear"].fields["y"].JNum? ==>
      r.value.twist.linear.y == Clamp(data.fields["linear"].fields["y"].n, limits.maxSide)
    ensures r.Success? && HasAxis(data, "angular", "z") && data.fields["angular"].fields["z"].JNum? ==>
      r.value.twist.angular.z == Clamp(data.fields["angular"].fields["z"].n, limits.maxAngular)
    ensures r.Success? && !HasAxis(data, "linear", "x") ==> r.value.twist.linear.x == 0.0
    ensures r.Success? && !HasAxis(data, "linear", "y") ==> r.value.twist.linear.y == 0.0
    ensures r.Success? && !HasAxis(data, "angular", "z") ==> r.value.twist.angular.z == 0.0
    ensures r.Success? ==> r.value.comment == CommentOf(data.fields)
  {
    match data
    case JObj(d) =>
      var linear := GroupOf(d, "linear");
      var angular := GroupOf(d, "angular");
      var x :- AxisInput(linear, "x", parse);
      var yTarget :- AxisInput(linear, "y", parse);
      var z :- AxisInput(angular, "z", parse);
      var twist := Twist(
        Vector3(Clamp(x, limits.maxLinear),
                if limits.allowY then Clamp(yTarget, limits.maxSide) else 0.0,
                0.0),
        Vector3(0.0, 0.0, Clamp(z, limits.maxAngular)));
      Success(Converted(twist, CommentOf(d)))
    case _ => Failure(BadShape)
  }

  /** Whether the reply names axis `key` inside group `group`. */
  predicate HasAxis(data: Json, group: string, key: string) {
    data.JObj? && group in data.fields && data.fields[group].JObj? && key in data.fields[group].fields
  }

  /** The reply shape the system prompt asks for, with numbers on every axis. */
  function Reply(lx: real, ly: real, az: real): Json {
    JObj(map[
      "linear" := JObj(map["x" := JNum(lx), "y" := JNum(ly), "z" := JNum(0.0)]),
      "angular" := JObj(map["x" := JNum(0.0), "y" := JNum(0.0), "z" := JNum(az)])])
  }

  /** A well-formed reply converts to the clamped axes, with lateral motion dropped
      unless it is enabled and the other axes zero. */
  lemma ToTwistOfReply(lx: real, ly: real, az: real, limits: Limits, parse: string -> Option<real>)
    ensures ToTwist(Reply(lx, ly, az), limits, parse) == Success(Converted(
      Twist(Vector3(Clamp(lx, limits.maxLinear), if limits.allowY then Clamp(ly, limits.maxSide) else 0.0, 0.0),
            Vector3(0.0, 0.0, Clamp(az, limits.maxAngular))),
      None))
  {
  }

  /** A reply whose values already lie within enabled limits passes through unchanged. */
  lemma ToTwistPassesWithinLimits(lx: real, ly: real, az: real, limits: Limits, parse: string -> Option<real>)
    requires WithinLimits(limits, Twist(Vector3(lx, ly, 0.0), Vector3(0.0, 0.0, az)))
    ensures ToTwist(Reply(lx, ly, az), limits, parse).Success?
    ensures ToTwist(Reply(lx, ly, az), limits, parse).value.twist == Twist(Vector3(lx, ly, 0.0), Vector3(0.0, 0.0, az))
  {
  }

  /** A mapping without `linear` and `angular` is the zero command, keeping its remark. */
  lemma ToTwistOfEmptyGroups(data: map<string, Json>, limits: Limits, parse: string -> Option<real>)
    requires "linear" !in data && "angular" !in data
    ensures ToTwist(JObj(data), limits, parse) == Success(Converted(Zero, CommentOf(data)))
  {
  }

  /** A lateral value `float()` rejects makes the conversion fail whatever the
      lateral flag, because the code converts it before looking at the flag. */
  lemma ToTwistRejectsBadLateral(d: map<string, Json>, limits: Limits, parse: string -> Option<real>)
    requires GroupOf(d, "linear").JObj? && "y" in GroupOf(d, "linear").fields
    requires FloatOf(GroupOf(d, "linear").fields["y"], parse).Failure?
    ensures ToTwist(JObj(d), limits, parse).Failure?
  {
  }

  /** A `linear` or `angular` entry that is not a mapping makes the conversion fail. */
  lemma ToTwistRejectsNonMappingGroup(data: map<string, Json>, limits: Limits, parse: string -> Option<real>)
    requires ("linear" in data && !data["linear"].JObj?) || ("angular" in data && !data["angular"].JObj?)
    ensures ToTwist(JObj(data), limits, parse).Failure?
  {
  }

  /** The forward-motion scenario: 0.9 m/s asked for under the default 0.6 m/s limit
      is clipped to 0.6. */
  lemma ForwardIsClipped(parse: string -> Option<real>)
    ensures ToTwist(Reply(0.9, 0.0, 0.0), Limits(0.6, 0.2, 1.2, false), parse)
      == Success(Converted(Twist(Vector3(0.6, 0.0, 0.0), Vector3(0.0, 0.0, 0.0)), None))
  {
  }
}
