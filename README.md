# llm_motion_bridge in Dafny

A model of the ROS node `llm_motion_bridge`. The node forwards a natural-language
instruction to a chat-completion service. It turns the JSON reply into a bounded
`geometry_msgs/Twist` velocity command and republishes that command on a timer
for as long as it is fresh. The model covers the node's safety filter:

- **`Motion`**: the command type, the per-axis clamp and the conversion of an
  untrusted decoded reply into a command (`_clamp`, `_to_twist`).
- **`Extractor`**: finding the reply's content in a chat-completion or flat
  response, and slicing the text from its first `{` to its last `}`
  (`_extract_twist`).
- **`Payload`**: the request record (`_build_payload`).
- **`Bridge`**: the command slot and its timestamp as a class (`LLMMotionBridge`),
  with the timer tick, the stop path, the stop service, the instruction callback
  and `main` with its shutdown stop. A ghost `published` sequence records every
  command sent to `/cmd_vel`.
- **`FloatClamp`**: `_clamp` over Python floats with NaN, for the finding below.
- **`Text`, `JsonValue`, `Wrappers`**: Python's `strip`, `find` and `rfind`, the
  decoded JSON values, and the result types.

Values are `real`. Times are `real` seconds since the ROS epoch. The code the
node calls but does not define is passed in as functions. An `Env` carries the
HTTP round trip, `json.loads`, `str()` of a non-string value and `float()` of a
string. Each callback is one atomic method, and `main`'s `rospy.spin` is a
sequence of events handled one at a time.

The object invariant `Valid()` says that the held command and every command
ever published respect the limits. Three axes are always zero: linear z,
angular x and angular y. Lateral motion is zero unless it is enabled. Every
axis lies within its limit, and a limit of zero or less pins that axis to zero.
Every method keeps this invariant.

Three behaviours of the code are worth stating:

- If `linear` or `angular` is not a mapping, the code raises. The instruction
  then falls to the stop path, like any other failure.
- The lateral value is passed to `float()` even when lateral motion is
  disabled. If `float()` rejects it (null, a list, a mapping, or a string
  that does not parse), the instruction fails.
- A stop leaves the zero command in the slot. So every tick after a stop
  publishes zero, not only the ticks older than the hold window.

## Model

| member | source | states |
|---|---|---|
| `Text.Strip` | src/llm_motion_bridge/scripts/llm_motion_bridge.py:87-88 | the result is the middle part of the input, only whitespace is removed and only at the ends, its first and last characters are not whitespace, and it is empty exactly when the input is all whitespace |
| `Text.Find` | src/llm_motion_bridge/scripts/llm_motion_bridge.py:137 | returns -1 exactly when the character is absent, otherwise an index holding it with no earlier occurrence |
| `Text.RFind` | src/llm_motion_bridge/scripts/llm_motion_bridge.py:138 | returns -1 exactly when the character is absent, otherwise an index holding it with no later occurrence |
| `JsonValue.Get` | src/llm_motion_bridge/scripts/llm_motion_bridge.py:128 | `get` succeeds exactly on a mapping and gives the stored value or the default |
| `Motion.ZeroWithinLimits` | src/llm_motion_bridge/scripts/llm_motion_bridge.py:176 | the zero command satisfies every set of limits |
| `Motion.Min` | src/llm_motion_bridge/scripts/llm_motion_bridge.py:170 | Python's `min(a, b)`: the second argument exactly when it is strictly smaller, otherwise the first; the result is the smaller of the two |
| `Motion.Max` | src/llm_motion_bridge/scripts/llm_motion_bridge.py:170 | Python's `max(a, b)`: the second argument exactly when it is strictly larger, otherwise the first; the result is the larger of the two |
| `Motion.Clamp` | src/llm_motion_bridge/scripts/llm_motion_bridge.py:167-170 | with a limit of zero or less the result is 0; otherwise the result is in [-limit, limit], equals the input exactly when the input is in range, and is the nearer bound when the input is out of range |
| `Motion.ClampIdempotent` | src/llm_motion_bridge/scripts/llm_motion_bridge.py:167-170 | clamping twice is clamping once |
| `Motion.ClampMonotone` | src/llm_motion_bridge/scripts/llm_motion_bridge.py:167-170 | clamping preserves the order of inputs |
| `Motion.FloatOf` | src/llm_motion_bridge/scripts/llm_motion_bridge.py:151-152 | `float()` keeps a number, turns true into 1.0 and false into 0.0, gives the parsed value of a string or fails when the string does not parse, and rejects null, lists and mappings |
| `Motion.AxisInput` | src/llm_motion_bridge/scripts/llm_motion_bridge.py:151-158 | a missing axis key reads as 0.0, a present one is `float()` of its value, and a group that is not a mapping fails |
| `Motion.GroupOf` | src/llm_motion_bridge/scripts/llm_motion_bridge.py:148-149 | a missing `linear` or `angular` entry reads as the empty mapping, and a present one as its value |
| `Motion.CommentOf` | src/llm_motion_bridge/scripts/llm_motion_bridge.py:160-164 | a remark exists exactly when `comment` is a string, and it is that string stripped |
| `Motion.ToTwist` | src/llm_motion_bridge/scripts/llm_motion_bridge.py:146-165 | a non-mapping input fails; otherwise the conversion succeeds exactly when all three axis values (x, y and angular z) convert, whatever the lateral flag; on success x and angular z are the clamped inputs, y is the clamped input when lateral motion is enabled and zero otherwise, a numeric axis value is clamped as it is, a missing key gives zero on that axis, the command is within the limits and the remark is the one `CommentOf` gives |
| `Motion.ToTwistOfReply` | src/llm_motion_bridge/scripts/llm_motion_bridge.py:151-158 | a reply of the prompted shape converts to the clamped x, the clamped y only when lateral motion is enabled, the clamped angular z, and zero elsewhere |
| `Motion.ToTwistPassesWithinLimits` | src/llm_motion_bridge/scripts/llm_motion_bridge.py:151-170 | values already within the limits pass through unchanged, with lateral motion enabled or not |
| `Motion.ToTwistOfEmptyGroups` | src/llm_motion_bridge/scripts/llm_motion_bridge.py:148-158 | a mapping without `linear` and `angular` is the zero command |
| `Motion.ToTwistRejectsBadLateral` | src/llm_motion_bridge/scripts/llm_motion_bridge.py:152-153 | for any input whose lateral value `float()` rejects, the conversion fails, whether or not lateral motion is enabled |
| `Motion.ToTwistRejectsNonMappingGroup` | src/llm_motion_bridge/scripts/llm_motion_bridge.py:148-151 | a `linear` or `angular` entry that is not a mapping fails the conversion |
| `Motion.ForwardIsClipped` | src/llm_motion_bridge/scripts/llm_motion_bridge.py:64-67 | under the default limits a forward request of 0.9 m/s becomes 0.6 m/s and nothing else moves |
| `FloatClamp.PyMin` | src/llm_motion_bridge/scripts/llm_motion_bridge.py:170 | `min(a, b)` over floats: the second argument only when it compares strictly smaller, so a NaN first argument is kept |
| `FloatClamp.PyMax` | src/llm_motion_bridge/scripts/llm_motion_bridge.py:170 | `max(a, b)` over floats: the second argument only when it compares strictly larger, so a NaN first argument is kept |
| `FloatClamp.ClampAsWritten` | src/llm_motion_bridge/scripts/llm_motion_bridge.py:167-170 | `_clamp` over Python floats agrees with `Motion.Clamp` on every number |
| `FloatClamp.ClampAsWrittenPassesNaN` | src/llm_motion_bridge/scripts/llm_motion_bridge.py:167-170 | on an enabled axis a NaN input comes out as NaN, which lies in no range |
| `FloatClamp.ClampChecked` | src/llm_motion_bridge/scripts/llm_motion_bridge.py:167-170 | the corrected clamp always yields a number within the axis range, agrees with the written clamp on numbers, and maps NaN to 0.0 |
| `Extractor.ContentOf` | src/llm_motion_bridge/scripts/llm_motion_bridge.py:126-131 | a response that is not a mapping fails; without `choices` the content is the flat `content` entry or the empty string; with `choices`, a non-list, empty or non-mapping first choice fails, otherwise the content is the message itself when it is not a mapping, its `content` entry, or the empty string |
| `Extractor.ContentOfCarried` | src/llm_motion_bridge/scripts/llm_motion_bridge.py:126-131 | any flat or chat response carrying a content, whatever its other entries, yields that content |
| `Extractor.ContentText` | src/llm_motion_bridge/scripts/llm_motion_bridge.py:136 | a string content is stripped as it is; any other value is `Codec.show` of it, stripped |
| `Extractor.Slice` | src/llm_motion_bridge/scripts/llm_motion_bridge.py:137-142 | the sliced text runs from the first `{` through the last `}`, and is empty when that `}` comes before that `{` |
| `Extractor.ParseEmbedded` | src/llm_motion_bridge/scripts/llm_motion_bridge.py:137-144 | fails with no-JSON when a brace is missing; otherwise succeeds exactly when the slice decodes, with the decoded value |
| `Extractor.ExtractTextContent` | src/llm_motion_bridge/scripts/llm_motion_bridge.py:136-144 | a response carrying a text content yields exactly the embedded-object parse of that text, stripped |
| `Extractor.ParseEmbeddedReversedBraces` | src/llm_motion_bridge/scripts/llm_motion_bridge.py:137-144 | when every `}` precedes every `{` the slice is empty, so the text is rejected by a decoder that rejects the empty string |
| `Extractor.ExtractTwist` | src/llm_motion_bridge/scripts/llm_motion_bridge.py:124-144 | a shape failure propagates, mapping content is returned unchanged, and any other content goes through the brace scan of its stripped text form |
| `Extractor.ExtractMappingContent` | src/llm_motion_bridge/scripts/llm_motion_bridge.py:133-134 | mapping content is returned unchanged, in either shape and whatever the other entries |
| `Extractor.ExtractWithoutBraces` | src/llm_motion_bridge/scripts/llm_motion_bridge.py:136-140 | a text lacking `{` or `}` is rejected as holding no JSON, in either shape |
| `Extractor.WrappedSlice` | src/llm_motion_bridge/scripts/llm_motion_bridge.py:136-142 | after stripping, the slice of prose wrapped around an object's text is exactly that object's text |
| `Extractor.StripDropsNothingElse` | src/llm_motion_bridge/scripts/llm_motion_bridge.py:136-139 | stripping cannot introduce a brace the text lacked |
| `Extractor.StripWindow` | src/llm_motion_bridge/scripts/llm_motion_bridge.py:136 | stripping keeps every part of the text that starts and ends with a non-space character |
| `Extractor.SliceOfWindow` | src/llm_motion_bridge/scripts/llm_motion_bridge.py:137-142 | inside any window holding both outermost braces of a text, the slice is the text from its first `{` through its last `}` |
| `Extractor.SliceOfStripped` | src/llm_motion_bridge/scripts/llm_motion_bridge.py:136-142 | the slice of the stripped text runs from the text's first `{` through its last `}` |
| `Extractor.ExtractWrapped` | src/llm_motion_bridge/scripts/llm_motion_bridge.py:136-142 | round trip: a decodable object text wrapped in brace-free prose extracts to the decoded object, for any response carrying that text in either shape |
| `Payload.BuildPayload` | src/llm_motion_bridge/scripts/llm_motion_bridge.py:111-122 | the request has exactly the keys model, messages and temperature, plus `response_format` exactly when a format is configured |
| `Payload.ReadBuiltPayload` | src/llm_motion_bridge/scripts/llm_motion_bridge.py:111-122 | reading the request back gives the configured model and temperature, the system prompt then the instruction, and the format hint exactly when one is set |
| `Bridge.Handle` | src/llm_motion_bridge/scripts/llm_motion_bridge.py:93-98 | a failed request fails; otherwise a failed extraction fails with its fault and a successful one gives exactly the conversion of the extracted data; a success is within the limits |
| `Bridge.HandleWrappedReply` | src/llm_motion_bridge/scripts/llm_motion_bridge.py:93-98 | end to end: any response, in either shape, whose text wraps a reply of the prompted shape yields the clamped axes of that reply |
| `Bridge.TickOutput` | src/llm_motion_bridge/scripts/llm_motion_bridge.py:174-178 | an age at most the hold window (equality included) publishes the held command; an older one publishes zero; the output is zero exactly when the command is stale or is zero |
| `Bridge.TickWithinLimits` | src/llm_motion_bridge/scripts/llm_motion_bridge.py:172-179 | a tick never publishes a command outside the limits when the held one is within them |
| `Bridge.TickAfterStop` | src/llm_motion_bridge/scripts/llm_motion_bridge.py:181-185 | after a stop every tick publishes zero, and any tick later than the hold window publishes zero whatever is held |
| `Bridge.MotionBridge.constructor` | src/llm_motion_bridge/scripts/llm_motion_bridge.py:76-78 | the node starts with the zero command at the epoch, nothing published, and the invariant |
| `Bridge.MotionBridge.TimerPublish` | src/llm_motion_bridge/scripts/llm_motion_bridge.py:172-179 | appends exactly the tick's output to what was published and changes nothing else |
| `Bridge.MotionBridge.ApplyStop` | src/llm_motion_bridge/scripts/llm_motion_bridge.py:181-185 | the slot becomes zero at the epoch and exactly one zero command is published |
| `Bridge.MotionBridge.HandleStop` | src/llm_motion_bridge/scripts/llm_motion_bridge.py:187-189 | reports success with its fixed message and has the effect of a stop |
| `Bridge.MotionBridge.InstructionCallback` | src/llm_motion_bridge/scripts/llm_motion_bridge.py:86-109 | a blank instruction changes nothing; a failure in the request, extraction or conversion is a stop; a success sets command and timestamp together and publishes nothing; the logged remark is a non-empty stripped comment |
| `Bridge.Run` | src/llm_motion_bridge/scripts/llm_motion_bridge.py:192-196 | after any run of callbacks, shutdown leaves the zero command at the epoch, the last command published is zero, and everything published stayed within the limits |

## Left out

- Parameter loading, the API key and its environment fallback, endpoint assembly with `urljoin`, and the session headers (lines 32-73) are configuration I/O. `Bridge.DefaultConfig` records only the default values.
- The HTTP call, `raise_for_status` and `response.json()` are one function of the request in `Env.transport`. Any exception from them is `None`.
- `json.loads` is the function `Codec.decode`, and `str()` of a non-string content value is `Codec.show`. Neither is interpreted. So for a text whose braces are reversed (`"} {"`), the model passes the empty slice to `decode` and does not itself promise the failure `json.loads("")` raises; `Extractor.ParseEmbeddedReversedBraces` shows the rejection for any decoder that rejects the empty string.
- Motion.FloatOf: Python's `float()` of a string is the function `parseFloat`. Floating-point rounding, NaN, infinities and the overflow of huge integers are not modelled, because values are `real`. So `Valid()` and `WithinLimits` hold for the real-valued model only. The node itself can publish NaN: `json.loads` accepts the `NaN` literal, `float("nan")` parses, and `_clamp` passes NaN through (see Findings).
- Payload.BuildPayload: Python dictionaries keep insertion order, but the model's maps do not. Key order has no meaning in the JSON request.
- Publishers, subscribers, the service registration, `rospy.Timer` scheduling, logging and `rospy.spin` are not modelled. Ticks, instructions and stop requests are explicit calls, and publication is the ghost `published` sequence. The publish rate is not modelled.
- Bridge.MotionBridge.TimerPublish: the source publishes after releasing the lock (line 179). A tick that read a fresh command can therefore publish it after a concurrent stop's zero, so the sink sees the zero and then the old command. The method makes the read and the publish one step, so this reordering is not captured.
- Bridge.MotionBridge.ApplyStop: the zero is published after the lock is released (line 185), so the same interleaving with a tick is not captured. `TickAfterStop` and `HandleStop` promise zero after a stop only for the model's sequential order.
- The `threading.Lock` is not modelled. Each callback, including its publish outside the lock, is one atomic method. Overlapping instruction callbacks, where the last to finish wins, are not modelled.
- Bridge.MotionBridge.InstructionCallback: `now` is the time at which the callback's final state update runs, not a clock reading.

## Findings

| source | as written | input that shows it | evidently intended | confidence | as-written member | corrected member |
|---|---|---|---|---|---|---|
| src/llm_motion_bridge/scripts/llm_motion_bridge.py:167-170 | `max(min(value, limit), -limit)` compares with `<`/`>`, which are false for NaN, so NaN is returned unchanged | a reply `{"linear": {"x": NaN}}` with `max_linear_speed` 0.6: `_clamp(nan, 0.6)` returns nan and the node publishes it | the clamped value is a number in [-limit, limit], for example 0.0 for NaN | not executed; read from the source | `FloatClamp.ClampAsWrittenPassesNaN` | `FloatClamp.ClampChecked` |

The rest of the model works on `real`, where there is no NaN. There `Motion.Clamp` is the corrected clamp: `FloatClamp.ClampAsWritten` and `FloatClamp.ClampChecked` both equal it on every number.
