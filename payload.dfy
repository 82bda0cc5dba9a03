/** `_build_payload`: the chat-completion request sent for one instruction. */
module Payload {
  import opened Wrappers
  import opened JsonValue

  /** The request settings read at start-up: `model`, `temperature`,
      `system_prompt` and `response_format`. */
  datatype PromptConfig = PromptConfig(model: string, temperature: real, systemPrompt: string, responseFormat: string)

  /** The system prompt used when none is configured. */
  const DefaultSystemPrompt: string :=
    "You control a mobile robot. Given an instruction, reply with JSON using the schema "
    + "{\"linear\": {\"x\": <float>, \"y\": <float>, \"z\": 0.0}, \"angular\": {\"x\": 0.0, \"y\": 0.0, \"z\": <float>}, "
    + "\"comment\": \"<optional short remark>\"}. Values represent velocities in m/s and rad/s. "
    + "Stay within the requested speed limits and do not return any non-JSON text."

  const DefaultPromptConfig: PromptConfig := PromptConfig("gpt-4.1-mini", 0.1, DefaultSystemPrompt, "json_object")

  function Message(role: string, content: string): Json {
    JObj(map["role" := JStr(role), "content" := JStr(content)])
  }

  function BuildPayload(cfg: PromptConfig, instruction: string): (p: Json)
    ensures p.JObj?
    ensures "response_format" in p.fields <==> cfg.responseFormat != ""
    ensures p.fields.Keys == {"model", "messages", "temperature"} + (if cfg.responseFormat != "" then {"response_format"} else {})
  {
    var base := map[
      "model" := JStr(cfg.model),
      "messages" := JArr([Message("system", cfg.systemPrompt), Message("user", instruction)]),
      "temperature" := JNum(cfg.temperature)];
    if cfg.responseFormat != "" then JObj(base["response_format" := JObj(map["type" := JStr(cfg.responseFormat)])])
    else JObj(base)
  }

  /** What a chat-completion service reads from a request. */
  datatype Request = Request(model: string, system: string, user: string, temperature: real, format: Option<string>)

  function StringAt(obj: Json, key: string): Option<string> {
    if obj.JObj? && key in obj.fields && obj.fields[key].JStr? then Some(obj.fields[key].s) else None
  }

  /** The content of a message with the given role. */
  function MessageContent(m: Json, role: string): Option<string> {
    if StringAt(m, "role") == Some(role) then StringAt(m, "content") else None
  }

  /** Reads a request: exactly a system message followed by a user message, a
      model, a number for the temperature and an optional format of the form
      `{"type": ...}`. */
  function ReadRequest(p: Json): Option<Request> {
    if !p.JObj? || !("messages" in p.fields && p.fields["messages"].JArr?) then None
    else
      var msgs := p.fields["messages"].items;
      var model := StringAt(p, "model");
      var format :=
        if "response_format" in p.fields then
          (var t := StringAt(p.fields["response_format"], "type"); if t.Some? then Some(Some(t.value)) else None)
        else Some(None);
      if |msgs| != 2 || model.None? || format.None?
         || !("temperature" in p.fields && p.fields["temperature"].JNum?) then None
      else
        var system := MessageContent(msgs[0], "system");
        var user := MessageContent(msgs[1], "user");
        if system.None? || user.None? then None
        else Some(Request(model.value, system.value, user.value, p.fields["temperature"].n, format.value))
  }

  /** The request read back is the configured model and temperature, the system
      prompt then the instruction, and the format hint exactly when one is set. */
  lemma ReadBuiltPayload(cfg: PromptConfig, instruction: string)
    ensures ReadRequest(BuildPayload(cfg, instruction)) == Some(Request(
      cfg.model, cfg.systemPrompt, instruction, cfg.temperature,
      if cfg.responseFormat == "" then None else Some(cfg.responseFormat)))
  {
  }
}
