/** `_extract_twist`: locate the reply's content in an OpenAI-style or a flat
    response and recover the JSON object inside it. */
module Extractor {
  import opened Wrappers
  import opened JsonValue
  import opened Text

  /** The two decoders the extractor calls but does not define: Python's `json.loads`
      (`decode`, which may fail) and `str()` of a content value that is neither a
      string nor a mapping (`show`). */
  datatype Codec = Codec(decode: string -> Option<Json>, show: Json -> string)

  /** The content field: `choices[0].message.content` when the response has
      `choices` (a non-mapping message is itself the content), otherwise the flat
      `content`; a missing field is the empty string. */
  function ContentOf(response: Json): (r: Result<Json, Fault>)
    ensures !response.JObj? ==> r == Failure(BadShape)
    ensures response.JObj? && "choices" !in response.fields ==>
      r == Success(if "content" in response.fields then response.fields["content"] else JStr(""))
    ensures response.JObj? && "choices" in response.fields ==>
      var choices := response.fields["choices"];
      && (!choices.JArr? || |choices.items| == 0 || !choices.items[0].JObj? ==> r == Failure(BadShape))
      && (choices.JArr? && |choices.items| > 0 && choices.items[0].JObj? ==>
            var message := if "message" in choices.items[0].fields then choices.items[0].fields["message"] else EmptyObject;
            r == Success(if !message.JObj? then message
                         else if "content" in message.fields then message.fields["content"] else JStr("")))
  {
    match response
    case JObj(fields) =>
      if "choices" in fields then
        match fields["choices"]
        case JArr(choices) =>
          if |choices| == 0 then Failure(BadShape)
          else
            var message :- Get(choices[0], "message", EmptyObject);
            if message.JObj? then
              Success(if "content" in message.fields then message.fields["content"] else JStr(""))
            else Success(message)
        case _ => Failure(BadShape)
      else
        Success(if "content" in fields then fields["content"] else JStr(""))
    case _ => Failure(BadShape)
  }

  /** The text form of the content, stripped. */
  function ContentText(content: Json, codec: Codec): (r: string)
    ensures content.JStr? ==> r == Strip(content.s)
    ensures !content.JStr? ==> r == Strip(codec.show(content))
  {
    Strip(if content.JStr? then content.s else codec.show(content))
  }

  /** `text[text.find("{") : text.rfind("}") + 1]` for a text holding both braces,
      stated by the defining properties of the two positions; Python's slice is
      empty when the last `}` comes before the first `{`. */
  function Slice(text: string): (r: string)
    requires '{' in text && '}' in text
    ensures forall i, j ::
      0 <= i < |text| && 0 <= j < |text| && text[i] == '{' && text[j] == '}'
      && (forall k :: 0 <= k < i ==> text[k] != '{')
      && (forall k :: j < k < |text| ==> text[k] != '}')
      ==> r == (if j < i then "" else text[i..j + 1])
  {
    var start := Find(text, '{');
    var end := RFind(text, '}');
    if end < start then "" else text[start..end + 1]
  }

  /** Parse the part of `text` from its first `{` to its last `}`. */
  function ParseEmbedded(text: string, codec: Codec): (r: Result<Json, Fault>)
    ensures '{' !in text || '}' !in text ==> r == Failure(NoJsonContent)
    ensures '{' in text && '}' in text ==>
      r == if codec.decode(Slice(text)).Some? then Success(codec.decode(Slice(text)).value)
           else Failure(BadJson(text))
  {
    var start := Find(text, '{');
    var end := RFind(text, '}');
    if start == -1 || end == -1 then Failure(NoJsonContent)
    else
      var parsed := codec.decode(Slice(text));
      if parsed.Some? then Success(parsed.value) else Failure(BadJson(text))
  }

  /** When every `}` of the text comes before every `{`, the slice is empty, so the
      text is rejected by any decoder that rejects the empty string, as
      `json.loads` does. */
  lemma ParseEmbeddedReversedBraces(text: string, codec: Codec)
    requires '{' in text && '}' in text
    requires forall i, j :: 0 <= i < |text| && 0 <= j < |text| && text[i] == '{' && text[j] == '}' ==> j < i
    requires codec.decode("") == None
    ensures ParseEmbedded(text, codec) == Failure(BadJson(text))
  {
    var i := Find(text, '{');
    var j := RFind(text, '}');
    assert j < i;
    assert Slice(text) == "";
  }

  /** `_extract_twist(response)`: a mapping content is returned as it is; any other
      content is read as text and the JSON object embedded in it is decoded. */
  function ExtractTwist(response: Json, codec: Codec): (r: Result<Json, Fault>)
    ensures ContentOf(response).Failure? ==> r == Failure(BadShape)
    ensures ContentOf(response).Success? && ContentOf(response).value.JObj? ==> r == ContentOf(response)
    ensures ContentOf(response).Success? && !ContentOf(response).value.JObj? ==>
      r == ParseEmbedded(ContentText(ContentOf(response).value, codec), codec)
  {
    var content :- ContentOf(response);
    if content.JObj? then Success(content)
    else ParseEmbedded(ContentText(content, codec), codec)
  }

  /** A response that carries `content` in either shape, whatever other entries
      it has: a flat response without `choices`, or a chat completion whose first
      choice holds a `message` mapping with that content. */
  predicate CarriesContent(response: Json, content: Json) {
    response.JObj? &&
    if "choices" in response.fields then
      var choices := response.fields["choices"];
      && choices.JArr? && |choices.items| > 0 && choices.items[0].JObj?
      && "message" in choices.items[0].fields
      && choices.items[0].fields["message"].JObj?
      && "content" in choices.items[0].fields["message"].fields
      && choices.items[0].fields["message"].fields["content"] == content
    else
      "content" in response.fields && response.fields["content"] == content
  }

  /** Both shapes yield the content they carry. */
  lemma ContentOfCarried(response: Json, content: Json)
    requires CarriesContent(response, content)
    ensures ContentOf(response) == Success(content)
  {
  }

  /** Content that is already a mapping is returned unchanged. */
  lemma ExtractMappingContent(response: Json, m: map<string, Json>, codec: Codec)
    requires CarriesContent(response, JObj(m))
    ensures ExtractTwist(response, codec) == Success(JObj(m))
  {
    ContentOfCarried(response, JObj(m));
  }

  /** A reply text without an opening or a closing brace is rejected. */
  lemma ExtractWithoutBraces(response: Json, t: string, codec: Codec)
    requires CarriesContent(response, JStr(t))
    requires '{' !in t || '}' !in t
    ensures ExtractTwist(response, codec) == Failure(NoJsonContent)
  {
    ContentOfCarried(response, JStr(t));
    if '{' !in t {
      StripDropsNothingElse(t, '{');
    } else {
      StripDropsNothingElse(t, '}');
    }
    assert ContentText(JStr(t), codec) == Strip(t);
  }

  /** Every character of the stripped text occurs in the text. */
  lemma StripDropsNothingElse(t: string, c: char)
    requires c !in t
    ensures c !in Strip(t)
  {
  }

  /** Round trip: a reply whose text is an encoded object, wrapped in prose that
      has no `{` before it and no `}` after it, yields that object. */
  lemma ExtractWrapped(response: Json, pre: string, body: string, post: string, obj: Json, codec: Codec)
    requires CarriesContent(response, JStr(pre + body + post))
    requires '{' !in pre && '}' !in post
    requires |body| >= 2 && body[0] == '{' && body[|body| - 1] == '}'
    requires codec.decode(body) == Some(obj)
    ensures ExtractTwist(response, codec) == Success(obj)
  {
    var s := pre + body + post;
    ExtractTextContent(response, s, codec);
    WrappedSlice(pre, body, post);
  }

  /** A text content is stripped and its embedded object decoded. */
  lemma ExtractTextContent(response: Json, t: string, codec: Codec)
    requires CarriesContent(response, JStr(t))
    ensures ExtractTwist(response, codec) == ParseEmbedded(Strip(t), codec)
  {
    ContentOfCarried(response, JStr(t));
  }

  /** Stripping the surrounding whitespace does not move the outermost braces
      relative to each other: the slice is exactly the wrapped object's text. */
  lemma WrappedSlice(pre: string, body: string, post: string)
    requires '{' !in pre && '}' !in post
    requires |body| >= 2 && body[0] == '{' && body[|body| - 1] == '}'
    ensures '{' in Strip(pre + body + post) && '}' in Strip(pre + body + post)
    ensures Slice(Strip(pre + body + post)) == body
  {
    var s := pre + body + post;
    var p, q := |pre|, |pre| + |body|;
    assert s[p] == body[0];
    assert s[q - 1] == body[|body| - 1];
    forall k | 0 <= k < p ensures s[k] != '{' {
      assert s[k] == pre[k];
    }
    forall k | q <= k < |s| ensures s[k] != '}' {
      assert s[k] == post[k - q];
    }
    assert s[p..q] == body;
    SliceOfStripped(s, p, q);
  }

  /** When the first `{` of a text is at `p` and its last `}` at `q - 1`, the slice
      of the stripped text is `s[p..q]`. */
  lemma SliceOfStripped(s: string, p: nat, q: nat)
    requires p < q <= |s| && s[p] == '{' && s[q - 1] == '}'
    requires forall k :: 0 <= k < p ==> s[k] != '{'
    requires forall k :: q <= k < |s| ==> s[k] != '}'
    ensures '{' in Strip(s) && '}' in Strip(s)
    ensures Slice(Strip(s)) == s[p..q]
  {
    StripWindow(s, p, q);
    SliceOfWindow(s, Strip(s), Lead(s), p, q);
  }

  /** The same for any window `text == s[a..a + |text|]` that contains both braces. */
  lemma SliceOfWindow(s: string, text: string, a: nat, p: nat, q: nat)
    requires a <= p < q <= a + |text| <= |s|
    requires forall k :: 0 <= k < |text| ==> text[k] == s[a + k]
    requires s[p] == '{' && s[q - 1] == '}'
    requires forall k :: 0 <= k < p ==> s[k] != '{'
    requires forall k :: q <= k < |s| ==> s[k] != '}'
    ensures '{' in text && '}' in text
    ensures Slice(text) == s[p..q]
  {
    var i, j := p - a, q - 1 - a;
    assert text[i] == '{';
    assert text[j] == '}';
    forall k | 0 <= k < i ensures text[k] != '{' {
      assert text[k] == s[a + k];
    }
    forall k | j < k < |text| ensures text[k] != '}' {
      assert text[k] == s[a + k];
    }
    assert text[i..j + 1] == s[p..q];
  }

  /** Stripping keeps every part of a text that starts and ends with a
      non-space character. */
  lemma StripWindow(s: string, lo: nat, hi: nat)
    requires lo < hi <= |s| && !IsSpace(s[lo]) && !IsSpace(s[hi - 1])
    ensures Lead(s) <= lo && hi <= Lead(s) + |Strip(s)|
  {
  }
}
