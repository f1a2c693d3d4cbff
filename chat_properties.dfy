/** Properties of the `/chat` handler as a whole: the order of its checks,
    its defaults, its boundary values, what reaches generation, and the
    scenarios the service is expected to answer. */
module ChatProperties {
  import opened Outcomes
  import opened PyStr
  import opened Json
  import opened ChatTemplate
  import opened ChatApp

  /** A request that fails validation gets the same reply whatever the state
      of the host and whatever generation would do: generation is never
      reached. */
  lemma RejectionSkipsGeneration(data: JsonValue,
                                 m1: Option<ModelHandle>, t1: Option<TokenizerHandle>, run1: Inference,
                                 m2: Option<ModelHandle>, t2: Option<TokenizerHandle>, run2: Inference)
    requires !Acceptable(data)
    ensures Chat(data, m1, t1, run1) == Chat(data, m2, t2, run2)
    ensures !Chat(data, m1, t1, run1).Success?
  {
  }

  /** A valid request to a host whose model or tokenizer is unset gets the
      500 reply carrying the "not loaded" error. */
  lemma UnloadedHostAnswers500(data: JsonValue, m: Option<ModelHandle>, t: Option<TokenizerHandle>, run: Inference)
    requires Acceptable(data) && (m.None? || t.None?)
    ensures Chat(data, m, t, run) == ServerError(InternalError + NotLoaded)
    ensures Chat(data, m, t, run).Status() == 500
  {
  }

  /** Every successful reply holds a response with neither marker and no
      surrounding whitespace, and echoes the parameters used. */
  lemma SuccessfulReplyIsClean(data: JsonValue, m: Option<ModelHandle>, t: Option<TokenizerHandle>, run: Inference)
    requires Chat(data, m, t, run).Success?
    ensures var b := Chat(data, m, t, run).body;
      && !Contains(b.response, AssistantOpen) && !Contains(b.response, TurnEnd)
      && Strip(b.response) == b.response
      && b.parameters == ParamsOf(data.fields)
  {
    var v := Validate(data);
    var g := GenerateResult(m, t, v.message, v.params, run);
    assert g.Ok?;
    assert Chat(data, m, t, run).body.response == g.value;
    StripOfStripped(g.value);
  }

  /** When the decoded output is the prompt followed by a generated text with
      no markers, the reply carries that text stripped. */
  lemma ReplyCarriesGeneratedText(data: JsonValue, m: ModelHandle, t: TokenizerHandle, run: Inference, generated: string)
    requires Acceptable(data)
    requires !Contains(generated, AssistantOpen) && !Contains(generated, TurnEnd)
    requires run(m, t, Format(data.fields["message"].s), ParamsOf(data.fields)) == Ok(Format(data.fields["message"].s) + generated)
    ensures Chat(data, Some(m), Some(t), run) == Success(ChatBody(Strip(generated), ModelPath, ParamsOf(data.fields)))
  {
    ExtractAfterPrompt(data.fields["message"].s, generated);
  }

  /** A non-blank string message. */
  lemma NonBlankWitness(s: string, k: nat)
    requires k < |s| && !IsSpace(s[k])
    ensures NonBlank(JString(s))
  {
  }

  /** The temperature check: with a good message, a float temperature is
      refused with the temperature error exactly when it lies outside (0, 2.0]. */
  lemma TemperatureChecked(fields: map<string, JsonValue>, temperature: real)
    requires "message" in fields && NonBlank(fields["message"])
    ensures var v := Validate(JObject(fields["temperature" := JFloat(temperature)]));
      v == Rejected(BadRequest(TemperatureRange)) <==> !(0.0 < temperature <= 2.0)
  {
    var f := fields["temperature" := JFloat(temperature)];
    assert f["message"] == fields["message"];
    assert ParamsOf(f).temperature == JFloat(temperature);
  }

  /** The top_p check: with a good message and temperature, a float top_p is
      refused with the top_p error exactly when it lies outside (0, 1.0]. */
  lemma TopPChecked(fields: map<string, JsonValue>, topP: real)
    requires "message" in fields && NonBlank(fields["message"])
    requires BetweenZeroAnd(ParamsOf(fields).temperature, 2.0) == Holds
    ensures var v := Validate(JObject(fields["top_p" := JFloat(topP)]));
      v == Rejected(BadRequest(TopPRange)) <==> !(0.0 < topP <= 1.0)
  {
    var f := fields["top_p" := JFloat(topP)];
    assert f["message"] == fields["message"];
    assert ParamsOf(f).temperature == ParamsOf(fields).temperature;
    assert ParamsOf(f).topP == JFloat(topP);
  }

  /** A `null` temperature is not refused with 400: the comparison raises a
      `TypeError`, which the handler turns into a 500 reply. */
  lemma NullTemperatureIs500(fields: map<string, JsonValue>, m: Option<ModelHandle>, t: Option<TokenizerHandle>, run: Inference)
    requires "message" in fields && NonBlank(fields["message"])
    ensures var data := JObject(fields["temperature" := JNull]);
      Chat(data, m, t, run) == ServerError(InternalError + NotOrderable(JNull))
  {
    var f := fields["temperature" := JNull];
    assert f["message"] == fields["message"];
    assert ParamsOf(f).temperature == JNull;
  }

  /** A string top_p also raises rather than being refused with 400. */
  lemma StringTopPIs500(fields: map<string, JsonValue>, s: string, m: Option<ModelHandle>, t: Option<TokenizerHandle>, run: Inference)
    requires "message" in fields && NonBlank(fields["message"])
    requires BetweenZeroAnd(ParamsOf(fields).temperature, 2.0) == Holds
    ensures var data := JObject(fields["top_p" := JString(s)]);
      Chat(data, m, t, run) == ServerError(InternalError + NotOrderable(JString(s)))
  {
    var f := fields["top_p" := JString(s)];
    assert f["message"] == fields["message"];
    assert ParamsOf(f).temperature == ParamsOf(fields).temperature;
    assert ParamsOf(f).topP == JString(s);
  }

  /** `max_length` is never checked: any value, of any type, leaves the
      verdict unchanged and is passed on as it is. */
  lemma MaxLengthUnchecked(fields: map<string, JsonValue>, maxLength: JsonValue)
    requires "message" in fields
    ensures var v := Validate(JObject(fields["max_length" := maxLength]));
      && (v.Accepted? <==> Validate(JObject(fields)).Accepted?)
      && (v.Accepted? ==> v.params.maxLength == maxLength)
  {
    var f := fields["max_length" := maxLength];
    assert f["message"] == fields["message"];
    assert ParamsOf(f).temperature == ParamsOf(fields).temperature;
    assert ParamsOf(f).topP == ParamsOf(fields).topP;
  }

  /** A body that is not a JSON object but is a non-zero number or `true`
      makes `'message' in data` raise; the reply is 500, not 400. */
  lemma NumberBodyIs500(i: int, x: real)
    requires i != 0 && x != 0.0
    ensures Validate(JInt(i)) == Rejected(ServerError(InternalError + NotIterable(JInt(i))))
    ensures Validate(JFloat(x)) == Rejected(ServerError(InternalError + NotIterable(JFloat(x))))
    ensures Validate(JBool(true)) == Rejected(ServerError(InternalError + NotIterable(JBool(true))))
    ensures Validate(JInt(i)).reply.Status() == 500
  {
  }

  /** For a non-empty string or list body, `'message' in data` is a substring
      or element test. When it holds, indexing the body with `'message'`
      raises and the reply is 500; otherwise the reply is the 400 "missing"
      error. */
  lemma StringOrListBody(s: string, items: seq<JsonValue>)
    requires s != [] && items != []
    ensures Contains(s, "message") ==>
      Validate(JString(s)) == Rejected(ServerError(InternalError + "string indices must be integers, not 'str'"))
    ensures !Contains(s, "message") ==> Validate(JString(s)) == Rejected(BadRequest(MissingMessage))
    ensures JString("message") in items ==>
      Validate(JArray(items)) == Rejected(ServerError(InternalError + "list indices must be integers or slices, not str"))
    ensures JString("message") !in items ==> Validate(JArray(items)) == Rejected(BadRequest(MissingMessage))
  {
  }

  /** `{"message": "Hello"}` is accepted with the message as given and the
      default parameters 512, 0.7 and 0.9. */
  lemma HelloUsesDefaults()
    ensures Validate(JObject(map["message" := JString("Hello")]))
         == Accepted("Hello", GenParams(JInt(512), JFloat(0.7), JFloat(0.9)))
  {
    NonBlankWitness("Hello", 0);
  }

  /** `{"message": ""}` and an all-whitespace message are refused with the
      message error. */
  lemma BlankMessageRefused(s: string)
    requires forall k :: 0 <= k < |s| ==> IsSpace(s[k])
    ensures Validate(JObject(map["message" := JString(s)])) == Rejected(BadRequest(EmptyMessage))
    ensures Validate(JObject(map["message" := JString(s)])).reply.Status() == 400
  {
  }

  /** A non-string message is refused with the message error even when the
      temperature is unusable too: the message is checked first. */
  lemma MessageCheckedBeforeTemperature(message: JsonValue)
    requires !message.JString?
    ensures Validate(JObject(map["message" := message, "temperature" := JNull]))
         == Rejected(BadRequest(EmptyMessage))
  {
  }

  /** The boundary values: temperature 2.0 and top_p 1.0 are accepted, a
      temperature of 0 or 3.0 and a top_p of 0 are refused. */
  lemma BoundaryValues()
    ensures Validate(JObject(map["message" := JString("hi"), "temperature" := JFloat(2.0)])).Accepted?
    ensures Validate(JObject(map["message" := JString("hi"), "temperature" := JFloat(3.0)]))
         == Rejected(BadRequest(TemperatureRange))
    ensures Validate(JObject(map["message" := JString("hi"), "temperature" := JInt(0)]))
         == Rejected(BadRequest(TemperatureRange))
    ensures Validate(JObject(map["message" := JString("hi"), "top_p" := JFloat(1.0)])).Accepted?
    ensures Validate(JObject(map["message" := JString("hi"), "top_p" := JInt(0)]))
         == Rejected(BadRequest(TopPRange))
  {
    NonBlankWitness("hi", 0);
  }

  /** Python's `bool` is an `int`, so `"temperature": true` passes as 1 while
      `false` is refused as 0. */
  lemma BoolTemperature()
    ensures Validate(JObject(map["message" := JString("hi"), "temperature" := JBool(true)])).Accepted?
    ensures Validate(JObject(map["message" := JString("hi"), "temperature" := JBool(false)]))
         == Rejected(BadRequest(TemperatureRange))
  {
    NonBlankWitness("hi", 0);
  }
}
