/** The chat service of app.py: the `DeepSeekChatbot` host object (device
    choice, loading, generation), the `/chat` request validation and its
    mapping to 200/400/500 replies, and the `/health` report. */
module ChatApp {
  import opened Outcomes
  import opened PyStr
  import opened Json
  import opened ChatTemplate

  /** The only supported local checkpoint, reported as `model` in replies. */
  const ModelPath: string := "./models/deepseek-coder-1.3b-instruct"

  const MissingMessage: string := "Missing 'message' field in request body"
  const EmptyMessage: string := "Message must be a non-empty string"
  const TemperatureRange: string := "Temperature must be between 0 and 2.0"
  const TopPRange: string := "top_p must be between 0 and 1.0"
  const NotLoaded: string := "Model not loaded. Call load_model() first."
  const InternalError: string := "Internal server error: "

  /** Defaults `chat` fills in for absent optional fields. */
  const DefaultMaxLength: JsonValue := JInt(512)
  const DefaultTemperature: JsonValue := JFloat(0.7)
  const DefaultTopP: JsonValue := JFloat(0.9)

  /** `torch_dtype` passed to both loaders. */
  datatype DType = Float16 | Float32

  /** Handles to a loaded tokenizer and model; what they hold is the
      inference library's business. */
  datatype TokenizerHandle = TokenizerHandle(id: nat)
  datatype ModelHandle = ModelHandle(id: nat)

  /** `AutoTokenizer.from_pretrained(path, torch_dtype=...)`. */
  type TokenizerLoader = (string, DType) -> Result<TokenizerHandle>
  /** `AutoModelForCausalLM.from_pretrained(path, torch_dtype=...).to(device)`. */
  type ModelLoader = (string, DType, string) -> Result<ModelHandle>
  /** Tokenize the formatted prompt, sample, and decode the whole output
      sequence (prompt included) back to text, or fail with `str(e)`. */
  type Inference = (ModelHandle, TokenizerHandle, string, GenParams) -> Result<string>

  /** The sampling parameters passed to generation and echoed back. */
  datatype GenParams = GenParams(maxLength: JsonValue, temperature: JsonValue, topP: JsonValue)

  /** The body of a 200 reply (generation time left out). */
  datatype ChatBody = ChatBody(response: string, model: string, parameters: GenParams)

  /** What `chat` returns: a reply body with status 200, or an error body. */
  datatype HttpReply = Success(body: ChatBody) | BadRequest(error: string) | ServerError(error: string)
  {
    function Status(): (code: int)
      ensures code == 200 <==> Success?
      ensures code == 400 <==> BadRequest?
      ensures code == 500 <==> ServerError?
    {
      match this
      case Success(_) => 200
      case BadRequest(_) => 400
      case ServerError(_) => 500
    }
  }

  /** The `/health` report. */
  datatype Health = Health(status: string, modelLoaded: bool, device: string)

  /** `device or ("cuda" if torch.cuda.is_available() else "cpu")`: an absent
      or empty requested device falls back to the default. */
  function SelectDevice(requested: Option<string>, cudaAvailable: bool): (device: string)
    ensures device != []
    ensures requested.Some? && requested.value != [] ==> device == requested.value
    ensures requested.None? || requested.value == [] ==> device == (if cudaAvailable then "cuda" else "cpu")
    ensures device != "cuda" && device != "cpu" ==> requested == Some(device)
  {
    if requested.Some? && requested.value != [] then requested.value
    else if cudaAvailable then "cuda" else "cpu"
  }

  /** Half precision on the accelerator, single precision elsewhere. */
  function DTypeFor(device: string): (d: DType)
    ensures d == Float16 <==> device == "cuda"
  {
    if device == "cuda" then Float16 else Float32
  }

  /** `str(e)` of the `FileNotFoundError` raised when the checkpoint is missing. */
  function ModelNotFound(path: string): string {
    "Local model not found: " + path + ". Please ensure the model is downloaded to the local models directory."
  }

  /** `generate_response`: refuse unless both the model and the tokenizer are
      set, otherwise run inference on the formatted prompt and extract the
      assistant's turn; inference errors pass through. */
  function GenerateResult(model: Option<ModelHandle>, tokenizer: Option<TokenizerHandle>,
                          message: string, params: GenParams, run: Inference): (r: Result<string>)
    ensures model.None? || tokenizer.None? ==> r == Err(NotLoaded)
    ensures r.Ok? ==> (
      && model.Some? && tokenizer.Some?
      && run(model.value, tokenizer.value, Format(message), params).Ok?
      && r.value == Extract(run(model.value, tokenizer.value, Format(message), params).value))
    ensures r.Ok? ==> !Contains(r.value, AssistantOpen) && !Contains(r.value, TurnEnd)
    ensures model.Some? && tokenizer.Some? && run(model.value, tokenizer.value, Format(message), params).Err? ==>
      r == Err(run(model.value, tokenizer.value, Format(message), params).error)
  {
    if model.None? || tokenizer.None? then Err(NotLoaded)
    else
      match run(model.value, tokenizer.value, Format(message), params)
      case Err(e) => Err(e)
      case Ok(decoded) => Ok(Extract(decoded))
  }

  /** The outcome of the checks `chat` runs before generating: either the
      message and the parameters to generate with, or the reply already due. */
  datatype Validation = Accepted(message: string, params: GenParams) | Rejected(reply: HttpReply)

  /** A string Python considers non-empty after `strip()`. */
  predicate NonBlank(v: JsonValue) {
    v.JString? && exists k :: 0 <= k < |v.s| && !IsSpace(v.s[k])
  }

  /** The parameters `chat` passes on: each field of the body, or its default. */
  function ParamsOf(fields: map<string, JsonValue>): (p: GenParams)
    ensures "max_length" in fields ==> p.maxLength == fields["max_length"]
    ensures "max_length" !in fields ==> p.maxLength == DefaultMaxLength
    ensures "temperature" in fields ==> p.temperature == fields["temperature"]
    ensures "temperature" !in fields ==> p.temperature == DefaultTemperature
    ensures "top_p" in fields ==> p.topP == fields["top_p"]
    ensures "top_p" !in fields ==> p.topP == DefaultTopP
  {
    GenParams(Get(fields, "max_length", DefaultMaxLength),
              Get(fields, "temperature", DefaultTemperature),
              Get(fields, "top_p", DefaultTopP))
  }

  /** A request every check of `chat` lets through: an object whose message
      is a non-blank string, whose temperature (given or defaulted) is a
      number in (0, 2.0] and whose top_p is a number in (0, 1.0]. Nothing is
      asked of max_length. */
  predicate Acceptable(data: JsonValue) {
    && data.JObject?
    && "message" in data.fields
    && NonBlank(data.fields["message"])
    && var p := ParamsOf(data.fields);
    && NumericValue(p.temperature).Some? && 0.0 < NumericValue(p.temperature).value <= 2.0
    && NumericValue(p.topP).Some? && 0.0 < NumericValue(p.topP).value <= 1.0
  }

  /** Lines 136-162 of `chat`. For a non-object body, `'message' in data` is
      a substring test on a string, a membership test on a list and a
      `TypeError` on a number or bool; a body that passes it is then indexed
      with a string key, which raises. Raised errors become 500 replies. */
  function Validate(data: JsonValue): (v: Validation)
    ensures v.Accepted? <==> Acceptable(data)
    ensures v.Accepted? ==> data.fields["message"] == JString(v.message) && v.params == ParamsOf(data.fields)
    ensures v.Rejected? ==> !v.reply.Success?
    ensures v.Rejected? && v.reply.BadRequest? ==>
      v.reply.error in {MissingMessage, EmptyMessage, TemperatureRange, TopPRange}
    // The checks in order; the first that fails decides the reply.
    ensures !Truthy(data) || (data.JObject? && "message" !in data.fields) ==>
      v == Rejected(BadRequest(MissingMessage))
    ensures data.JObject? && "message" in data.fields && !NonBlank(data.fields["message"]) ==>
      v == Rejected(BadRequest(EmptyMessage))
    ensures data.JObject? && "message" in data.fields && NonBlank(data.fields["message"]) ==>
      var c := BetweenZeroAnd(ParamsOf(data.fields).temperature, 2.0);
      && (c == Fails ==> v == Rejected(BadRequest(TemperatureRange)))
      && (c.Raises? ==> v == Rejected(ServerError(InternalError + c.message)))
    ensures data.JObject? && "message" in data.fields && NonBlank(data.fields["message"]) &&
            BetweenZeroAnd(ParamsOf(data.fields).temperature, 2.0) == Holds ==>
      var c := BetweenZeroAnd(ParamsOf(data.fields).topP, 1.0);
      && (c == Fails ==> v == Rejected(BadRequest(TopPRange)))
      && (c.Raises? ==> v == Rejected(ServerError(InternalError + c.message)))
  {
    if !Truthy(data) then Rejected(BadRequest(MissingMessage))
    else match data
      case JObject(fields) =>
        if "message" !in fields then Rejected(BadRequest(MissingMessage))
        else ValidateFields(fields)
      case JString(s) =>
        if Contains(s, "message") then Rejected(ServerError(InternalError + "string indices must be integers, not 'str'"))
        else Rejected(BadRequest(MissingMessage))
      case JArray(items) =>
        if JString("message") in items then Rejected(ServerError(InternalError + "list indices must be integers or slices, not str"))
        else Rejected(BadRequest(MissingMessage))
      case _ =>
        Rejected(ServerError(InternalError + NotIterable(data)))
  }

  /** The checks on a dict body that holds a message, in source order. */
  function ValidateFields(fields: map<string, JsonValue>): Validation
    requires "message" in fields
  {
    var message := fields["message"];
    var params := ParamsOf(fields);
    if !message.JString? || Strip(message.s) == [] then
      StripEmptyIffAllSpace(if message.JString? then message.s else []);
      Rejected(BadRequest(EmptyMessage))
    else
      StripEmptyIffAllSpace(message.s);
      match BetweenZeroAnd(params.temperature, 2.0)
      case Raises(e) => Rejected(ServerError(InternalError + e))
      case Fails => Rejected(BadRequest(TemperatureRange))
      case Holds =>
        match BetweenZeroAnd(params.topP, 1.0)
        case Raises(e) => Rejected(ServerError(InternalError + e))
        case Fails => Rejected(BadRequest(TopPRange))
        case Holds => Accepted(message.s, params)
  }

  /** The whole `chat` handler for the state of the host: validate, then
      generate, then build the reply echoing the parameters used; an error
      raised by generation becomes a 500 reply carrying its text. */
  function Chat(data: JsonValue, model: Option<ModelHandle>, tokenizer: Option<TokenizerHandle>,
                run: Inference): (r: HttpReply)
    ensures Validate(data).Rejected? ==> r == Validate(data).reply
    ensures Acceptable(data) ==>
      var g := GenerateResult(model, tokenizer, data.fields["message"].s, ParamsOf(data.fields), run);
      && (g.Ok? ==> r == Success(ChatBody(g.value, ModelPath, ParamsOf(data.fields))))
      && (g.Err? ==> r == ServerError(InternalError + g.error))
    ensures r.Success? ==> Acceptable(data)
  {
    match Validate(data)
    case Rejected(reply) => reply
    case Accepted(message, params) =>
      match GenerateResult(model, tokenizer, message, params, run)
      case Ok(response) => Success(ChatBody(response, ModelPath, params))
      case Err(e) => ServerError(InternalError + e)
  }

  /** The service's single `DeepSeekChatbot`: the device it runs on and the
      tokenizer and model, each unset until `LoadModel` sets it. */
  class DeepSeekChatbot {
    const modelName: string
    var device: string
    var model: Option<ModelHandle>
    var tokenizer: Option<TokenizerHandle>

    /** The model is only ever set after the tokenizer. */
    ghost predicate Valid()
      reads this
    {
      modelName == ModelPath && device != [] && (model.Some? ==> tokenizer.Some?)
    }

    /** Ready to generate: both the tokenizer and the model are set. */
    predicate Loaded()
      reads this
    {
      model.Some? && tokenizer.Some?
    }

    /** `__init__` up to the call to `load_model`. */
    constructor (requestedDevice: Option<string>, cudaAvailable: bool)
      ensures Valid()
      ensures device == SelectDevice(requestedDevice, cudaAvailable)
      ensures model == None && tokenizer == None
    {
      modelName := ModelPath;
      device := SelectDevice(requestedDevice, cudaAvailable);
      model := None;
      tokenizer := None;
    }

    /** `load_model`: a missing checkpoint directory fails before anything is
        loaded; otherwise the tokenizer is loaded and stored, then the model.
        The returned error is `str(e)` of what was raised. */
    method LoadModel(pathExists: bool, loadTokenizer: TokenizerLoader, loadModel: ModelLoader)
      returns (err: Option<string>)
      requires Valid()
      modifies this`model, this`tokenizer
      ensures Valid()
      ensures !pathExists ==> err == Some(ModelNotFound(modelName)) && unchanged(this)
      ensures pathExists ==>
        var t := loadTokenizer(modelName, DTypeFor(device));
        var m := loadModel(modelName, DTypeFor(device), device);
        && (t.Err? ==> err == Some(t.error) && unchanged(this))
        && (t.Ok? ==> tokenizer == Some(t.value))
        && (t.Ok? && m.Err? ==> err == Some(m.error) && model == old(model))
        && (t.Ok? && m.Ok? ==> err == None && model == Some(m.value))
      ensures err.None? <==> (pathExists && loadTokenizer(modelName, DTypeFor(device)).Ok?
                             && loadModel(modelName, DTypeFor(device), device).Ok?)
      ensures err.None? ==> Loaded()
      ensures old(Loaded()) ==> Loaded()
    {
      if !pathExists {
        return Some(ModelNotFound(modelName));
      }
      var dtype := DTypeFor(device);
      var t := loadTokenizer(modelName, dtype);
      if t.Err? {
        return Some(t.error);
      }
      tokenizer := Some(t.value);
      var m := loadModel(modelName, dtype, device);
      if m.Err? {
        return Some(m.error);
      }
      model := Some(m.value);
      err := None;
    }

    /** `generate_response` on the current state. */
    method GenerateResponse(prompt: string, params: GenParams, run: Inference) returns (r: Result<string>)
      ensures r == GenerateResult(model, tokenizer, prompt, params, run)
      ensures !Loaded() ==> r == Err(NotLoaded)
    {
      if model.None? || tokenizer.None? {
        return Err(NotLoaded);
      }
      var formatted := Format(prompt);
      var decoded := run(model.value, tokenizer.value, formatted, params);
      if decoded.Err? {
        return Err(decoded.error);
      }
      r := Ok(Extract(decoded.value));
    }

    /** `health_check`: always healthy; `model_loaded` looks at the model
        alone, which in a valid state is the same as being ready. */
    method HealthCheck() returns (h: Health)
      ensures h.status == "healthy" && h.device == device
      ensures h.modelLoaded <==> model.Some?
      ensures Valid() ==> (h.modelLoaded <==> Loaded())
    {
      h := Health("healthy", model.Some?, device);
    }
  }

  /** `DeepSeekChatbot()` as the module creates it: construct, then load.
      When an error comes back the Python constructor raised and the service
      never starts. */
  method NewChatbot(requestedDevice: Option<string>, cudaAvailable: bool, pathExists: bool,
                    loadTokenizer: TokenizerLoader, loadModel: ModelLoader)
    returns (bot: DeepSeekChatbot, err: Option<string>)
    ensures fresh(bot) && bot.Valid()
    ensures bot.device == SelectDevice(requestedDevice, cudaAvailable)
    ensures err.None? <==> bot.Loaded()
    ensures err.None? <==> (pathExists && loadTokenizer(ModelPath, DTypeFor(bot.device)).Ok?
                           && loadModel(ModelPath, DTypeFor(bot.device), bot.device).Ok?)
  {
    bot := new DeepSeekChatbot(requestedDevice, cudaAvailable);
    err := bot.LoadModel(pathExists, loadTokenizer, loadModel);
  }

  /** The `/chat` endpoint served by `bot`: validation, then generation on
      the bot's current tokenizer and model. */
  method HandleChat(bot: DeepSeekChatbot, data: JsonValue, run: Inference) returns (reply: HttpReply)
    ensures reply == Chat(data, bot.model, bot.tokenizer, run)
    ensures reply.Success? ==> bot.Loaded() && Acceptable(data)
  {
    var v := Validate(data);
    if v.Rejected? {
      return v.reply;
    }
    var generated := bot.GenerateResponse(v.message, v.params, run);
    if generated.Err? {
      return ServerError(InternalError + generated.error);
    }
    reply := Success(ChatBody(generated.value, ModelPath, v.params));
  }
}
