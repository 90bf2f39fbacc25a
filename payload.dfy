/**
 * The generation request and the JSON payload that app.py, call_hf_text2image,
 * builds from it before the first post.
 */
module Payload {
  import opened Wrappers

  /**
   * The arguments of call_hf_text2image apart from max_retries. The guidance
   * scale is a float in the source; here it is a value copied into the payload
   * untouched. An empty negative prompt means "none"; `seed == None` lets the
   * server choose. The defaults are those of call_hf_text2image.
   */
  datatype Request = Request(
    prompt: string,
    negativePrompt: string := "",
    steps: int := 30,
    guidance: real := 7.0,
    width: int := 1024,
    height: int := 1024,
    seed: Option<int> := None)

  /** The JSON values the payload is made of. */
  datatype Json =
    | JString(str: string)
    | JInt(num: int)
    | JNumber(number: real)
    | JBool(flag: bool)
    | JObject(fields: map<string, Json>)

  const INPUTS: string := "inputs"
  const PARAMETERS: string := "parameters"
  const OPTIONS: string := "options"
  const STEPS: string := "num_inference_steps"
  const GUIDANCE: string := "guidance_scale"
  const WIDTH: string := "width"
  const HEIGHT: string := "height"
  const NEGATIVE_PROMPT: string := "negative_prompt"
  const SEED: string := "seed"
  const WAIT_FOR_MODEL: string := "wait_for_model"

  /** The parameter keys a request produces: the four fixed ones, and the two
      optional ones exactly when the request supplies them. */
  function ParameterKeys(req: Request): set<string> {
    {STEPS, GUIDANCE, WIDTH, HEIGHT}
    + (if req.negativePrompt != "" then {NEGATIVE_PROMPT} else {})
    + (if req.seed.Some? then {SEED} else {})
  }

  /** The options group: the server is asked to wait for the model to load. */
  function WaitOptions(): Json {
    JObject(map[WAIT_FOR_MODEL := JBool(true)])
  }

  /**
   * The payload for `req`, described key by key: exactly the keys inputs,
   * parameters and options; the prompt as inputs; a parameters group holding
   * exactly ParameterKeys(req), each bound to the request's value; and
   * wait_for_model set in the options.
   */
  ghost predicate PayloadFor(p: Json, req: Request) {
    && p.JObject?
    && p.fields.Keys == {INPUTS, PARAMETERS, OPTIONS}
    && p.fields[INPUTS] == JString(req.prompt)
    && p.fields[OPTIONS] == WaitOptions()
    && var params := p.fields[PARAMETERS];
    && params.JObject?
    && params.fields.Keys == ParameterKeys(req)
    && params.fields[STEPS] == JInt(req.steps)
    && params.fields[GUIDANCE] == JNumber(req.guidance)
    && params.fields[WIDTH] == JInt(req.width)
    && params.fields[HEIGHT] == JInt(req.height)
    && (NEGATIVE_PROMPT in params.fields ==> params.fields[NEGATIVE_PROMPT] == JString(req.negativePrompt))
    && (SEED in params.fields ==> params.fields[SEED] == JInt(req.seed.value))
  }

  /**
   * Reading a request back out of a payload: the inverse of building one. An
   * absent negative_prompt reads as "", an absent seed as None; a payload of
   * any other shape reads as None.
   */
  function ReadRequest(p: Json): Option<Request> {
    if !p.JObject? || INPUTS !in p.fields || PARAMETERS !in p.fields then None
    else
      var inputs := p.fields[INPUTS];
      var params := p.fields[PARAMETERS];
      if !inputs.JString? || !params.JObject? then None
      else
        var f := params.fields;
        if STEPS !in f || GUIDANCE !in f || WIDTH !in f || HEIGHT !in f then None
        else if !f[STEPS].JInt? || !f[GUIDANCE].JNumber? || !f[WIDTH].JInt? || !f[HEIGHT].JInt? then None
        else if NEGATIVE_PROMPT in f && !f[NEGATIVE_PROMPT].JString? then None
        else if SEED in f && !f[SEED].JInt? then None
        else
          var negative := if NEGATIVE_PROMPT in f then f[NEGATIVE_PROMPT].str else "";
          var seed := if SEED in f then Some(f[SEED].num) else None;
          Some(Request(inputs.str, negative, f[STEPS].num, f[GUIDANCE].number,
                       f[WIDTH].num, f[HEIGHT].num, seed))
  }

  /**
   * The payload construction of call_hf_text2image: the fixed groups first, then
   * negative_prompt added to the parameters only when non-empty, and seed only
   * when given (a seed of 0 included).
   */
  method BuildPayload(req: Request) returns (payload: Json)
    ensures PayloadFor(payload, req)
    ensures ReadRequest(payload) == Some(req)
  {
    var parameters := map[
      STEPS := JInt(req.steps),
      GUIDANCE := JNumber(req.guidance),
      WIDTH := JInt(req.width),
      HEIGHT := JInt(req.height)
    ];
    if req.negativePrompt != "" {
      parameters := parameters[NEGATIVE_PROMPT := JString(req.negativePrompt)];
    }
    if req.seed.Some? {
      parameters := parameters[SEED := JInt(req.seed.value)];
    }
    payload := JObject(map[
      INPUTS := JString(req.prompt),
      PARAMETERS := JObject(parameters),
      OPTIONS := WaitOptions()
    ]);
  }

  /** negative_prompt is present iff the request's negative prompt is non-empty,
      and then carries it exactly. */
  lemma NegativePromptPresentIffNonEmpty(p: Json, req: Request)
    requires PayloadFor(p, req)
    ensures NEGATIVE_PROMPT in p.fields[PARAMETERS].fields <==> req.negativePrompt != ""
    ensures req.negativePrompt != "" ==>
              p.fields[PARAMETERS].fields[NEGATIVE_PROMPT] == JString(req.negativePrompt)
  {
  }

  /** seed is present iff the request has one, so a seed of 0 is sent too. */
  lemma SeedPresentIffGiven(p: Json, req: Request)
    requires PayloadFor(p, req)
    ensures SEED in p.fields[PARAMETERS].fields <==> req.seed.Some?
    ensures req.seed.Some? ==> p.fields[PARAMETERS].fields[SEED] == JInt(req.seed.value)
  {
  }

  /** A payload that fits a request reads back as that request. */
  lemma {:induction false} ReadRequestInverts(p: Json, req: Request)
    requires PayloadFor(p, req)
    ensures ReadRequest(p) == Some(req)
  {
    var f := p.fields[PARAMETERS].fields;
    assert STEPS in f && GUIDANCE in f && WIDTH in f && HEIGHT in f;
    assert NEGATIVE_PROMPT in f <==> req.negativePrompt != "";
    assert SEED in f <==> req.seed.Some?;
  }

  /** The description fixes the payload: one request has exactly one payload. */
  lemma {:induction false} PayloadForUnique(p: Json, q: Json, req: Request)
    requires PayloadFor(p, req) && PayloadFor(q, req)
    ensures p == q
  {
    var fp, fq := p.fields[PARAMETERS].fields, q.fields[PARAMETERS].fields;
    assert NEGATIVE_PROMPT in fp <==> req.negativePrompt != "";
    assert SEED in fp <==> req.seed.Some?;
    forall k | k in fp ensures fp[k] == fq[k] {
      assert k in ParameterKeys(req);
    }
    assert fp == fq;
    assert p.fields[PARAMETERS] == q.fields[PARAMETERS];
    forall k | k in p.fields ensures p.fields[k] == q.fields[k] {
      assert k == INPUTS || k == PARAMETERS || k == OPTIONS;
    }
    assert p.fields == q.fields;
  }

  /** Two requests with the same payload are the same request. */
  lemma {:induction false} PayloadDeterminesRequest(p: Json, req1: Request, req2: Request)
    requires PayloadFor(p, req1) && PayloadFor(p, req2)
    ensures req1 == req2
  {
    ReadRequestInverts(p, req1);
    ReadRequestInverts(p, req2);
  }
}
