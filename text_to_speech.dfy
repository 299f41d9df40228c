/** The text-to-speech node (nodes/ElevenLabs/Core/ElevenLabsTextToSpeech.node.ts):
    one synthesis request per item, the returned audio stored as the item's
    binary. */
module TextToSpeech {
  import opened Wrappers
  import opened Json
  import opened Host
  import opened Request
  import opened Items
  import opened AudioFormat

  /** The `advancedOptions` collection; an absent member is `undefined`. */
  datatype AdvancedOptions = AdvancedOptions(
    stability: Option<real>, similarityBoost: Option<real>, style: Option<real>, outputFormat: Option<string>)

  /** The parameters of one item. */
  datatype Params = Params(voiceId: string, text: string, modelId: string, binaryPropertyName: string,
                           options: AdvancedOptions)

  /** `voice_settings` has each of stability, similarity_boost and style iff it is defined. */
  ghost predicate IsVoiceSettings(opts: AdvancedOptions, vs: map<string, Value>)
  {
    && vs.Keys <= {"stability", "similarity_boost", "style"}
    && ("stability" in vs <==> opts.stability.Some?)
    && ("similarity_boost" in vs <==> opts.similarityBoost.Some?)
    && ("style" in vs <==> opts.style.Some?)
    && (opts.stability.Some? ==> vs["stability"] == Num(opts.stability.value))
    && (opts.similarityBoost.Some? ==> vs["similarity_boost"] == Num(opts.similarityBoost.value))
    && (opts.style.Some? ==> vs["style"] == Num(opts.style.value))
  }

  /** The request body: always text, model_id and a voice_settings object;
      output_format at top level iff defined. */
  ghost predicate IsBody(p: Params, body: map<string, Value>)
  {
    && body.Keys == {"text", "model_id", "voice_settings"} + (if p.options.outputFormat.Some? then {"output_format"} else {})
    && body["text"] == Str(p.text)
    && body["model_id"] == Str(p.modelId)
    && body["voice_settings"].Obj? && IsVoiceSettings(p.options, body["voice_settings"].fields)
    && (p.options.outputFormat.Some? ==> body["output_format"] == Str(p.options.outputFormat.value))
  }

  /** Builds the body field by field, as the node does. */
  method BuildBody(p: Params) returns (body: map<string, Value>)
    ensures IsBody(p, body)
  {
    body := map["text" := Str(p.text), "model_id" := Str(p.modelId), "voice_settings" := Obj(map[])];
    if p.options.stability.Some? {
      body := body["voice_settings" := Obj(body["voice_settings"].fields["stability" := Num(p.options.stability.value)])];
    }
    if p.options.similarityBoost.Some? {
      body := body["voice_settings" := Obj(body["voice_settings"].fields["similarity_boost" := Num(p.options.similarityBoost.value)])];
    }
    if p.options.style.Some? {
      body := body["voice_settings" := Obj(body["voice_settings"].fields["style" := Num(p.options.style.value)])];
    }
    if p.options.outputFormat.Some? {
      body := body["output_format" := Str(p.options.outputFormat.value)];
    }
  }

  predicate IsAsciiAlnum(c: char)
  {
    ('a' <= c <= 'z') || ('A' <= c <= 'Z') || ('0' <= c <= '9')
  }

  /** `s.replace(/[^a-zA-Z0-9]/g, '_')`. */
  function ReplaceNonAlnum(s: string): (r: string)
    ensures |r| == |s|
    ensures forall k :: 0 <= k < |s| ==> r[k] == if IsAsciiAlnum(s[k]) then s[k] else '_'
    decreases |s|
  {
    if s == "" then "" else [if IsAsciiAlnum(s[0]) then s[0] else '_'] + ReplaceNonAlnum(s[1..])
  }

  /** The file name stem: the first 50 characters of the text, each character
      that is not an ASCII letter or digit replaced by `_`. */
  function FileStem(text: string): (stem: string)
    ensures |stem| == if |text| < 50 then |text| else 50
    ensures forall k :: 0 <= k < |stem| ==> stem[k] == if IsAsciiAlnum(text[k]) then text[k] else '_'
  {
    ReplaceNonAlnum(if |text| <= 50 then text else text[..50])
  }

  function FileName(text: string, f: Format): string
  {
    FileStem(text) + "." + f.extension
  }

  /** The audio's file name is a sanitised stem of at most 50 characters, a dot
      and the format's extension. */
  lemma FileNameIsSafe(text: string, f: Format)
    ensures var name := FileName(text, f);
            && |f.extension| < |name| <= 51 + |f.extension|
            && (forall k :: 0 <= k < |name| - |f.extension| - 1 ==> IsAsciiAlnum(name[k]) || name[k] == '_')
            && name[|name| - |f.extension| - 1..] == "." + f.extension
  {
    var stem, name := FileStem(text), FileName(text, f);
    assert forall k :: 0 <= k < |stem| ==> name[k] == stem[k];
    assert name[|stem|..] == "." + f.extension;
  }

  /** A stem is made only of ASCII letters, digits and `_`, and sanitising it
      again changes nothing. */
  lemma FileStemIsSanitised(text: string)
    ensures forall k :: 0 <= k < |FileStem(text)| ==> IsAsciiAlnum(FileStem(text)[k]) || FileStem(text)[k] == '_'
    ensures FileStem(FileStem(text)) == FileStem(text)
  {
  }

  /** The request of one item: POST text-to-speech/{voiceId} with the body, in
      binary-response mode. */
  ghost predicate IsRequest(p: Params, apiKey: string, o: RequestOptions)
  {
    && o.body.Some? && IsBody(p, o.body.value)
    && IsBinaryOptions(o, apiKey, "text-to-speech/" + p.voiceId, "POST", o.body, None)
  }

  /** The output of a successful item: a summary JSON and the audio under
      `binaryPropertyName`, named after the text, typed by the output format. */
  ghost predicate IsAudioItem(p: Params, audio: seq<bv8>, i: nat, o: OutputItem)
  {
    var f := FullTable(p.options.outputFormat);
    && o.pairedItem == i
    && o.json == Obj(map["success" := Bool(true), "voiceId" := Str(p.voiceId), "modelId" := Str(p.modelId)])
    && o.binary == map[p.binaryPropertyName := BinaryData(audio, Some(FileName(p.text, f)), Some(f.mimeType))]
  }

  /** What handling one item does, given the credential and the API's reply. */
  ghost predicate ItemSpec(p: Params, credentials: Option<Credentials>, reply: Result<seq<bv8>, Error>, i: nat, s: Step)
  {
    && (credentials.None? ==> s == Step(None, Failure(MissingCredentials)))
    && (credentials.Some? ==>
          && s.request.Some? && IsRequest(p, credentials.value.apiKey, s.request.value)
          && (reply.Failure? ==> s.outcome == Failure(reply.error))
          && (reply.Success? ==> s.outcome.Success? && IsAudioItem(p, reply.value, i, s.outcome.value)))
  }

  /** The body of the `try` block for item `i`. */
  method HandleItem(p: Params, credentials: Option<Credentials>, reply: Result<seq<bv8>, Error>, i: nat)
    returns (s: Step)
    ensures ItemSpec(p, credentials, reply, i, s)
  {
    var body := BuildBody(p);
    var endpoint := "text-to-speech/" + p.voiceId;
    var base := CreateBaseOptions(credentials, endpoint, "POST", Some(body));
    if base.Failure? {
      return Step(None, Failure(base.error));
    }
    var options := ForBinaryResponse(base.value);
    BinaryOverrideOfBase(base.value, options, credentials.value.apiKey, endpoint, "POST", Some(body), None);
    if reply.Failure? {
      return Step(Some(options), Failure(reply.error));
    }
    var response := reply.value;
    var format := FullTable(p.options.outputFormat);
    var newItem := OutputItem(Obj(map[]), map[], i);
    var filename := FileName(p.text, format);
    newItem := newItem.(binary := newItem.binary[p.binaryPropertyName := BinaryData(response, Some(filename), Some(format.mimeType))]);
    newItem := newItem.(json := Obj(map["success" := Bool(true), "voiceId" := Str(p.voiceId), "modelId" := Str(p.modelId)]));
    return Step(Some(options), Success(newItem));
  }

  /** `execute`: the items in order, each through `HandleItem` and the catch
      block, stopping at an error that is rethrown. */
  method Execute(items: seq<InputItem>, params: seq<Params>, credentials: Option<Credentials>,
                 replies: seq<Result<seq<bv8>, Error>>, continueOnFail: bool)
    returns (out: seq<OutputItem>, steps: seq<Step>, thrown: Option<Error>)
    requires |params| == |items| && |replies| == |items|
    ensures |steps| <= |items| && (thrown.None? ==> |steps| == |items|)
    ensures Process(steps, continueOnFail, ViaHandleApiError) == Run(out, thrown)
    ensures thrown.Some? ==> |steps| > 0 && Process(steps[..|steps| - 1], continueOnFail, ViaHandleApiError).thrown.None?
    ensures forall k :: 0 <= k < |steps| ==> ItemSpec(params[k], credentials, replies[k], k, steps[k])
  {
    out, steps, thrown := [], [], None;
    for i := 0 to |items|
      invariant |steps| == i && thrown.None?
      invariant Process(steps, continueOnFail, ViaHandleApiError) == Run(out, None)
      invariant forall k :: 0 <= k < i ==> ItemSpec(params[k], credentials, replies[k], k, steps[k])
    {
      var s := HandleItem(params[i], credentials, replies[i], i);
      ghost var prev := steps;
      steps, out, thrown := Absorb(steps, out, s, continueOnFail, ViaHandleApiError);
      forall k | 0 <= k <= i
        ensures ItemSpec(params[k], credentials, replies[k], k, steps[k])
      {
        if k < i {
          assert steps[k] == prev[k];
        }
      }
      if thrown.Some? {
        assert steps[..|steps| - 1] == prev;
        return;
      }
    }
  }

  /** With continue-on-fail: one output per item, in order and paired with its
      index; an item has no binary exactly when it failed, and then its JSON
      holds the error.
      Every node states this run lemma over its own `ItemSpec`. */
  lemma ContinueOnFailOutputs(params: seq<Params>, credentials: Option<Credentials>,
                              replies: seq<Result<seq<bv8>, Error>>, steps: seq<Step>)
    requires |replies| == |params| && |steps| == |params|
    requires forall k :: 0 <= k < |steps| ==> ItemSpec(params[k], credentials, replies[k], k, steps[k])
    ensures var out := Process(steps, true, ViaHandleApiError).out;
            && |out| == |params|
            && forall k :: 0 <= k < |out| ==>
                 && out[k].pairedItem == k
                 && (out[k].binary == map[] <==> steps[k].outcome.Failure?)
                 && (steps[k].outcome.Failure? ==> out[k].json.Obj? && "error" in out[k].json.fields)
  {
    ContinueOnFailKeepsEveryItem(steps, ViaHandleApiError);
    var out := Process(steps, true, ViaHandleApiError).out;
    forall k | 0 <= k < |out|
      ensures out[k].pairedItem == k
      ensures out[k].binary == map[] <==> steps[k].outcome.Failure?
    {
      if steps[k].outcome.Success? {
        var p := params[k];
        assert p.binaryPropertyName in out[k].binary;
      }
    }
  }

  /** One item without a credential sends nothing. */
  lemma ItemWithoutCredentialSendsNothing(p: Params, credentials: Option<Credentials>, reply: Result<seq<bv8>, Error>, i: nat, s: Step)
    requires ItemSpec(p, credentials, reply, i, s)
    requires credentials.None?
    ensures s.request.None?
  {
  }

  /** Without a credential the node makes no call at all: every item fails
      on `createBaseOptions`, before its request.
      Every node states this run lemma over its own `ItemSpec`. */
  lemma {:induction false} WithoutCredentialNothingSent(params: seq<Params>, credentials: Option<Credentials>, replies: seq<Result<seq<bv8>, Error>>, steps: seq<Step>)
    requires |replies| == |params| && |steps| <= |params|
    requires credentials.None?
    requires forall k :: 0 <= k < |steps| ==> ItemSpec(params[k], credentials, replies[k], k, steps[k])
    ensures Sent(steps) == []
    decreases |steps|
  {
    if steps != [] {
      var last := |steps| - 1;
      WithoutCredentialNothingSent(params, credentials, replies, steps[..last]);
      ItemWithoutCredentialSendsNothing(params[last], credentials, replies[last], last, steps[last]);
    }
  }

}
