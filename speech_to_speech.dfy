/** The speech-to-speech node (nodes/ElevenLabs/Core/Audio/ElevenLabsSpeechToSpeech.node.ts):
    converts the item's audio to another voice and stores the result as the
    item's binary. */
module SpeechToSpeech {
  import opened Wrappers
  import opened Json
  import opened Host
  import opened Request
  import opened Items
  import opened AudioFormat
  import opened AudioSource

  datatype AdvancedOptions = AdvancedOptions(
    similarityBoost: Option<real>, stability: Option<real>, outputFormat: Option<string>,
    sourceLanguage: Option<string>, targetLanguage: Option<string>)

  /** The parameters of one item. */
  datatype Params = Params(source: Source, voiceId: string, outputBinaryPropertyName: string, options: AdvancedOptions)

  /** `source_language` is sent unless it is undefined or 'auto'. */
  predicate SendsSourceLanguage(opts: AdvancedOptions)
  {
    opts.sourceLanguage.Some? && opts.sourceLanguage.value != "auto"
  }

  /** `target_language` is sent unless it is undefined or 'same'. */
  predicate SendsTargetLanguage(opts: AdvancedOptions)
  {
    opts.targetLanguage.Some? && opts.targetLanguage.value != "same"
  }

  /** The form before the audio is attached: `voice_id` always; the voice
      settings and output format iff defined; the languages iff defined and
      not the 'auto' / 'same' sentinels. */
  ghost predicate IsForm(p: Params, form: map<string, Value>)
  {
    var o := p.options;
    && form.Keys <= {"voice_id", "similarity_boost", "stability", "output_format", "source_language", "target_language"}
    && "voice_id" in form && form["voice_id"] == Str(p.voiceId)
    && ("similarity_boost" in form <==> o.similarityBoost.Some?)
    && ("stability" in form <==> o.stability.Some?)
    && ("output_format" in form <==> o.outputFormat.Some?)
    && ("source_language" in form <==> SendsSourceLanguage(o))
    && ("target_language" in form <==> SendsTargetLanguage(o))
    && (o.similarityBoost.Some? ==> form["similarity_boost"] == Num(o.similarityBoost.value))
    && (o.stability.Some? ==> form["stability"] == Num(o.stability.value))
    && (o.outputFormat.Some? ==> form["output_format"] == Str(o.outputFormat.value))
    && (SendsSourceLanguage(o) ==> form["source_language"] == Str(o.sourceLanguage.value))
    && (SendsTargetLanguage(o) ==> form["target_language"] == Str(o.targetLanguage.value))
  }

  method BuildForm(p: Params) returns (formData: map<string, Value>)
    ensures IsForm(p, formData)
  {
    var o := p.options;
    formData := map["voice_id" := Str(p.voiceId)];
    if o.similarityBoost.Some? {
      formData := formData["similarity_boost" := Num(o.similarityBoost.value)];
    }
    if o.stability.Some? {
      formData := formData["stability" := Num(o.stability.value)];
    }
    if o.outputFormat.Some? {
      formData := formData["output_format" := Str(o.outputFormat.value)];
    }
    if o.sourceLanguage.Some? && o.sourceLanguage.value != "auto" {
      formData := formData["source_language" := Str(o.sourceLanguage.value)];
    }
    if o.targetLanguage.Some? && o.targetLanguage.value != "same" {
      formData := formData["target_language" := Str(o.targetLanguage.value)];
    }
  }

  /** `advancedOptions` as the host holds it: one member per defined option. */
  function OptionsJson(o: AdvancedOptions): map<string, Value>
  {
    var m := Extend(map[], "similarityBoost", if o.similarityBoost.Some? then Some(Num(o.similarityBoost.value)) else None);
    var m := Extend(m, "stability", if o.stability.Some? then Some(Num(o.stability.value)) else None);
    var m := Extend(m, "outputFormat", if o.outputFormat.Some? then Some(Str(o.outputFormat.value)) else None);
    var m := Extend(m, "sourceLanguage", if o.sourceLanguage.Some? then Some(Str(o.sourceLanguage.value)) else None);
    Extend(m, "targetLanguage", if o.targetLanguage.Some? then Some(Str(o.targetLanguage.value)) else None)
  }

  /** `{success: true, voiceId, ...advancedOptions}`. */
  function Summary(p: Params): Value
  {
    Obj(map["success" := Bool(true), "voiceId" := Str(p.voiceId)] + OptionsJson(p.options))
  }

  /** Each defined option appears under its own name with its own value, and
      nothing else does. */
  lemma OptionsJsonMembers(o: AdvancedOptions)
    ensures "similarityBoost" in OptionsJson(o) <==> o.similarityBoost.Some?
    ensures "stability" in OptionsJson(o) <==> o.stability.Some?
    ensures "outputFormat" in OptionsJson(o) <==> o.outputFormat.Some?
    ensures "sourceLanguage" in OptionsJson(o) <==> o.sourceLanguage.Some?
    ensures "targetLanguage" in OptionsJson(o) <==> o.targetLanguage.Some?
    ensures o.similarityBoost.Some? ==> OptionsJson(o)["similarityBoost"] == Num(o.similarityBoost.value)
    ensures o.stability.Some? ==> OptionsJson(o)["stability"] == Num(o.stability.value)
    ensures o.outputFormat.Some? ==> OptionsJson(o)["outputFormat"] == Str(o.outputFormat.value)
    ensures o.sourceLanguage.Some? ==> OptionsJson(o)["sourceLanguage"] == Str(o.sourceLanguage.value)
    ensures o.targetLanguage.Some? ==> OptionsJson(o)["targetLanguage"] == Str(o.targetLanguage.value)
    ensures OptionsJson(o).Keys <= {"similarityBoost", "stability", "outputFormat", "sourceLanguage", "targetLanguage"}
  {
  }

  /** The summary holds `success` and `voiceId` and, beside them, each member
      of the options as it is. */
  lemma SummaryMembers(p: Params)
    ensures Summary(p).Obj? && Summary(p).fields.Keys == {"success", "voiceId"} + OptionsJson(p.options).Keys
    ensures Summary(p).fields["success"] == Bool(true) && Summary(p).fields["voiceId"] == Str(p.voiceId)
    ensures forall k :: k in OptionsJson(p.options) ==> Summary(p).fields[k] == OptionsJson(p.options)[k]
  {
    OptionsJsonMembers(p.options);
  }

  /** The request of one item: POST speech-to-speech with the form and the
      audio, in binary-response mode. */
  ghost predicate IsRequest(p: Params, item: InputItem, apiKey: string, o: RequestOptions)
  {
    && o.formData.Some?
    && Carries(o.formData.value, item, p.source, "audio", "audio_url")
    && IsForm(p, o.formData.value - {"audio", "audio_url"})
    && IsBinaryOptions(o, apiKey, "speech-to-speech", "POST", None, o.formData)
  }

  /** The output of a successful item. */
  ghost predicate IsAudioItem(p: Params, audio: seq<bv8>, now: nat, i: nat, o: OutputItem)
  {
    var f := BasicTable(p.options.outputFormat);
    && o.pairedItem == i
    && o.json == Summary(p)
    && o.binary == map[p.outputBinaryPropertyName :=
                         BinaryData(audio, Some(StampedFileName("speech_to_speech_", now, f)), Some(f.mimeType))]
  }

  /** What handling one item does, given the credential and the API's reply. */
  ghost predicate ItemSpec(item: InputItem, p: Params, credentials: Option<Credentials>,
                           reply: Result<seq<bv8>, Error>, now: nat, i: nat, s: Step)
  {
    && (credentials.None? ==> s == Step(None, Failure(MissingCredentials)))
    && (credentials.Some? && !Available(item, p.source) ==> s == Step(None, Failure(NoBinaryData)))
    && (credentials.Some? && Available(item, p.source) ==>
          && s.request.Some? && IsRequest(p, item, credentials.value.apiKey, s.request.value)
          && (reply.Failure? ==> s.outcome == Failure(reply.error))
          && (reply.Success? ==> s.outcome.Success? && IsAudioItem(p, reply.value, now, i, s.outcome.value)))
  }

  /** Everything before the call: the form, the base descriptor, the binary
      response override and the attached audio. */
  method PrepareRequest(item: InputItem, p: Params, credentials: Option<Credentials>)
    returns (r: Result<RequestOptions, Error>)
    ensures credentials.None? ==> r == Failure(MissingCredentials)
    ensures credentials.Some? && !Available(item, p.source) ==> r == Failure(NoBinaryData)
    ensures credentials.Some? && Available(item, p.source) ==>
              r.Success? && IsRequest(p, item, credentials.value.apiKey, r.value)
  {
    var formData := BuildForm(p);
    var base := CreateBaseOptions(credentials, "speech-to-speech", "POST", None, Some(formData));
    if base.Failure? {
      return Failure(base.error);
    }
    var options := ForBinaryResponse(base.value);
    var withAudio := Attach(options.formData.value, item, p.source, "audio", "audio_url");
    if withAudio.Failure? {
      return Failure(withAudio.error);
    }
    options := options.(formData := Some(withAudio.value));
    BinaryOverrideOfBase(base.value.(formData := options.formData), options, credentials.value.apiKey,
                         "speech-to-speech", "POST", None, options.formData);
    return Success(options);
  }

  /** The body of the `try` block for item `i`. */
  method HandleItem(item: InputItem, p: Params, credentials: Option<Credentials>,
                    reply: Result<seq<bv8>, Error>, now: nat, i: nat)
    returns (s: Step)
    ensures ItemSpec(item, p, credentials, reply, now, i, s)
  {
    var prepared := PrepareRequest(item, p, credentials);
    if prepared.Failure? {
      return Step(None, Failure(prepared.error));
    }
    var options := prepared.value;
    if reply.Failure? {
      return Step(Some(options), Failure(reply.error));
    }
    var format := BasicTable(p.options.outputFormat);
    var filename := StampedFileName("speech_to_speech_", now, format);
    var newItem := OutputItem(Summary(p), map[], i);
    newItem := newItem.(binary := newItem.binary[p.outputBinaryPropertyName := BinaryData(reply.value, Some(filename), Some(format.mimeType))]);
    return Step(Some(options), Success(newItem));
  }

  /** `execute`: the items in order, each through `HandleItem` and the catch block. */
  method Execute(items: seq<InputItem>, params: seq<Params>, credentials: Option<Credentials>,
                 replies: seq<Result<seq<bv8>, Error>>, clock: seq<nat>, continueOnFail: bool)
    returns (out: seq<OutputItem>, steps: seq<Step>, thrown: Option<Error>)
    requires |params| == |items| && |replies| == |items| && |clock| == |items|
    ensures |steps| <= |items| && (thrown.None? ==> |steps| == |items|)
    ensures Process(steps, continueOnFail, ViaHandleApiError) == Run(out, thrown)
    ensures thrown.Some? ==> |steps| > 0 && Process(steps[..|steps| - 1], continueOnFail, ViaHandleApiError).thrown.None?
    ensures forall k :: 0 <= k < |steps| ==> ItemSpec(items[k], params[k], credentials, replies[k], clock[k], k, steps[k])
  {
    out, steps, thrown := [], [], None;
    for i := 0 to |items|
      invariant |steps| == i && thrown.None?
      invariant Process(steps, continueOnFail, ViaHandleApiError) == Run(out, None)
      invariant forall k :: 0 <= k < i ==> ItemSpec(items[k], params[k], credentials, replies[k], clock[k], k, steps[k])
    {
      var s := HandleItem(items[i], params[i], credentials, replies[i], clock[i], i);
      ghost var prev := steps;
      steps, out, thrown := Absorb(steps, out, s, continueOnFail, ViaHandleApiError);
      forall k | 0 <= k <= i
        ensures ItemSpec(items[k], params[k], credentials, replies[k], clock[k], k, steps[k])
      {
        if k < i {
          assert steps[k] == prev[k];
        }
      }
      if thrown.Some? {
        assert steps[..|steps| - 1] == prev;
        return;
      }
    }
  }

  /** With continue-on-fail: one output per item, in order and paired with its
      index; an item has no binary exactly when it failed, and then its JSON
      holds the error.
      Every node states this run lemma over its own `ItemSpec`. */
  lemma ContinueOnFailOutputs(items: seq<InputItem>, params: seq<Params>, credentials: Option<Credentials>,
                              replies: seq<Result<seq<bv8>, Error>>, clock: seq<nat>, steps: seq<Step>)
    requires |params| == |items| && |replies| == |items| && |clock| == |items| && |steps| == |items|
    requires forall k :: 0 <= k < |steps| ==> ItemSpec(items[k], params[k], credentials, replies[k], clock[k], k, steps[k])
    ensures var out := Process(steps, true, ViaHandleApiError).out;
            && |out| == |items|
            && forall k :: 0 <= k < |out| ==>
                 && out[k].pairedItem == k
                 && (out[k].binary == map[] <==> steps[k].outcome.Failure?)
                 && (steps[k].outcome.Failure? ==> out[k].json.Obj? && "error" in out[k].json.fields)
  {
    ContinueOnFailKeepsEveryItem(steps, ViaHandleApiError);
    var out := Process(steps, true, ViaHandleApiError).out;
    forall k | 0 <= k < |out|
      ensures out[k].pairedItem == k
      ensures out[k].binary == map[] <==> steps[k].outcome.Failure?
    {
      if steps[k].outcome.Success? {
        assert params[k].outputBinaryPropertyName in out[k].binary;
      }
    }
  }

  /** One item without a credential sends nothing. */
  lemma ItemWithoutCredentialSendsNothing(item: InputItem, p: Params, credentials: Option<Credentials>,
                           reply: Result<seq<bv8>, Error>, now: nat, i: nat, s: Step)
    requires ItemSpec(item, p, credentials, reply, now, i, s)
    requires credentials.None?
    ensures s.request.None?
  {
  }

  /** Without a credential the node makes no call at all: every item fails
      on `createBaseOptions`, before its request.
      Every node states this run lemma over its own `ItemSpec`. */
  lemma {:induction false} WithoutCredentialNothingSent(items: seq<InputItem>, params: seq<Params>, credentials: Option<Credentials>,
                                                        replies: seq<Result<seq<bv8>, Error>>, clock: seq<nat>, steps: seq<Step>)
    requires |params| == |items| && |replies| == |items| && |clock| == |items| && |steps| <= |items|
    requires credentials.None?
    requires forall k :: 0 <= k < |steps| ==> ItemSpec(items[k], params[k], credentials, replies[k], clock[k], k, steps[k])
    ensures Sent(steps) == []
    decreases |steps|
  {
    if steps != [] {
      var last := |steps| - 1;
      WithoutCredentialNothingSent(items, params, credentials, replies, clock, steps[..last]);
      ItemWithoutCredentialSendsNothing(items[last], params[last], credentials, replies[last], clock[last], last, steps[last]);
    }
  }

}
