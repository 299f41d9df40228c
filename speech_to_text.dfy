/** The speech-to-text node (nodes/ElevenLabs/Core/ElevenLabsSpeechToText.node.ts):
    uploads the item's audio, or names it by URL, and returns the transcription
    the API answers with. */
module SpeechToText {
  import opened Wrappers
  import opened Json
  import opened Host
  import opened Request
  import opened Items
  import opened AudioSource

  /** The `advancedOptions` collection; an absent member is `undefined`. */
  datatype AdvancedOptions = AdvancedOptions(
    languageCode: Option<string>, diarization: Option<bool>, timestampsGranularity: Option<string>,
    tagAudioEvents: Option<bool>, numSpeakers: Option<real>, fileFormat: Option<string>)

  /** The parameters of one item. */
  datatype Params = Params(source: Source, modelId: string, options: AdvancedOptions)

  const FormFields := {"model_id", "language_code", "diarize", "timestamps_granularity",
                       "tag_audio_events", "num_speakers", "file_format"}

  /** The form before the audio is attached: `model_id` always;
      `language_code` iff the language code is a non-empty string (a truthiness
      test); every other option iff it is defined, even when false or 0. */
  ghost predicate IsForm(p: Params, form: map<string, Value>)
  {
    var o := p.options;
    && form.Keys <= FormFields
    && "model_id" in form && form["model_id"] == Str(p.modelId)
    && ("language_code" in form <==> NonEmpty(o.languageCode))
    && ("diarize" in form <==> o.diarization.Some?)
    && ("timestamps_granularity" in form <==> o.timestampsGranularity.Some?)
    && ("tag_audio_events" in form <==> o.tagAudioEvents.Some?)
    && ("num_speakers" in form <==> o.numSpeakers.Some?)
    && ("file_format" in form <==> o.fileFormat.Some?)
    && (NonEmpty(o.languageCode) ==> form["language_code"] == Str(o.languageCode.value))
    && (o.diarization.Some? ==> form["diarize"] == Bool(o.diarization.value))
    && (o.timestampsGranularity.Some? ==> form["timestamps_granularity"] == Str(o.timestampsGranularity.value))
    && (o.tagAudioEvents.Some? ==> form["tag_audio_events"] == Bool(o.tagAudioEvents.value))
    && (o.numSpeakers.Some? ==> form["num_speakers"] == Num(o.numSpeakers.value))
    && (o.fileFormat.Some? ==> form["file_format"] == Str(o.fileFormat.value))
  }

  /** Builds the form field by field, as both speech-to-text nodes do. */
  method BuildForm(p: Params) returns (formData: map<string, Value>)
    ensures IsForm(p, formData)
  {
    var o := p.options;
    formData := map["model_id" := Str(p.modelId)];
    if NonEmpty(o.languageCode) {
      formData := formData["language_code" := Str(o.languageCode.value)];
    }
    if o.diarization.Some? {
      formData := formData["diarize" := Bool(o.diarization.value)];
    }
    if o.timestampsGranularity.Some? {
      formData := formData["timestamps_granularity" := Str(o.timestampsGranularity.value)];
    }
    if o.tagAudioEvents.Some? {
      formData := formData["tag_audio_events" := Bool(o.tagAudioEvents.value)];
    }
    if o.numSpeakers.Some? {
      formData := formData["num_speakers" := Num(o.numSpeakers.value)];
    }
    if o.fileFormat.Some? {
      formData := formData["file_format" := Str(o.fileFormat.value)];
    }
  }

  /** The request of one item: POST speech-to-text in JSON mode, with the form
      and the audio as a `file` upload or a `cloud_storage_url`. */
  ghost predicate IsRequest(p: Params, item: InputItem, apiKey: string, o: RequestOptions)
  {
    && o.formData.Some?
    && Carries(o.formData.value, item, p.source, "file", "cloud_storage_url")
    && IsForm(p, o.formData.value - {"file", "cloud_storage_url"})
    && IsBaseOptions(o, apiKey, "speech-to-text", "POST", None, o.formData)
  }

  /** What handling one item does, given the credential and the API's reply:
      the credential is checked before the attachment. */
  ghost predicate ItemSpec(item: InputItem, p: Params, credentials: Option<Credentials>,
                           reply: Result<Value, Error>, i: nat, s: Step)
  {
    && (credentials.None? ==> s == Step(None, Failure(MissingCredentials)))
    && (credentials.Some? && !Available(item, p.source) ==> s == Step(None, Failure(NoBinaryData)))
    && (credentials.Some? && Available(item, p.source) ==>
          && s.request.Some? && IsRequest(p, item, credentials.value.apiKey, s.request.value)
          && Authenticated(s.request.value, credentials.value.apiKey)
          && (reply.Failure? ==> s.outcome == Failure(reply.error))
          && (reply.Success? ==> s.outcome == Success(FormatReturnData(reply.value, i))))
  }

  /** The body of the `try` block for item `i`. */
  method HandleItem(item: InputItem, p: Params, credentials: Option<Credentials>,
                    reply: Result<Value, Error>, i: nat)
    returns (s: Step)
    ensures ItemSpec(item, p, credentials, reply, i, s)
  {
    var formData := BuildForm(p);
    var options := CreateBaseOptions(credentials, "speech-to-text", "POST", None, Some(formData));
    if options.Failure? {
      return Step(None, Failure(options.error));
    }
    var withAudio := Attach(formData, item, p.source, "file", "cloud_storage_url");
    if withAudio.Failure? {
      return Step(None, Failure(withAudio.error));
    }
    var request := options.value.(formData := Some(withAudio.value));
    if reply.Failure? {
      return Step(Some(request), Failure(reply.error));
    }
    return Step(Some(request), Success(FormatReturnData(reply.value, i)));
  }

  /** `execute`: the items in order, each through `HandleItem` and `handleApiError`. */
  method Execute(items: seq<InputItem>, params: seq<Params>, credentials: Option<Credentials>,
                 replies: seq<Result<Value, Error>>, continueOnFail: bool)
    returns (out: seq<OutputItem>, steps: seq<Step>, thrown: Option<Error>)
    requires |params| == |items| && |replies| == |items|
    ensures |steps| <= |items| && (thrown.None? ==> |steps| == |items|)
    ensures Process(steps, continueOnFail, ViaHandleApiError) == Run(out, thrown)
    ensures thrown.Some? ==> |steps| > 0 && Process(steps[..|steps| - 1], continueOnFail, ViaHandleApiError).thrown.None?
    ensures forall k :: 0 <= k < |steps| ==> ItemSpec(items[k], params[k], credentials, replies[k], k, steps[k])
  {
    out, steps, thrown := [], [], None;
    for i := 0 to |items|
      invariant |steps| == i && thrown.None?
      invariant Process(steps, continueOnFail, ViaHandleApiError) == Run(out, None)
      invariant forall k :: 0 <= k < i ==> ItemSpec(items[k], params[k], credentials, replies[k], k, steps[k])
    {
      var s := HandleItem(items[i], params[i], credentials, replies[i], i);
      ghost var prev := steps;
      steps, out, thrown := Absorb(steps, out, s, continueOnFail, ViaHandleApiError);
      forall k | 0 <= k <= i
        ensures ItemSpec(items[k], params[k], credentials, replies[k], k, steps[k])
      {
        if k < i {
          assert steps[k] == prev[k];
        }
      }
      if thrown.Some? {
        assert steps[..|steps| - 1] == prev;
        return;
      }
    }
  }

  /** With continue-on-fail: one output per item, in order and paired with its
      index; a successful item pushes its own answer, a failed one an object
      holding the error.
      Every node states this run lemma over its own `ItemSpec`. */
  lemma ContinueOnFailOutputs(items: seq<InputItem>, params: seq<Params>, credentials: Option<Credentials>,
                              replies: seq<Result<Value, Error>>, steps: seq<Step>)
    requires |params| == |items| && |replies| == |items| && |steps| == |items|
    requires forall k :: 0 <= k < |steps| ==> ItemSpec(items[k], params[k], credentials, replies[k], k, steps[k])
    ensures var out := Process(steps, true, ViaHandleApiError).out;
            && |out| == |items|
            && forall k :: 0 <= k < |out| ==>
                 && out[k].pairedItem == k
                 && (steps[k].outcome.Success? ==> out[k] == steps[k].outcome.value)
                 && (steps[k].outcome.Failure? ==> out[k].json.Obj? && "error" in out[k].json.fields)
  {
    ContinueOnFailKeepsEveryItem(steps, ViaHandleApiError);
    var out := Process(steps, true, ViaHandleApiError).out;
    forall k | 0 <= k < |out|
      ensures out[k].pairedItem == k
    {
      assert Reported(steps[k], k, true, ViaHandleApiError) == Success(out[k]);
    }
  }

  /** One item without a credential sends nothing. */
  lemma ItemWithoutCredentialSendsNothing(item: InputItem, p: Params, credentials: Option<Credentials>,
                           reply: Result<Value, Error>, i: nat, s: Step)
    requires ItemSpec(item, p, credentials, reply, i, s)
    requires credentials.None?
    ensures s.request.None?
  {
  }

  /** Without a credential the node makes no call at all: every item fails
      on `createBaseOptions`, before its request.
      Every node states this run lemma over its own `ItemSpec`. */
  lemma {:induction false} WithoutCredentialNothingSent(items: seq<InputItem>, params: seq<Params>, credentials: Option<Credentials>,
                                                        replies: seq<Result<Value, Error>>, steps: seq<Step>)
    requires |params| == |items| && |replies| == |items| && |steps| <= |items|
    requires credentials.None?
    requires forall k :: 0 <= k < |steps| ==> ItemSpec(items[k], params[k], credentials, replies[k], k, steps[k])
    ensures Sent(steps) == []
    decreases |steps|
  {
    if steps != [] {
      var last := |steps| - 1;
      WithoutCredentialNothingSent(items, params, credentials, replies, steps[..last]);
      ItemWithoutCredentialSendsNothing(items[last], params[last], credentials, replies[last], last, steps[last]);
    }
  }

}
