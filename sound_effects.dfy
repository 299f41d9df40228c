/** The sound-effects node (nodes/ElevenLabs/Core/Audio/ElevenLabsSoundEffects.node.ts):
    applies a list of effects to the item's audio and stores the result as the
    item's binary. */
module SoundEffects {
  import opened Wrappers
  import opened Json
  import opened Host
  import opened Request
  import opened Items
  import opened AudioFormat
  import opened AudioSource

  const NoEffects := Error("Você precisa adicionar pelo menos um efeito")

  /** One row of the `effects.effectsValues` collection. */
  datatype EffectRow = EffectRow(effectType: string, customEffectName: Option<string>, intensity: real,
                                 startTime: real, endTime: real)

  datatype AdvancedOptions = AdvancedOptions(outputFormat: Option<string>)

  /** The parameters of one item. */
  datatype Params = Params(source: Source, outputBinaryPropertyName: string, effects: seq<EffectRow>,
                           options: AdvancedOptions)

  /** The effect object sent for one row: the custom name for a `custom` row,
      else the type; the intensity; and each time only when positive. */
  function EffectConfig(row: EffectRow): (c: map<string, Value>)
    ensures c.Keys <= {"effect", "intensity", "start_time", "end_time"}
    ensures "effect" in c && c["effect"] == if row.effectType == "custom" then OptStr(row.customEffectName) else Str(row.effectType)
    ensures "intensity" in c && c["intensity"] == Num(row.intensity)
    ensures "start_time" in c <==> row.startTime > 0.0
    ensures "end_time" in c <==> row.endTime > 0.0
    ensures row.startTime > 0.0 ==> c["start_time"] == Num(row.startTime)
    ensures row.endTime > 0.0 ==> c["end_time"] == Num(row.endTime)
  {
    var effectConfig := map["effect" := if row.effectType == "custom" then OptStr(row.customEffectName) else Str(row.effectType),
                            "intensity" := Num(row.intensity)];
    var effectConfig := if row.startTime > 0.0 then effectConfig["start_time" := Num(row.startTime)] else effectConfig;
    if row.endTime > 0.0 then effectConfig["end_time" := Num(row.endTime)] else effectConfig
  }

  /** `effectsCollection.map(...)`: one effect object per row, in order. */
  function EffectConfigs(rows: seq<EffectRow>): (r: seq<Value>)
    ensures |r| == |rows|
    ensures forall k :: 0 <= k < |rows| ==> r[k] == Obj(EffectConfig(rows[k]))
  {
    seq(|rows|, k requires 0 <= k < |rows| => Obj(EffectConfig(rows[k])))
  }

  /** A collection row as the host holds it (echoed in the output JSON). */
  function RowJson(row: EffectRow): Value
  {
    Obj(Extend(map["effectType" := Str(row.effectType), "intensity" := Num(row.intensity),
                   "startTime" := Num(row.startTime), "endTime" := Num(row.endTime)],
               "customEffectName", if row.customEffectName.Some? then Some(Str(row.customEffectName.value)) else None))
  }

  /** The form before the audio is attached: `effects` always, `output_format` iff defined. */
  ghost predicate IsForm(p: Params, form: map<string, Value>)
  {
    && form.Keys == {"effects"} + (if p.options.outputFormat.Some? then {"output_format"} else {})
    && form["effects"] == Arr(EffectConfigs(p.effects))
    && (p.options.outputFormat.Some? ==> form["output_format"] == Str(p.options.outputFormat.value))
  }

  method BuildForm(p: Params) returns (formData: map<string, Value>)
    ensures IsForm(p, formData)
  {
    var effects := EffectConfigs(p.effects);
    formData := map["effects" := Arr(effects)];
    if p.options.outputFormat.Some? {
      formData := formData["output_format" := Str(p.options.outputFormat.value)];
    }
  }

  /** `{success: true, effects: effectsCollection, ...advancedOptions}`. */
  function Summary(p: Params): Value
  {
    Obj(map["success" := Bool(true), "effects" := Arr(seq(|p.effects|, k requires 0 <= k < |p.effects| => RowJson(p.effects[k])))]
        + (if p.options.outputFormat.Some? then map["outputFormat" := Str(p.options.outputFormat.value)] else map[]))
  }

  /** A row is echoed with its four fixed members and its custom name iff set. */
  lemma RowJsonMembers(row: EffectRow)
    ensures RowJson(row).Obj?
    ensures RowJson(row).fields.Keys == {"effectType", "intensity", "startTime", "endTime"}
                                        + (if row.customEffectName.Some? then {"customEffectName"} else {})
    ensures RowJson(row).fields["effectType"] == Str(row.effectType) && RowJson(row).fields["intensity"] == Num(row.intensity)
    ensures RowJson(row).fields["startTime"] == Num(row.startTime) && RowJson(row).fields["endTime"] == Num(row.endTime)
    ensures row.customEffectName.Some? ==> RowJson(row).fields["customEffectName"] == Str(row.customEffectName.value)
  {
  }

  /** The summary holds `success`, the echoed rows in order, and `outputFormat`
      iff it is set. */
  lemma SummaryMembers(p: Params)
    ensures Summary(p).Obj?
    ensures Summary(p).fields.Keys == {"success", "effects"} + (if p.options.outputFormat.Some? then {"outputFormat"} else {})
    ensures Summary(p).fields["success"] == Bool(true)
    ensures Summary(p).fields["effects"].Arr? && |Summary(p).fields["effects"].elems| == |p.effects|
    ensures forall k :: 0 <= k < |p.effects| ==> Summary(p).fields["effects"].elems[k] == RowJson(p.effects[k])
    ensures p.options.outputFormat.Some? ==> Summary(p).fields["outputFormat"] == Str(p.options.outputFormat.value)
  {
  }

  /** The request of one item: POST sound-effects with the form and the audio,
      in binary-response mode. */
  ghost predicate IsRequest(p: Params, item: InputItem, apiKey: string, o: RequestOptions)
  {
    && o.formData.Some?
    && Carries(o.formData.value, item, p.source, "audio", "audio_url")
    && IsForm(p, o.formData.value - {"audio", "audio_url"})
    && IsBinaryOptions(o, apiKey, "sound-effects", "POST", None, o.formData)
  }

  /** The output of a successful item. */
  ghost predicate IsAudioItem(p: Params, audio: seq<bv8>, now: nat, i: nat, o: OutputItem)
  {
    var f := BasicTable(p.options.outputFormat);
    && o.pairedItem == i
    && o.json == Summary(p)
    && o.binary == map[p.outputBinaryPropertyName :=
                         BinaryData(audio, Some(StampedFileName("audio_effects_", now, f)), Some(f.mimeType))]
  }

  /** What handling one item does: the first failing check decides the error,
      and only an item that passes them all is sent. */
  ghost predicate ItemSpec(item: InputItem, p: Params, credentials: Option<Credentials>,
                           reply: Result<seq<bv8>, Error>, now: nat, i: nat, s: Step)
  {
    && (|p.effects| == 0 ==> s == Step(None, Failure(NoEffects)))
    && (|p.effects| > 0 && credentials.None? ==> s == Step(None, Failure(MissingCredentials)))
    && (|p.effects| > 0 && credentials.Some? && !Available(item, p.source) ==> s == Step(None, Failure(NoBinaryData)))
    && (|p.effects| > 0 && credentials.Some? && Available(item, p.source) ==>
          && s.request.Some? && IsRequest(p, item, credentials.value.apiKey, s.request.value)
          && (reply.Failure? ==> s.outcome == Failure(reply.error))
          && (reply.Success? ==> s.outcome.Success? && IsAudioItem(p, reply.value, now, i, s.outcome.value)))
  }

  /** The body of the `try` block for item `i`. */
  method HandleItem(item: InputItem, p: Params, credentials: Option<Credentials>,
                    reply: Result<seq<bv8>, Error>, now: nat, i: nat)
    returns (s: Step)
    ensures ItemSpec(item, p, credentials, reply, now, i, s)
  {
    if |p.effects| == 0 {
      return Step(None, Failure(NoEffects));
    }
    var formData := BuildForm(p);
    var base := CreateBaseOptions(credentials, "sound-effects", "POST", None, Some(formData));
    if base.Failure? {
      return Step(None, Failure(base.error));
    }
    var options := ForBinaryResponse(base.value);
    var withAudio := Attach(options.formData.value, item, p.source, "audio", "audio_url");
    if withAudio.Failure? {
      return Step(None, Failure(withAudio.error));
    }
    options := options.(formData := Some(withAudio.value));
    BinaryOverrideOfBase(base.value.(formData := options.formData), options, credentials.value.apiKey,
                         "sound-effects", "POST", None, options.formData);
    if reply.Failure? {
      return Step(Some(options), Failure(reply.error));
    }
    var format := BasicTable(p.options.outputFormat);
    var filename := StampedFileName("audio_effects_", now, format);
    var newItem := OutputItem(Summary(p), map[], i);
    newItem := newItem.(binary := newItem.binary[p.outputBinaryPropertyName := BinaryData(reply.value, Some(filename), Some(format.mimeType))]);
    return Step(Some(options), Success(newItem));
  }

  /** `execute`: the items in order, each through `HandleItem` and the catch block. */
  method Execute(items: seq<InputItem>, params: seq<Params>, credentials: Option<Credentials>,
                 replies: seq<Result<seq<bv8>, Error>>, clock: seq<nat>, continueOnFail: bool)
    returns (out: seq<OutputItem>, steps: seq<Step>, thrown: Option<Error>)
    requires |params| == |items| && |replies| == |items| && |clock| == |items|
    ensures |steps| <= |items| && (thrown.None? ==> |steps| == |items|)
    ensures Process(steps, continueOnFail, ViaHandleApiError) == Run(out, thrown)
    ensures thrown.Some? ==> |steps| > 0 && Process(steps[..|steps| - 1], continueOnFail, ViaHandleApiError).thrown.None?
    ensures forall k :: 0 <= k < |steps| ==> ItemSpec(items[k], params[k], credentials, replies[k], clock[k], k, steps[k])
  {
    out, steps, thrown := [], [], None;
    for i := 0 to |items|
      invariant |steps| == i && thrown.None?
      invariant Process(steps, continueOnFail, ViaHandleApiError) == Run(out, None)
      invariant forall k :: 0 <= k < i ==> ItemSpec(items[k], params[k], credentials, replies[k], clock[k], k, steps[k])
    {
      var s := HandleItem(items[i], params[i], credentials, replies[i], clock[i], i);
      ghost var prev := steps;
      steps, out, thrown := Absorb(steps, out, s, continueOnFail, ViaHandleApiError);
      forall k | 0 <= k <= i
        ensures ItemSpec(items[k], params[k], credentials, replies[k], clock[k], k, steps[k])
      {
        if k < i {
          assert steps[k] == prev[k];
        }
      }
      if thrown.Some? {
        assert steps[..|steps| - 1] == prev;
        return;
      }
    }
  }

  /** With continue-on-fail: one output per item, in order and paired with its
      index; an item has no binary exactly when it failed, and then its JSON
      holds the error.
      Every node states this run lemma over its own `ItemSpec`. */
  lemma ContinueOnFailOutputs(items: seq<InputItem>, params: seq<Params>, credentials: Option<Credentials>,
                              replies: seq<Result<seq<bv8>, Error>>, clock: seq<nat>, steps: seq<Step>)
    requires |params| == |items| && |replies| == |items| && |clock| == |items| && |steps| == |items|
    requires forall k :: 0 <= k < |steps| ==> ItemSpec(items[k], params[k], credentials, replies[k], clock[k], k, steps[k])
    ensures var out := Process(steps, true, ViaHandleApiError).out;
            && |out| == |items|
            && forall k :: 0 <= k < |out| ==>
                 && out[k].pairedItem == k
                 && (out[k].binary == map[] <==> steps[k].outcome.Failure?)
                 && (steps[k].outcome.Failure? ==> out[k].json.Obj? && "error" in out[k].json.fields)
  {
    ContinueOnFailKeepsEveryItem(steps, ViaHandleApiError);
    var out := Process(steps, true, ViaHandleApiError).out;
    forall k | 0 <= k < |out|
      ensures out[k].pairedItem == k
      ensures out[k].binary == map[] <==> steps[k].outcome.Failure?
    {
      if steps[k].outcome.Success? {
        assert params[k].outputBinaryPropertyName in out[k].binary;
      }
    }
  }

  /** One item without a credential sends nothing. */
  lemma ItemWithoutCredentialSendsNothing(item: InputItem, p: Params, credentials: Option<Credentials>,
                           reply: Result<seq<bv8>, Error>, now: nat, i: nat, s: Step)
    requires ItemSpec(item, p, credentials, reply, now, i, s)
    requires credentials.None?
    ensures s.request.None?
  {
  }

  /** Without a credential the node makes no call at all: every item fails
      before its request, on the effect list or on `createBaseOptions`.
      Every node states this run lemma over its own `ItemSpec`. */
  lemma {:induction false} WithoutCredentialNothingSent(items: seq<InputItem>, params: seq<Params>, credentials: Option<Credentials>,
                                                        replies: seq<Result<seq<bv8>, Error>>, clock: seq<nat>, steps: seq<Step>)
    requires |params| == |items| && |replies| == |items| && |clock| == |items| && |steps| <= |items|
    requires credentials.None?
    requires forall k :: 0 <= k < |steps| ==> ItemSpec(items[k], params[k], credentials, replies[k], clock[k], k, steps[k])
    ensures Sent(steps) == []
    decreases |steps|
  {
    if steps != [] {
      var last := |steps| - 1;
      WithoutCredentialNothingSent(items, params, credentials, replies, clock, steps[..last]);
      ItemWithoutCredentialSendsNothing(items[last], params[last], credentials, replies[last], clock[last], last, steps[last]);
    }
  }

}
