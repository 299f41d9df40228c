/** The older speech-to-text node (nodes/ElevenLabs/ElevenLabsSpeechToText.node.ts):
    the same form as the core node, but it reads the credential itself, writes
    the request descriptor inline and reports errors without `handleApiError`. */
module LegacySpeechToText {
  import opened Wrappers
  import opened Json
  import opened Host
  import opened Request
  import opened Items
  import opened AudioSource
  import SpeechToText

  /** The error JavaScript raises on `credentials.apiKey` when the host hands
      back no credential. */
  const NoCredentialObject := Error("Cannot read properties of undefined (reading 'apiKey')")

  /** The inline descriptor: the key and JSON `Accept` headers, POST to
      speech-to-text, the form, JSON mode. */
  method InlineOptions(apiKey: string, formData: map<string, Value>) returns (o: RequestOptions)
    ensures IsBaseOptions(o, apiKey, "speech-to-text", "POST", None, Some(formData))
    ensures Authenticated(o, apiKey)
  {
    o := RequestOptions(map["xi-api-key" := apiKey, "Accept" := "application/json"], "POST",
                        "https://api.elevenlabs.io/v1/speech-to-text", true, Text, None, Some(formData));
    assert o.uri == BaseUri + "speech-to-text";
  }

  /** What handling one item does: the credential is read before the form is
      built; the parameter `model` fills the core node's `modelId`. */
  ghost predicate ItemSpec(item: InputItem, p: SpeechToText.Params, credentials: Option<Credentials>,
                           reply: Result<Value, Error>, i: nat, s: Step)
  {
    && (credentials.None? ==> s == Step(None, Failure(NoCredentialObject)))
    && (credentials.Some? && !Available(item, p.source) ==> s == Step(None, Failure(NoBinaryData)))
    && (credentials.Some? && Available(item, p.source) ==>
          && s.request.Some? && SpeechToText.IsRequest(p, item, credentials.value.apiKey, s.request.value)
          && Authenticated(s.request.value, credentials.value.apiKey)
          && (reply.Failure? ==> s.outcome == Failure(reply.error))
          && (reply.Success? ==> s.outcome == Success(FormatReturnData(reply.value, i))))
  }

  /** The body of the `try` block for item `i`. */
  method HandleItem(item: InputItem, p: SpeechToText.Params, credentials: Option<Credentials>,
                    reply: Result<Value, Error>, i: nat)
    returns (s: Step)
    ensures ItemSpec(item, p, credentials, reply, i, s)
  {
    if credentials.None? {
      return Step(None, Failure(NoCredentialObject));
    }
    var formData := SpeechToText.BuildForm(p);
    var withAudio := Attach(formData, item, p.source, "file", "cloud_storage_url");
    if withAudio.Failure? {
      return Step(None, Failure(withAudio.error));
    }
    var options := InlineOptions(credentials.value.apiKey, withAudio.value);
    if reply.Failure? {
      return Step(Some(options), Failure(reply.error));
    }
    return Step(Some(options), Success(OutputItem(reply.value, map[], i)));
  }

  /** `execute`: the items in order; the catch block pushes `{error: error.message}`
      under continue-on-fail and rethrows otherwise. */
  method Execute(items: seq<InputItem>, params: seq<SpeechToText.Params>, credentials: Option<Credentials>,
                 replies: seq<Result<Value, Error>>, continueOnFail: bool)
    returns (out: seq<OutputItem>, steps: seq<Step>, thrown: Option<Error>)
    requires |params| == |items| && |replies| == |items|
    ensures |steps| <= |items| && (thrown.None? ==> |steps| == |items|)
    ensures Process(steps, continueOnFail, InlineMessage) == Run(out, thrown)
    ensures thrown.Some? ==> |steps| > 0 && Process(steps[..|steps| - 1], continueOnFail, InlineMessage).thrown.None?
    ensures forall k :: 0 <= k < |steps| ==> ItemSpec(items[k], params[k], credentials, replies[k], k, steps[k])
  {
    out, steps, thrown := [], [], None;
    for i := 0 to |items|
      invariant |steps| == i && thrown.None?
      invariant Process(steps, continueOnFail, InlineMessage) == Run(out, None)
      invariant forall k :: 0 <= k < i ==> ItemSpec(items[k], params[k], credentials, replies[k], k, steps[k])
    {
      var s := HandleItem(items[i], params[i], credentials, replies[i], i);
      ghost var prev := steps;
      steps, out, thrown := Absorb(steps, out, s, continueOnFail, InlineMessage);
      forall k | 0 <= k <= i
        ensures ItemSpec(items[k], params[k], credentials, replies[k], k, steps[k])
      {
        if k < i {
          assert steps[k] == prev[k];
        }
      }
      if thrown.Some? {
        assert steps[..|steps| - 1] == prev;
        return;
      }
    }
  }

  /** Given the same credential, attachment and reply, the older node sends the
      same request as the core node and produces the same item; the two differ
      only in the error raised without a credential. */
  lemma SameRequestAsCore(item: InputItem, p: SpeechToText.Params, credentials: Option<Credentials>,
                          reply: Result<Value, Error>, i: nat, legacy: Step, core: Step)
    requires ItemSpec(item, p, credentials, reply, i, legacy)
    requires SpeechToText.ItemSpec(item, p, credentials, reply, i, core)
    requires credentials.Some?
    ensures legacy == core
  {
    var o := p.options;
    if Available(item, p.source) {
      var a, b := legacy.request.value, core.request.value;
      assert a.formData.value - {"file", "cloud_storage_url"} == b.formData.value - {"file", "cloud_storage_url"} by {
        IsFormUnique(p, a.formData.value - {"file", "cloud_storage_url"}, b.formData.value - {"file", "cloud_storage_url"});
      }
      CarriesUnique(a.formData.value, b.formData.value, item, p.source, "file", "cloud_storage_url");
    }
  }

  /** The form is determined by the parameters. */
  lemma IsFormUnique(p: SpeechToText.Params, f: map<string, Value>, g: map<string, Value>)
    requires SpeechToText.IsForm(p, f) && SpeechToText.IsForm(p, g)
    ensures f == g
  {
    assert f.Keys == g.Keys;
  }

  /** Two forms that agree off the audio fields and carry the same audio are equal. */
  lemma CarriesUnique(f: map<string, Value>, g: map<string, Value>, item: InputItem, src: Source,
                      fileField: string, urlField: string)
    requires Carries(f, item, src, fileField, urlField) && Carries(g, item, src, fileField, urlField)
    requires f - {fileField, urlField} == g - {fileField, urlField}
    ensures f == g
  {
    assert f.Keys == g.Keys by {
      forall key ensures key in f <==> key in g {
        if key != fileField && key != urlField {
          assert key in f <==> key in f - {fileField, urlField};
          assert key in g <==> key in g - {fileField, urlField};
        }
      }
    }
    forall key | key in f ensures f[key] == g[key] {
      if key != fileField && key != urlField {
        assert f[key] == (f - {fileField, urlField})[key];
        assert g[key] == (g - {fileField, urlField})[key];
      }
    }
  }

  /** With continue-on-fail: one output per item, in order and paired with its
      index; a successful item pushes its own answer, a failed one exactly
      `{error: error.message}`, with no fallback text for an empty message.
      Every node states this run lemma over its own `ItemSpec`. */
  lemma ContinueOnFailOutputs(items: seq<InputItem>, params: seq<SpeechToText.Params>, credentials: Option<Credentials>,
                              replies: seq<Result<Value, Error>>, steps: seq<Step>)
    requires |params| == |items| && |replies| == |items| && |steps| == |items|
    requires forall k :: 0 <= k < |steps| ==> ItemSpec(items[k], params[k], credentials, replies[k], k, steps[k])
    ensures var out := Process(steps, true, InlineMessage).out;
            && |out| == |items|
            && forall k :: 0 <= k < |out| ==>
                 && out[k].pairedItem == k
                 && (steps[k].outcome.Success? ==> out[k] == steps[k].outcome.value)
                 && (steps[k].outcome.Failure? ==>
                       out[k] == OutputItem(Obj(map["error" := Str(steps[k].outcome.error.message)]), map[], k))
  {
    ContinueOnFailKeepsEveryItem(steps, InlineMessage);
    var out := Process(steps, true, InlineMessage).out;
    forall k | 0 <= k < |out|
      ensures out[k].pairedItem == k
    {
      assert Reported(steps[k], k, true, InlineMessage) == Success(out[k]);
    }
  }

  /** One item without a credential sends nothing. */
  lemma ItemWithoutCredentialSendsNothing(item: InputItem, p: SpeechToText.Params, credentials: Option<Credentials>,
                           reply: Result<Value, Error>, i: nat, s: Step)
    requires ItemSpec(item, p, credentials, reply, i, s)
    requires credentials.None?
    ensures s.request.None?
  {
  }

  /** Without a credential object the node makes no call at all: every item
      fails on reading `apiKey`, before its request.
      Every node states this run lemma over its own `ItemSpec`. */
  lemma {:induction false} WithoutCredentialNothingSent(items: seq<InputItem>, params: seq<SpeechToText.Params>, credentials: Option<Credentials>,
                                                        replies: seq<Result<Value, Error>>, steps: seq<Step>)
    requires |params| == |items| && |replies| == |items| && |steps| <= |items|
    requires credentials.None?
    requires forall k :: 0 <= k < |steps| ==> ItemSpec(items[k], params[k], credentials, replies[k], k, steps[k])
    ensures Sent(steps) == []
    decreases |steps|
  {
    if steps != [] {
      var last := |steps| - 1;
      WithoutCredentialNothingSent(items, params, credentials, replies, steps[..last]);
      ItemWithoutCredentialSendsNothing(items[last], params[last], credentials, replies[last], last, steps[last]);
    }
  }

}
