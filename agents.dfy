/** The agents node (nodes/ElevenLabs/ConversationalAI/ElevenLabsAgents.node.ts):
    one call to the conversational-AI agents API per item, chosen by the
    `operation` parameter. */
module Agents {
  import opened Wrappers
  import opened Json
  import opened Host
  import opened Request
  import opened Items
  import opened Text
  import opened Conversational

  const DeletedMessage := "Agente excluído com sucesso"

  /** The operations the node dispatches on; any other value sends nothing. */
  const Operations := {"listAgents", "getAgent", "createAgent", "updateAgent",
                       "deleteAgent", "startSession", "sendMessage"}

  /** The parameters of one item (those an operation does not read are ignored). */
  datatype Params = Params(
    operation: string, agentId: string, agentName: string, voiceId: string, systemInstruction: string,
    knowledgeBaseIds: Option<string>, language: Option<string>,
    sessionId: string, message: string, forceAudioResponse: Option<bool>, searchLimit: Option<real>)

  /** `raw.split(',').map(id => id.trim())`: one id per comma-separated piece, in
      order, each without surrounding white space and without a comma. */
  function KnowledgeBaseIds(raw: string): (ids: seq<string>)
    ensures |ids| == Commas(raw) + 1
    ensures forall k :: 0 <= k < |ids| ==> ids[k] == Trim(Split(raw)[k])
    ensures forall k :: 0 <= k < |ids| ==> ',' !in ids[k] && Trim(ids[k]) == ids[k]
  {
    var pieces := Split(raw);
    TrimEachKeepsOut(pieces, ',');
    seq(|pieces|, k requires 0 <= k < |pieces| => Trim(pieces[k]))
  }

  /** Ids already trimmed and free of commas survive joining with ',' and
      parsing back. */
  lemma KnowledgeBaseIdsOfJoin(ids: seq<string>)
    requires |ids| > 0
    requires forall k :: 0 <= k < |ids| ==> ',' !in ids[k] && Trim(ids[k]) == ids[k]
    ensures KnowledgeBaseIds(Join(ids)) == ids
  {
    SplitJoin(ids);
  }

  /** The JSON array of the parsed ids. */
  function IdArray(raw: string): Value
  {
    var ids := KnowledgeBaseIds(raw);
    Arr(seq(|ids|, k requires 0 <= k < |ids| => Str(ids[k])))
  }

  /** The create / update body: name, voice_id and system_instruction always;
      knowledge_base_ids iff the raw list is a non-empty string. */
  ghost predicate IsAgentBody(p: Params, body: map<string, Value>)
  {
    && body.Keys == {"name", "voice_id", "system_instruction"}
                    + (if NonEmpty(p.knowledgeBaseIds) then {"knowledge_base_ids"} else {})
    && body["name"] == Str(p.agentName)
    && body["voice_id"] == Str(p.voiceId)
    && body["system_instruction"] == Str(p.systemInstruction)
    && (NonEmpty(p.knowledgeBaseIds) ==> body["knowledge_base_ids"] == IdArray(p.knowledgeBaseIds.value))
  }

  method BuildAgentBody(p: Params) returns (body: map<string, Value>)
    ensures IsAgentBody(p, body)
  {
    body := map["name" := Str(p.agentName), "voice_id" := Str(p.voiceId),
                "system_instruction" := Str(p.systemInstruction)];
    if NonEmpty(p.knowledgeBaseIds) {
      var ids := IdArray(p.knowledgeBaseIds.value);
      body := body["knowledge_base_ids" := ids];
    }
  }

  /** The session body: empty, with `language` iff it is a non-empty string. */
  ghost predicate IsSessionBody(p: Params, body: map<string, Value>)
  {
    && body.Keys == (if NonEmpty(p.language) then {"language"} else {})
    && (NonEmpty(p.language) ==> body["language"] == Str(p.language.value))
  }

  method BuildSessionBody(p: Params) returns (body: map<string, Value>)
    ensures IsSessionBody(p, body)
  {
    body := map[];
    if NonEmpty(p.language) {
      body := body["language" := Str(p.language.value)];
    }
  }

  /** The interaction body: `message` always; force_audio_response and
      search_limit iff defined, even when false or 0. */
  ghost predicate IsMessageBody(p: Params, body: map<string, Value>)
  {
    && body.Keys == {"message"}
                    + (if p.forceAudioResponse.Some? then {"force_audio_response"} else {})
                    + (if p.searchLimit.Some? then {"search_limit"} else {})
    && body["message"] == Str(p.message)
    && (p.forceAudioResponse.Some? ==> body["force_audio_response"] == Bool(p.forceAudioResponse.value))
    && (p.searchLimit.Some? ==> body["search_limit"] == Num(p.searchLimit.value))
  }

  method BuildMessageBody(p: Params) returns (body: map<string, Value>)
    ensures IsMessageBody(p, body)
  {
    body := map["message" := Str(p.message)];
    if p.forceAudioResponse.Some? {
      body := body["force_audio_response" := Bool(p.forceAudioResponse.value)];
    }
    if p.searchLimit.Some? {
      body := body["search_limit" := Num(p.searchLimit.value)];
    }
  }

  /** The request each operation sends: its verb, its path under
      `conversational/`, and its body for the operations that have one. */
  ghost predicate IsRequest(p: Params, apiKey: string, o: RequestOptions)
  {
    var op := p.operation;
    var agent := "conversational/agents/" + p.agentId;
    if op == "listAgents" then IsBaseOptions(o, apiKey, "conversational/agents", "GET", None, None)
    else if op == "getAgent" then IsBaseOptions(o, apiKey, agent, "GET", None, None)
    else if op == "createAgent" then
      o.body.Some? && IsAgentBody(p, o.body.value) && IsBaseOptions(o, apiKey, "conversational/agents", "POST", o.body, None)
    else if op == "updateAgent" then
      o.body.Some? && IsAgentBody(p, o.body.value) && IsBaseOptions(o, apiKey, agent, "PUT", o.body, None)
    else if op == "deleteAgent" then IsBaseOptions(o, apiKey, agent, "DELETE", None, None)
    else if op == "startSession" then
      o.body.Some? && IsSessionBody(p, o.body.value) && IsBaseOptions(o, apiKey, agent + "/sessions", "POST", o.body, None)
    else if op == "sendMessage" then
      && o.body.Some? && IsMessageBody(p, o.body.value)
      && IsBaseOptions(o, apiKey, "conversational/sessions/" + p.sessionId + "/interaction", "POST", o.body, None)
    else false
  }

  /** The `response` pushed for a successful call: as the API answered, except
      that an empty delete answer becomes the success record. */
  function Response(p: Params, answer: Value): (r: Value)
    ensures p.operation != "deleteAgent" ==> r == answer
    ensures p.operation == "deleteAgent" ==> r == DeleteFallback(answer, DeletedMessage)
  {
    if p.operation == "deleteAgent" then DeleteFallback(answer, DeletedMessage) else answer
  }

  /** What handling one item does: an unknown operation pushes `undefined`
      without reading the credential; a known one needs the credential, sends
      its request and pushes the (possibly replaced) response. */
  ghost predicate ItemSpec(p: Params, credentials: Option<Credentials>, reply: Result<Value, Error>, i: nat, s: Step)
  {
    && (p.operation !in Operations ==> s == Step(None, Success(FormatReturnData(Undefined, i))))
    && (p.operation in Operations && credentials.None? ==> s == Step(None, Failure(MissingCredentials)))
    && (p.operation in Operations && credentials.Some? ==>
          && s.request.Some? && IsRequest(p, credentials.value.apiKey, s.request.value)
          && Authenticated(s.request.value, credentials.value.apiKey)
          && (reply.Failure? ==> s.outcome == Failure(reply.error))
          && (reply.Success? ==> s.outcome == Success(FormatReturnData(Response(p, reply.value), i))))
  }

  /** The if-chain over the operation: the base descriptor of a known
      operation (or the credential error), nothing for an unknown one. */
  method Dispatch(p: Params, credentials: Option<Credentials>) returns (r: Option<Result<RequestOptions, Error>>)
    ensures r.None? <==> p.operation !in Operations
    ensures r.Some? && credentials.None? ==> r.value == Failure(MissingCredentials)
    ensures r.Some? && credentials.Some? ==>
              r.value.Success? && IsRequest(p, credentials.value.apiKey, r.value.value)
              && Authenticated(r.value.value, credentials.value.apiKey)
  {
    var op := p.operation;
    if op == "listAgents" {
      var b := CreateBaseOptions(credentials, "conversational/agents", "GET");
      r := Some(b);
    } else if op == "getAgent" {
      var b := CreateBaseOptions(credentials, "conversational/agents/" + p.agentId, "GET");
      r := Some(b);
    } else if op == "createAgent" {
      var body := BuildAgentBody(p);
      var b := CreateBaseOptions(credentials, "conversational/agents", "POST", Some(body));
      r := Some(b);
    } else if op == "updateAgent" {
      var body := BuildAgentBody(p);
      var b := CreateBaseOptions(credentials, "conversational/agents/" + p.agentId, "PUT", Some(body));
      r := Some(b);
    } else if op == "deleteAgent" {
      var b := CreateBaseOptions(credentials, "conversational/agents/" + p.agentId, "DELETE");
      r := Some(b);
    } else if op == "startSession" {
      var body := BuildSessionBody(p);
      var b := CreateBaseOptions(credentials, "conversational/agents/" + p.agentId + "/sessions", "POST", Some(body));
      r := Some(b);
    } else if op == "sendMessage" {
      var body := BuildMessageBody(p);
      var b := CreateBaseOptions(credentials, "conversational/sessions/" + p.sessionId + "/interaction", "POST", Some(body));
      r := Some(b);
    } else {
      return None;
    }
  }

  /** The body of the `try` block for item `i`. */
  method HandleItem(p: Params, credentials: Option<Credentials>, reply: Result<Value, Error>, i: nat)
    returns (s: Step)
    ensures ItemSpec(p, credentials, reply, i, s)
  {
    var op := p.operation;
    var dispatched := Dispatch(p, credentials);
    if dispatched.None? {
      return Step(None, Success(FormatReturnData(Undefined, i)));
    }
    var base := dispatched.value;
    if base.Failure? {
      return Step(None, Failure(base.error));
    }
    if reply.Failure? {
      return Step(Some(base.value), Failure(reply.error));
    }
    var response := reply.value;
    if op == "deleteAgent" {
      response := DeleteFallback(response, DeletedMessage);
    }
    return Step(Some(base.value), Success(FormatReturnData(response, i)));
  }

  /** `execute`: the items in order, each through `HandleItem` and `handleApiError`. */
  method Execute(params: seq<Params>, credentials: Option<Credentials>,
                 replies: seq<Result<Value, Error>>, continueOnFail: bool)
    returns (out: seq<OutputItem>, steps: seq<Step>, thrown: Option<Error>)
    requires |replies| == |params|
    ensures |steps| <= |params| && (thrown.None? ==> |steps| == |params|)
    ensures Process(steps, continueOnFail, ViaHandleApiError) == Run(out, thrown)
    ensures thrown.Some? ==> |steps| > 0 && Process(steps[..|steps| - 1], continueOnFail, ViaHandleApiError).thrown.None?
    ensures forall k :: 0 <= k < |steps| ==> ItemSpec(params[k], credentials, replies[k], k, steps[k])
  {
    out, steps, thrown := [], [], None;
    for i := 0 to |params|
      invariant |steps| == i && thrown.None?
      invariant Process(steps, continueOnFail, ViaHandleApiError) == Run(out, None)
      invariant forall k :: 0 <= k < i ==> ItemSpec(params[k], credentials, replies[k], k, steps[k])
    {
      var s := HandleItem(params[i], credentials, replies[i], i);
      ghost var prev := steps;
      steps, out, thrown := Absorb(steps, out, s, continueOnFail, ViaHandleApiError);
      forall k | 0 <= k <= i
        ensures ItemSpec(params[k], credentials, replies[k], k, steps[k])
      {
        if k < i {
          assert steps[k] == prev[k];
        }
      }
      if thrown.Some? {
        assert steps[..|steps| - 1] == prev;
        return;
      }
    }
  }

  /** Every request the node sends comes from a known operation and is a JSON
      call without a form; it carries a body exactly for the writing operations. */
  lemma RequestsAreConversational(p: Params, apiKey: string, o: RequestOptions)
    requires IsRequest(p, apiKey, o)
    ensures p.operation in Operations
    ensures o.formData.None? && o.json
    ensures o.body.Some? <==> p.operation in {"createAgent", "updateAgent", "startSession", "sendMessage"}
    ensures o.verb == "GET" <==> p.operation in {"listAgents", "getAgent"}
  {
  }

  /** A successful delete always yields a truthy record. */
  lemma DeleteAlwaysAnswers(p: Params, credentials: Option<Credentials>, reply: Result<Value, Error>, i: nat, s: Step)
    requires ItemSpec(p, credentials, reply, i, s)
    requires p.operation == "deleteAgent" && credentials.Some? && reply.Success?
    ensures s.outcome.Success? && Truthy(s.outcome.value.json)
    ensures Truthy(reply.value) ==> s.outcome.value.json == reply.value
    ensures !Truthy(reply.value) ==> s.outcome.value.json == DeletedRecord(DeletedMessage)
  {
  }

  /** With continue-on-fail: one output per item, in order and paired with its
      index; a successful item pushes its own answer, a failed one an object
      holding the error.
      Every node states this run lemma over its own `ItemSpec`. */
  lemma ContinueOnFailOutputs(params: seq<Params>, credentials: Option<Credentials>,
                              replies: seq<Result<Value, Error>>, steps: seq<Step>)
    requires |replies| == |params| && |steps| == |params|
    requires forall k :: 0 <= k < |steps| ==> ItemSpec(params[k], credentials, replies[k], k, steps[k])
    ensures var out := Process(steps, true, ViaHandleApiError).out;
            && |out| == |params|
            && forall k :: 0 <= k < |out| ==>
                 && out[k].pairedItem == k
                 && (steps[k].outcome.Success? ==> out[k] == steps[k].outcome.value)
                 && (steps[k].outcome.Failure? ==> out[k].json.Obj? && "error" in out[k].json.fields)
  {
    ContinueOnFailKeepsEveryItem(steps, ViaHandleApiError);
    var out := Process(steps, true, ViaHandleApiError).out;
    forall k | 0 <= k < |out|
      ensures out[k].pairedItem == k
    {
      assert Reported(steps[k], k, true, ViaHandleApiError) == Success(out[k]);
    }
  }

  /** One item without a credential sends nothing. */
  lemma ItemWithoutCredentialSendsNothing(p: Params, credentials: Option<Credentials>, reply: Result<Value, Error>, i: nat, s: Step)
    requires ItemSpec(p, credentials, reply, i, s)
    requires credentials.None?
    ensures s.request.None?
  {
  }

  /** Without a credential the node makes no call at all: a known operation
      fails on `createBaseOptions` and an unknown one sends nothing anyway.
      Every node states this run lemma over its own `ItemSpec`. */
  lemma {:induction false} WithoutCredentialNothingSent(params: seq<Params>, credentials: Option<Credentials>, replies: seq<Result<Value, Error>>, steps: seq<Step>)
    requires |replies| == |params| && |steps| <= |params|
    requires credentials.None?
    requires forall k :: 0 <= k < |steps| ==> ItemSpec(params[k], credentials, replies[k], k, steps[k])
    ensures Sent(steps) == []
    decreases |steps|
  {
    if steps != [] {
      var last := |steps| - 1;
      WithoutCredentialNothingSent(params, credentials, replies, steps[..last]);
      ItemWithoutCredentialSendsNothing(params[last], credentials, replies[last], last, steps[last]);
    }
  }

}
