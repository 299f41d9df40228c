/** The knowledge-base node (nodes/ElevenLabs/ConversationalAI/ElevenLabsKnowledgeBase.node.ts):
    one call to the conversational-AI knowledge-base API per item, chosen by
    the `operation` parameter. */
module KnowledgeBase {
  import opened Wrappers
  import opened Json
  import opened Host
  import opened Request
  import opened Items
  import opened Conversational

  const BaseDeletedMessage := "Base de conhecimento excluída com sucesso"
  const DocumentRemovedMessage := "Documento removido com sucesso"

  /** The operations the node dispatches on; any other value sends nothing. */
  const Operations := {"listKnowledgeBases", "getKnowledgeBase", "createKnowledgeBase", "updateKnowledgeBase",
                       "deleteKnowledgeBase", "addDocuments", "listDocuments", "removeDocument"}

  /** The parameters of one item (those an operation does not read are ignored). */
  datatype Params = Params(
    operation: string, knowledgeBaseId: string, knowledgeBaseName: string, description: string,
    documentUrl: string, documentType: string, documentName: Option<string>, namespace: Option<string>,
    documentId: string)

  /** The create / update body: `name` always, `description` iff non-empty. */
  ghost predicate IsBaseBody(p: Params, body: map<string, Value>)
  {
    && body.Keys == {"name"} + (if p.description != "" then {"description"} else {})
    && body["name"] == Str(p.knowledgeBaseName)
    && (p.description != "" ==> body["description"] == Str(p.description))
  }

  method BuildBaseBody(p: Params) returns (body: map<string, Value>)
    ensures IsBaseBody(p, body)
  {
    body := map["name" := Str(p.knowledgeBaseName)];
    if p.description != "" {
      body := body["description" := Str(p.description)];
    }
  }

  /** `documentType` names a key that a later assignment overwrites. */
  predicate TypeOverwritten(p: Params)
  {
    || (p.documentType == "name" && NonEmpty(p.documentName))
    || (p.documentType == "namespace" && NonEmpty(p.namespace))
  }

  /** The document body: the URL under the key the document type names, then
      `name` and `namespace` iff non-empty, each assignment overwriting an
      earlier key of the same name. */
  ghost predicate IsDocumentBody(p: Params, body: map<string, Value>)
  {
    && body.Keys == {p.documentType}
                    + (if NonEmpty(p.documentName) then {"name"} else {})
                    + (if NonEmpty(p.namespace) then {"namespace"} else {})
    && (!TypeOverwritten(p) ==> body[p.documentType] == Str(p.documentUrl))
    && (NonEmpty(p.documentName) ==> body["name"] == Str(p.documentName.value))
    && (NonEmpty(p.namespace) ==> body["namespace"] == Str(p.namespace.value))
  }

  method BuildDocumentBody(p: Params) returns (body: map<string, Value>)
    ensures IsDocumentBody(p, body)
  {
    body := map[p.documentType := Str(p.documentUrl)];
    if NonEmpty(p.documentName) {
      body := body["name" := Str(p.documentName.value)];
    }
    if NonEmpty(p.namespace) {
      body := body["namespace" := Str(p.namespace.value)];
    }
  }

  /** For the two document types the editor offers, the URL is always sent
      under its own key, next to nothing but the optional name and namespace. */
  lemma DocumentUrlKept(p: Params, body: map<string, Value>)
    requires p.documentType in {"web_url", "file_url"}
    requires IsDocumentBody(p, body)
    ensures p.documentType in body && body[p.documentType] == Str(p.documentUrl)
    ensures |body| == 1 + (if NonEmpty(p.documentName) then 1 else 0) + (if NonEmpty(p.namespace) then 1 else 0)
  {
    var dt := p.documentType;
    if NonEmpty(p.documentName) && NonEmpty(p.namespace) {
      assert body.Keys == {dt} + {"name"} + {"namespace"};
    } else if NonEmpty(p.documentName) {
      assert body.Keys == {dt} + {"name"};
    } else if NonEmpty(p.namespace) {
      assert body.Keys == {dt} + {"namespace"};
    } else {
      assert body.Keys == {dt};
    }
  }

  /** The request each operation sends: its verb, its path under
      `conversational/knowledge-bases`, and its body for the operations that
      have one. */
  ghost predicate IsRequest(p: Params, apiKey: string, o: RequestOptions)
  {
    var op := p.operation;
    var root := "conversational/knowledge-bases";
    var base := root + "/" + p.knowledgeBaseId;
    if op == "listKnowledgeBases" then IsBaseOptions(o, apiKey, root, "GET", None, None)
    else if op == "getKnowledgeBase" then IsBaseOptions(o, apiKey, base, "GET", None, None)
    else if op == "createKnowledgeBase" then
      o.body.Some? && IsBaseBody(p, o.body.value) && IsBaseOptions(o, apiKey, root, "POST", o.body, None)
    else if op == "updateKnowledgeBase" then
      o.body.Some? && IsBaseBody(p, o.body.value) && IsBaseOptions(o, apiKey, base, "PUT", o.body, None)
    else if op == "deleteKnowledgeBase" then IsBaseOptions(o, apiKey, base, "DELETE", None, None)
    else if op == "addDocuments" then
      o.body.Some? && IsDocumentBody(p, o.body.value) && IsBaseOptions(o, apiKey, base + "/documents", "POST", o.body, None)
    else if op == "listDocuments" then IsBaseOptions(o, apiKey, base + "/documents", "GET", None, None)
    else if op == "removeDocument" then
      IsBaseOptions(o, apiKey, base + "/documents/" + p.documentId, "DELETE", None, None)
    else false
  }

  /** The `response` pushed for a successful call: as the API answered, except
      that an empty answer to either delete becomes its success record. */
  function Response(p: Params, answer: Value): (r: Value)
    ensures p.operation == "deleteKnowledgeBase" ==> r == DeleteFallback(answer, BaseDeletedMessage)
    ensures p.operation == "removeDocument" ==> r == DeleteFallback(answer, DocumentRemovedMessage)
    ensures p.operation !in {"deleteKnowledgeBase", "removeDocument"} ==> r == answer
  {
    if p.operation == "deleteKnowledgeBase" then DeleteFallback(answer, BaseDeletedMessage)
    else if p.operation == "removeDocument" then DeleteFallback(answer, DocumentRemovedMessage)
    else answer
  }

  /** What handling one item does: an unknown operation pushes `undefined`
      without reading the credential; a known one needs the credential, sends
      its request and pushes the (possibly replaced) response. */
  ghost predicate ItemSpec(p: Params, credentials: Option<Credentials>, reply: Result<Value, Error>, i: nat, s: Step)
  {
    && (p.operation !in Operations ==> s == Step(None, Success(FormatReturnData(Undefined, i))))
    && (p.operation in Operations && credentials.None? ==> s == Step(None, Failure(MissingCredentials)))
    && (p.operation in Operations && credentials.Some? ==>
          && s.request.Some? && IsRequest(p, credentials.value.apiKey, s.request.value)
          && Authenticated(s.request.value, credentials.value.apiKey)
          && (reply.Failure? ==> s.outcome == Failure(reply.error))
          && (reply.Success? ==> s.outcome == Success(FormatReturnData(Response(p, reply.value), i))))
  }

  /** The if-chain over the operation: the base descriptor of a known
      operation (or the credential error), nothing for an unknown one. */
  method Dispatch(p: Params, credentials: Option<Credentials>) returns (r: Option<Result<RequestOptions, Error>>)
    ensures r.None? <==> p.operation !in Operations
    ensures r.Some? && credentials.None? ==> r.value == Failure(MissingCredentials)
    ensures r.Some? && credentials.Some? ==>
              r.value.Success? && IsRequest(p, credentials.value.apiKey, r.value.value)
              && Authenticated(r.value.value, credentials.value.apiKey)
  {
    var op := p.operation;
    var root := "conversational/knowledge-bases";
    if op == "listKnowledgeBases" {
      var b := CreateBaseOptions(credentials, root, "GET");
      r := Some(b);
    } else if op == "getKnowledgeBase" {
      var b := CreateBaseOptions(credentials, root + "/" + p.knowledgeBaseId, "GET");
      r := Some(b);
    } else if op == "createKnowledgeBase" {
      var body := BuildBaseBody(p);
      var b := CreateBaseOptions(credentials, root, "POST", Some(body));
      r := Some(b);
    } else if op == "updateKnowledgeBase" {
      var body := BuildBaseBody(p);
      var b := CreateBaseOptions(credentials, root + "/" + p.knowledgeBaseId, "PUT", Some(body));
      r := Some(b);
    } else if op == "deleteKnowledgeBase" {
      var b := CreateBaseOptions(credentials, root + "/" + p.knowledgeBaseId, "DELETE");
      r := Some(b);
    } else if op == "addDocuments" {
      var body := BuildDocumentBody(p);
      var b := CreateBaseOptions(credentials, root + "/" + p.knowledgeBaseId + "/documents", "POST", Some(body));
      r := Some(b);
    } else if op == "listDocuments" {
      var b := CreateBaseOptions(credentials, root + "/" + p.knowledgeBaseId + "/documents", "GET");
      r := Some(b);
    } else if op == "removeDocument" {
      var b := CreateBaseOptions(credentials, root + "/" + p.knowledgeBaseId + "/documents/" + p.documentId, "DELETE");
      r := Some(b);
    } else {
      return None;
    }
  }

  /** The body of the `try` block for item `i`. */
  method HandleItem(p: Params, credentials: Option<Credentials>, reply: Result<Value, Error>, i: nat)
    returns (s: Step)
    ensures ItemSpec(p, credentials, reply, i, s)
  {
    var op := p.operation;
    var dispatched := Dispatch(p, credentials);
    if dispatched.None? {
      return Step(None, Success(FormatReturnData(Undefined, i)));
    }
    var base := dispatched.value;
    if base.Failure? {
      return Step(None, Failure(base.error));
    }
    if reply.Failure? {
      return Step(Some(base.value), Failure(reply.error));
    }
    var response := reply.value;
    if op == "deleteKnowledgeBase" {
      response := DeleteFallback(response, BaseDeletedMessage);
    } else if op == "removeDocument" {
      response := DeleteFallback(response, DocumentRemovedMessage);
    }
    return Step(Some(base.value), Success(FormatReturnData(response, i)));
  }

  /** `execute`: the items in order, each through `HandleItem` and `handleApiError`. */
  method Execute(params: seq<Params>, credentials: Option<Credentials>,
                 replies: seq<Result<Value, Error>>, continueOnFail: bool)
    returns (out: seq<OutputItem>, steps: seq<Step>, thrown: Option<Error>)
    requires |replies| == |params|
    ensures |steps| <= |params| && (thrown.None? ==> |steps| == |params|)
    ensures Process(steps, continueOnFail, ViaHandleApiError) == Run(out, thrown)
    ensures thrown.Some? ==> |steps| > 0 && Process(steps[..|steps| - 1], continueOnFail, ViaHandleApiError).thrown.None?
    ensures forall k :: 0 <= k < |steps| ==> ItemSpec(params[k], credentials, replies[k], k, steps[k])
  {
    out, steps, thrown := [], [], None;
    for i := 0 to |params|
      invariant |steps| == i && thrown.None?
      invariant Process(steps, continueOnFail, ViaHandleApiError) == Run(out, None)
      invariant forall k :: 0 <= k < i ==> ItemSpec(params[k], credentials, replies[k], k, steps[k])
    {
      var s := HandleItem(params[i], credentials, replies[i], i);
      ghost var prev := steps;
      steps, out, thrown := Absorb(steps, out, s, continueOnFail, ViaHandleApiError);
      forall k | 0 <= k <= i
        ensures ItemSpec(params[k], credentials, replies[k], k, steps[k])
      {
        if k < i {
          assert steps[k] == prev[k];
        }
      }
      if thrown.Some? {
        assert steps[..|steps| - 1] == prev;
        return;
      }
    }
  }

  /** Only create, update and add-documents carry a body; nothing is sent as a form. */
  lemma BodyOnlyWhenWriting(p: Params, apiKey: string, o: RequestOptions)
    requires IsRequest(p, apiKey, o)
    ensures p.operation in Operations
    ensures o.formData.None? && o.json
    ensures o.body.Some? <==> p.operation in {"createKnowledgeBase", "updateKnowledgeBase", "addDocuments"}
    ensures o.verb == "DELETE" <==> p.operation in {"deleteKnowledgeBase", "removeDocument"}
  {
  }

  /** With continue-on-fail: one output per item, in order and paired with its
      index; a successful item pushes its own answer, a failed one an object
      holding the error.
      Every node states this run lemma over its own `ItemSpec`. */
  lemma ContinueOnFailOutputs(params: seq<Params>, credentials: Option<Credentials>,
                              replies: seq<Result<Value, Error>>, steps: seq<Step>)
    requires |replies| == |params| && |steps| == |params|
    requires forall k :: 0 <= k < |steps| ==> ItemSpec(params[k], credentials, replies[k], k, steps[k])
    ensures var out := Process(steps, true, ViaHandleApiError).out;
            && |out| == |params|
            && forall k :: 0 <= k < |out| ==>
                 && out[k].pairedItem == k
                 && (steps[k].outcome.Success? ==> out[k] == steps[k].outcome.value)
                 && (steps[k].outcome.Failure? ==> out[k].json.Obj? && "error" in out[k].json.fields)
  {
    ContinueOnFailKeepsEveryItem(steps, ViaHandleApiError);
    var out := Process(steps, true, ViaHandleApiError).out;
    forall k | 0 <= k < |out|
      ensures out[k].pairedItem == k
    {
      assert Reported(steps[k], k, true, ViaHandleApiError) == Success(out[k]);
    }
  }

  /** One item without a credential sends nothing. */
  lemma ItemWithoutCredentialSendsNothing(p: Params, credentials: Option<Credentials>, reply: Result<Value, Error>, i: nat, s: Step)
    requires ItemSpec(p, credentials, reply, i, s)
    requires credentials.None?
    ensures s.request.None?
  {
  }

  /** Without a credential the node makes no call at all: a known operation
      fails on `createBaseOptions` and an unknown one sends nothing anyway.
      Every node states this run lemma over its own `ItemSpec`. */
  lemma {:induction false} WithoutCredentialNothingSent(params: seq<Params>, credentials: Option<Credentials>, replies: seq<Result<Value, Error>>, steps: seq<Step>)
    requires |replies| == |params| && |steps| <= |params|
    requires credentials.None?
    requires forall k :: 0 <= k < |steps| ==> ItemSpec(params[k], credentials, replies[k], k, steps[k])
    ensures Sent(steps) == []
    decreases |steps|
  {
    if steps != [] {
      var last := |steps| - 1;
      WithoutCredentialNothingSent(params, credentials, replies, steps[..last]);
      ItemWithoutCredentialSendsNothing(params[last], credentials, replies[last], last, steps[last]);
    }
  }

}
