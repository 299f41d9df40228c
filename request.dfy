/** The request descriptor every node hands to the host's HTTP helper, and
    `createBaseOptions` (nodes/ElevenLabs/utils.ts), which builds it. */
module Request {
  import opened Wrappers
  import opened Json
  import opened Host

  const BaseUri := "https://api.elevenlabs.io/v1/"

  const MissingCredentials := Error("Credenciais da ElevenLabs não foram fornecidas")

  /** How the response body is decoded: as text (the default) or as the raw
      bytes (`encoding: null`). */
  datatype ResponseEncoding = Text | RawBytes

  datatype RequestOptions = RequestOptions(
    headers: map<string, string>,
    verb: string,
    uri: string,
    json: bool,
    encoding: ResponseEncoding,
    body: Option<map<string, Value>>,
    formData: Option<map<string, Value>>)

  /** The headers every call to the API starts with. */
  function ApiHeaders(apiKey: string): map<string, string>
  {
    map["xi-api-key" := apiKey, "Accept" := "application/json"]
  }

  /** The descriptor `createBaseOptions` returns for these arguments. */
  ghost predicate IsBaseOptions(o: RequestOptions, apiKey: string, endpoint: string, verb: string,
                                body: Option<map<string, Value>>, formData: Option<map<string, Value>>)
  {
    && o.headers == ApiHeaders(apiKey)
    && o.verb == verb
    && o.uri == BaseUri + endpoint
    && o.json
    && o.encoding == Text
    && o.body == body
    && o.formData == formData
  }

  /** Every request the nodes send is addressed to the API and carries the key. */
  ghost predicate Authenticated(o: RequestOptions, apiKey: string)
  {
    && "xi-api-key" in o.headers && o.headers["xi-api-key"] == apiKey
    && BaseUri <= o.uri
  }

  /** `createBaseOptions(endpoint, method = 'GET', body?, formData?)`: fails when
      the credential is absent; otherwise the fixed base URI, the key header,
      JSON mode, and `body` / `formData` exactly when they were given. */
  method CreateBaseOptions(credentials: Option<Credentials>, endpoint: string, verb: string := "GET",
                           body: Option<map<string, Value>> := None,
                           formData: Option<map<string, Value>> := None)
    returns (r: Result<RequestOptions, Error>)
    ensures r.Failure? <==> credentials.None?
    ensures r.Failure? ==> r.error == MissingCredentials
    ensures r.Success? ==> IsBaseOptions(r.value, credentials.value.apiKey, endpoint, verb, body, formData)
    ensures r.Success? ==> Authenticated(r.value, credentials.value.apiKey)
  {
    if credentials.None? {
      return Failure(MissingCredentials);
    }
    var options := RequestOptions(ApiHeaders(credentials.value.apiKey), verb, BaseUri + endpoint,
                                  true, Text, None, None);
    if body.Some? {
      options := options.(body := body);
    }
    if formData.Some? {
      options := options.(formData := formData);
    }
    return Success(options);
  }

  /** The override applied by the audio-returning nodes after `createBaseOptions`:
      `json = false`, `encoding = null`, `Accept` set to any type; nothing else changes. */
  method ForBinaryResponse(options: RequestOptions) returns (r: RequestOptions)
    ensures !r.json && r.encoding == RawBytes
    ensures r.headers.Keys == options.headers.Keys + {"Accept"} && r.headers["Accept"] == "*/*"
    ensures forall h :: h in options.headers && h != "Accept" ==> r.headers[h] == options.headers[h]
    ensures r.verb == options.verb && r.uri == options.uri
    ensures r.body == options.body && r.formData == options.formData
  {
    r := options;
    r := r.(json := false);
    r := r.(encoding := RawBytes);
    r := r.(headers := r.headers["Accept" := "*/*"]);
  }

  /** The descriptor of an audio-returning call: the base options with the override. */
  ghost predicate IsBinaryOptions(o: RequestOptions, apiKey: string, endpoint: string, verb: string,
                                  body: Option<map<string, Value>>, formData: Option<map<string, Value>>)
  {
    && o.headers == map["xi-api-key" := apiKey, "Accept" := "*/*"]
    && o.verb == verb
    && o.uri == BaseUri + endpoint
    && !o.json
    && o.encoding == RawBytes
    && o.body == body
    && o.formData == formData
  }

  /** Overriding a base descriptor gives the binary descriptor, and both are authenticated. */
  lemma BinaryOverrideOfBase(o: RequestOptions, r: RequestOptions, apiKey: string, endpoint: string, verb: string,
                             body: Option<map<string, Value>>, formData: Option<map<string, Value>>)
    requires IsBaseOptions(o, apiKey, endpoint, verb, body, formData)
    requires !r.json && r.encoding == RawBytes
    requires r.headers.Keys == o.headers.Keys + {"Accept"} && r.headers["Accept"] == "*/*"
    requires forall h :: h in o.headers && h != "Accept" ==> r.headers[h] == o.headers[h]
    requires r.verb == o.verb && r.uri == o.uri && r.body == o.body && r.formData == o.formData
    ensures IsBinaryOptions(r, apiKey, endpoint, verb, body, formData)
    ensures Authenticated(r, apiKey)
  {
    assert r.headers["xi-api-key"] == apiKey;
    assert r.headers == map["xi-api-key" := apiKey, "Accept" := "*/*"];
  }
}
