# ElevenLabs nodes for n8n, modelled in Dafny

This project models the n8n community nodes for the ElevenLabs speech API.
Each node reads its parameters for each input item and builds one HTTP
request descriptor. It hands the descriptor to the host and turns the answer
into an output item. The error policy is continue-on-fail: under it a failure
becomes an `{error}` item, otherwise it aborts the run.

Host calls are not modelled. They become inputs:
- the node parameters of each item, as a `Params` record;
- the credential, as `Option<Credentials>`;
- the API's answer for each item, as a `Result`;
- the clock, as one timestamp per item;
- the continue-on-fail flag.

Each node's `Execute` is a loop over the items. The loop records, for every
item it handles, a `Step`: the request it sent, if any, and the item's outcome.

`Items.Process` specifies the loop itself, that is what the catch block does
with each outcome. Three contracts tie `Execute` to that specification:
- what it returns equals `Process` of its steps;
- each step meets the node's own `ItemSpec`;
- if the run was not aborted, there is exactly one step per item.

Modules:
- `Wrappers`: `Option` and `Result`.
- `Json`: JSON values, including `undefined`, and JavaScript truthiness.
- `Host`: the n8n item, binary and error records.
- `Request`: `createBaseOptions`, and the override to raw-binary mode.
- `Items`: `handleApiError`, `formatReturnData`, and the loop specification with its lemmas.
- `Text`: `split(',')`, `trim()`, and decimal rendering.
- `AudioFormat`: the two tables from output format to MIME type and extension.
- `AudioSource`: the choice between a binary attachment and a URL.
- `Conversational`: the delete fallback.
- One module per node: `TextToSpeech`, `SoundEffects`, `SpeechToSpeech`,
  `VoiceChanger`, `SpeechToText`, `LegacySpeechToText`, `Agents`, `KnowledgeBase`.

A missing credential is not fatal to the run. `createBaseOptions` throws
inside each item's `try` block, so under continue-on-fail a missing
credential becomes an error item like any other. In the model, the credential
error is the failure of that item's `Step`.

## Model

| member | source | states |
|---|---|---|
| Request.CreateBaseOptions | nodes/ElevenLabs/utils.ts:7-39 | Fails exactly when there is no credential, with the 'Credenciais da ElevenLabs não foram fornecidas' error and no descriptor. Otherwise it returns URI `https://api.elevenlabs.io/v1/` + endpoint with the verb passed in (default GET). The headers are exactly `xi-api-key` and `Accept: application/json`. JSON mode is on and the text encoding is used. `body` and `formData` are each set iff given, and independently. |
| Request.ForBinaryResponse | nodes/ElevenLabs/Core/ElevenLabsTextToSpeech.node.ts:231-234 | The raw-binary override. It turns JSON mode off, sets the encoding to raw bytes and sets `Accept` to `*/*`. Every other header, the verb, the URI, the body and the form are unchanged. |
| Request.BinaryOverrideOfBase | nodes/ElevenLabs/Core/Audio/ElevenLabsSoundEffects.node.ts:301-306 | Applying the override to a base descriptor gives exactly the key header plus `Accept: */*`, in binary mode. The request still carries the key and is still addressed to the API. |
| Json.FalsyValues | nodes/ElevenLabs/ConversationalAI/ElevenLabsAgents.node.ts:292 | The truthiness test on the delete answer: exactly `undefined`, `null`, `false`, `0` and `''` are falsy. |
| Json.NonEmptyIsTruthy | nodes/ElevenLabs/Core/ElevenLabsSpeechToText.node.ts:204 | An `if (options.x)` test on an optional string holds iff the string is defined and non-empty. |
| Items.FormatReturnData | nodes/ElevenLabs/utils.ts:60-64 | The response becomes the item's JSON as it is, paired with the given index, with no binary. |
| Items.HandleApiError | nodes/ElevenLabs/utils.ts:44-55 | Returns an item iff continue-on-fail is set; otherwise the same error is rethrown. The item is paired with the index and has no binary. Its JSON has the single key `error`, holding the message, or 'Erro desconhecido' when the message is empty. |
| Items.Catch | nodes/ElevenLabs/ElevenLabsSpeechToText.node.ts:261-272 | The two catch styles. Through `handleApiError` it is exactly `handleApiError`'s result. Inline, the item's JSON is exactly `{error: error.message}`, with no fallback text. Both yield an item paired with the index iff continue-on-fail is set, and rethrow the same error otherwise. |
| Items.Process | nodes/ElevenLabs/ConversationalAI/ElevenLabsAgents.node.ts:218-346 | The `for`/`try`/`catch` loop over the items: a success is pushed, a failure goes through the catch block, and a rethrown error ends the loop. It never yields more outputs than there are items. |
| Items.Absorb | nodes/ElevenLabs/ConversationalAI/ElevenLabsKnowledgeBase.node.ts:324-332 | One pass of the catch block. The new loop state is exactly `Process` of the steps with this one appended. |
| Items.ProcessSnoc | nodes/ElevenLabs/ConversationalAI/ElevenLabsAgents.node.ts:335-343 | One more item of a run that has not thrown: its output is pushed, or its error item is pushed, or its error ends the run. |
| Items.ContinueOnFailKeepsEveryItem | nodes/ElevenLabs/ConversationalAI/ElevenLabsKnowledgeBase.node.ts:225-333 | With continue-on-fail the run never throws. It has one output per item, and output k is item k's own output or its error item. |
| Items.FailFastStopsAtFirstFailure | nodes/ElevenLabs/ConversationalAI/ElevenLabsKnowledgeBase.node.ts:225-333 | Without continue-on-fail, a first failure at f throws f's own error. The outputs are exactly those of items 0..f-1. |
| Items.AllSucceed | nodes/ElevenLabs/ConversationalAI/ElevenLabsAgents.node.ts:218-343 | When no item fails, the outputs are the items' own, in order, under either policy. |
| Items.ThrowsOnlyFailFast | nodes/ElevenLabs/utils.ts:46-54 | The run throws iff continue-on-fail is off and some item failed. |
| Items.ThrowEndsAtFirstFailure | nodes/ElevenLabs/utils.ts:52-54 | A run that throws at its last step and not before attempted exactly the items up to the first failure. The last step failed, every earlier step succeeded, and continue-on-fail was off. |
| Items.FirstFailure | nodes/ElevenLabs/ConversationalAI/ElevenLabsAgents.node.ts:218-219 | Finds the index of the first failed item, scanning in item order. |
| Items.PairedInOrder | nodes/ElevenLabs/utils.ts:47-50 | Output k is paired with item k, under either policy. An unaborted run has one output per item. |
| Text.Split | nodes/ElevenLabs/ConversationalAI/ElevenLabsAgents.node.ts:252-253 | `split(',')`: the number of pieces is the number of commas plus one, and no piece contains a comma. |
| Text.JoinSplit | nodes/ElevenLabs/ConversationalAI/ElevenLabsAgents.node.ts:252-253 | Joining the pieces with ',' gives back the original string. |
| Text.SplitJoin | nodes/ElevenLabs/ConversationalAI/ElevenLabsAgents.node.ts:252-253 | Splitting a join of comma-free pieces gives back the pieces. |
| Text.TrimStart | nodes/ElevenLabs/ConversationalAI/ElevenLabsAgents.node.ts:254 | A suffix of the input: every dropped character is white space, and the result does not start with white space. |
| Text.TrimEnd | nodes/ElevenLabs/ConversationalAI/ElevenLabsAgents.node.ts:254 | A prefix of the input: every dropped character is white space, and the result does not end with white space. |
| Text.Trim | nodes/ElevenLabs/ConversationalAI/ElevenLabsAgents.node.ts:254 | `trim()`: the result neither starts nor ends with white space. |
| Text.TrimIsInfix | nodes/ElevenLabs/ConversationalAI/ElevenLabsAgents.node.ts:254 | The trimmed string is a contiguous slice of the input, and everything cut from either end is white space. |
| Text.TrimIdempotent | nodes/ElevenLabs/ConversationalAI/ElevenLabsAgents.node.ts:254 | Trimming twice is trimming once. |
| Text.Decimal | nodes/ElevenLabs/Core/Audio/ElevenLabsSoundEffects.node.ts:349 | The rendered timestamp is a non-empty string of digits with no leading zero. |
| Text.DecimalRoundTrip | nodes/ElevenLabs/Core/Audio/ElevenLabsSoundEffects.node.ts:349 | Reading the rendered digits back gives the timestamp. |
| AudioFormat.FullTable | nodes/ElevenLabs/Core/ElevenLabsTextToSpeech.node.ts:240-257 | The five-way table. `flac` gives flac, any `pcm_` prefix gives wav, `opus` gives opus, `ulaw`/`mulaw` give `audio/basic`/`au`, and an absent, empty or unrecognised format gives mp3. |
| AudioFormat.BasicTable | nodes/ElevenLabs/Core/Audio/ElevenLabsSoundEffects.node.ts:335-346 | The three-way table: flac iff the format is `flac`, wav iff it has the `pcm_` prefix, mp3 otherwise. |
| AudioFormat.TablesAgreeWithExtensions | nodes/ElevenLabs/Core/ElevenLabsTextToSpeech.node.ts:240-257 | Both tables pair each extension with its own MIME type. |
| AudioFormat.BasicTableCoarsensFullTable | nodes/ElevenLabs/Core/Audio/ElevenLabsVoiceChanger.node.ts:267-278 | The three-way table is the five-way one, except that opus and ulaw/mulaw fall back to mp3. |
| AudioFormat.StampedFileNameParts | nodes/ElevenLabs/Core/Audio/ElevenLabsSoundEffects.node.ts:349 | `${prefix}${Date.now()}.${ext}`: the prefix, then digits that read back as the timestamp, then a dot and the extension. The same literal is at ElevenLabsSpeechToSpeech.node.ts:315 and ElevenLabsVoiceChanger.node.ts:281. |
| AudioFormat.StampedFileNameInjective | nodes/ElevenLabs/Core/Audio/ElevenLabsSpeechToSpeech.node.ts:315 | Under one prefix and one format, distinct timestamps give distinct file names. |
| AudioSource.UploadFileName | nodes/ElevenLabs/Core/Audio/ElevenLabsSpeechToSpeech.node.ts:288 | The upload's file name is the attachment's own when that is non-empty, else `audio.mp3`. |
| AudioSource.Attach | nodes/ElevenLabs/Core/Audio/ElevenLabsSpeechToSpeech.node.ts:275-295 | Fails iff the binary source is chosen and the item has no attachment under the named field, with 'Nenhum dado binário encontrado'. Otherwise it adds the upload and no URL, or the URL and no upload, and leaves every other field unchanged. |
| TextToSpeech.BuildBody | nodes/ElevenLabs/Core/ElevenLabsTextToSpeech.node.ts:203-225 | `text`, `model_id` and a `voice_settings` object are always present. `stability`, `similarity_boost` and `style` go inside `voice_settings` iff defined. `output_format` goes at top level iff defined. There are no other keys. |
| TextToSpeech.ReplaceNonAlnum | nodes/ElevenLabs/Core/ElevenLabsTextToSpeech.node.ts:267 | The result has the same length. Each ASCII letter or digit is kept, and every other character becomes `_`. |
| TextToSpeech.FileStem | nodes/ElevenLabs/Core/ElevenLabsTextToSpeech.node.ts:267 | The stem has length min(50, \|text\|), and position k is text[k] if that is ASCII alphanumeric, else `_`. |
| TextToSpeech.FileStemIsSanitised | nodes/ElevenLabs/Core/ElevenLabsTextToSpeech.node.ts:267 | The stem contains only ASCII letters, digits and `_`, and sanitising it again changes nothing. |
| TextToSpeech.FileNameIsSafe | nodes/ElevenLabs/Core/ElevenLabsTextToSpeech.node.ts:267 | The file name is at most 50 sanitised characters (ASCII letters, digits, `_`), then a dot and the format's extension. |
| TextToSpeech.HandleItem | nodes/ElevenLabs/Core/ElevenLabsTextToSpeech.node.ts:191-272 | Without a credential the item fails before any request. Otherwise it sends POST `text-to-speech/{voiceId}` with the body in binary mode. A failed call fails the item. A successful call stores the audio under `binaryPropertyName`, with the sanitised name and the five-way table. The json is `{success, voiceId, modelId}`, paired with i. |
| TextToSpeech.Execute | nodes/ElevenLabs/Core/ElevenLabsTextToSpeech.node.ts:185-283 | The items in order. The output equals `Process` of the steps, each step meets `ItemSpec`, and the run ends early only by throwing. A throw ends the loop at the failing item: every step before the last one left the run unthrown, so nothing after the failure is attempted or sent. |
| TextToSpeech.ContinueOnFailOutputs | nodes/ElevenLabs/Core/ElevenLabsTextToSpeech.node.ts:189-281 | With continue-on-fail: one output per item, paired with its index. An output has no binary iff the item failed, and then its json holds `error`. |
| TextToSpeech.WithoutCredentialNothingSent | nodes/ElevenLabs/Core/ElevenLabsTextToSpeech.node.ts:189-283 | Without a credential the run makes no call to the API at all. Every item fails on the credential, before its request. |
| SoundEffects.EffectConfig | nodes/ElevenLabs/Core/Audio/ElevenLabsSoundEffects.node.ts:272-288 | `effect` is the custom name when the type is `custom` (undefined if it has none), else the type. `intensity` is copied. `start_time` is present iff start > 0 and `end_time` iff end > 0. |
| SoundEffects.EffectConfigs | nodes/ElevenLabs/Core/Audio/ElevenLabsSoundEffects.node.ts:272 | The list keeps the length and order of the effect rows. |
| SoundEffects.RowJsonMembers | nodes/ElevenLabs/Core/Audio/ElevenLabsSoundEffects.node.ts:355 | Each row echoed in the output has its four fixed members with their own values, plus `customEffectName` iff set. |
| SoundEffects.SummaryMembers | nodes/ElevenLabs/Core/Audio/ElevenLabsSoundEffects.node.ts:353-357 | The output JSON holds `success: true`, the rows in order and `outputFormat` iff set, and nothing else. |
| SoundEffects.BuildForm | nodes/ElevenLabs/Core/Audio/ElevenLabsSoundEffects.node.ts:291-298 | `effects` is always present, and `output_format` iff defined. |
| SoundEffects.HandleItem | nodes/ElevenLabs/Core/Audio/ElevenLabsSoundEffects.node.ts:249-364 | An empty effect list fails first. Next comes the credential, then the attachment. Otherwise it sends POST `sound-effects` in binary mode with the form and the audio under `audio`/`audio_url`. A success stores `audio_effects_{ts}.{ext}` with the three-way table, and the json is `{success, effects}` plus the defined options. |
| SoundEffects.Execute | nodes/ElevenLabs/Core/Audio/ElevenLabsSoundEffects.node.ts:243-375 | The items in order. The output equals `Process` of the steps, and each step meets `ItemSpec`. A throw ends the loop at the failing item: every step before the last one left the run unthrown, so nothing after the failure is attempted or sent. |
| SoundEffects.ContinueOnFailOutputs | nodes/ElevenLabs/Core/Audio/ElevenLabsSoundEffects.node.ts:247-373 | With continue-on-fail: one output per item, paired with its index. An output has no binary iff the item failed, and then its json holds `error`. |
| SoundEffects.WithoutCredentialNothingSent | nodes/ElevenLabs/Core/Audio/ElevenLabsSoundEffects.node.ts:247-375 | Without a credential the run makes no call to the API at all. Every item fails before its request, on the effect list or on the credential. |
| SpeechToSpeech.BuildForm | nodes/ElevenLabs/Core/Audio/ElevenLabsSpeechToSpeech.node.ts:240-264 | `voice_id` is always present. `similarity_boost`, `stability` and `output_format` are present iff defined. `source_language` is present iff defined and not 'auto', and `target_language` iff defined and not 'same'. There are no other keys. |
| SpeechToSpeech.OptionsJsonMembers | nodes/ElevenLabs/Core/Audio/ElevenLabsSpeechToSpeech.node.ts:322 | `...advancedOptions`: each defined option appears under its own name with its own value, sentinels included, and nothing else. |
| SpeechToSpeech.SummaryMembers | nodes/ElevenLabs/Core/Audio/ElevenLabsSpeechToSpeech.node.ts:319-323 | The output JSON holds `success: true` and `voiceId`, and beside them every option member as it is. |
| SpeechToSpeech.PrepareRequest | nodes/ElevenLabs/Core/Audio/ElevenLabsSpeechToSpeech.node.ts:240-296 | Without a credential it fails with the missing-credential error. Without the audio it fails with the no-binary-data error. Otherwise it gives the binary-mode POST `speech-to-speech` request carrying the form and the audio under `audio`/`audio_url`. |
| SpeechToSpeech.HandleItem | nodes/ElevenLabs/Core/Audio/ElevenLabsSpeechToSpeech.node.ts:229-330 | The credential is checked first, then the attachment. The request is POST `speech-to-speech` in binary mode with the form and the audio under `audio`/`audio_url`. A success stores `speech_to_speech_{ts}.{ext}` with the three-way table, and the json is `{success, voiceId}` plus the defined options, paired with i. |
| SpeechToSpeech.Execute | nodes/ElevenLabs/Core/Audio/ElevenLabsSpeechToSpeech.node.ts:226-339 | The items in order. The output equals `Process` of the steps, and each step meets `ItemSpec`. A throw ends the loop at the failing item: every step before the last one left the run unthrown, so nothing after the failure is attempted or sent. |
| SpeechToSpeech.ContinueOnFailOutputs | nodes/ElevenLabs/Core/Audio/ElevenLabsSpeechToSpeech.node.ts:226-339 | With continue-on-fail: one output per item, paired with its index. An output has no binary iff the item failed, and then its json holds `error`. |
| SpeechToSpeech.WithoutCredentialNothingSent | nodes/ElevenLabs/Core/Audio/ElevenLabsSpeechToSpeech.node.ts:226-341 | Without a credential the run makes no call to the API at all. Every item fails on the credential, before its request. |
| VoiceChanger.BuildForm | nodes/ElevenLabs/Core/Audio/ElevenLabsVoiceChanger.node.ts:210-230 | `voice_id` and a `voice_settings` object are always present. `similarity_boost` and `stability` go inside `voice_settings` iff defined. `output_format` and `audio_type` go at top level iff defined. |
| VoiceChanger.SettingsStayNested | nodes/ElevenLabs/Core/Audio/ElevenLabsVoiceChanger.node.ts:216-222 | The voice settings never appear at the top level of the form. |
| VoiceChanger.OptionsJsonMembers | nodes/ElevenLabs/Core/Audio/ElevenLabsVoiceChanger.node.ts:288 | `...advancedOptions`: each defined option appears under its own camelCase name with its own value, and nothing else. |
| VoiceChanger.SummaryMembers | nodes/ElevenLabs/Core/Audio/ElevenLabsVoiceChanger.node.ts:285-289 | The output JSON holds `success: true` and `voiceId`, and beside them every option member as it is. |
| VoiceChanger.PrepareRequest | nodes/ElevenLabs/Core/Audio/ElevenLabsVoiceChanger.node.ts:209-262 | Without a credential it fails with the missing-credential error. Without the audio it fails with the no-binary-data error. Otherwise it gives the binary-mode POST `voice-changer` request carrying the nested form and the audio under `audio`/`audio_url`. |
| VoiceChanger.HandleItem | nodes/ElevenLabs/Core/Audio/ElevenLabsVoiceChanger.node.ts:199-296 | The credential is checked first, then the attachment. The request is POST `voice-changer` in binary mode with the audio under `audio`/`audio_url`. A success stores `voice_changed_{ts}.{ext}` with the three-way table, and the json is `{success, voiceId}` plus the defined options. |
| VoiceChanger.Execute | nodes/ElevenLabs/Core/Audio/ElevenLabsVoiceChanger.node.ts:192-305 | The items in order. The output equals `Process` of the steps, and each step meets `ItemSpec`. A throw ends the loop at the failing item: every step before the last one left the run unthrown, so nothing after the failure is attempted or sent. |
| VoiceChanger.ContinueOnFailOutputs | nodes/ElevenLabs/Core/Audio/ElevenLabsVoiceChanger.node.ts:196-305 | With continue-on-fail: one output per item, paired with its index. An output has no binary iff the item failed, and then its json holds `error`. |
| VoiceChanger.WithoutCredentialNothingSent | nodes/ElevenLabs/Core/Audio/ElevenLabsVoiceChanger.node.ts:196-307 | Without a credential the run makes no call to the API at all. Every item fails on the credential, before its request. |
| SpeechToText.BuildForm | nodes/ElevenLabs/Core/ElevenLabsSpeechToText.node.ts:199-226 | `model_id` is always present. `language_code` is present iff the code is non-empty. `diarize` (renamed from `diarization`), `timestamps_granularity`, `tag_audio_events`, `num_speakers` and `file_format` are each present iff defined. |
| SpeechToText.HandleItem | nodes/ElevenLabs/Core/ElevenLabsSpeechToText.node.ts:188-253 | The credential is checked first, then the attachment. The request is POST `speech-to-text` in JSON mode with the form and the audio under `file`/`cloud_storage_url`. A success is the answer as it is, paired with i. |
| SpeechToText.Execute | nodes/ElevenLabs/Core/ElevenLabsSpeechToText.node.ts:182-265 | The items in order. The output equals `Process` of the steps, and each step meets `ItemSpec`. A throw ends the loop at the failing item: every step before the last one left the run unthrown, so nothing after the failure is attempted or sent. |
| SpeechToText.ContinueOnFailOutputs | nodes/ElevenLabs/Core/ElevenLabsSpeechToText.node.ts:186-262 | With continue-on-fail: one output per item, paired with its index. A success output is the item's own answer, and a failure output holds `error`. |
| SpeechToText.WithoutCredentialNothingSent | nodes/ElevenLabs/Core/ElevenLabsSpeechToText.node.ts:186-264 | Without a credential the run makes no call to the API at all. Every item fails on the credential, before its request. |
| LegacySpeechToText.InlineOptions | nodes/ElevenLabs/ElevenLabsSpeechToText.node.ts:222-231 | The inline descriptor is exactly the one `createBaseOptions` would build for POST `speech-to-text` with the form. |
| LegacySpeechToText.HandleItem | nodes/ElevenLabs/ElevenLabsSpeechToText.node.ts:180-260 | The credential is read first. The parameter `model` fills `model_id`, and the form and the audio rules are those of the core node. A success is `{json: response}`, paired with i. |
| LegacySpeechToText.Execute | nodes/ElevenLabs/ElevenLabsSpeechToText.node.ts:174-276 | The items in order, with the inline catch (no fallback text). The output equals `Process` of the steps, and each step meets `ItemSpec`. A throw ends the loop at the failing item: every step before the last one left the run unthrown, so nothing after the failure is attempted or sent. |
| LegacySpeechToText.SameRequestAsCore | nodes/ElevenLabs/ElevenLabsSpeechToText.node.ts:193-255 | Given a credential, the older node sends the same request as the core node and yields the same step. |
| LegacySpeechToText.IsFormUnique | nodes/ElevenLabs/ElevenLabsSpeechToText.node.ts:193-220 | The form is determined by the parameters. |
| LegacySpeechToText.CarriesUnique | nodes/ElevenLabs/ElevenLabsSpeechToText.node.ts:233-253 | Two forms that agree apart from the audio fields, and carry the same audio, are equal. |
| LegacySpeechToText.ContinueOnFailOutputs | nodes/ElevenLabs/ElevenLabsSpeechToText.node.ts:262-270 | With continue-on-fail: one output per item, paired with its index. A success pushes its own answer. A failure pushes exactly `{json: {error: error.message}}`, with no binary and no fallback text. |
| LegacySpeechToText.WithoutCredentialNothingSent | nodes/ElevenLabs/ElevenLabsSpeechToText.node.ts:178-275 | Without a credential the run makes no call to the API at all. Every item fails on reading `apiKey`, before its request. |
| Conversational.DeleteFallback | nodes/ElevenLabs/ConversationalAI/ElevenLabsAgents.node.ts:292 | A truthy answer is kept as it is. A falsy answer becomes `{success: true, message}`. The result is always truthy. |
| Conversational.DeleteFallbackStable | nodes/ElevenLabs/ConversationalAI/ElevenLabsKnowledgeBase.node.ts:281 | Applying the fallback twice is applying it once, and what it supplies is a record. |
| Agents.KnowledgeBaseIds | nodes/ElevenLabs/ConversationalAI/ElevenLabsAgents.node.ts:251-255 | One id per comma-separated piece, in order: the count is the number of commas plus one. Each id is its piece trimmed, with no comma and no surrounding white space. |
| Agents.KnowledgeBaseIdsOfJoin | nodes/ElevenLabs/ConversationalAI/ElevenLabsAgents.node.ts:251-255 | Trimmed, comma-free ids joined with ',' parse back to themselves. |
| Agents.BuildAgentBody | nodes/ElevenLabs/ConversationalAI/ElevenLabsAgents.node.ts:244-255 | `name`, `voice_id` and `system_instruction` are always present. `knowledge_base_ids` is present iff the raw list is non-empty, and holds the parsed ids. |
| Agents.BuildSessionBody | nodes/ElevenLabs/ConversationalAI/ElevenLabsAgents.node.ts:301-305 | An empty body, with `language` iff it is non-empty. |
| Agents.BuildMessageBody | nodes/ElevenLabs/ConversationalAI/ElevenLabsAgents.node.ts:319-329 | `message` is always present. `force_audio_response` and `search_limit` are present iff defined. |
| Agents.Response | nodes/ElevenLabs/ConversationalAI/ElevenLabsAgents.node.ts:290-292 | The answer is pushed as it is, except that a delete goes through the fallback. |
| Agents.Dispatch | nodes/ElevenLabs/ConversationalAI/ElevenLabsAgents.node.ts:224-332 | Nothing is sent exactly when the operation is not one of the seven. For a known operation without a credential, the result is the missing-credential error. Otherwise it gives that operation's verb, path and body, carrying the API key. |
| Agents.HandleItem | nodes/ElevenLabs/ConversationalAI/ElevenLabsAgents.node.ts:220-335 | An unknown operation pushes `undefined` without a credential or a request. A known one without a credential fails before any request. Otherwise it sends that operation's verb, path and body, and pushes the (fallback-adjusted) answer, paired with i. |
| Agents.Execute | nodes/ElevenLabs/ConversationalAI/ElevenLabsAgents.node.ts:214-347 | The items in order. The output equals `Process` of the steps, and each step meets `ItemSpec`. A throw ends the loop at the failing item: every step before the last one left the run unthrown, so nothing after the failure is attempted or sent. |
| Agents.RequestsAreConversational | nodes/ElevenLabs/ConversationalAI/ElevenLabsAgents.node.ts:224-333 | Every request comes from one of the seven operations and uses JSON with no form. It has a body iff it creates, updates, starts a session or sends a message. Its verb is GET iff it lists or gets an agent. |
| Agents.DeleteAlwaysAnswers | nodes/ElevenLabs/ConversationalAI/ElevenLabsAgents.node.ts:286-293 | A successful delete pushes the answer if it is truthy, else the 'Agente excluído com sucesso' record, so the pushed json is always truthy. |
| Agents.ContinueOnFailOutputs | nodes/ElevenLabs/ConversationalAI/ElevenLabsAgents.node.ts:335-343 | With continue-on-fail: one output per item, paired with its index. A success output is the item's own answer, and a failure output holds `error`. |
| Agents.WithoutCredentialNothingSent | nodes/ElevenLabs/ConversationalAI/ElevenLabsAgents.node.ts:218-346 | Without a credential the run makes no call to the API at all. A known operation fails on the credential, and an unknown one sends nothing anyway. |
| KnowledgeBase.BuildBaseBody | nodes/ElevenLabs/ConversationalAI/ElevenLabsKnowledgeBase.node.ts:247-253 | `name` is always present, and `description` iff it is non-empty. |
| KnowledgeBase.BuildDocumentBody | nodes/ElevenLabs/ConversationalAI/ElevenLabsKnowledgeBase.node.ts:293-303 | The URL goes under the key the document type names. `name` and `namespace` are present iff non-empty and overwrite a key of the same name. |
| KnowledgeBase.DocumentUrlKept | nodes/ElevenLabs/ConversationalAI/ElevenLabsKnowledgeBase.node.ts:293-295 | For `web_url` and `file_url` the URL is always kept under its key. The body has one key, plus one each for a name or a namespace. |
| KnowledgeBase.Response | nodes/ElevenLabs/ConversationalAI/ElevenLabsKnowledgeBase.node.ts:275-322 | Both deletes go through the fallback with their own messages. Every other answer is pushed as it is. |
| KnowledgeBase.Dispatch | nodes/ElevenLabs/ConversationalAI/ElevenLabsKnowledgeBase.node.ts:231-320 | Nothing is sent exactly when the operation is not one of the eight. For a known operation without a credential, the result is the missing-credential error. Otherwise it gives that operation's verb, path under `conversational/knowledge-bases` and body, carrying the API key. |
| KnowledgeBase.HandleItem | nodes/ElevenLabs/ConversationalAI/ElevenLabsKnowledgeBase.node.ts:227-324 | An unknown operation pushes `undefined` without a credential or a request. A known one without a credential fails before any request. Otherwise it sends that operation's verb, path under `conversational/knowledge-bases` and body, and pushes the (fallback-adjusted) answer. |
| KnowledgeBase.Execute | nodes/ElevenLabs/ConversationalAI/ElevenLabsKnowledgeBase.node.ts:221-336 | The items in order. The output equals `Process` of the steps, and each step meets `ItemSpec`. A throw ends the loop at the failing item: every step before the last one left the run unthrown, so nothing after the failure is attempted or sent. |
| KnowledgeBase.BodyOnlyWhenWriting | nodes/ElevenLabs/ConversationalAI/ElevenLabsKnowledgeBase.node.ts:231-322 | Only create, update and add-documents carry a body, and nothing is sent as a form. The verb is DELETE iff the operation deletes a base or removes a document. |
| KnowledgeBase.ContinueOnFailOutputs | nodes/ElevenLabs/ConversationalAI/ElevenLabsKnowledgeBase.node.ts:324-332 | With continue-on-fail: one output per item, paired with its index. A success output is the item's own answer, and a failure output holds `error`. |
| KnowledgeBase.WithoutCredentialNothingSent | nodes/ElevenLabs/ConversationalAI/ElevenLabsKnowledgeBase.node.ts:225-335 | Without a credential the run makes no call to the API at all. A known operation fails on the credential, and an unknown one sends nothing anyway. |

## Left out

- `this.helpers.request`, `getCredentials`, `getNodeParameter`,
  `getBinaryDataBuffer` and `continueOnFail` are host calls. They are inputs:
  one answer-or-error per item, an optional credential, a record of
  parameters per item, the attachment bytes, and a flag.
- `prepareBinaryData` is modelled as the record (bytes, file name, MIME type)
  it is given. How the host stores the binary is not modelled.
- `Date.now()` is a timestamp passed in for each item.
- A parameter lookup that throws is not modelled; every parameter is taken as
  present. Options missing from a collection are `undefined`.
- Floating-point parameters (stability, similarity, style, intensity, times,
  number of speakers, search limit) are `real`s passed through unchanged. NaN
  and negative zero are not modelled.
- Strings are sequences of characters, whereas JavaScript works on UTF-16 code
  units. The two differ for text outside the Basic Multilingual Plane:
  `substring(0, 50)` counts code units, and `.replace(/[^a-zA-Z0-9]/g, '_')`
  replaces each code unit, so such a character becomes `__` in the source and
  `_` in `TextToSpeech.ReplaceNonAlnum`.
- An error without a message is modelled as one whose message is empty. For
  the nodes that use `handleApiError` this is harmless: both fall back to
  'Erro desconhecido'. The legacy speech-to-text catch has no fallback, so there
  the model shows `error: ""` where the source has `error: undefined` (a key
  that disappears once the item is serialised).
- Legacy speech-to-text has its own handling for a missing credential. If the
  host returns no credential object, reading `apiKey` raises the JavaScript
  TypeError, whose message is modelled as a fixed string. If the host itself
  throws, the outcome is the same: the item fails before its request is built.
- The multipart encoding of the form is left to the host. So are the form's
  nested `voice_settings` and `effects` objects.
- The editor descriptions of every node (fields, `displayOptions`, defaults,
  limits) are not modelled: the host enforces them.
- The resource selector in nodes/ElevenLabs/ElevenLabs.node.options.ts, the
  credential form schema and the package registration in index.js are not
  modelled: none of them has behaviour.
- `async`/`await` is modelled as plain sequential execution.
