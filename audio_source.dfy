/** Where the audio-consuming nodes take their input audio from: a binary
    attachment of the item, uploaded as a file field, or a URL. */
module AudioSource {
  import opened Wrappers
  import opened Json
  import opened Host

  const NoBinaryData := Error("Nenhum dado binário encontrado")

  const DefaultFileName := "audio.mp3"

  /** The `audioSource`, `binaryPropertyName` and `audioUrl` parameters. */
  datatype Source = Source(audioSource: string, binaryPropertyName: string, audioUrl: string)

  predicate FromBinary(src: Source)
  {
    src.audioSource == "binaryFile"
  }

  /** The item can supply its audio: the URL source, or an attachment under the named field. */
  predicate Available(item: InputItem, src: Source)
  {
    !FromBinary(src) || src.binaryPropertyName in item.binary
  }

  /** `binaryData.fileName || 'audio.mp3'`. */
  function UploadFileName(fileName: Option<string>): (name: string)
    ensures name != ""
    ensures NonEmpty(fileName) ==> name == fileName.value
    ensures !NonEmpty(fileName) ==> name == DefaultFileName
  {
    if NonEmpty(fileName) then fileName.value else DefaultFileName
  }

  /** The file field built from an attachment. */
  function UploadOf(b: BinaryData): Value
  {
    Upload(b.data, UploadFileName(b.fileName), b.mimeType)
  }

  /** The form `f` carries the item's audio as the source says: the upload
      under `fileField` and no URL, or the URL under `urlField` and no upload. */
  ghost predicate Carries(f: map<string, Value>, item: InputItem, src: Source, fileField: string, urlField: string)
  {
    if FromBinary(src) then
      && src.binaryPropertyName in item.binary
      && fileField in f && f[fileField] == UploadOf(item.binary[src.binaryPropertyName])
      && urlField !in f
    else
      && urlField in f && f[urlField] == Str(src.audioUrl)
      && fileField !in f
  }

  /** The binary-or-URL branch of the audio nodes: with the binary source and
      no attachment under the named field it fails; otherwise it adds the one
      audio field and leaves every other field as it was. */
  method Attach(form: map<string, Value>, item: InputItem, src: Source, fileField: string, urlField: string)
    returns (r: Result<map<string, Value>, Error>)
    requires fileField != urlField && fileField !in form && urlField !in form
    ensures r.Failure? <==> !Available(item, src)
    ensures r.Failure? ==> r.error == NoBinaryData
    ensures r.Success? ==> Carries(r.value, item, src, fileField, urlField)
    ensures r.Success? ==> r.value - {fileField, urlField} == form
  {
    var formData := form;
    if FromBinary(src) {
      if src.binaryPropertyName !in item.binary {
        return Failure(NoBinaryData);
      }
      var binaryData := item.binary[src.binaryPropertyName];
      formData := formData[fileField := Upload(binaryData.data, UploadFileName(binaryData.fileName), binaryData.mimeType)];
    } else {
      formData := formData[urlField := Str(src.audioUrl)];
    }
    assert formData - {fileField, urlField} == form;
    return Success(formData);
  }
}
