/** The host's data model as the nodes use it: errors, credentials, input and
    output items and their binary attachments. */
module Host {
  import opened Wrappers
  import opened Json

  /** A thrown error; only its `message` is ever read. */
  datatype Error = Error(message: string)

  /** The `elevenLabsApi` credential. */
  datatype Credentials = Credentials(apiKey: string)

  /** A binary attachment of an item: the buffer and its metadata. */
  datatype BinaryData = BinaryData(data: seq<bv8>, fileName: Option<string>, mimeType: Option<string>)

  /** An input item: its JSON and its named binary attachments. */
  datatype InputItem = InputItem(json: map<string, Value>, binary: map<string, BinaryData>)

  /** An output item; `pairedItem` is the index of the input item it came from.
      An item without a `binary` key has the empty map here. */
  datatype OutputItem = OutputItem(json: Value, binary: map<string, BinaryData>, pairedItem: nat)
}
