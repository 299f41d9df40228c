/** The output-format lookups of the audio-returning nodes: which MIME type and
    file extension the returned audio is stored under. */
module AudioFormat {
  import opened Wrappers
  import opened Json
  import opened Text

  datatype Format = Format(mimeType: string, extension: string)

  const Mp3 := Format("audio/mpeg", "mp3")
  const Flac := Format("audio/flac", "flac")
  const Wav := Format("audio/wav", "wav")
  const Opus := Format("audio/opus", "opus")
  const Basic := Format("audio/basic", "au")

  /** `s.startsWith('pcm_')`. */
  predicate IsPcm(s: string)
  {
    |s| >= 4 && s[..4] == "pcm_"
  }

  /** The output formats the five-way table recognises. */
  predicate KnownToFullTable(s: string)
  {
    s == "flac" || IsPcm(s) || s == "opus" || s == "ulaw" || s == "mulaw"
  }

  /** The text-to-speech table: flac, any pcm_ rate, opus, and ulaw/mulaw; mp3
      for an absent, empty or unrecognised format. */
  function FullTable(outputFormat: Option<string>): (f: Format)
    ensures !NonEmpty(outputFormat) ==> f == Mp3
    ensures NonEmpty(outputFormat) && outputFormat.value == "flac" ==> f == Flac
    ensures NonEmpty(outputFormat) && IsPcm(outputFormat.value) ==> f == Wav
    ensures NonEmpty(outputFormat) && outputFormat.value == "opus" ==> f == Opus
    ensures NonEmpty(outputFormat) && outputFormat.value in {"ulaw", "mulaw"} ==> f == Basic
    ensures NonEmpty(outputFormat) && !KnownToFullTable(outputFormat.value) ==> f == Mp3
  {
    if NonEmpty(outputFormat) then
      var s := outputFormat.value;
      if s == "flac" then assert s[..4][0] != "pcm_"[0]; Flac
      else if IsPcm(s) then Wav
      else if s == "opus" then Opus
      else if s == "ulaw" || s == "mulaw" then Basic
      else Mp3
    else Mp3
  }

  /** The table of the other audio nodes: flac, any pcm_ rate, and mp3 for
      everything else. */
  function BasicTable(outputFormat: Option<string>): (f: Format)
    ensures f == Flac <==> NonEmpty(outputFormat) && outputFormat.value == "flac"
    ensures f == Wav <==> NonEmpty(outputFormat) && IsPcm(outputFormat.value)
    ensures f == Mp3 <==> !(NonEmpty(outputFormat) && (outputFormat.value == "flac" || IsPcm(outputFormat.value)))
  {
    if NonEmpty(outputFormat) then
      var s := outputFormat.value;
      if s == "flac" then assert s[..4][0] != "pcm_"[0]; Flac
      else if IsPcm(s) then Wav
      else Mp3
    else Mp3
  }

  /** The MIME type each extension stands for, independently of either table. */
  const MimeOfExtension: map<string, string> :=
    map["mp3" := "audio/mpeg", "flac" := "audio/flac", "wav" := "audio/wav", "opus" := "audio/opus", "au" := "audio/basic"]

  /** Both tables pair every extension with its own MIME type. */
  lemma TablesAgreeWithExtensions(outputFormat: Option<string>)
    ensures var f := FullTable(outputFormat); f.extension in MimeOfExtension && MimeOfExtension[f.extension] == f.mimeType
    ensures var f := BasicTable(outputFormat); f.extension in MimeOfExtension && MimeOfExtension[f.extension] == f.mimeType
  {
  }

  /** The three-way table is the five-way one with opus and ulaw/mulaw falling
      back to mp3. */
  lemma BasicTableCoarsensFullTable(outputFormat: Option<string>)
    ensures BasicTable(outputFormat) == if FullTable(outputFormat) in {Opus, Basic} then Mp3 else FullTable(outputFormat)
  {
  }

  /** `${prefix}${Date.now()}.${fileExtension}` for a timestamp `now`. */
  function StampedFileName(prefix: string, now: nat, f: Format): string
  {
    prefix + Decimal(now) + "." + f.extension
  }

  /** A stamped name is the prefix, then digits that read back as the
      timestamp, then a dot and the extension. */
  lemma StampedFileNameParts(prefix: string, now: nat, f: Format)
    ensures var name := StampedFileName(prefix, now, f);
            && |name| == |prefix| + |Decimal(now)| + 1 + |f.extension|
            && name[..|prefix|] == prefix
            && DecimalValue(name[|prefix|..|prefix| + |Decimal(now)|]) == now
            && name[|prefix| + |Decimal(now)|..] == "." + f.extension
  {
    var name := StampedFileName(prefix, now, f);
    assert name[|prefix|..|prefix| + |Decimal(now)|] == Decimal(now);
    DecimalRoundTrip(now);
  }

  /** Under one prefix and one format, distinct timestamps give distinct file names. */
  lemma StampedFileNameInjective(prefix: string, a: nat, b: nat, f: Format)
    requires StampedFileName(prefix, a, f) == StampedFileName(prefix, b, f)
    ensures a == b
  {
    StampedFileNameParts(prefix, a, f);
    StampedFileNameParts(prefix, b, f);
    var na, nb := StampedFileName(prefix, a, f), StampedFileName(prefix, b, f);
    assert |Decimal(a)| == |Decimal(b)|;
    assert na[|prefix|..|prefix| + |Decimal(a)|] == nb[|prefix|..|prefix| + |Decimal(b)|];
  }
}
