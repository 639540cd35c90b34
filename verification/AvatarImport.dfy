/**
 * The data URLs an avatar animation and its poster are imported from.
 *
 * Both decoders look at the length of the text before they decode it; neither look changes
 * which byte strings are accepted.
 */
module AvatarImport {
  import opened Base64
  import opened Wrappers

  const MAX_BYTES := 5 * 1024 * 1024

  const PNG_PREFIX: string := "data:image/png;base64,"
  const WEBM_PREFIX: string := "data:video/webm;base64,"
  const MP4_PREFIX: string := "data:video/mp4;base64,"

  const PNG_SIGNATURE: seq<Byte> := [0x89, 0x50, 0x4E, 0x47, 0x0D, 0x0A, 0x1A, 0x0A]
  const WEBM_SIGNATURE: seq<Byte> := [0x1A, 0x45, 0xDF, 0xA3]
  const MP4_FILE_TYPE_BOX: seq<Byte> := [0x66, 0x74, 0x79, 0x70]

  datatype Refusal = UnsupportedFormat | InvalidBase64 | TooLarge | BadSignature

  datatype Imported<T> = Accepted(value: T) | Refused(why: Refusal)

  function DivCeil(n: nat, d: nat): nat
    requires d > 0
  {
    if n % d > 0 then n / d + 1 else n / d
  }

  function DecodePosterText(encoded: string): Imported<seq<Byte>> {
    if encoded == [] || |encoded| > DivCeil(MAX_BYTES, 3) * 4 then Refused(TooLarge)
    else
      match Decode(encoded)
      case None => Refused(InvalidBase64)
      case Some(bytes) =>
        if bytes == [] || |bytes| > MAX_BYTES then Refused(TooLarge)
        else if !(PNG_SIGNATURE <= bytes) then Refused(BadSignature)
        else Accepted(bytes)
  }

  function DecodePoster(url: string): Imported<seq<Byte>> {
    if PNG_PREFIX <= url then DecodePosterText(url[|PNG_PREFIX|..]) else Refused(UnsupportedFormat)
  }

  lemma PreCheckNeverRejectsAFittingPoster(bytes: seq<Byte>)
    requires |bytes| <= MAX_BYTES
    ensures |Encode(bytes)| <= DivCeil(MAX_BYTES, 3) * 4
  {
    EncodedLength(bytes);
    var n := |bytes|;
    assert (n + 2) / 3 <= (MAX_BYTES + 2) / 3;
    assert DivCeil(MAX_BYTES, 3) == (MAX_BYTES + 2) / 3;
  }

  /** What the decoder says of the encoding of any byte string: the look at the length changes nothing. */
  lemma PosterOutcome(bytes: seq<Byte>)
    ensures DecodePosterText(Encode(bytes)) ==
            if bytes == [] || |bytes| > MAX_BYTES then Refused(TooLarge)
            else if !(PNG_SIGNATURE <= bytes) then Refused(BadSignature)
            else Accepted(bytes)
  {
    DecodeOfEncode(bytes);
    if |bytes| <= MAX_BYTES { PreCheckNeverRejectsAFittingPoster(bytes); }
  }

  /** A poster is accepted iff the URL encodes a PNG of at most the maximal size. */
  lemma PosterAcceptedIff(url: string, bytes: seq<Byte>)
    ensures DecodePoster(url) == Accepted(bytes) <==>
            && url == "data:image/png;base64," + Encode(bytes)
            && |bytes| <= 5242880 && |bytes| >= 8 && bytes[..8] == [0x89, 0x50, 0x4E, 0x47, 0x0D, 0x0A, 0x1A, 0x0A]
  {
    PosterOutcome(bytes);
    var prefix := PNG_PREFIX;
    Prefixed(url, prefix, Encode(bytes));
    if DecodePoster(url) == Accepted(bytes) { EncodeOfDecode(url[|prefix|..], bytes); }
  }

  ghost predicate IsEncoding(text: string) {
    exists bytes :: text == Encode(bytes)
  }

  /** Why a poster is refused: it is no PNG data URL; it is not base 64, or too long to look; or its bytes do not fit. */
  lemma PosterRefusals(url: string, text: string, bytes: seq<Byte>)
    ensures DecodePoster(url) == Refused(UnsupportedFormat) <==> !("data:image/png;base64," <= url)
    ensures !IsEncoding(text) ==>
              DecodePoster("data:image/png;base64," + text)
              == Refused(if |text| > 6990508 then TooLarge else InvalidBase64)
    ensures DecodePoster("data:image/png;base64," + Encode(bytes)) ==
            if bytes == [] || |bytes| > 5242880 then Refused(TooLarge)
            else if !([0x89, 0x50, 0x4E, 0x47, 0x0D, 0x0A, 0x1A, 0x0A] <= bytes) then Refused(BadSignature)
            else Accepted(bytes)
  {
    PosterOfText(text);
    PosterOfText(Encode(bytes));
    PosterOutcome(bytes);
    if !IsEncoding(text) { NotDecoded(text); }
  }

  lemma PosterOfText(text: string)
    ensures DecodePoster("data:image/png;base64," + text) == DecodePosterText(text)
  {
    var prefix := PNG_PREFIX;
    assert prefix <= prefix + text && (prefix + text)[|prefix|..] == text;
  }

  lemma NotDecoded(text: string)
    requires !IsEncoding(text)
    ensures Decode(text) == None && text != []
  {
    if Decode(text).Some? {
      EncodeOfDecode(text, Decode(text).value);
      assert IsEncoding(text);
    }
    assert Encode([]) == [];
    assert text == [] ==> text == Encode([]);
  }

  lemma Prefixed(url: string, prefix: string, text: string)
    ensures url == prefix + text <==> prefix <= url && url[|prefix|..] == text
  {
    if prefix <= url { assert url == prefix + url[|prefix|..]; }
  }

  datatype Video = WebM | Mp4

  function Prefix(video: Video): string {
    match video
    case WebM => WEBM_PREFIX
    case Mp4 => MP4_PREFIX
  }

  predicate HasSignature(bytes: seq<Byte>, video: Video) {
    match video
    case WebM => WEBM_SIGNATURE <= bytes
    case Mp4 => |bytes| >= 8 && bytes[4..8] == MP4_FILE_TYPE_BOX
  }

  function DecodeVideo(encoded: string, video: Video): Imported<(seq<Byte>, Video)> {
    match DecodedLen(encoded)
    case None => Refused(InvalidBase64)
    case Some(size) =>
      if size == 0 || size > MAX_BYTES then Refused(TooLarge)
      else
        match Decode(encoded)
        case None => Refused(InvalidBase64)
        case Some(bytes) => if HasSignature(bytes, video) then Accepted((bytes, video)) else Refused(BadSignature)
  }

  function DecodeAnimation(url: string): Imported<(seq<Byte>, Video)> {
    if WEBM_PREFIX <= url then DecodeVideo(url[|WEBM_PREFIX|..], WebM)
    else if MP4_PREFIX <= url then DecodeVideo(url[|MP4_PREFIX|..], Mp4)
    else Refused(UnsupportedFormat)
  }

  lemma VideoAcceptedIff(encoded: string, video: Video, bytes: seq<Byte>)
    ensures DecodeVideo(encoded, video) == Accepted((bytes, video)) <==>
            encoded == Encode(bytes) && bytes != [] && |bytes| <= MAX_BYTES && HasSignature(bytes, video)
  {
    DecodesExactlyEncodings(encoded, bytes);
    DecodesExactlyEncodings(encoded, []);
    if bytes != [] { DecodedLenIsExact(bytes); }
  }

  /** What is said of a text by its length before it is decoded, if it is no encoding, and by its bytes if it is one. */
  lemma VideoOutcome(text: string, video: Video, bytes: seq<Byte>)
    ensures !IsEncoding(text) ==>
              DecodeVideo(text, video) ==
              Refused(if |text| % 4 == 0 && TrailingPads(text) <= 2 && |text| / 4 * 3 - TrailingPads(text) > 5242880
                      then TooLarge else InvalidBase64)
    ensures DecodeVideo(Encode(bytes), video) ==
            if bytes == [] then Refused(InvalidBase64)
            else if |bytes| > 5242880 then Refused(TooLarge)
            else if HasSignature(bytes, video) then Accepted((bytes, video))
            else Refused(BadSignature)
  {
    if !IsEncoding(text) { NotDecoded(text); }
    DecodeOfEncode(bytes);
    if bytes != [] { DecodedLenIsExact(bytes); }
  }

  /** Why an animation is refused: it is neither a WebM nor an MP4 data URL, or its text is refused. */
  lemma AnimationRefusals(url: string, text: string)
    ensures DecodeAnimation(url) == Refused(UnsupportedFormat) <==>
            !("data:video/webm;base64," <= url) && !("data:video/mp4;base64," <= url)
    ensures DecodeAnimation("data:video/webm;base64," + text) == DecodeVideo(text, WebM)
    ensures DecodeAnimation("data:video/mp4;base64," + text) == DecodeVideo(text, Mp4)
  {
    var webm, mp4 := WEBM_PREFIX, MP4_PREFIX;
    assert webm <= webm + text && (webm + text)[|webm|..] == text;
    assert mp4 <= mp4 + text && (mp4 + text)[|mp4|..] == text;
    NoUrlHasBothPrefixes(mp4 + text);
  }

  lemma NoUrlHasBothPrefixes(url: string)
    ensures !(WEBM_PREFIX <= url && MP4_PREFIX <= url)
  {
    assert WEBM_PREFIX[11] == 'w' && MP4_PREFIX[11] == 'm';
  }

  /** An animation is accepted iff the URL encodes a video of its type of at most the maximal size. */
  lemma AnimationAcceptedIff(url: string, bytes: seq<Byte>, video: Video)
    ensures DecodeAnimation(url) == Accepted((bytes, video)) <==>
            match video
            case WebM =>
              && url == "data:video/webm;base64," + Encode(bytes)
              && |bytes| <= 5242880 && |bytes| >= 4 && bytes[..4] == [0x1A, 0x45, 0xDF, 0xA3]
            case Mp4 =>
              && url == "data:video/mp4;base64," + Encode(bytes)
              && |bytes| <= 5242880 && |bytes| >= 8 && bytes[4..8] == [0x66, 0x74, 0x79, 0x70]
  {
    var prefix := Prefix(video);
    NoUrlHasBothPrefixes(url);
    Prefixed(url, prefix, Encode(bytes));
    if prefix <= url { VideoAcceptedIff(url[|prefix|..], video, bytes); }
  }
}
