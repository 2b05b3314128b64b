// Accepting a CV photo: detection by magic number, the size limit, and the choice of stripper.
module CvPhoto {
  import opened Wrappers
  import opened Bytes
  import JpegStrip
  import PngStrip
  import WebpStrip
  import Base64

  datatype Mime = Jpeg | Png | Webp

  datatype UploadError = Empty | TooLarge | UnsupportedMime

  datatype Upload = Accepted(uri: string) | Rejected(error: UploadError)

  function MimeName(m: Mime): string {
    match m case Jpeg => "jpeg" case Png => "png" case Webp => "webp"
  }

  function DataUri(m: Mime, cleaned: bytes): string {
    "data:image/" + (MimeName(m) + (";base64," + Base64.Encode(cleaned)))
  }

  // How many lower-case letters a text begins with.
  function Letters(s: string): (n: nat)
    ensures n <= |s|
  {
    if s != "" && 'a' <= s[0] <= 'z' then 1 + Letters(s[1..]) else 0
  }

  // `(.+)$`: a final line break does not belong to the match.
  function Payload(s: string): Option<string> {
    var p := if s != "" && s[|s| - 1] == '\n' then s[..|s| - 1] else s;
    if p == "" || '\n' in p then None else Some(p)
  }

  // What `^data:image/[a-z]+;base64,(.+)$` captures.
  function UriPayload(uri: string): Option<string> {
    if !("data:image/" <= uri) then None
    else
      var r := uri[11..];
      var n := Letters(r);
      if n == 0 || !(";base64," <= r[n..]) then None else Payload(r[n..][8..])
  }

  // `extract_data_uri_size`; text outside ASCII does not decode.
  function ExtractSize(uri: Option<string>): nat {
    if uri.None? then 0
    else match UriPayload(uri.value)
      case None => 0
      case Some(p) =>
        if exists i :: 0 <= i < |p| && p[i] >= '\U{0080}' then 0
        else match Base64.Decode(p) case None => 0 case Some(b) => |b|
  }

  predicate Lowercase(name: string) { forall i :: 0 <= i < |name| ==> 'a' <= name[i] <= 'z' }

  lemma {:induction false} LettersOf(name: string, rest: string)
    requires Lowercase(name) && (rest == "" || !('a' <= rest[0] <= 'z'))
    ensures Letters(name + rest) == |name|
  {
    if name == "" {
      assert name + rest == rest;
    } else {
      var s := name + rest;
      assert s[0] == name[0] && s[1..] == name[1..] + rest;
      LettersOf(name[1..], rest);
    }
  }

  lemma PayloadOf(name: string, text: string)
    requires name != "" && Lowercase(name)
    ensures UriPayload("data:image/" + (name + (";base64," + text))) == Payload(text)
  {
    var behind := ";base64," + text;
    assert ("data:image/" + (name + behind))[11..] == name + behind;
    LettersOf(name, behind);
    assert (name + behind)[|name|..] == behind && behind[8..] == text;
  }

  // The size read from a stored photo is the number of bytes that were stored.
  lemma SizeIsExact(m: Mime, cleaned: bytes)
    ensures ExtractSize(Some(DataUri(m, cleaned))) == |cleaned|
  {
    var text := Base64.Encode(cleaned);
    PayloadOf(MimeName(m), text);
    Base64.EncodedText(cleaned);
    Base64.RoundTrip(cleaned);
    if cleaned != [] {
      assert text[|text| - 1] != '\n';
      assert Payload(text) == Some(text);
    }
  }

  function Cleaned(raw: bytes, m: Mime): bytes {
    match m
    case Jpeg => JpegStrip.Stripped(raw)
    case Png => PngStrip.Stripped(raw)
    case Webp => if WebpStrip.Stripped(raw).Bytes? then WebpStrip.Stripped(raw).value else raw
  }

  const MAX_RAW_BYTES := 512 * 1024

  const JPEG_MAGIC: bytes := [0xFF, 0xD8, 0xFF]

  function DetectImageMime(raw: bytes): Option<Mime> {
    if raw == [] then None
    else if JPEG_MAGIC <= raw then Some(Jpeg)
    else if PngStrip.SIGNATURE <= raw then Some(Png)
    else if WebpStrip.RIFF <= raw then (if |raw| < 12 || raw[8..12] != WebpStrip.WEBP then None else Some(Webp))
    else None
  }

  lemma WebpFits(raw: bytes)
    requires DetectImageMime(raw) == Some(Webp) && |raw| <= MAX_RAW_BYTES
    ensures WebpStrip.IsWebp(raw) && WebpStrip.Stripped(raw).Bytes?
  {
    WebpStrip.SmallFits(raw);
  }

  lemma MagicIs(raw: bytes)
    ensures DetectImageMime(raw) == Some(Jpeg) <==> [0xFF, 0xD8, 0xFF] <= raw
    ensures DetectImageMime(raw) == Some(Png) <==> [0x89, 0x50, 0x4E, 0x47, 0x0D, 0x0A, 0x1A, 0x0A] <= raw
    ensures DetectImageMime(raw) == Some(Webp) <==> WebpStrip.IsWebp(raw)
  {
    StartsRiff(raw);
    if JPEG_MAGIC <= raw { SameFirst(JPEG_MAGIC, raw); }
    if PngStrip.SIGNATURE <= raw { SameFirst(PngStrip.SIGNATURE, raw); }
  }

  lemma SameFirst(a: bytes, b: bytes)
    requires a != [] && a <= b
    ensures b != [] && b[0] == a[0]
  {
  }

  lemma StartsRiff(raw: bytes)
    ensures WebpStrip.RIFF <= raw <==> |raw| >= 4 && raw[..4] == WebpStrip.RIFF
    ensures WebpStrip.RIFF <= raw ==> raw[0] == 0x52
  {
    assert |WebpStrip.RIFF| == 4 && WebpStrip.RIFF[0] == 0x52;
    assert |raw| >= 4 ==> raw[..4][0] == raw[0];
  }

  // `normalise_photo_upload`. The container size never overflows here.
  method NormalisePhotoUpload(raw: bytes) returns (r: Upload)
    ensures r == Rejected(Empty) <==> raw == []
    ensures r == Rejected(TooLarge) <==> |raw| > MAX_RAW_BYTES
    ensures r.Accepted? <==> 0 < |raw| <= MAX_RAW_BYTES && DetectImageMime(raw).Some?
    ensures r.Accepted? ==>
              var m := DetectImageMime(raw).value;
              && r.uri == DataUri(m, Cleaned(raw, m))
              && ExtractSize(Some(r.uri)) == |Cleaned(raw, m)| <= |raw|
    ensures r.Accepted? <==>
              && 0 < |raw| <= 524288
              && ([0xFF, 0xD8, 0xFF] <= raw || [0x89, 0x50, 0x4E, 0x47, 0x0D, 0x0A, 0x1A, 0x0A] <= raw
                  || WebpStrip.IsWebp(raw))
    ensures r.Accepted? && [0xFF, 0xD8, 0xFF] <= raw ==>
              r.uri == "data:image/" + ("jpeg" + (";base64," + Base64.Encode(JpegStrip.Stripped(raw))))
    ensures r.Accepted? && [0x89, 0x50, 0x4E, 0x47, 0x0D, 0x0A, 0x1A, 0x0A] <= raw ==>
              r.uri == "data:image/" + ("png" + (";base64," + Base64.Encode(PngStrip.Stripped(raw))))
    ensures r.Accepted? && WebpStrip.IsWebp(raw) ==>
              && WebpStrip.Stripped(raw).Bytes?
              && r.uri == "data:image/" + ("webp" + (";base64," + Base64.Encode(WebpStrip.Stripped(raw).value)))
  {
    MagicIs(raw);
    if raw == [] {
      return Rejected(Empty);
    }
    if |raw| > MAX_RAW_BYTES {
      return Rejected(TooLarge);
    }
    var mime := DetectImageMime(raw);
    var cleaned;
    match mime {
      case None => return Rejected(UnsupportedMime);
      case Some(Jpeg) =>
        cleaned := JpegStrip.StripJpegExif(raw);
        JpegStrip.StripsJpeg(raw);
      case Some(Png) =>
        cleaned := PngStrip.StripPngMetadata(raw);
        PngStrip.StripsPng(raw);
      case Some(Webp) =>
        var stripped := WebpStrip.StripWebpMetadata(raw);
        WebpFits(raw);
        WebpStrip.StripsWebp(raw);
        cleaned := stripped.value;
    }
    SizeIsExact(mime.value, cleaned);
    r := Accepted(DataUri(mime.value, cleaned));
  }

  // A JPEG whose kept segments start with a marker, or that is too malformed to be touched.
  predicate KeepsJpegMagic(raw: bytes)
    requires |raw| >= 2
  {
    match JpegStrip.Parse(raw[2..])
    case None => true
    case Some(ss) =>
      var kept := JpegStrip.Kept(ss);
      kept != [] && (kept[0].Tail? ==> kept[0].rest != [] && kept[0].rest[0] == 0xFF)
  }

  // Stripping a PNG or WebP photo never changes the type it is recognised as; a JPEG photo stays one
  // exactly when a marker is left at its front.
  lemma TypeSurvivesStripping(raw: bytes)
    requires DetectImageMime(raw).Some? && |raw| <= MAX_RAW_BYTES
    ensures DetectImageMime(raw) == Some(Png) ==> DetectImageMime(PngStrip.Stripped(raw)) == Some(Png)
    ensures DetectImageMime(raw) == Some(Webp) ==>
              WebpStrip.Stripped(raw).Bytes? && DetectImageMime(WebpStrip.Stripped(raw).value) == Some(Webp)
    ensures DetectImageMime(raw) == Some(Jpeg) ==>
              (DetectImageMime(JpegStrip.Stripped(raw)) == Some(Jpeg) <==> KeepsJpegMagic(raw))
  {
    match DetectImageMime(raw)
    case Some(Png) => PngStrip.StripsPng(raw);
    case Some(Webp) =>
      WebpFits(raw);
      if WebpStrip.Parse(raw[12..]).Some? {
        WebpStrip.StripsWebp(raw);
        WebpStaysWebp(WebpStrip.Stripped(raw).value);
      }
    case Some(Jpeg) => JpegStaysJpeg(raw);
  }

  lemma WebpStaysWebp(out: bytes)
    requires WebpStrip.IsWebp(out)
    ensures DetectImageMime(out) == Some(Webp)
  {
    assert out[0] == out[..4][0] == 0x52;
  }

  lemma JpegStaysJpeg(raw: bytes)
    requires DetectImageMime(raw) == Some(Jpeg)
    ensures DetectImageMime(JpegStrip.Stripped(raw)) == Some(Jpeg) <==> KeepsJpegMagic(raw)
  {
    JpegStrip.StripsJpeg(raw);
    var out := JpegStrip.Stripped(raw);
    if JpegStrip.Parse(raw[2..]).Some? {
      var kept := JpegStrip.Kept(JpegStrip.Parse(raw[2..]).value);
      JpegStrip.PrintParsed(out[2..]);
      assert out[2..] == JpegStrip.Print(kept);
      assert out[0] == 0xFF && out[1] == 0xD8;
      assert kept != [] ==> JpegStrip.Print(kept) == JpegStrip.PrintOne(kept[0]) + JpegStrip.Print(kept[1..]);
      assert |out| > 2 ==> out[2] == out[2..][0];
    }
  }

  // A start marker and one APP1 segment: accepted as a JPEG, stored as two bytes that are none.
  lemma BareApp1IsNoJpeg()
    ensures var raw: bytes := [0xFF, 0xD8, 0xFF, 0xE1, 0x00, 0x02];
            && DetectImageMime(raw) == Some(Jpeg)
            && JpegStrip.Stripped(raw) == [0xFF, 0xD8] && DetectImageMime([0xFF, 0xD8]) == None
  {
    var raw: bytes := [0xFF, 0xD8, 0xFF, 0xE1, 0x00, 0x02];
    var segment: bytes := [0xFF, 0xE1, 0x00, 0x02];
    assert raw[2..] == segment && raw[..2] == [0xFF, 0xD8];
    assert segment[2..4] == [0x00, 0x02] && Be16(segment[2..4]) == 2;
    assert segment[4..] == [];
    assert JpegStrip.Parse([]) == Some([]);
    JpegStrip.StripsJpeg(raw);
  }
}
