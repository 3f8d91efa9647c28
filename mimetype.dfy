/**
 * `mimetype.rs`: the well-known MIME types of the RSocket extensions, the
 * string lookup that maps a listed name to its variant, and the conversion
 * back to a string.
 */
module MimeTypes {
  import opened Wrappers

  /** The mimetype a SETUP frame announces for metadata and data unless told otherwise. */
  const DEFAULT_MIMETYPE: string := "application/binary"

  datatype WellKnownMimeType =
    | UNPARSEABLE
    | APPLICATION_AVRO
    | APPLICATION_CBOR
    | APPLICATION_GRAPHQL
    | APPLICATION_GZIP
    | APPLICATION_JAVASCRIPT
    | APPLICATION_JSON
    | APPLICATION_OCTET_STREAM
    | APPLICATION_PDF
    | APPLICATION_VND_APACHE_THRIFT_BINARY
    | APPLICATION_VND_GOOGLE_PROTOBUF
    | APPLICATION_XML
    | APPLICATION_ZIP
    | AUDIO_AAC
    | AUDIO_MP3
    | AUDIO_MP4
    | AUDIO_MPEG3
    | AUDIO_MPEG
    | AUDIO_OGG
    | AUDIO_OPUS
    | AUDIO_VORBIS
    | IMAGE_BMP
    | IMAGE_GIF
    | IMAGE_HEIC_SEQUENCE
    | IMAGE_HEIC
    | IMAGE_HEIF_SEQUENCE
    | IMAGE_HEIF
    | IMAGE_JPEG
    | IMAGE_PNG
    | IMAGE_TIFF
    | MULTIPART_MIXED
    | TEXT_CSS
    | TEXT_CSV
    | TEXT_HTML
    | TEXT_PLAIN
    | TEXT_XML
    | VIDEO_H264
    | VIDEO_H265
    | VIDEO_VP8
    | APPLICATION_X_HESSIAN
    | APPLICATION_X_JAVA_OBJECT
    | APPLICATION_CLOUDEVENTS_JSON
    | MESSAGE_X_RSOCKET_MIME_TYPE_V0
    | MESSAGE_X_RSOCKET_ACCEPT_TIME_TYPES_V0
    | MESSAGE_X_RSOCKET_AUTHENTICATION_V0
    | MESSAGE_X_RSOCKET_TRACING_ZIPKIN_V0
    | MESSAGE_X_RSOCKET_ROUTING_V0
    | MESSAGE_X_RSOCKET_COMPOSITE_METADATA_V0

  /** `From<&str>`: the variant whose name is `v` exactly, `UNPARSEABLE` for any other string. */
  function FromStr(v: string): WellKnownMimeType
  {
    match v
    case "application/avro" => APPLICATION_AVRO
    case "application/cbor" => APPLICATION_CBOR
    case "application/graphql" => APPLICATION_GRAPHQL
    case "application/gzip" => APPLICATION_GZIP
    case "application/javascript" => APPLICATION_JAVASCRIPT
    case "application/json" => APPLICATION_JSON
    case "application/octet-stream" => APPLICATION_OCTET_STREAM
    case "application/pdf" => APPLICATION_PDF
    case "application/vnd.apache.thrift.binary" => APPLICATION_VND_APACHE_THRIFT_BINARY
    case "application/vnd.google.protobuf" => APPLICATION_VND_GOOGLE_PROTOBUF
    case "application/xml" => APPLICATION_XML
    case "application/zip" => APPLICATION_ZIP
    case "audio/aac" => AUDIO_AAC
    case "audio/mp3" => AUDIO_MP3
    case "audio/mp4" => AUDIO_MP4
    case "audio/mpeg3" => AUDIO_MPEG3
    case "audio/mpeg" => AUDIO_MPEG
    case "audio/ogg" => AUDIO_OGG
    case "audio/opus" => AUDIO_OPUS
    case "audio/vorbis" => AUDIO_VORBIS
    case "image/bmp" => IMAGE_BMP
    case "image/gif" => IMAGE_GIF
    case "image/heic-sequence" => IMAGE_HEIC_SEQUENCE
    case "image/heic" => IMAGE_HEIC
    case "image/heif-sequence" => IMAGE_HEIF_SEQUENCE
    case "image/heif" => IMAGE_HEIF
    case "image/jpeg" => IMAGE_JPEG
    case "image/png" => IMAGE_PNG
    case "image/tiff" => IMAGE_TIFF
    case "multipart/mixed" => MULTIPART_MIXED
    case "text/css" => TEXT_CSS
    case "text/csv" => TEXT_CSV
    case "text/html" => TEXT_HTML
    case "text/plain" => TEXT_PLAIN
    case "text/xml" => TEXT_XML
    case "video/H264" => VIDEO_H264
    case "video/H265" => VIDEO_H265
    case "video/VP8" => VIDEO_VP8
    case "application/x-hessian" => APPLICATION_X_HESSIAN
    case "application/x-java-object" => APPLICATION_X_JAVA_OBJECT
    case "application/cloudevents+json" => APPLICATION_CLOUDEVENTS_JSON
    case "message/x.rsocket.mime.type.v0" => MESSAGE_X_RSOCKET_MIME_TYPE_V0
    case "message/x.rsocket.accept.time.types.v0" => MESSAGE_X_RSOCKET_ACCEPT_TIME_TYPES_V0
    case "message/x.rsocket.authentication.v0" => MESSAGE_X_RSOCKET_AUTHENTICATION_V0
    case "message/x.rsocket.tracing.zipkin.v0" => MESSAGE_X_RSOCKET_TRACING_ZIPKIN_V0
    case "message/x.rsocket.routing.v0" => MESSAGE_X_RSOCKET_ROUTING_V0
    case "message/x.rsocket.composite.metadata.v0" => MESSAGE_X_RSOCKET_COMPOSITE_METADATA_V0
    case _ => UNPARSEABLE
  }

  /**
   * The conversion to a string as evidently intended: the name `FromStr`
   * maps to the variant, and the empty string for `UNPARSEABLE`.
   */
  function IntoStr(t: WellKnownMimeType): (s: string)
    ensures t == UNPARSEABLE <==> s == ""
  {
    match t
    case UNPARSEABLE => ""
    case APPLICATION_AVRO => "application/avro"
    case APPLICATION_CBOR => "application/cbor"
    case APPLICATION_GRAPHQL => "application/graphql"
    case APPLICATION_GZIP => "application/gzip"
    case APPLICATION_JAVASCRIPT => "application/javascript"
    case APPLICATION_JSON => "application/json"
    case APPLICATION_OCTET_STREAM => "application/octet-stream"
    case APPLICATION_PDF => "application/pdf"
    case APPLICATION_VND_APACHE_THRIFT_BINARY => "application/vnd.apache.thrift.binary"
    case APPLICATION_VND_GOOGLE_PROTOBUF => "application/vnd.google.protobuf"
    case APPLICATION_XML => "application/xml"
    case APPLICATION_ZIP => "application/zip"
    case AUDIO_AAC => "audio/aac"
    case AUDIO_MP3 => "audio/mp3"
    case AUDIO_MP4 => "audio/mp4"
    case AUDIO_MPEG3 => "audio/mpeg3"
    case AUDIO_MPEG => "audio/mpeg"
    case AUDIO_OGG => "audio/ogg"
    case AUDIO_OPUS => "audio/opus"
    case AUDIO_VORBIS => "audio/vorbis"
    case IMAGE_BMP => "image/bmp"
    case IMAGE_GIF => "image/gif"
    case IMAGE_HEIC_SEQUENCE => "image/heic-sequence"
    case IMAGE_HEIC => "image/heic"
    case IMAGE_HEIF_SEQUENCE => "image/heif-sequence"
    case IMAGE_HEIF => "image/heif"
    case IMAGE_JPEG => "image/jpeg"
    case IMAGE_PNG => "image/png"
    case IMAGE_TIFF => "image/tiff"
    case MULTIPART_MIXED => "multipart/mixed"
    case TEXT_CSS => "text/css"
    case TEXT_CSV => "text/csv"
    case TEXT_HTML => "text/html"
    case TEXT_PLAIN => "text/plain"
    case TEXT_XML => "text/xml"
    case VIDEO_H264 => "video/H264"
    case VIDEO_H265 => "video/H265"
    case VIDEO_VP8 => "video/VP8"
    case APPLICATION_X_HESSIAN => "application/x-hessian"
    case APPLICATION_X_JAVA_OBJECT => "application/x-java-object"
    case APPLICATION_CLOUDEVENTS_JSON => "application/cloudevents+json"
    case MESSAGE_X_RSOCKET_MIME_TYPE_V0 => "message/x.rsocket.mime.type.v0"
    case MESSAGE_X_RSOCKET_ACCEPT_TIME_TYPES_V0 => "message/x.rsocket.accept.time.types.v0"
    case MESSAGE_X_RSOCKET_AUTHENTICATION_V0 => "message/x.rsocket.authentication.v0"
    case MESSAGE_X_RSOCKET_TRACING_ZIPKIN_V0 => "message/x.rsocket.tracing.zipkin.v0"
    case MESSAGE_X_RSOCKET_ROUTING_V0 => "message/x.rsocket.routing.v0"
    case MESSAGE_X_RSOCKET_COMPOSITE_METADATA_V0 => "message/x.rsocket.composite.metadata.v0"
  }

  /**
   * `From<WellKnownMimeType> for &str` as written: `UNPARSEABLE` gives the
   * empty string and every other variant calls the same conversion again on
   * the same value. The recursion is unfolded `fuel` times; running out of
   * fuel stands for not returning.
   */
  function IntoStrAsWritten(t: WellKnownMimeType, fuel: nat): (r: Option<string>)
    ensures t == UNPARSEABLE ==> r == Some("")
  {
    if t == UNPARSEABLE then Some("")
    else if fuel == 0 then None
    else IntoStrAsWritten(t, fuel - 1)
  }

  /** However deep the recursion is allowed to go, a listed variant never yields a string. */
  lemma {:induction false} IntoStrAsWrittenNeverReturns(t: WellKnownMimeType, fuel: nat)
    requires t != UNPARSEABLE
    ensures IntoStrAsWritten(t, fuel) == None
  {
    if fuel > 0 {
      IntoStrAsWrittenNeverReturns(t, fuel - 1);
    }
  }

  /** The names the lookup lists: the name of every variant but `UNPARSEABLE`. */
  const LISTED: set<string> := set t: WellKnownMimeType | t != UNPARSEABLE :: IntoStr(t)

  /** Every variant but `UNPARSEABLE` has a listed name. */
  lemma IntoStrIsListed(t: WellKnownMimeType)
    ensures t != UNPARSEABLE ==> IntoStr(t) in LISTED
  {
  }

  /** Any string outside the list maps to `UNPARSEABLE`; so a string that maps elsewhere is listed. */
  lemma UnlistedIsUnparseable(v: string)
    ensures v !in LISTED ==> FromStr(v) == UNPARSEABLE
  {
    FromStrNamesItsInput(v);
  }

  /**
   * The length of every listed name. Most names are told apart by their
   * length alone, which keeps the lookup proofs below affordable.
   */
  lemma NameLengths()
    ensures |"application/avro"| == 16 &&
      |"application/cbor"| == 16 &&
      |"application/graphql"| == 19 &&
      |"application/gzip"| == 16 &&
      |"application/javascript"| == 22 &&
      |"application/json"| == 16 &&
      |"application/octet-stream"| == 24 &&
      |"application/pdf"| == 15 &&
      |"application/vnd.apache.thrift.binary"| == 36 &&
      |"application/vnd.google.protobuf"| == 31 &&
      |"application/xml"| == 15 &&
      |"application/zip"| == 15 &&
      |"audio/aac"| == 9 &&
      |"audio/mp3"| == 9 &&
      |"audio/mp4"| == 9 &&
      |"audio/mpeg3"| == 11 &&
      |"audio/mpeg"| == 10 &&
      |"audio/ogg"| == 9 &&
      |"audio/opus"| == 10 &&
      |"audio/vorbis"| == 12 &&
      |"image/bmp"| == 9 &&
      |"image/gif"| == 9 &&
      |"image/heic-sequence"| == 19 &&
      |"image/heic"| == 10 &&
      |"image/heif-sequence"| == 19 &&
      |"image/heif"| == 10 &&
      |"image/jpeg"| == 10 &&
      |"image/png"| == 9 &&
      |"image/tiff"| == 10 &&
      |"multipart/mixed"| == 15 &&
      |"text/css"| == 8 &&
      |"text/csv"| == 8 &&
      |"text/html"| == 9 &&
      |"text/plain"| == 10 &&
      |"text/xml"| == 8 &&
      |"video/H264"| == 10 &&
      |"video/H265"| == 10 &&
      |"video/VP8"| == 9 &&
      |"application/x-hessian"| == 21 &&
      |"application/x-java-object"| == 25 &&
      |"application/cloudevents+json"| == 28 &&
      |"message/x.rsocket.mime.type.v0"| == 30 &&
      |"message/x.rsocket.accept.time.types.v0"| == 38 &&
      |"message/x.rsocket.authentication.v0"| == 35 &&
      |"message/x.rsocket.tracing.zipkin.v0"| == 35 &&
      |"message/x.rsocket.routing.v0"| == 28 &&
      |"message/x.rsocket.composite.metadata.v0"| == 39
  {
  }

  /**
   * Every variant's name looks up as that variant: each listed string maps
   * to its own variant, and the empty string of `UNPARSEABLE` maps back to
   * `UNPARSEABLE`. The proof takes the names one length at a time.
   */
  lemma FromStrOfIntoStr()
    ensures forall t :: FromStr(IntoStr(t)) == t
  {
    NamesOfLength8LookUp();
    NamesOfLength9LookUp();
    NamesOfLength10LookUp();
    NamesOfLength11LookUp();
    NamesOfLength12LookUp();
    NamesOfLength15LookUp();
    NamesOfLength16LookUp();
    NamesOfLength19LookUp();
    NamesOfLength21LookUp();
    NamesOfLength22LookUp();
    NamesOfLength24LookUp();
    NamesOfLength25LookUp();
    NamesOfLength28LookUp();
    NamesOfLength30LookUp();
    NamesOfLength31LookUp();
    NamesOfLength35LookUp();
    NamesOfLength36LookUp();
    NamesOfLength38LookUp();
    NamesOfLength39LookUp();
    forall t ensures FromStr(IntoStr(t)) == t {
      NameLengths();
    }
  }

  lemma NamesOfLength8LookUp()
    ensures forall t | |IntoStr(t)| == 8 :: FromStr(IntoStr(t)) == t
  {
    NameLengths();
    forall t | |IntoStr(t)| == 8 ensures FromStr(IntoStr(t)) == t {
    }
  }

  lemma NamesOfLength9LookUp()
    ensures forall t | |IntoStr(t)| == 9 :: FromStr(IntoStr(t)) == t
  {
    NameLengths();
    forall t | |IntoStr(t)| == 9 && IntoStr(t)[0] == 'a' ensures FromStr(IntoStr(t)) == t {
    }
    forall t | |IntoStr(t)| == 9 && IntoStr(t)[0] != 'a' ensures FromStr(IntoStr(t)) == t {
    }
  }

  lemma NamesOfLength10LookUp()
    ensures forall t | |IntoStr(t)| == 10 :: FromStr(IntoStr(t)) == t
  {
    NameLengths();
    forall t | |IntoStr(t)| == 10 && IntoStr(t)[0] == 'a' ensures FromStr(IntoStr(t)) == t {
    }
    forall t | |IntoStr(t)| == 10 && IntoStr(t)[0] != 'a' ensures FromStr(IntoStr(t)) == t {
    }
  }

  lemma NamesOfLength11LookUp()
    ensures forall t | |IntoStr(t)| == 11 :: FromStr(IntoStr(t)) == t
  {
    NameLengths();
    forall t | |IntoStr(t)| == 11 ensures FromStr(IntoStr(t)) == t {
    }
  }

  lemma NamesOfLength12LookUp()
    ensures forall t | |IntoStr(t)| == 12 :: FromStr(IntoStr(t)) == t
  {
    NameLengths();
    forall t | |IntoStr(t)| == 12 ensures FromStr(IntoStr(t)) == t {
    }
  }

  lemma NamesOfLength15LookUp()
    ensures forall t | |IntoStr(t)| == 15 :: FromStr(IntoStr(t)) == t
  {
    NameLengths();
    forall t | |IntoStr(t)| == 15 ensures FromStr(IntoStr(t)) == t {
    }
  }

  lemma NamesOfLength16LookUp()
    ensures forall t | |IntoStr(t)| == 16 :: FromStr(IntoStr(t)) == t
  {
    NameLengths();
    forall t | |IntoStr(t)| == 16 ensures FromStr(IntoStr(t)) == t {
    }
  }

  lemma NamesOfLength19LookUp()
    ensures forall t | |IntoStr(t)| == 19 :: FromStr(IntoStr(t)) == t
  {
    NameLengths();
    forall t | |IntoStr(t)| == 19 ensures FromStr(IntoStr(t)) == t {
    }
  }

  lemma NamesOfLength21LookUp()
    ensures forall t | |IntoStr(t)| == 21 :: FromStr(IntoStr(t)) == t
  {
    NameLengths();
    forall t | |IntoStr(t)| == 21 ensures FromStr(IntoStr(t)) == t {
    }
  }

  lemma NamesOfLength22LookUp()
    ensures forall t | |IntoStr(t)| == 22 :: FromStr(IntoStr(t)) == t
  {
    NameLengths();
    forall t | |IntoStr(t)| == 22 ensures FromStr(IntoStr(t)) == t {
    }
  }

  lemma NamesOfLength24LookUp()
    ensures forall t | |IntoStr(t)| == 24 :: FromStr(IntoStr(t)) == t
  {
    NameLengths();
    forall t | |IntoStr(t)| == 24 ensures FromStr(IntoStr(t)) == t {
    }
  }

  lemma NamesOfLength25LookUp()
    ensures forall t | |IntoStr(t)| == 25 :: FromStr(IntoStr(t)) == t
  {
    NameLengths();
    forall t | |IntoStr(t)| == 25 ensures FromStr(IntoStr(t)) == t {
    }
  }

  lemma NamesOfLength28LookUp()
    ensures forall t | |IntoStr(t)| == 28 :: FromStr(IntoStr(t)) == t
  {
    NameLengths();
    forall t | |IntoStr(t)| == 28 ensures FromStr(IntoStr(t)) == t {
    }
  }

  lemma NamesOfLength30LookUp()
    ensures forall t | |IntoStr(t)| == 30 :: FromStr(IntoStr(t)) == t
  {
    NameLengths();
    forall t | |IntoStr(t)| == 30 ensures FromStr(IntoStr(t)) == t {
    }
  }

  lemma NamesOfLength31LookUp()
    ensures forall t | |IntoStr(t)| == 31 :: FromStr(IntoStr(t)) == t
  {
    NameLengths();
    forall t | |IntoStr(t)| == 31 ensures FromStr(IntoStr(t)) == t {
    }
  }

  lemma NamesOfLength35LookUp()
    ensures forall t | |IntoStr(t)| == 35 :: FromStr(IntoStr(t)) == t
  {
    NameLengths();
    forall t | |IntoStr(t)| == 35 ensures FromStr(IntoStr(t)) == t {
    }
  }

  lemma NamesOfLength36LookUp()
    ensures forall t | |IntoStr(t)| == 36 :: FromStr(IntoStr(t)) == t
  {
    NameLengths();
    forall t | |IntoStr(t)| == 36 ensures FromStr(IntoStr(t)) == t {
    }
  }

  lemma NamesOfLength38LookUp()
    ensures forall t | |IntoStr(t)| == 38 :: FromStr(IntoStr(t)) == t
  {
    NameLengths();
    forall t | |IntoStr(t)| == 38 ensures FromStr(IntoStr(t)) == t {
    }
  }

  lemma NamesOfLength39LookUp()
    ensures forall t | |IntoStr(t)| == 39 :: FromStr(IntoStr(t)) == t
  {
    NameLengths();
    forall t | |IntoStr(t)| == 39 ensures FromStr(IntoStr(t)) == t {
    }
  }

  /**
   * The lookup recognises a string only when it is exactly the name of the
   * variant it returns. The proof takes the strings one length at a time.
   */
  lemma FromStrNamesItsInput(v: string)
    ensures FromStr(v) != UNPARSEABLE ==> IntoStr(FromStr(v)) == v
  {
    NameLengths();
    if |v| == 8 {
      FromStrOfLength8(v);
    } else if |v| == 9 {
      FromStrOfLength9(v);
    } else if |v| == 10 {
      FromStrOfLength10(v);
    } else if |v| == 11 {
      FromStrOfLength11(v);
    } else if |v| == 12 {
      FromStrOfLength12(v);
    } else if |v| == 15 {
      FromStrOfLength15(v);
    } else if |v| == 16 {
      FromStrOfLength16(v);
    } else if |v| == 19 {
      FromStrOfLength19(v);
    } else if |v| == 21 {
      FromStrOfLength21(v);
    } else if |v| == 22 {
      FromStrOfLength22(v);
    } else if |v| == 24 {
      FromStrOfLength24(v);
    } else if |v| == 25 {
      FromStrOfLength25(v);
    } else if |v| == 28 {
      FromStrOfLength28(v);
    } else if |v| == 30 {
      FromStrOfLength30(v);
    } else if |v| == 31 {
      FromStrOfLength31(v);
    } else if |v| == 35 {
      FromStrOfLength35(v);
    } else if |v| == 36 {
      FromStrOfLength36(v);
    } else if |v| == 38 {
      FromStrOfLength38(v);
    } else if |v| == 39 {
      FromStrOfLength39(v);
    }
  }

  lemma FromStrOfLength8(v: string)
    requires |v| == 8
    ensures FromStr(v) != UNPARSEABLE ==> IntoStr(FromStr(v)) == v
  {
    NameLengths();
  }

  lemma FromStrOfLength9(v: string)
    requires |v| == 9
    ensures FromStr(v) != UNPARSEABLE ==> IntoStr(FromStr(v)) == v
  {
    NameLengths();
  }

  lemma FromStrOfLength10(v: string)
    requires |v| == 10
    ensures FromStr(v) != UNPARSEABLE ==> IntoStr(FromStr(v)) == v
  {
    NameLengths();
  }

  lemma FromStrOfLength11(v: string)
    requires |v| == 11
    ensures FromStr(v) != UNPARSEABLE ==> IntoStr(FromStr(v)) == v
  {
    NameLengths();
  }

  lemma FromStrOfLength12(v: string)
    requires |v| == 12
    ensures FromStr(v) != UNPARSEABLE ==> IntoStr(FromStr(v)) == v
  {
    NameLengths();
  }

  lemma FromStrOfLength15(v: string)
    requires |v| == 15
    ensures FromStr(v) != UNPARSEABLE ==> IntoStr(FromStr(v)) == v
  {
    NameLengths();
  }

  lemma FromStrOfLength16(v: string)
    requires |v| == 16
    ensures FromStr(v) != UNPARSEABLE ==> IntoStr(FromStr(v)) == v
  {
    NameLengths();
  }

  lemma FromStrOfLength19(v: string)
    requires |v| == 19
    ensures FromStr(v) != UNPARSEABLE ==> IntoStr(FromStr(v)) == v
  {
    NameLengths();
  }

  lemma FromStrOfLength21(v: string)
    requires |v| == 21
    ensures FromStr(v) != UNPARSEABLE ==> IntoStr(FromStr(v)) == v
  {
    NameLengths();
  }

  lemma FromStrOfLength22(v: string)
    requires |v| == 22
    ensures FromStr(v) != UNPARSEABLE ==> IntoStr(FromStr(v)) == v
  {
    NameLengths();
  }

  lemma FromStrOfLength24(v: string)
    requires |v| == 24
    ensures FromStr(v) != UNPARSEABLE ==> IntoStr(FromStr(v)) == v
  {
    NameLengths();
  }

  lemma FromStrOfLength25(v: string)
    requires |v| == 25
    ensures FromStr(v) != UNPARSEABLE ==> IntoStr(FromStr(v)) == v
  {
    NameLengths();
  }

  lemma FromStrOfLength28(v: string)
    requires |v| == 28
    ensures FromStr(v) != UNPARSEABLE ==> IntoStr(FromStr(v)) == v
  {
    NameLengths();
  }

  lemma FromStrOfLength30(v: string)
    requires |v| == 30
    ensures FromStr(v) != UNPARSEABLE ==> IntoStr(FromStr(v)) == v
  {
    NameLengths();
  }

  lemma FromStrOfLength31(v: string)
    requires |v| == 31
    ensures FromStr(v) != UNPARSEABLE ==> IntoStr(FromStr(v)) == v
  {
    NameLengths();
  }

  lemma FromStrOfLength35(v: string)
    requires |v| == 35
    ensures FromStr(v) != UNPARSEABLE ==> IntoStr(FromStr(v)) == v
  {
    NameLengths();
  }

  lemma FromStrOfLength36(v: string)
    requires |v| == 36
    ensures FromStr(v) != UNPARSEABLE ==> IntoStr(FromStr(v)) == v
  {
    NameLengths();
  }

  lemma FromStrOfLength38(v: string)
    requires |v| == 38
    ensures FromStr(v) != UNPARSEABLE ==> IntoStr(FromStr(v)) == v
  {
    NameLengths();
  }

  lemma FromStrOfLength39(v: string)
    requires |v| == 39
    ensures FromStr(v) != UNPARSEABLE ==> IntoStr(FromStr(v)) == v
  {
    NameLengths();
  }

  /**
   * Every listed string looks up as a variant other than `UNPARSEABLE`, and
   * that variant's name is the string again.
   */
  lemma IntoStrOfFromStr(v: string)
    requires v in LISTED
    ensures FromStr(v) != UNPARSEABLE && IntoStr(FromStr(v)) == v
  {
    FromStrOfIntoStr();
  }

  /** No two strings look up as the same variant, unless both are unparseable. */
  lemma FromStrInjective(v: string, w: string)
    ensures FromStr(v) == FromStr(w) != UNPARSEABLE ==> v == w
  {
    FromStrNamesItsInput(v);
    FromStrNamesItsInput(w);
  }

  /** No two variants share a name. */
  lemma IntoStrInjective(a: WellKnownMimeType, b: WellKnownMimeType)
    ensures IntoStr(a) == IntoStr(b) ==> a == b
  {
    FromStrOfIntoStr();
  }

  /**
   * Examples: "application/json" is listed; the default mimetype and
   * "unparsable" are not, and `UNPARSEABLE` converts to the empty string.
   */
  lemma LookupExamples()
    ensures FromStr("application/json") == APPLICATION_JSON
    ensures FromStr(DEFAULT_MIMETYPE) == UNPARSEABLE
    ensures FromStr("unparsable") == UNPARSEABLE && IntoStr(FromStr("unparsable")) == ""
    ensures IntoStrAsWritten(FromStr("unparsable"), 0) == Some("")
  {
    NameLengths();
  }
}
