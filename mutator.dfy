/**
  The helpers of the admission mutator (pkg/mutator/util.go): choosing the
  address the webhook listens on, building the list of allowed images,
  reading the platform user out of a bearer JWT, the "forbidden" message,
  and defaulting the label and annotation maps of an object's metadata.
*/
module Mutator {
  import opened Wrappers
  import opened GoStrings

  // ---------------------------------------------------------------------
  // Configuration
  // ---------------------------------------------------------------------

  /** The TLS file locations of a `rest.TLSClientConfig` that the mutator reads. */
  datatype TlsConfig = TlsConfig(certFile: string, keyFile: string)

  /** The daemon configuration (`Config`). */
  datatype Config = Config(
    host: string,
    tlsInsecure: bool,
    tlsServerConfig: TlsConfig,
    tlsClientConfig: TlsConfig,
    serve: string,
    allowedImages: string,
    registryImages: string,
    kongApiHost: string)

  const PlainAddress: string := ":8080"
  const TlsAddress: string := ":8443"

  /**
    `Config.GetServeAddress`: the bind address and whether to serve TLS.
    TLS is chosen exactly when both server TLS files are given and no explicit
    address is configured; an explicit address always wins and is served
    without TLS; otherwise the plain default port is used.
  */
  function GetServeAddress(c: Config): (r: (string, bool))
    ensures r.1 <==> c.tlsServerConfig.certFile != "" && c.tlsServerConfig.keyFile != "" && c.serve == ""
    ensures r.1 ==> r.0 == TlsAddress
    ensures !r.1 && c.serve == "" ==> r.0 == PlainAddress
    ensures c.serve != "" ==> r == (c.serve, false)
    ensures r.0 != ""
  {
    if |c.tlsServerConfig.certFile| > 0 && |c.tlsServerConfig.keyFile| > 0 && |c.serve| == 0 then
      (TlsAddress, true)
    else if |c.serve| == 0 then
      (PlainAddress, false)
    else
      (c.serve, false)
  }

  /**
    `Config.GetImages`: one entry per comma-separated element of
    `allowedImages`, in order, each joined onto the registry path. An empty
    `allowedImages` still yields one entry. `join` stands for `filepath.Join`.
  */
  method GetImages(c: Config, join: (string, string) -> string) returns (images: seq<string>)
    ensures |images| == Count(c.allowedImages, ',') + 1
    ensures |images| == |Split(c.allowedImages, ',')|
    ensures forall i :: 0 <= i < |images| ==>
              images[i] == join(c.registryImages, Split(c.allowedImages, ',')[i])
  {
    images := [];
    var pieces := Split(c.allowedImages, ',');
    for i := 0 to |pieces|
      invariant |images| == i
      invariant forall k :: 0 <= k < i ==> images[k] == join(c.registryImages, pieces[k])
    {
      images := images + [join(c.registryImages, pieces[i])];
    }
    SplitLength(c.allowedImages, ',');
  }

  /**
    The elements `GetImages` joins onto the registry, put back together with
    commas, are exactly the configured `allowedImages`: nothing is dropped,
    added or reordered.
  */
  lemma {:induction false} ImageElementsCoverAllowedImages(c: Config)
    ensures Join(Split(c.allowedImages, ','), ',') == c.allowedImages
    ensures Split(c.allowedImages, ',')[0] == c.allowedImages <==> ',' !in c.allowedImages
  {
    JoinSplit(c.allowedImages, ',');
    var pieces := Split(c.allowedImages, ',');
    if ',' !in c.allowedImages {
      SplitNoSeparator(c.allowedImages, ',');
    } else {
      assert ',' !in pieces[0];
    }
  }

  // ---------------------------------------------------------------------
  // Users and the forbidden-access message
  // ---------------------------------------------------------------------

  /** A platform user, as carried in the payload of the bearer token. */
  datatype User = User(
    id: string,
    username: string,
    customer: string,
    organization: string,
    groups: seq<string>)

  const DeniedOpening: string := "Permission denied. The user belongs to the customer '"
  const OrganizationInfix: string := "' and organization '"
  const UserClose: string := "', "
  const RequestOpening: string := "but the request was sent to the customer '"
  const RequestClose: string := "'. "
  const HintOpening: string := "Valid values are '[name]-"

  /**
    `forbiddenAccessMessage`: tells the user which customer and organization
    they belong to, which ones the request named, and the namespace pattern
    `[name]-<customer>-<organization>` they may use. `%s` inserts each string
    verbatim.
  */
  function ForbiddenAccessMessage(u: User, customer: string, org: string): (r: string)
    ensures var belongs := DeniedOpening + u.customer + OrganizationInfix + u.organization + UserClose;
            var requested := RequestOpening + customer + OrganizationInfix + org + RequestClose;
            var hint := HintOpening + u.customer + "-" + u.organization + "'";
            && |r| == |belongs| + |requested| + |hint|
            && r[..|belongs|] == belongs
            && r[|belongs|..|belongs| + |requested|] == requested
            && r[|belongs| + |requested|..] == hint
  {
    var belongs := DeniedOpening + u.customer + OrganizationInfix + u.organization + UserClose;
    var requested := RequestOpening + customer + OrganizationInfix + org + RequestClose;
    var hint := HintOpening + u.customer + "-" + u.organization + "'";
    assert (belongs + requested + hint)[..|belongs|] == belongs;
    assert (belongs + requested + hint)[|belongs|..|belongs| + |requested|] == requested;
    assert (belongs + requested + hint)[|belongs| + |requested|..] == hint;
    belongs + requested + hint
  }

  // ---------------------------------------------------------------------
  // Bearer JWT decoding
  // ---------------------------------------------------------------------

  newtype Byte = b: int | 0 <= b < 256

  /**
    An `http.Header`: canonical header name to its list of values.
  */
  type Header = map<string, seq<string>>

  const AuthorizationKey: string := "Authorization"

  /** `Header.Get`: the first value under `key`, or "" when there is none. */
  function HeaderGet(h: Header, key: string): (v: string)
    ensures key !in h || h[key] == [] ==> v == ""
    ensures key in h && h[key] != [] ==> v == h[key][0]
  {
    if key in h && |h[key]| > 0 then h[key][0] else ""
  }

  /** The errors `decodeJwtToken` reports. */
  datatype JwtError =
    | MissingTokenOrBearer
    | NotValidJwt
    | SegmentDecodeFailed(cause: string)
    | UnmarshalFailed(cause: string)

  const MissingTokenText: string := "missing token or bearer in Authorization"
  const NotValidJwtText: string := "it's not a valid jwt token"
  const SegmentFailurePrefix: string := "failed decoding segment: "

  /**
    The text of each error: the two shape errors are fixed sentences, the
    segment error prefixes the decoder's cause, and a JSON error is passed
    through unwrapped.
  */
  function ErrorMessage(e: JwtError): (m: string)
    ensures e.MissingTokenOrBearer? ==> m == MissingTokenText
    ensures e.NotValidJwt? ==> m == NotValidJwtText
    ensures e.SegmentDecodeFailed? ==>
              SegmentFailurePrefix <= m && m[|SegmentFailurePrefix|..] == e.cause
    ensures e.UnmarshalFailed? ==> m == e.cause
  {
    match e
    case MissingTokenOrBearer => MissingTokenText
    case NotValidJwt => NotValidJwtText
    case SegmentDecodeFailed(cause) => SegmentFailurePrefix + cause
    case UnmarshalFailed(cause) => cause
  }

  /**
    What `json.Unmarshal` leaves in a fresh `User` and the error it returns,
    if any (a failed unmarshal may leave the user partly filled).
  */
  datatype Unmarshalled = Unmarshalled(user: User, err: Option<string>)

  /**
    The three results of `decodeJwtToken`: the user pointer (None for nil),
    the raw token, and the error.
  */
  datatype DecodeOutcome = DecodeOutcome(user: Option<User>, token: string, err: Option<JwtError>)

  /** The space-separated fields of the `Authorization` header. */
  function AuthorizationFields(h: Header): (fields: seq<string>)
    ensures |fields| >= 1
  {
    Split(HeaderGet(h, AuthorizationKey), ' ')
  }

  /**
    `decodeJwtToken`. The header value must split on " " into exactly two
    fields (the first, the scheme word, is never looked at); the second field
    must split on "." into exactly three parts; only the middle part is
    decoded (`decodeSegment` stands for `jwt.DecodeSegment`) and unmarshalled
    (`unmarshal` stands for `json.Unmarshal`). The signature is never checked.
    Once the segment is decoded, the user and the token are returned even if
    unmarshalling fails, together with that error.
  */
  function DecodeJwtToken(
    header: Header,
    decodeSegment: string -> Result<seq<Byte>, string>,
    unmarshal: seq<Byte> -> Unmarshalled): (r: DecodeOutcome)
    ensures var fields := AuthorizationFields(header);
            r.err == Some(MissingTokenOrBearer) <==> |fields| != 2
    ensures var fields := AuthorizationFields(header);
            r.err == Some(NotValidJwt) <==> |fields| == 2 && |Split(fields[1], '.')| != 3
    ensures var fields := AuthorizationFields(header);
            r.err.Some? && r.err.value.SegmentDecodeFailed? <==>
              |fields| == 2 && |Split(fields[1], '.')| == 3 && decodeSegment(Split(fields[1], '.')[1]).Failure?
    ensures r.user.None? ==> r.token == "" && r.err.Some? && !r.err.value.UnmarshalFailed?
    ensures r.user.Some? ==>
              var fields := AuthorizationFields(header);
              |fields| == 2 && r.token == fields[1] && |Split(r.token, '.')| == 3 &&
              decodeSegment(Split(r.token, '.')[1]).Success? &&
              r.user.value == unmarshal(decodeSegment(Split(r.token, '.')[1]).value).user
    ensures r.err.Some? && r.err.value.UnmarshalFailed? ==> r.user.Some?
    ensures r.user.Some? ==>
              var u := unmarshal(decodeSegment(Split(r.token, '.')[1]).value);
              r.err == (if u.err.Some? then Some(UnmarshalFailed(u.err.value)) else None)
    ensures r.err.Some? && r.err.value.SegmentDecodeFailed? ==>
              r.err.value.cause == decodeSegment(Split(AuthorizationFields(header)[1], '.')[1]).error
    ensures var fields := AuthorizationFields(header);
            r.err.None? <==>
              |fields| == 2 && |Split(fields[1], '.')| == 3 &&
              decodeSegment(Split(fields[1], '.')[1]).Success? &&
              unmarshal(decodeSegment(Split(fields[1], '.')[1]).value).err.None?
  {
    var authorization := AuthorizationFields(header);
    if |authorization| != 2 then
      DecodeOutcome(None, "", Some(MissingTokenOrBearer))
    else
      var parts := Split(authorization[1], '.');
      if |parts| != 3 then
        DecodeOutcome(None, "", Some(NotValidJwt))
      else
        match decodeSegment(parts[1])
        case Failure(e) => DecodeOutcome(None, "", Some(SegmentDecodeFailed(e)))
        case Success(seg) =>
          var u := unmarshal(seg);
          DecodeOutcome(Some(u.user), authorization[1],
                        if u.err.Some? then Some(UnmarshalFailed(u.err.value)) else None)
  }

  /** A request whose only `Authorization` value is `value`. */
  function AuthorizationHeader(value: string): (h: Header)
    ensures HeaderGet(h, AuthorizationKey) == value
  {
    map[AuthorizationKey := [value]]
  }

  /** A request without an `Authorization` header is rejected as missing a token. */
  lemma MissingAuthorizationRejected(
    header: Header,
    decodeSegment: string -> Result<seq<Byte>, string>,
    unmarshal: seq<Byte> -> Unmarshalled)
    requires AuthorizationKey !in header
    ensures DecodeJwtToken(header, decodeSegment, unmarshal) == DecodeOutcome(None, "", Some(MissingTokenOrBearer))
  {
  }

  /** The scheme word is never inspected: any word without a space in its place gives the same outcome. */
  lemma {:induction false} SchemeNeverInspected(
    scheme1: string, scheme2: string, token: string,
    decodeSegment: string -> Result<seq<Byte>, string>,
    unmarshal: seq<Byte> -> Unmarshalled)
    requires ' ' !in scheme1 && ' ' !in scheme2
    ensures DecodeJwtToken(AuthorizationHeader(scheme1 + " " + token), decodeSegment, unmarshal)
         == DecodeJwtToken(AuthorizationHeader(scheme2 + " " + token), decodeSegment, unmarshal)
  {
    SplitAtSeparator(scheme1, token, ' ');
    SplitAtSeparator(scheme2, token, ' ');
    SplitNoSeparator(scheme1, ' ');
    SplitNoSeparator(scheme2, ' ');
    assert AuthorizationFields(AuthorizationHeader(scheme1 + " " + token)) == [scheme1] + Split(token, ' ');
    assert AuthorizationFields(AuthorizationHeader(scheme2 + " " + token)) == [scheme2] + Split(token, ' ');
  }

  /** A token without spaces or dots in its three parts, as "scheme head.payload.signature". */
  function BearerValue(scheme: string, head: string, payload: string, signature: string): string
  {
    scheme + " " + (head + "." + payload + "." + signature)
  }

  /** Splitting a well-formed bearer value yields the scheme and the token, and the token its three parts. */
  lemma {:induction false} BearerValueShape(scheme: string, head: string, payload: string, signature: string)
    requires ' ' !in scheme && ' ' !in head && ' ' !in payload && ' ' !in signature
    requires '.' !in head && '.' !in payload && '.' !in signature
    ensures Split(BearerValue(scheme, head, payload, signature), ' ')
            == [scheme, head + "." + payload + "." + signature]
    ensures Split(head + "." + payload + "." + signature, '.') == [head, payload, signature]
  {
    var token := head + "." + payload + "." + signature;
    SplitJoin([head, payload, signature], '.');
    assert Join([head, payload, signature], '.') == token by {
      assert [head, payload, signature][1..] == [payload, signature];
      assert [payload, signature][1..] == [signature];
      assert Join([payload, signature], '.') == payload + "." + signature;
      assert Join([head, payload, signature], '.') == head + "." + (payload + "." + signature);
    }
    assert ' ' !in token by {
      forall k | 0 <= k < |token| ensures token[k] != ' ' {
        if k < |head| { assert token[k] == head[k]; }
        else if k == |head| { }
        else if k < |head| + 1 + |payload| { assert token[k] == payload[k - |head| - 1]; }
        else if k == |head| + 1 + |payload| { }
        else { assert token[k] == signature[k - |head| - 2 - |payload|]; }
      }
    }
    SplitJoin([scheme, token], ' ');
    assert Join([scheme, token], ' ') == BearerValue(scheme, head, payload, signature);
  }

  /**
    A well-formed bearer header whose payload decodes and unmarshals cleanly
    yields that user and the whole token, with no error.
  */
  lemma WellFormedTokenAccepted(
    scheme: string, head: string, payload: string, signature: string,
    decodeSegment: string -> Result<seq<Byte>, string>,
    unmarshal: seq<Byte> -> Unmarshalled)
    requires ' ' !in scheme && ' ' !in head && ' ' !in payload && ' ' !in signature
    requires '.' !in head && '.' !in payload && '.' !in signature
    requires decodeSegment(payload).Success?
    requires unmarshal(decodeSegment(payload).value).err.None?
    ensures DecodeJwtToken(AuthorizationHeader(BearerValue(scheme, head, payload, signature)), decodeSegment, unmarshal)
         == DecodeOutcome(Some(unmarshal(decodeSegment(payload).value).user),
                          head + "." + payload + "." + signature, None)
  {
    BearerValueShape(scheme, head, payload, signature);
  }

  /**
    The signature is never examined: two tokens that differ only in their
    signature part give the same user and the same error.
  */
  lemma SignatureNeverInspected(
    scheme: string, head: string, payload: string, signature1: string, signature2: string,
    decodeSegment: string -> Result<seq<Byte>, string>,
    unmarshal: seq<Byte> -> Unmarshalled)
    requires ' ' !in scheme && ' ' !in head && ' ' !in payload && ' ' !in signature1 && ' ' !in signature2
    requires '.' !in head && '.' !in payload && '.' !in signature1 && '.' !in signature2
    ensures var r1 := DecodeJwtToken(AuthorizationHeader(BearerValue(scheme, head, payload, signature1)), decodeSegment, unmarshal);
            var r2 := DecodeJwtToken(AuthorizationHeader(BearerValue(scheme, head, payload, signature2)), decodeSegment, unmarshal);
            r1.user == r2.user && r1.err == r2.err
  {
    BearerValueShape(scheme, head, payload, signature1);
    BearerValueShape(scheme, head, payload, signature2);
  }

  /** Only the payload part reaches the decoder: decoders that agree on it give the same outcome. */
  lemma OnlyPayloadDecoded(
    header: Header,
    decode1: string -> Result<seq<Byte>, string>,
    decode2: string -> Result<seq<Byte>, string>,
    unmarshal: seq<Byte> -> Unmarshalled)
    requires var fields := AuthorizationFields(header);
             |fields| == 2 && |Split(fields[1], '.')| == 3 ==>
               decode1(Split(fields[1], '.')[1]) == decode2(Split(fields[1], '.')[1])
    ensures DecodeJwtToken(header, decode1, unmarshal) == DecodeJwtToken(header, decode2, unmarshal)
  {
  }

  // ---------------------------------------------------------------------
  // Object metadata defaulting
  // ---------------------------------------------------------------------

  /** The part of `metav1.ObjectMeta` the mutator touches; a nil map is `None`. */
  class ObjectMeta {
    var name: string
    var namespace: string
    var labels: Option<map<string, string>>
    var annotations: Option<map<string, string>>

    constructor (name: string, namespace: string,
                 labels: Option<map<string, string>>, annotations: Option<map<string, string>>)
      ensures this.name == name && this.namespace == namespace
      ensures this.labels == labels && this.annotations == annotations
    {
      this.name := name;
      this.namespace := namespace;
      this.labels := labels;
      this.annotations := annotations;
    }
  }

  /** A nil map becomes an empty map; an existing map is kept as it is, contents included. */
  function Defaulted(m: Option<map<string, string>>): (r: Option<map<string, string>>)
    ensures r.Some?
    ensures m.Some? ==> r == m
    ensures m.None? ==> r.value == map[]
  {
    if m.None? then Some(map[]) else m
  }

  /** Defaulting twice is defaulting once. */
  lemma DefaultedIdempotent(m: Option<map<string, string>>)
    ensures Defaulted(Defaulted(m)) == Defaulted(m)
  {
  }

  /**
    `initializeMetadata`: replaces nil labels and annotations with empty maps
    in place and changes nothing else.
  */
  method InitializeMetadata(o: ObjectMeta)
    modifies o`labels, o`annotations
    ensures o.labels == Defaulted(old(o.labels))
    ensures o.annotations == Defaulted(old(o.annotations))
  {
    if o.labels.None? {
      o.labels := Some(map[]);
    }
    if o.annotations.None? {
      o.annotations := Some(map[]);
    }
  }
}
