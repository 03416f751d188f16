# Admission mutator helpers (koli)

A Dafny model of the helper functions of koli's mutating admission webhook
(`pkg/mutator/util.go`), with proofs of what they promise:

- `Config.GetServeAddress` — the decision table that picks the listen address
  (`:8443` with TLS, `:8080` without, or the configured `Serve` address).
- `Config.GetImages` — splits `AllowedImages` on commas and joins each element
  onto `RegistryImages`, in a loop that appends one entry per element.
- `decodeJwtToken` — takes the `Authorization` header apart: it must be two
  space-separated fields (the bearer shape of section 2.1 of RFC 6750, though
  the scheme word is never checked), the second must be three dot-separated
  parts (the JWS Compact Serialization shape of section 7.1 of RFC 7515), and
  only the middle part is base64url-decoded and unmarshalled into a `User`; the
  signature is never examined.
- `forbiddenAccessMessage` — the permission-denied text.
- `initializeMetadata` — replaces nil label and annotation maps of an
  `ObjectMeta` with empty maps, in place.

Go's `strings.Split` (module `GoStrings`) is written out as a recursive
function over strings, with its inverse `strings.Join`; the round trip in both
directions and the piece count (separators plus one; `[""]` for the empty
string) are proved. `filepath.Join`, `jwt.DecodeSegment` and `json.Unmarshal`
are foreign library calls and are passed in as function parameters, so every
statement about them holds whatever they compute.

Files: `wrappers.dfy` (Option and Result), `gostrings.dfy` (Split, Join and
their lemmas), `mutator.dfy` (the helpers).

## Model

| member | source | states |
|---|---|---|
| `GoStrings.Split` | pkg/mutator/util.go:54 | `strings.Split` on a one-character separator: always at least one piece, and no piece contains the separator |
| `GoStrings.SplitNoSeparator` | pkg/mutator/util.go:69 | a string without the separator splits into exactly itself |
| `GoStrings.SplitAtSeparator` | pkg/mutator/util.go:69 | splitting at one separator occurrence is the concatenation of the splits of both sides |
| `GoStrings.SplitLength` | pkg/mutator/util.go:54 | the number of pieces is the number of separators plus one (one piece for the empty string) |
| `GoStrings.JoinSplit` | pkg/mutator/util.go:54 | joining the pieces back with the separator gives the original string (nothing lost or reordered) |
| `GoStrings.SplitJoin` | pkg/mutator/util.go:73 | separator-free pieces are recovered by splitting their join |
| `Mutator.GetServeAddress` | pkg/mutator/util.go:41-49 | TLS is on exactly when cert file and key file are non-empty and `Serve` is empty, then the address is `:8443`; with `Serve` empty and TLS off it is `:8080`; a non-empty `Serve` is returned as is, without TLS; the address is never empty |
| `Mutator.GetImages` | pkg/mutator/util.go:52-58 | one image per comma-separated element (commas plus one, so an empty list still gives one entry), element i being the registry joined with element i |
| `Mutator.ImageElementsCoverAllowedImages` | pkg/mutator/util.go:53-57 | the elements GetImages iterates over, rejoined with commas, are exactly `AllowedImages`; the single element is the whole string exactly when there is no comma |
| `Mutator.ForbiddenAccessMessage` | pkg/mutator/util.go:60-64 | the message is exactly three sections in order: the user's own customer and organization, then the customer and organization the request named, then the valid namespace pattern `[name]-<customer>-<org>` built from the user's values |
| `Mutator.HeaderGet` | pkg/mutator/util.go:69 | `Header.Get` yields the first value under the key, and "" when the key is absent or holds no values |
| `Mutator.ErrorMessage` | pkg/mutator/util.go:71-80 | the missing-token error reads "missing token or bearer in Authorization" and the shape error "it's not a valid jwt token"; the segment error is "failed decoding segment: " followed by the decoder's cause; the JSON error is passed through unchanged |
| `Mutator.AuthorizationFields` | pkg/mutator/util.go:69 | the Authorization value split on spaces has at least one field |
| `Mutator.DecodeJwtToken` | pkg/mutator/util.go:67-84 | "missing token or bearer" exactly when there are not two fields; "not a valid jwt token" exactly when there are two fields but not three dot parts; a segment error exactly when the shape is right and decoding the middle part fails; a nil user comes with an empty token; a returned user comes with the token equal to the second field and is what unmarshalling the decoded payload left, also when unmarshalling fails; the error is then exactly the unmarshal error, if any; the segment error carries the decoder's own cause; and there is no error exactly when the shape is right, the middle part decodes and unmarshalling succeeds |
| `Mutator.MissingAuthorizationRejected` | pkg/mutator/util.go:69-72 | a request without an Authorization header fails with "missing token or bearer" and no user |
| `Mutator.SchemeNeverInspected` | pkg/mutator/util.go:68-72 | any scheme word without spaces gives the same outcome for the same token |
| `Mutator.BearerValueShape` | pkg/mutator/util.go:69-76 | "scheme head.payload.signature" with no spaces or dots inside the parts splits into exactly the scheme and the token, and the token into its three parts |
| `Mutator.WellFormedTokenAccepted` | pkg/mutator/util.go:73-83 | a well-formed bearer header whose payload decodes and unmarshals yields that user, the whole token and no error |
| `Mutator.SignatureNeverInspected` | pkg/mutator/util.go:77-78 | two tokens differing only in the signature part give the same user and the same error |
| `Mutator.OnlyPayloadDecoded` | pkg/mutator/util.go:77-81 | decoders that agree on the middle part give identical outcomes: nothing else reaches the decoder |
| `Mutator.Defaulted` | pkg/mutator/util.go:123-128 | a nil map becomes an empty map; a non-nil map is kept with its contents |
| `Mutator.DefaultedIdempotent` | pkg/mutator/util.go:122-129 | defaulting twice is the same as defaulting once |
| `Mutator.InitializeMetadata` | pkg/mutator/util.go:122-129 | in place, labels and annotations become their defaulted values and no other field of the metadata changes |

## Left out

- `getKubernetesUserClients` (pkg/mutator/util.go:87-120): builds REST configurations, reads the in-cluster configuration and registers types in the process-wide scheme; all of it is I/O and calls into client libraries.
- `NewKongClient` (pkg/mutator/util.go:131-137) and the `extensionsCodec` variable: thin wrappers over `url.Parse` and a codec factory.
- Base64url decoding (section 5 of RFC 4648) of the payload, JSON unmarshalling into the user, and the path cleaning of `filepath.Join`: foreign library calls, taken as parameters `decodeSegment`, `unmarshal` and `join` whose results are arbitrary.
- `Mutator.GetImages`: states each entry as `join(registry, element)` for the `join` it is given; it does not state that `filepath.Join` yields `registry + "/" + element` for clean, non-empty components, because path cleaning is not modelled.
- `Mutator.HeaderGet`: header names are taken to be already in canonical MIME form; `textproto.CanonicalMIMEHeaderKey` is not modelled.
- `GoStrings.Split`: only one-character separators, the only kind the helpers use; Go splits bytes, and since every separator used is ASCII, splitting characters gives the same pieces.
- `Mutator.ObjectMeta`: holds only name, namespace, labels and annotations of `metav1.ObjectMeta`; the other fields are not read or written by `initializeMetadata`.
- The typed Release client (pkg/clientset/release.go), the resource types (pkg/spec/types.go, apart from the fields of `User`) and the version command (pkg/cli/version.go): REST transport, a watch goroutine, plain schemas and CLI output. Its local logic is the empty-name guard of `Update`, the replacement of a nil options pointer by default options in `List` and `Delete` (pkg/clientset/release.go:54-56, 70-72), and `releaseDecoder.Decode`, which turns a stream decode failure into a `watch.Error` event with a nil object (pkg/clientset/release.go:157-167); none of it is modelled.
- `Mutator.User`: util.go uses `platform.User` from pkg/apis/v1alpha1, which is not part of this model; its fields are assumed to be those of `User` in pkg/spec/types.go:138-150.
- `Mutator.ForbiddenAccessMessage`: `forbiddenAccessMessage` with a nil user pointer panics in Go (pkg/mutator/util.go:61); the model takes a `User` value, so that case is not represented.
- `Mutator.InitializeMetadata`: `initializeMetadata(nil)` panics in Go (pkg/mutator/util.go:123); the model takes a non-null `ObjectMeta`, so that case is not represented.
