# Verification model of an OpenID4VC issuer and verifier

This project models the core of an OpenID for Verifiable Credentials server and proves properties of
the model with Dafny 4.11. `dafny verify dfyconfig.toml` checks all of it.

The server issues credentials in two formats and verifies presentations of them:

* **mdoc** (ISO/IEC 18013-5). `Cose.dfy` has CBOR values over symbolic byte strings: a byte string is
  raw data, the encoding of a value, a digest, or a signature by a key, so digests do not collide and a
  signature says who made it over what. Bytes that no encoder made may decode to anything. `Mdoc.dfy`
  models issuance, presentation and verification, `StatusListCwt.dfy` the MSO revocation list,
  `MdocIssuance.dfy` the validity window. The theorems (`MdocTheorems.dfy`, `MdocAcceptance.dfy`,
  `MdocPresentation.dfy`) say that an accepted mdoc claims only what some issued request claimed, which
  CBOR is accepted at all, that presenting and verifying gives exactly the disclosed elements, and that a
  presentation is good for one transcript.
* **SD-JWT VC** (RFC 9901). `Base64.dfy`, `Jws.dfy`, `Credentials.dfy` and `SdJwt.dfy` work on concrete
  strings. JSON text, SHA-256 and signatures are functions of a `Library`; where a theorem needs it, the
  library is `Ideal`: JSON text reads back, digests do not collide, keys accept their own signatures.
  `SdJwtTheorems.dfy` proves selective disclosure exact and key binding tied to one presentation.
* **Status lists.** `TokenStatusList.dfy` and `StatusList2021.dfy` are the two bit-packed layouts, with
  opposite bit orders, as classes over byte arrays; each layout is proved to spell one number.
  `StatusManager.dfy` keeps both formats, and `StatusRuns.dfy` proves over every run that they agree.
* **What is issued.** `CredentialIssuance.dfy` is the credential endpoint's own part: for each holder
  key a status index is drawn from the manager and a credential in the configuration's format is signed
  for that key. `CredentialContents.dfy` proves what verifying such a credential says, and
  `CredentialRequests.dfy` that a request gets one for each of its proofs.
* **The issuer's protocol.** `IssuerStore.dfy` is the seven-map store; `Authorization.dfy`,
  `TokenEndpoint.dfy`, `CredentialEndpoint.dfy`, `Headers.dfy`, `ResourceAccess.dfy` and `Proofs.dfy` are
  the handlers, as methods on it proved against functions of its contents. `Protocol.dfy` is the state
  machine made of those functions, with credential requests and pre-authorized redemptions interleaved
  between store calls and between credentials; `ProtocolCodes.dfy`, `ProtocolTokens.dfy`,
  `ProtocolIssuance.dfy` and `ProtocolStatus.dfy` hold its invariants. In `ProtocolRequests.dfy` requests
  arrive with their headers and what these prove decides who a step serves; `ProtocolTheorems.dfy` is
  what follows for every run of requests, and `ProtocolHandlers.dfy` proves that a pushed request and a
  credential request nothing interrupts take the steps of their handlers. `ReplayCache.dfy` compares the pruned cache of
  one-time identifiers with a log that is never pruned.
* **Certificates and sessions.** `X509.dfy` is the chain walk, `Pem.dfy` the PEM printer and reader and
  the issuer's bundle, `Verifier.dfy` and `VerifierRuns.dfy` the verifier's sessions and responses.

Clocks, random sources and UUIDs are parameters. The protocol's clock counts milliseconds and never
goes back, the mdoc clock counts nanoseconds, and a UUID that is handed out has not been seen before.

Where the code and its documentation differ, the model follows the code, and the difference is proved:

* A proof accepted with `iat` exactly 60 seconds ahead can be replayed once its cache entry lapses, so
  "cannot be replayed within its validity window" holds iff `iat` is less than 60 seconds ahead
  (`ReplayCache.OnceIff`; crates/issuer/src/dpop.rs:44-45).
* A proof of possession "cannot be replayed" by its test's name
  (crates/issuer/src/client_attestation.rs:299), and while it is fresh that holds for one client. But a
  proof without `iss` names no client, and the cache key holds the client of the attestation beside it:
  with a trusted attestation of the same key for another client it passes again. That is exactly when it
  does (`Proofs.ProofPassesOnce`, `Proofs.PassesAgainIff`), and a caller can see it from the proof
  (`Proofs.ServesAnotherIff`; crates/issuer/src/client_attestation.rs:109-113).
* A `request_uri` is said to be spent once a decision is made (crates/server/src/routes/issuer.rs:249).
  A live one is spent iff the decision approves and the redirect URI is a URL; after any other decision
  it can be decided on again (`Authorization.SpentIff`).
* Plain claims whose name starts with `_` are issued but never come back
  (`SdJwtTheorems.PlainClaimsExact`).

Two limits the proofs make exact, where nothing says otherwise: a presentation that verifies is accepted
in more than one session iff it is a plain JWT, that is, iff it has no `~`
(`VerifierRuns.RepeatableIff`); and between two instants at which a chain is accepted it is accepted
iff an anchor stands at that instant, so with one anchor always and with several not always
(`X509.AcceptedBetweenIff`, `X509.TwoAnchorsLeaveAGap`).

## Model

| member | source | states |
|---|---|---|
| `TokenStatusLists.SlotIsQuotient` | crates/status/src/token_status_list.rs:75-80 | the model's byte index and shift are the quotient and remainder the code computes |
| `TokenStatusLists.WriteStatus` | crates/status/src/token_status_list.rs:83-103 | clearing a field and or-ing in a value changes that entry alone and keeps spare bits zero, for 1, 2, 4 and 8 bits |
| `TokenStatusLists.TokenStatusList.Zeroed` | crates/status/src/token_status_list.rs:51-64 | a new list has every status zero |
| `TokenStatusLists.TokenStatusList.New` | crates/status/src/token_status_list.rs:51-64 | construction succeeds iff the width is 1, 2, 4 or 8 |
| `TokenStatusLists.TokenStatusList.Get` | crates/status/src/token_status_list.rs:67-80 | reading gives the status at the index, and fails exactly outside the capacity |
| `TokenStatusLists.TokenStatusList.Set` | crates/status/src/token_status_list.rs:83-103 | writing in place changes one status or, on an error, no byte at all |
| `TokenStatusLists.TokenStatusList.GetStatus` | crates/status/src/token_status_list.rs:106-109 | a stored status is named iff it is 0, 1 or 2 |
| `TokenStatusLists.TokenStatusList.SetStatus` | crates/status/src/token_status_list.rs:112-118 | writing a named status, with the errors of a plain write |
| `TokenStatusNumbers.LayoutIsOneNumber` | crates/status/src/token_status_list.rs:51-103 | for every width and capacity the little-endian value of the bytes is the sum of entry i times 2^(bits*i) |
| `TokenStatusNumbers.WeightedGroups` | crates/status/src/token_status_list.rs:75-80 | grouping narrow digits into bytes keeps the number they spell |
| `StatusLists2021.WriteFlag` | crates/status/src/status_list_2021.rs:67-79 | setting or clearing one bit changes that flag alone and keeps spare bits zero |
| `StatusLists2021.StatusList.New` | crates/status/src/status_list_2021.rs:44-50 | a new list has every flag clear |
| `StatusLists2021.StatusList.Get` | crates/status/src/status_list_2021.rs:55-62 | reading gives the flag, and fails exactly outside the list |
| `StatusLists2021.StatusList.Set` | crates/status/src/status_list_2021.rs:67-79 | writing in place changes one flag or, out of range, no byte |
| `StatusLists2021.StatusList.AllocateIndex` | crates/status/src/status_list_2021.rs:117-119 | the first clear flag, and none exactly when all are set |
| `StatusLists2021.LayoutIsOneNumber` | crates/status/src/status_list_2021.rs:44-79 | the big-endian value of the bytes is the flags read as a binary numeral, flag 0 first, shifted past the spare bits |
| `RandomDraw.DrawFresh` | crates/status/src/manager.rs:68-78 | the retry loop returns an in-range value not taken before, and ends under a fair source |
| `StatusManagers.StatusManager.constructor` | crates/status/src/manager.rs:82-117 | both lists of both purposes and the mdoc list start clear with nothing allocated |
| `StatusManagers.StatusManager.AllocateEntry` | crates/status/src/manager.rs:123-151 | an allocation hands out an index that was free, or fails because none is; no list changes |
| `StatusManagers.StatusManager.Revoke` | crates/status/src/manager.rs:154-156 | revoking sets both formats of the revocation list at the index, or fails and changes nothing |
| `StatusManagers.StatusManager.Suspend` | crates/status/src/manager.rs:159-161 | suspending sets both formats of the suspension list |
| `StatusManagers.StatusManager.Reinstate` | crates/status/src/manager.rs:164-166 | reinstating clears both formats of the suspension list |
| `StatusManagers.StatusManager.UpdateStatus` | crates/status/src/manager.rs:169-198 | an update of an unknown list or index changes neither list |
| `StatusManagers.StatusManager.AllocateMdocIndex` | crates/status/src/manager.rs:201-204 | an mdoc allocation touches the mdoc list's indices only |
| `StatusManagers.StatusManager.RevokeMdoc` | crates/status/src/manager.rs:207-212 | revoking an mdoc touches its own status only |
| `StatusRuns.ListsFollowUpdates` | crates/status/src/manager.rs:169-198 | after any run, both formats say at every index what the last update said |
| `StatusRuns.FormatsAgree` | crates/status/src/manager.rs:169-198 | in every state of every run a flag is set iff the status is nonzero, and every status is one a reader can name |
| `StatusRuns.RevokedStaysRevoked` | crates/status/src/manager.rs:154-166 | a revoked index stays revoked in every later state |
| `StatusRuns.MdocFollowsRevocations` | crates/status/src/manager.rs:207-212 | an mdoc is revoked iff some call revoked it, whatever happens to other lists |
| `StatusRuns.AllocationsDistinct` | crates/status/src/manager.rs:123-151 | over any run no index of a list is handed out twice, and the allocated set has one member per success |
| `StatusRuns.FailsOnlyWhenFull` | crates/status/src/manager.rs:68-78 | an allocation fails iff every index of the list has been handed out |
| `Base64.DecodesExactlyEncodings` | crates/crypto/src/jws.rs:67-76 | decoding succeeds on encodings and nothing else, with the bytes that were encoded |
| `Base64.EncodeAlphabet` | crates/crypto/src/jws.rs:67-76 | an encoding stays within its alphabet |
| `Base64.GroupsSpell` | crates/crypto/src/jws.rs:67-76 | the digits of a group spell the number its bytes spell, a last group filled up with zero bits |
| `Jws.SegmentFree` | crates/crypto/src/jws.rs:67-78 | a base64url segment contains neither `.` nor `~` |
| `Jws.HeaderRoundTrip` | crates/crypto/src/jws.rs:55-79 | a JWS header, embedded key and chain included, reads back from its JSON |
| `Jws.NullIsAbsent` | crates/crypto/src/jwk.rs:8-40 | an optional member of a key that is null reads as one that is not there |
| `Jws.NullHeaderIsAbsent` | crates/crypto/src/jws.rs:30-50 | so does one of a header |
| `Jws.IntegersFit` | crates/issuer/src/client_attestation.rs:153-170 | a number claim is read iff it is a whole number that fits 64 bits with its sign |
| `Jws.DecodeSigned` | crates/crypto/src/jws.rs:55-119 | decoding what was signed returns header, payload, signature and the exact signing input, and the text has two dots |
| `Jws.SignedVerifiesIff` | crates/crypto/src/jws.rs:135-149 | a signed JWS verifies under its signer's JWK iff the header names that key's own algorithm |
| `Jws.DecodesIff` | crates/crypto/src/jws.rs:93-119 | a text decodes iff it has three base64url parts between dots: header, payload and signature in that order, the first two being what was signed |
| `Jws.VerifiedIff` | crates/crypto/src/jws.rs:135-149 | verifying under a public JWK accepts exactly what the key signed under its own algorithm |
| `Jws.HashInjective` | crates/crypto/src/sd_jwt.rs:364-371 | equal text hashes mean equal texts |
| `Credentials.Parse` | crates/types/src/credentials.rs:70-104 | the parsing loop computes issuer JWT, disclosures and trailing key binding JWT |
| `Credentials.ToCompact` | crates/types/src/credentials.rs:108-119 | the printing loop joins the parts, with an empty last part when there is no key binding |
| `Credentials.RoundTrip` | crates/types/src/credentials.rs:70-119 | printing then parsing is the identity iff the value is well formed |
| `Credentials.Reparse` | crates/types/src/credentials.rs:70-119 | parsing, printing and parsing again gives the first parse, on every accepted string |
| `Credentials.Reprint` | crates/types/src/credentials.rs:70-119 | parsing then printing is the identity iff the string is canonical |
| `Credentials.TrailingJwtIff` | crates/types/src/credentials.rs:70-104 | the key binding JWT is the last of several parts, iff it has exactly three parts between dots |
| `SdJwt.IssueSdJwtVc` | crates/crypto/src/sd_jwt.rs:188-241 | the loops issue a signed payload over every disclosure's digest and append every disclosure |
| `SdJwt.VerifySdJwtVc` | crates/crypto/src/sd_jwt.rs:274-358 | the verification loop with its seen-set computes the specification of accepted claims |
| `SdJwtTheorems.DistinctDigests` | crates/crypto/src/sd_jwt.rs:188-241 | distinct claim names alone give distinct digests |
| `SdJwtTheorems.DisclosureReads` | crates/crypto/src/sd_jwt.rs:52-72 | disclosure k decodes to the salt drawn for it, the claim name and the value, in that order, and the digest signed for it is that of its text |
| `SdJwtTheorems.IssuedPayload` | crates/crypto/src/sd_jwt.rs:188-241 | the signed payload has the issuer and type asked for, starts at midnight and ends 365 days on, and carries holder key, status and every plain claim |
| `SdJwtTheorems.IssuedHeader` | crates/crypto/src/sd_jwt.rs:188-241 | the signed header names the issuer key's algorithm, the type, the key id and the chain |
| `SdJwtTheorems.DiscloseAllExactly` | crates/crypto/src/sd_jwt.rs:312-337 | texts are accepted iff all were issued, none was seen and none repeats; the claims are then exactly theirs |
| `SdJwtTheorems.SelectiveDisclosure` | crates/crypto/src/sd_jwt.rs:274-358 | a presentation verifies iff it is in the validity window and its texts are issued disclosures without repetition; it then shows exactly the plain claims and the chosen ones |
| `SdJwtTheorems.AcceptedWasSigned` | crates/crypto/src/sd_jwt.rs:274-358 | any accepted string, however made: the issuer key accepts its signature, it is in its window, and every claim is a signed member or from a disclosure with a signed digest |
| `SdJwtTheorems.VerifiedIff` | crates/crypto/src/sd_jwt.rs:274-358 | any string is accepted iff its first part is a JWT of the issuer key with a JSON payload in its window, a missing date counting as none, and its disclosures are all taken; the claims are theirs and the visible members |
| `SdJwtTheorems.DiscloseAllIff` | crates/crypto/src/sd_jwt.rs:312-337 | any texts are all taken iff each decodes to a disclosure with a signed digest and no digest repeats; the last to name a claim gives its value |
| `SdJwtTheorems.SdArrayMeans` | crates/crypto/src/sd_jwt.rs:300-311 | the signed digests are the payload's array of texts, and none if it is anything else |
| `SdJwtTheorems.PlainClaimsExact` | crates/crypto/src/sd_jwt.rs:340-358 | every plain claim comes back iff no plain name starts with an underscore |
| `SdJwtTheorems.PrefixBeforeJwt` | crates/crypto/src/sd_jwt.rs:438-443 | stripping the suffix and the last-tilde search both cut right before the key binding JWT |
| `SdJwtTheorems.BoundToPrefix` | crates/crypto/src/sd_jwt.rs:377-454 | an accepted key binding is signed by the holder for this nonce and audience, over exactly the text before it |
| `SdJwtTheorems.BoundIff` | crates/crypto/src/sd_jwt.rs:377-454 | a key binding is accepted iff the text ends in a JWT of the holder's, under its own algorithm, for this nonce and audience and the hash of exactly the text before it |
| `SdJwtTheorems.ProblemIsTrue` | crates/crypto/src/sd_jwt.rs:377-454 | the problem a key binding is refused for is there |
| `SdJwtTheorems.OneJwtOnePresentation` | crates/crypto/src/sd_jwt.rs:377-454 | one key binding JWT accepted at the end of two presentations means the presentations are equal |
| `SdJwtTheorems.HonestPresentation` | crates/crypto/src/sd_jwt.rs:460-490 | an honestly built presentation verifies with exactly the chosen claims, for its own nonce and audience and no others |
| `X509.AcceptedIff` | crates/crypto/src/x509.rs:348-392 | a chain is accepted iff its certificates parse, are valid at the time and each signed by the CA above, an anchor is the top or signed it and is valid itself, and the leaf key is a P-256 point; the key it gives is the leaf's |
| `X509.SameKeyAnyTime` | crates/crypto/src/x509.rs:348-392 | the key returned does not depend on when the chain is checked |
| `X509.AcceptedBetweenIff` | crates/crypto/src/x509.rs:348-392 | between two accepting instants a chain is accepted iff some anchor that is the top, or signed it, is within its dates |
| `X509.AcceptedBetween` | crates/crypto/src/x509.rs:348-392 | with one trust anchor the accepting instants form an interval |
| `X509.TwoAnchorsLeaveAGap` | crates/crypto/src/x509.rs:378-390 | with two anchors they need not, whatever else the library verifies |
| `Pem.DerToPem` | crates/crypto/src/x509.rs:571-580 | the printing loop writes the marker lines around 64-character lines of base64 |
| `Pem.Chunks` | crates/crypto/src/x509.rs:574-577 | every line but the last has exactly 64 characters and none is empty |
| `Pem.MarkerLines` | crates/crypto/src/x509.rs:571-580 | the first and last line of a block are the label's markers, and the lines between spell the base64 of its bytes |
| `Pem.PemBlocks` | crates/crypto/src/x509.rs:395-414 | the reading loop computes the specification over trimmed lines |
| `Pem.BundleRoundTrip` | crates/crypto/src/x509.rs:395-414 | reading a label from a printed bundle gives that label's byte strings in order, whatever other blocks and lines stand between |
| `Pem.TrimmedLinesMatter` | crates/crypto/src/x509.rs:400-412 | texts with the same trimmed lines read the same |
| `Pem.PkiRoundTrip` | crates/crypto/src/x509.rs:271-311 | a written bundle loads with every field restored iff each leaf certifies the key and chains to the bundled anchor |
| `Pem.LoadedIsGood` | crates/crypto/src/x509.rs:284-311 | whatever loads has leaves that certify the key and chain to its anchor |
| `Pem.LoadsIff` | crates/crypto/src/x509.rs:284-321 | any text loads as a bundle iff it has exactly four certificates, three good leaves under the fourth, and a revocation list; it is no bundle iff a count is wrong |
| `Cose.CoseKeyRoundTrip` | crates/crypto/src/cose.rs:204-267 | a key survives the trip through COSE up to its private part and is the same key to signature checking |
| `Cose.CoseKeyMembers` | crates/crypto/src/cose.rs:204-226 | a JWK has a COSE form iff it is a P-256 or Ed25519 key with its coordinates, and the form has type, curve and coordinates under their labels |
| `Cose.KeyOfIff` | crates/crypto/src/keys.rs:293-362 | a JWK denotes a key iff type, curve and 32-byte coordinates are that key's and a point of the curve |
| `Cose.X5chainRoundTrip` | crates/crypto/src/cose.rs:175-200 | a written chain reads back iff it is not empty |
| `Cose.X5chainIff` | crates/crypto/src/cose.rs:183-200 | any header has a chain iff the label leads to one certificate or an array of some, none iff there is no label, and is refused otherwise |
| `Cose.HeaderIff` | crates/crypto/src/cose.rs:149-155 | any header map reads iff no label comes twice and labels and algorithm are text or 64-bit integers; the other entries are kept |
| `Cose.Sign1Iff` | crates/crypto/src/cose.rs:149-170 | any value reads as a COSE_Sign1 iff, tagged or not, it has the four parts in order; no bytes are an empty protected header |
| `Cose.SignedReads` | crates/crypto/src/cose.rs:67-155 | an attached COSE_Sign1 reads back with its header, chain, payload and signature |
| `Cose.DetachedVerifiesIff` | crates/crypto/src/cose.rs:84-139 | a detached signature verifies iff the JWK denotes the signing key and the payload is the signed one |
| `Cose.VerifiesIff` | crates/crypto/src/cose.rs:97-139 | any COSE_Sign1, attached or detached, verifies iff the denoted key signed the Signature1 structure over its protected bytes and the payload, and the header names that key's algorithm |
| `Mdoc.IssueNamespace` | crates/crypto/src/mdoc.rs:246-273 | the element loop gives every element of a namespace its own digest ID, a salt drawn at a position of its own, and records its digest under its ID |
| `Mdoc.Issue` | crates/crypto/src/mdoc.rs:231-321 | issuance succeeds iff the period is not empty and the device key has a COSE form, and then yields the specified IssuerSigned, no two elements sharing a position of the random source |
| `MdocTheorems.SaltsAreDrawn` | crates/crypto/src/mdoc.rs:246-273 | every element of an issued mdoc carries, as a reader of its bytes finds it, 32 random bytes drawn at a position no other element used, in its namespace or another |
| `Mdoc.CheckRevealed` | crates/crypto/src/mdoc.rs:445-486 | the nested re-hashing loops compute the specification of revealed claims |
| `Mdoc.Reveal` | crates/crypto/src/mdoc.rs:588-609 | the filtering loop keeps the disclosed items and drops namespaces left empty |
| `Mdoc.AllDocumentsVerify` | crates/crypto/src/mdoc.rs:680-714 | a response is accepted iff each of its documents is, with their results in order |
| `MdocTheorems.DigestFound` | crates/crypto/src/mdoc.rs:466-473 | with distinct digest IDs, first-match lookup finds an element's own digest |
| `MdocTheorems.SharedIdShadows` | crates/crypto/src/mdoc.rs:253-259 | were an ID used twice in a namespace, the later element could never be shown |
| `MdocTheorems.AcceptedItemWasIssued` | crates/crypto/src/mdoc.rs:460-478 | an element that passes is one that was issued, digest ID and salt included |
| `MdocTheorems.ItemsSound` | crates/crypto/src/mdoc.rs:459-486 | the accepted elements of a namespace are the request's, one for each item presented |
| `MdocTheorems.AcceptedAgrees` | crates/crypto/src/mdoc.rs:383-520 | any CBOR accepted under the MSO of an issued request says only what the request said: claims, document type, device key, validity, status |
| `MdocTheorems.PeriodMeans` | crates/crypto/src/mdoc.rs:232-242 | the MSO's instants are the requested ones in whole seconds, its period never starting before it was signed |
| `MdocTheorems.AcceptedMeans` | crates/crypto/src/mdoc.rs:383-440 | any accepted CBOR: the chain is valid now and was at signing, the leaf key made the signature, now is in the period and the type is the expected one |
| `MdocTheorems.AcceptedMso` | crates/crypto/src/mdoc.rs:398-420 | an accepted MSO has version 1.0, SHA-256 digests and the reported document type |
| `MdocTheorems.AcceptedWasIssued` | crates/crypto/src/mdoc.rs:383-520 | if the signer's key signed only issued MSOs, status lists and JWTs, every accepted mdoc agrees with an issued request |
| `MdocTheorems.ReturnedWasIssued` | crates/crypto/src/mdoc.rs:656-714 | so does every document of an accepted DeviceResponse |
| `MdocTheorems.TranscriptsDiffer` | crates/crypto/src/mdoc.rs:533-553 | the transcript is the OpenID4VP handover of client, nonce, thumbprint and response URI, and transcripts are equal iff the four are |
| `MdocTheorems.OneTranscript` | crates/crypto/src/mdoc.rs:557-568 | no document, however made, is accepted for two transcripts |
| `MdocTheorems.DocumentMeans` | crates/crypto/src/mdoc.rs:680-714 | any accepted document carries a signature by the device key the issuer signed, over the DeviceAuthentication structure of this transcript and type |
| `MdocTheorems.ResponseMeans` | crates/crypto/src/mdoc.rs:662-678 | an accepted response has version 1.0, status OK and a document |
| `MdocTheorems.ChainValidThroughout` | crates/crypto/src/mdoc.rs:393-440 | with one trust anchor an accepted mdoc's chain was valid at every instant between signing and now |
| `MdocAcceptance.AuthenticIff` | crates/crypto/src/mdoc.rs:368-414 | any CBOR passes the first step iff the leaf of its chain, from the unprotected header or else the protected one, leads to an anchor and signed the payload |
| `MdocAcceptance.IssuerSignedIff` | crates/crypto/src/mdoc.rs:383-530 | any CBOR is accepted as an mdoc iff a trusted leaf signed a version 1.0, SHA-256 object of the expected type, in its period now, under a chain good when it was signed; what is reported is read from that object and from the elements that hash to its digests |
| `MdocAcceptance.PeriodIff` | crates/crypto/src/mdoc.rs:425-459 | the period counts iff it can be read, now is within it and the chain was good when the object was signed |
| `MdocAcceptance.ItemIff` | crates/crypto/src/mdoc.rs:461-496 | any element is accepted iff the digest under its ID is that of its own bytes, and then it says its identifier and value |
| `MdocAcceptance.ItemsIff` | crates/crypto/src/mdoc.rs:461-496 | the elements of a namespace are accepted iff each is and no identifier repeats; the claims are then exactly theirs |
| `MdocAcceptance.StatusIff` | crates/crypto/src/mdoc.rs:510-530 | a status is read iff there is none, or a 64-bit index with a URI |
| `MdocAcceptance.DocumentIff` | crates/crypto/src/mdoc.rs:656-733 | any document is accepted iff it carries an accepted structure of the type it names and a detached signature by its device key over this transcript, type and device name spaces |
| `MdocAcceptance.MacIsUnsupported` | crates/crypto/src/mdoc.rs:680-733 | a document with a device MAC and no signature is refused as unsupported |
| `MdocPresentation.ShownMeans` | crates/crypto/src/mdoc.rs:593-605 | the shown elements of a namespace are exactly the disclosed ones, each with its value |
| `MdocPresentation.RestrictMeans` | crates/crypto/src/mdoc.rs:588-609 | a namespace is shown iff something of it was disclosed |
| `MdocPresentation.KeptVerify` | crates/crypto/src/mdoc.rs:459-486 | the kept items of a namespace verify against all its digests and show exactly what was disclosed |
| `MdocPresentation.PresentedExactly` | crates/crypto/src/mdoc.rs:575-714 | presenting and verifying: accepted iff chain, period, device key and transcript are right, and then one document with exactly the disclosed claims |
| `MdocPresentation.BoundToRequest` | crates/crypto/src/mdoc.rs:533-714 | a presentation for one request is accepted for another iff all four request parameters agree |
| `StatusListCwt.SignStatusListCwt` | crates/crypto/src/mdoc.rs:741-785 | the claims grow step by step into the specified token |
| `StatusListCwt.TokenClaims` | crates/crypto/src/mdoc.rs:741-785 | the token has URI, issue and expiry time in whole seconds, time to live and list under the labels of the format |
| `StatusListCwt.StatusListRoundTrip` | crates/crypto/src/mdoc.rs:741-845 | a signed revocation list verifies iff its chain is trusted for the signing key and it has not expired, and gives back URI, width and bytes |
| `StatusListCwt.MsoIsNoStatusList` | crates/crypto/src/mdoc.rs:793-805 | a signed MSO is never taken for a status list |
| `StatusListCwt.TokenIff` | crates/crypto/src/mdoc.rs:788-845 | any bytes are accepted as a status list iff typed as one in the protected header, signed by the leaf of the trusted chain there, over claims with URI, expiry not past, width and list |
| `MdocIssuance.Window` | crates/issuer/src/credential.rs:424-439 | the validity window is whole days from midnight today to the last midnight not after the certificate's end nor more than a year on, and is empty iff the certificate does not outlast today |
| `MdocIssuance.IssuableIff` | crates/issuer/src/credential.rs:403-448 | an mdoc can be issued iff the certificate outlasts today and the holder key has a COSE form |
| `IssuerStore.InMemoryIssuerState.constructor` | crates/issuer/src/state.rs:147-157 | the store starts with seven empty maps |
| `IssuerStore.InMemoryIssuerState.StoreAuthorizationSession` | crates/issuer/src/state.rs:167-175 | stores one session under its request_uri |
| `IssuerStore.InMemoryIssuerState.GetAuthorizationSession` | crates/issuer/src/state.rs:177-183 | reads a session by request_uri |
| `IssuerStore.InMemoryIssuerState.SetAuthorizationCode` | crates/issuer/src/state.rs:185-199 | gives a known session its code and issue time and indexes the code, or changes nothing |
| `IssuerStore.InMemoryIssuerState.GetSessionByCode` | crates/issuer/src/state.rs:201-212 | follows the code's index to its session |
| `IssuerStore.InMemoryIssuerState.ConsumeAuthorizationCode` | crates/issuer/src/state.rs:214-226 | marks the code's session consumed and nothing else |
| `IssuerStore.InMemoryIssuerState.RecordTokenForCode` | crates/issuer/src/state.rs:228-235 | remembers the token minted from a code |
| `IssuerStore.InMemoryIssuerState.RevokeTokensForCode` | crates/issuer/src/state.rs:237-250 | drops the token minted from a code and its record |
| `IssuerStore.InMemoryIssuerState.RecordJti` | crates/issuer/src/state.rs:252-264 | prunes expired identifiers, then records a fresh one or refuses a remembered one |
| `IssuerStore.InMemoryIssuerState.StorePreAuthorizedCode` | crates/issuer/src/state.rs:266-285 | stores an unconsumed offer |
| `IssuerStore.InMemoryIssuerState.RedeemPreAuthorizedCode` | crates/issuer/src/state.rs:287-304 | consumes an offer once, if the transaction code is the bound one |
| `IssuerStore.InMemoryIssuerState.StoreAccessToken` | crates/issuer/src/state.rs:306-324 | stores a grant with its expiry |
| `IssuerStore.InMemoryIssuerState.GetAccessGrant` | crates/issuer/src/state.rs:326-340 | returns a grant before its expiry and drops it after |
| `IssuerStore.InMemoryIssuerState.StoreCNonce` | crates/issuer/src/state.rs:342-352 | stores a nonce with its lifetime |
| `IssuerStore.InMemoryIssuerState.ConsumeCNonce` | crates/issuer/src/state.rs:354-362 | removes the nonce and says whether it was there and in time |
| `IssuerStore.RedeemsOnce` | crates/issuer/src/state.rs:266-304 | a stored offer is redeemed iff the transaction code is the bound one, and then never again |
| `IssuerStore.GrantLives` | crates/issuer/src/state.rs:306-340 | a stored token grants what was stored, up to its expiry |
| `IssuerStore.NonceLives` | crates/issuer/src/state.rs:342-362 | a nonce is valid for its lifetime and the rest of that second, not a full second before it was stored should the clock go back, and never once consumed |
| `IssuerStore.RevokedGrantsNothing` | crates/issuer/src/state.rs:228-250 | revoking by code takes that token's grant away and no other |
| `IssuerStore.GrantsApart` | crates/issuer/src/state.rs:306-340 | storing a token leaves other grants alone, and looking one up, found or expired, leaves what every token grants then and later as it was |
| `IssuerStore.OffersApart` | crates/issuer/src/state.rs:266-304 | storing or redeeming one offer leaves every other as it was |
| `IssuerStore.CodesApart` | crates/issuer/src/state.rs:185-226 | giving a session its code, or consuming it, leaves the sessions behind other codes as they were |
| `IssuerStore.NoncesApart` | crates/issuer/src/state.rs:342-362 | handing out or consuming one nonce leaves every other as it was |
| `ReplayCache.CacheIsLog` | crates/issuer/src/state.rs:252-264 | an identifier is refused iff some accepted earlier recording of it is unexpired: pruning changes nothing |
| `ReplayCache.AcceptedOnce` | crates/issuer/src/dpop.rs:83-108 | in any run a proof accepted with iat less than 60 s ahead is not accepted again |
| `ReplayCache.AcceptedTwice` | crates/issuer/src/dpop.rs:83-108 | with iat exactly 60 s ahead it is accepted again when its entry lapses |
| `ReplayCache.OnceIff` | crates/issuer/src/dpop.rs:83-108 | a proof accepted now cannot be accepted later iff its iat is less than 60 s ahead |
| `Proofs.VerifyDpopProof` | crates/issuer/src/dpop.rs:46-111 | the checks in order, then one recording; the key's thumbprint iff all pass |
| `Proofs.VerifyClientAttestation` | crates/issuer/src/client_attestation.rs:49-150 | attestation and proof of possession in order, then one recording; the attested client iff all pass |
| `Proofs.DpopIff` | crates/issuer/src/dpop.rs:46-98 | a DPoP proof passes its checks iff it is typed, signed under a supported algorithm by the public key in its header, for this method, URL and token hash, and between 300 s old and 60 s ahead; it then shows its jti, time and key |
| `Proofs.AttestationIff` | crates/issuer/src/client_attestation.rs:56-101 | an attestation passes iff typed, ES256, signed by a trusted attester whose key id does not differ, with issuer, subject, exp not over a minute ago, nbf not over a minute ahead, and a key without private part; it then gives that client and key |
| `Proofs.PossessionIff` | crates/issuer/src/client_attestation.rs:103-133 | a proof of possession passes iff typed, signed by the attested key, naming no other client, for this server, recent, and within its own exp and nbf if it has them |
| `Proofs.ShownInWindow` | crates/issuer/src/client_attestation.rs:125-131 | a proof that reaches the replay check is in its freshness window |
| `Proofs.DpopShowsSame` | crates/issuer/src/dpop.rs:46-111 | the same DPoP proof records the same identifier whatever request it comes with |
| `Proofs.PopShowsSame` | crates/issuer/src/client_attestation.rs:49-150 | so does the same proof of possession for the same client |
| `Proofs.IssFixesClient` | crates/issuer/src/client_attestation.rs:109-113 | a proof of possession that carries iss serves one client only |
| `Proofs.ProofPassesOnce` | crates/issuer/src/client_attestation.rs:125-144 | over every run mixing both kinds, a proof that passes with iat less than 60 s ahead passes again only if it is a proof of possession without iss, shown for another client |
| `Proofs.PassesAgainIff` | crates/issuer/src/client_attestation.rs:109-144 | presented twice while fresh, the first passes, and the second passes iff the proof has no iss and the clients differ |
| `Proofs.ServesAnotherIff` | crates/issuer/src/client_attestation.rs:109-113 | with a second trusted attestation of the same key for another client, a proof shows for that client too iff it has no iss |
| `Proofs.PassesIff` | crates/issuer/src/state.rs:252-264 | over every run a proof passes iff its checks do and no proof of the same use (same jti, and same client for proofs of possession) passed in the 360 s before |
| `Proofs.UsesAreOwn` | crates/issuer/src/client_attestation.rs:135-140 | clients whose names have no colon never share a use |
| `Proofs.KeysDoNotCross` | crates/issuer/src/client_attestation.rs:136-139 | the two kinds of proof never block each other |
| `Authorization.RequestedConfigurations` | crates/issuer/src/authorization.rs:176-237 | authorization details give their ids in order, repeats included, or an error; scopes give the sorted matching ids, or an error when none match |
| `Authorization.ListsUnique` | crates/issuer/src/authorization.rs:221-230 | the sorted listing of a set of ids is unique, so hash-map order cannot show |
| `Authorization.InsertSorted` | crates/issuer/src/authorization.rs:230 | insertion keeps the listing sorted and adds the one id |
| `Authorization.ResolvedSupported` | crates/issuer/src/authorization.rs:176-237 | whatever a request resolves to is not empty and supported |
| `Authorization.PushedSession` | crates/issuer/src/authorization.rs:95-168 | a pushed request is accepted iff it is the client's own code request with an S256 challenge, refers to no other, its DPoP keys agree and it asks for something supported; then exactly one session is new, for the configurations of its details one by one, or those in its scopes in order; otherwise the reason given is true |
| `Text.WordsMeans` | crates/issuer/src/authorization.rs:213-218 | the scopes of a request are the stretches of its scope text without white space |
| `Authorization.ProcessPar` | crates/issuer/src/authorization.rs:95-168 | a pushed request is an error with nothing stored, or one new session holding what was checked |
| `Authorization.ApprovedIff` | crates/server/src/routes/issuer.rs:250-401 | a decision gives a code iff it approves a live, unspent request of that client; that session gets code and time, every other session and any other decision changes nothing |
| `Authorization.RefusedMeans` | crates/server/src/routes/issuer.rs:313-401 | a decision that gives no code is a denial iff it could have approved, a redirect iff the own request is spent or too old, and a page otherwise |
| `Authorization.AuthorizeDecision` | crates/server/src/routes/issuer.rs:250-401 | approval within the minute by the same client gives the session its code once; refusal and denial change nothing |
| `Authorization.SpentIff` | crates/server/src/routes/issuer.rs:250-401 | after a decision on a live request_uri it can be used again within its minute iff the decision did not approve or the redirect URI is no URL |
| `Authorization.OneVerifier` | crates/issuer/src/authorization.rs:259-263 | only one verifier answers a PKCE challenge |
| `TokenEndpoint.IssueAccessToken` | crates/issuer/src/token.rs:200-240 | the loop over configurations lists one identifier each and stores the same table in the grant |
| `TokenEndpoint.DetailsDistinct` | crates/issuer/src/token.rs:211-222 | with fresh UUIDs every listed identifier is different, repeated configurations included |
| `TokenEndpoint.TableOfDetails` | crates/issuer/src/token.rs:211-222 | the grant's table maps exactly the listed identifiers, each to its configuration |
| `TokenEndpoint.ProcessAuthorizationCodeGrant` | crates/issuer/src/token.rs:98-173 | the checks in order; success consumes the code, stores the token and records it, and a replay revokes |
| `TokenEndpoint.ProcessPreAuthorizedCodeGrant` | crates/issuer/src/token.rs:176-194 | an offer is redeemed once for a token covering what it offered |
| `TokenEndpoint.ProcessTokenRequest` | crates/issuer/src/token.rs:74-95 | the grant type selects the handling, after the client check |
| `TokenEndpoint.RedeemedIff` | crates/issuer/src/token.rs:74-173 | a code is redeemed iff known, unredeemed, under 61 s old, and presented by its attested client with its redirect URI, the verifier of its challenge and its DPoP key; the token then lives for what was asked and can be revoked by the code, a replay revokes, any other failure changes nothing |
| `TokenEndpoint.RefusalsAreTrue` | crates/issuer/src/token.rs:98-173 | each reason a redemption is refused for is true |
| `TokenEndpoint.OfferRedeemedIff` | crates/issuer/src/token.rs:176-194 | an offer is redeemed iff known, unredeemed and presented with its transaction code; its token lives for what was offered, bound to the DPoP key sent, if any |
| `TokenEndpoint.OtherGrantsRefused` | crates/issuer/src/token.rs:74-95 | every other grant type is refused and changes nothing |
| `CredentialEndpoint.DetailsAgree` | crates/issuer/src/credential.rs:208-257 | with authorization details, exactly the listed identifiers resolve, each to the configuration beside it, and no configuration id does |
| `CredentialEndpoint.ConfigurationsAgree` | crates/issuer/src/credential.rs:208-257 | without them, exactly the granted configuration ids resolve, and no identifier does |
| `CredentialEndpoint.ResolvesIff` | crates/issuer/src/credential.rs:208-257 | any request resolves to a configuration iff it names it alone, by an identifier of the grant if the grant has any and by its id otherwise, and it is granted and supported; each error has its case |
| `CredentialEndpoint.RequestedProofs` | crates/issuer/src/credential.rs:132-162 | a request has proofs iff it has JWT proofs only, at least one and at most a batch, and then they are all of its JWTs in order |
| `CredentialEndpoint.AcceptedProves` | crates/issuer/src/credential.rs:270-355 | an accepted proof is signed by the key in its header, typed, for this issuer, recent and with the nonce it is credited with |
| `CredentialEndpoint.ProofAcceptedIff` | crates/issuer/src/credential.rs:270-355 | a proof gives a key and nonce iff its header key signed it under its own, advertised algorithm, typed, for this issuer, within 300 s, with that nonce; the nonce error means only the nonce is missing |
| `CredentialEndpoint.AllProofsIff` | crates/issuer/src/credential.rs:164-172 | the proofs are accepted iff each is, with their keys in order and exactly their nonces |
| `CredentialEndpoint.KeysOfProofs` | crates/issuer/src/credential.rs:164-172 | the key taken from proof i is one whose holder made it, with a nonce of the request |
| `CredentialEndpoint.FirstBadProof` | crates/issuer/src/credential.rs:164-172 | the first proof that fails decides the error |
| `CredentialEndpoint.ConsumeNonces` | crates/issuer/src/credential.rs:174-182 | nonces are consumed one by one, each once, up to the first that is not valid; success means all were |
| `CredentialEndpoint.ProcessCredentialRequest` | crates/issuer/src/credential.rs:119-205 | no nonce is touched before all proofs are verified, no status index drawn before all nonces are valid, and then one credential is tried for per key, in order, up to the first that fails |
| `Text.DecimalRoundTrip` | crates/server/src/routes/issuer.rs:519 | a number survives being printed and parsed, as the status index is, iff it fits 64 bits |
| `CredentialIssuance.AllocateStatus` | crates/server/src/routes/issuer.rs:512-523 | a free index of the revocation list is drawn, and the credential carries that number |
| `CredentialIssuance.IssueSdJwtCredential` | crates/issuer/src/credential.rs:358-396 | an SD-JWT VC for the holder key, after its index is drawn; without a type nothing is drawn |
| `CredentialIssuance.IssueMdocCredential` | crates/issuer/src/credential.rs:403-448 | an mdoc for the holder key, its salts drawn at positions of their own; an index is drawn only after the checks, and is spent even if issuing then fails |
| `CredentialIssuance.IssueCredential` | crates/issuer/src/credential.rs:184-197 | the format selects the credential, and an unknown one is refused with nothing drawn |
| `CredentialIssuance.IssueCredentials` | crates/issuer/src/credential.rs:184-205 | one credential per key in order, each with an index free when it was drawn, up to the first failure |
| `CredentialIssuance.RefusedIff` | crates/issuer/src/credential.rs:184-197 | a configuration is tried iff it is an SD-JWT VC with a type or a driving licence of a signer with a country |
| `CredentialIssuance.ElementsDistinct` | crates/issuer/src/credential.rs:459-498 | no element of the licence is issued twice |
| `CredentialContents.VcVerifies` | crates/issuer/src/credential.rs:358-396 | a whole issued SD-JWT VC verifies exactly within its year, with the holder key it was issued for, the drawn index and list URI in its status, issuer, type, key id and chain, and every claim of the subject |
| `CredentialContents.MdocVerifies` | crates/issuer/src/credential.rs:403-448 | a presentation of an issued mdoc verifies iff the signer is trusted, the period holds, the holder's key signed and the transcripts agree; it then shows that device key, its status index, the licence's period and exactly the disclosed elements with the certificate's country, each of them salted |
| `CredentialRequests.OnePerProof` | crates/issuer/src/credential.rs:119-205 | a successful request gets one credential for each JWT it carries as proof, in order, each made for the key in the header of its proof, of the configuration the request resolves to |
| `CredentialRequests.RefusedDrawsNothing` | crates/issuer/src/credential.rs:174-205 | a request for a configuration no credential can be issued for fails and draws no status index |
| `Headers.AuthenticateClient` | crates/server/src/routes/issuer.rs:49-74 | the client of the two attestation headers, none if both are absent, and the identifier that is recorded |
| `Headers.DpopKey` | crates/server/src/routes/issuer.rs:81-104 | the key of the one DPoP header, none if there is none, and the identifier that is recorded |
| `Headers.ClientReadIsProven` | crates/server/src/routes/issuer.rs:49-74 | a client read from headers is named by a trusted attestation with a proof by its key; only the cache of identifiers changes |
| `Headers.KeyReadIsProven` | crates/server/src/routes/issuer.rs:81-104 | a DPoP key read from headers made a proof for this method, URL and token |
| `Headers.ReadClientIff` | crates/server/src/routes/issuer.rs:49-74 | no client iff neither header is sent; a client iff attestation and proof are good for it and the proof was not used; exactly the proofs that check out are recorded |
| `Headers.ReadDpopIff` | crates/server/src/routes/issuer.rs:81-104 | no key iff no DPoP header is sent; a key iff the one header is a good proof by it that was not used; exactly the proofs that check out are recorded |
| `ResourceAccess.AuthorizeResource` | crates/server/src/routes/issuer.rs:110-184 | computes the access decision and the whole store after it, the recorded identifier included |
| `ResourceAccess.HeaderMeans` | crates/server/src/routes/issuer.rs:130-145 | the scheme is what stands before the first space, the token what stands after it without surrounding white space, and there must be a token and one of the two schemes |
| `ResourceAccess.SchemeLetters` | crates/server/src/routes/issuer.rs:137-138 | the two schemes are recognised in any mix of capitals and small letters, and nothing else is |
| `ResourceAccess.AccessIff` | crates/server/src/routes/issuer.rs:110-184 | access iff the header is well formed, the token is live, and scheme and DPoP proof are what its grant calls for; an identifier is recorded only for a live, bound token under the DPoP scheme |
| `Protocol.TwoStepsAreOne` | crates/issuer/src/token.rs:176-194 | the machine's two steps of a pre-authorized redemption, undisturbed, are the token endpoint's handling |
| `ProtocolHandlers.RequestUndisturbed` | crates/issuer/src/credential.rs:119-205 | begun, consumed, issued and finished with nothing between, a credential request leaves the store, the status lists and the response its handler leaves |
| `ProtocolHandlers.TriesAreSeries` | crates/issuer/src/credential.rs:184-205 | the machine's tries at credentials, undisturbed, are the handler's loop |
| `ProtocolHandlers.PushIsStep` | crates/issuer/src/authorization.rs:95-168 | handling a pushed request is a step of the machine, recorded iff it was accepted |
| `ProtocolHandlers.NonceIsGood` | crates/server/src/routes/issuer.rs:469-487 | a nonce handed out is valid for 301 s to the millisecond, and no other nonce is affected |
| `ProtocolCodes.StepKeepsCodes` | crates/issuer/src/token.rs:98-173 | every step keeps sessions, codes, approvals and redemptions consistent, with one token per code |
| `ProtocolCodes.RedeemedCode` | crates/issuer/src/token.rs:110-161 | a redeemed code was approved within 61 s, not redeemed before, for the client, redirect URI, challenge and key of its pushed request |
| `ProtocolCodes.ApprovedOthers` | crates/server/src/routes/issuer.rs:275-281 | a session without a code belongs to no approval |
| `ProtocolTokens.StepKeepsOffers` | crates/issuer/src/state.rs:266-304 | every step keeps each offer redeemed at most once, between the two store calls too |
| `ProtocolTokens.MintedAgree` | crates/issuer/src/token.rs:200-240 | a minted grant and its response agree at the credential endpoint |
| `ProtocolTokens.MintedAnnounced` | crates/issuer/src/token.rs:200-240 | a minted response carries the token, names DPoP iff it is bound and Bearer iff not, and gives its lifetime |
| `ProtocolTokens.StepGrows` | crates/issuer/src/state.rs:167-352 | no step changes or forgets what happened before |
| `ProtocolTokens.RevokingKeeps` | crates/issuer/src/state.rs:237-250 | revoking a consumed code removes exactly the token it was redeemed for |
| `ProtocolTokens.StepKeepsTokens` | crates/issuer/src/token.rs:109-194 | every step keeps each live token tied to its code or offer, and each replayed code without a live token |
| `ProtocolIssuance.ConsumeKeepsApart` | crates/issuer/src/state.rs:354-362 | a consumed nonce belongs to one request, however requests interleave |
| `ProtocolIssuance.StepKeepsNonces` | crates/issuer/src/credential.rs:174-182 | every step keeps consumed nonces handed out, gone from the store and disjoint between requests |
| `ProtocolIssuance.StepKeepsTimely` | crates/issuer/src/state.rs:342-362 | every step keeps spent nonces spent within their lifetime |
| `ProtocolIssuance.GrantEntitles` | crates/issuer/src/credential.rs:125-130 | a live grant covers only what the pushed request or offer behind it asked for |
| `ProtocolIssuance.GrantNames` | crates/issuer/src/credential.rs:208-257 | what a live grant resolves a request to is the configuration it names, by id or by an identifier its token response listed |
| `ProtocolIssuance.AccessedWhenAllowed` | crates/server/src/routes/issuer.rs:110-184 | a credential request that is let in came with a live token and, if the token is bound, a proof by that key for it |
| `ProtocolIssuance.StepKeepsIssuing` | crates/issuer/src/credential.rs:119-205 | every step keeps every request entitled, let in with its key, tied to its proofs, within the batch size, and its credentials signed for the keys of the proofs |
| `ProtocolStatus.StepKeepsSlots` | crates/status/src/manager.rs:68-78 | every step keeps each drawn status index taken and owned by the one credential it was drawn for |
| `ProtocolStatus.IndicesDiffer` | crates/server/src/routes/issuer.rs:512-536 | in any state with these invariants, two credentials in one list have different indices |
| `ProtocolRequests.CallerReadIff` | crates/server/src/routes/issuer.rs:49-104 | a token request is handled for a client and a key iff its attestation headers read as that client and its DPoP header as that key for the token endpoint |
| `ProtocolRequests.PushArrives` | crates/server/src/routes/issuer.rs:194-227 | a pushed request is handled for its attested client and its DPoP key; without them it changes the cache of identifiers and nothing else |
| `ProtocolRequests.CodeArrives` | crates/server/src/routes/issuer.rs:434-463 | an authorization code redemption is handled for the client and key of its headers, or changes that cache alone |
| `ProtocolRequests.OfferArrives` | crates/server/src/routes/issuer.rs:434-463 | an offer is redeemed when the request names one and no other client than the attested one, or that cache alone changes |
| `ProtocolRequests.ArrivalIsStep` | crates/server/src/routes/issuer.rs:194-463 | a request records identifiers and takes at most one step, for the client and key its headers prove |
| `ProtocolRequests.StepKeepsWitnessed` | crates/server/src/routes/issuer.rs:194-463 | every step keeps a proof of the client behind every pushed request, and of client and key behind every redemption |
| `ProtocolRequests.ArrivalKeepsAll` | crates/server/src/routes/issuer.rs:194-632 | every request keeps all invariants and forgets nothing |
| `ProtocolTheorems.RunKeepsAll` | crates/server/src/routes/issuer.rs:194-632 | all invariants hold in every state of every run |
| `ProtocolTheorems.RunGrows` | crates/issuer/src/state.rs:167-352 | history only grows along a run |
| `ProtocolTheorems.Provenance` | crates/issuer/src/token.rs:98-173 | every credential on an authorization-code token traces to one pushed request: same client, redirect URI, challenge and DPoP key, a configuration it asked for, its token checked less than 3721 s after it and issued from then on; attestations and DPoP proofs in the headers of the three requests prove that client and that key |
| `ProtocolTheorems.EveryTokenMinted` | crates/issuer/src/state.rs:306-340 | every credential was issued on a token minted from a code or from an offer that covers it, never both |
| `ProtocolTheorems.SingleRedemption` | crates/issuer/src/token.rs:109-194 | each code of either kind mints at most one token, and tokens never exceed approvals plus offers |
| `ProtocolTheorems.ReplayIsMarked` | crates/issuer/src/token.rs:116-121 | presenting a redeemed code again marks it replayed |
| `ProtocolTheorems.ReplayIsFinal` | crates/issuer/src/token.rs:116-121 | once a code is replayed its token grants nothing in any later state |
| `ProtocolTheorems.IssuedPerNonce` | crates/issuer/src/credential.rs:152-182 | batches with disjoint nonces issue at most a batch size per nonce |
| `ProtocolTheorems.NoncesConserved` | crates/issuer/src/credential.rs:152-205 | under interleaving a nonce supports one request at most, credentials never exceed batch size times nonces handed out, and an invalid proof consumes none |
| `ProtocolTheorems.NoncesInTime` | crates/issuer/src/state.rs:354-362 | each nonce a successful request consumed had been handed out less than 301 s before |
| `ProtocolTheorems.BoundToProofs` | crates/issuer/src/credential.rs:164-205 | a request that succeeded got one credential for each proof it carried, of the configuration it named; credential i is what signing for the key in the header of proof i gives, and that proof was made by its holder, for this issuer, with a nonce the request consumed |
| `ProtocolTheorems.IssuedVcVerifies` | crates/issuer/src/credential.rs:358-396 | in every run, verifying issued SD-JWT VC i gives the key of proof i, the status entry drawn for it, the issuer and the type |
| `ProtocolTheorems.IssuedMdocVerifies` | crates/issuer/src/credential.rs:403-448 | in every run, a presentation of issued mdoc i that verifies gives the key of proof i as device key and the status index drawn for it |
| `ProtocolTheorems.IndicesDistinct` | crates/server/src/routes/issuer.rs:512-536 | in every run, however requests interleave, no two issued credentials of one format share a status index |
| `ProtocolTheorems.IndexTaken` | crates/server/src/routes/issuer.rs:512-536 | in every run, the index of an issued credential is one the manager handed out from the list of its format |
| `ProtocolTheorems.RevokesIndex` | crates/server/src/routes/status.rs:196-216 | in every run, revoking the index drawn for a credential changes that credential's status and no other issued one's |
| `ProtocolTheorems.RevokesOne` | crates/server/src/routes/status.rs:196-216 | in every run, revoking the status index a verifier reads in a credential sets its list there, and of every other credential the list stays as it was at the index a verifier reads in that one |
| `ProtocolTheorems.EndpointsAgree` | crates/issuer/src/credential.rs:208-257 | for every live token of every run the credential endpoint accepts exactly what its token response said, all of it supported, and the response carries that token, its scheme and its lifetime |
| `ProtocolTheorems.AnnouncedUse` | crates/issuer/src/token.rs:200-240 | a live token is let in under the scheme its response announced and no other, exactly until the announced seconds have passed, and for DPoP with a fresh proof by the key it was minted for |
| `Verifier.InMemoryVerifierState.constructor` | crates/verifier/src/session.rs:34-39 | both maps start empty |
| `Verifier.InMemoryVerifierState.StoreSession` | crates/verifier/src/session.rs:49-62 | stores a session in both maps |
| `Verifier.InMemoryVerifierState.GetSessionByState` | crates/verifier/src/session.rs:72-86 | follows the state to its session |
| `Verifier.InMemoryVerifierState.DeleteSession` | crates/verifier/src/session.rs:88-101 | removes a session from both maps |
| `Verifier.EvaluateCredentialQuery` | crates/verifier/src/dcql.rs:94-119 | the loop decides whether every claim asked for is present with an accepted value |
| `Verifier.ProcessResponse` | crates/verifier/src/response.rs:52-123 | the checks in order; success and expiry end the session, any other failure leaves it |
| `Verifier.AcceptedIff` | crates/verifier/src/response.rs:52-175 | a response is accepted iff its state names a session that has not expired and it presents, for that nonce and client, claims that have what every query asks; the result is that session's with those claims |
| `Verifier.SessionEndsIff` | crates/verifier/src/response.rs:52-123 | success and lateness end the session and no other; any other response leaves the store as it was |
| `Verifier.ReasonIsTrue` | crates/verifier/src/response.rs:52-175 | the reason a response is refused for is true, and a nonce is called wrong iff the key binding of a verified credential has another or none |
| `Verifier.SessionsApart` | crates/verifier/src/session.rs:49-86 | a new session is found by its state and every other one as before |
| `VerifierRuns.OneResultPerSession` | crates/verifier/src/response.rs:52-123 | in every run the two maps are inverse, each session yields at most one result, no later than expiry and answering every query |
| `VerifierRuns.HolderBound` | crates/verifier/src/response.rs:126-157 | an accepted SD-JWT VC is bound to its holder's key for this session's nonce and this verifier |
| `VerifierRuns.CreatesAsked` | crates/verifier/src/request.rs:27-76 | a created session has the client and query asked for and its own strings and expiry, and every other session is found as before |
| `VerifierRuns.PresentationAcceptedOnce` | crates/verifier/src/response.rs:52-157 | no SD-JWT VC presentation is accepted twice, in whatever sessions |
| `VerifierRuns.PlainJwtAcceptedTwice` | crates/verifier/src/response.rs:160-175 | a plain JWT presentation that verifies is accepted in two sessions |
| `VerifierRuns.RepeatableIff` | crates/verifier/src/response.rs:126-175 | a presentation is accepted twice in some run iff it has no `~` and verifies as a plain JWT |

## Left out

- Mdoc.Issue: assumes a fair source of random numbers for the digest-ID loop; without one the loop need not end.
- StatusManagers.StatusManager.AllocateEntry: assumes a fair source of random numbers, as the retry loop needs.
- CredentialIssuance.IssueCredentials: assumes fair sources of random numbers for each credential, as the two loops above need.
- CredentialIssuance.IssueMdocCredential: of the licence's thirteen elements the names and the two country values are modelled; portrait, dates and ages are a function of element and day. The endpoint returns the bytes as base64url text.
- ReplayCache.AcceptedOnce: one clock reading serves both the freshness window and the recording of a request; the code reads the clock twice.
- ProtocolTheorems.Provenance: deciding on a pushed request and redeeming an authorization code are one step each; the code takes several locks in each, and requests racing between them are not modelled. The bound counts to the instant the token is checked; how long a handler takes from there is not bounded.
- ProtocolTheorems.SingleRedemption: the same holds for two redemptions of one code racing between its lookup and its consumption.
- VerifierRuns.OneResultPerSession: processing a response is one step; two responses racing between lookup and deletion are not modelled.
- Verifier.ProcessResponse: the code calls a key binding error a nonce mismatch when its text mentions a nonce; the model does so for the two nonce errors, not for a text that quotes such an algorithm name.
- MdocTheorems.AcceptedWasIssued: what else the signer's key may have signed is a status list, a JWT or an issued MSO; other uses of the key are excluded by hypothesis.
- Cose.SignedReads: header parameters 2 to 7 are read as plain entries; the type checks of the COSE library on them are not modelled, so the model accepts no fewer messages.
- CBOR, DER, JSON, ECDSA, Ed25519, SHA-256, RFC 3339, URL and UUID libraries: symbolic constructors or functions with stated inverses; no hypothesis of a theorem fixes their output bytes.
- `cbor_to_json`: claims go through an arbitrary rendering of data elements as JSON.
- 64-bit limits on seconds arithmetic near the ends of the range, `usize` and capacity overflow: only the nonce cast, JSON integers and status indices have their widths.
- JSON numbers with a fraction, and the `alg`, `kid` and `use` members of a JWK: the model's numbers are integers and its keys carry kty, crv, x, y and d.
- The `issuer_state` and `state` parameters, display text, redirects and HTTP status codes: carried along or built from results, no branch depends on them.
- `decode` of arbitrary status bytes: it does not relate the data's length to the capacity, so nothing is claimed of it.
- Minting development certificates, lock poisoning, logging, configuration and routing.
- Header values: the first of several attestation headers counts, as in the code; which bytes are text is left to the model's input.
- Deadlock freedom: each store call is one atomic step.
