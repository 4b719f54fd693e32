# Verification of the Hail codec and the CLI's retry protocols

This project models the parts of the repository on which its promises rest and proves them in Dafny
4.11. `dafny verify dfyconfig.toml` checks everything. Numbers are unbounded where the program's are
safe, and a 64-bit quantity that could wrap is written out with its wrap-around.

**The Go codec.** `Grammar` defines the restricted CBOR grammar as trees and their spelling (heads of
section 3 of RFC 8949, in any of their widths), and what it means for an item to stand at an offset.
`Scanner` is the hand-written byte scanner with its mutable offset and item counter. `KeyOrder` has the
two map orders of sections 4.2.1 and 4.2.3. `Values` are Go values, their one canonical spelling `Enc`
with shortest heads and sorted keys, and the reading of trees. `Admission`, `Codec` and `Deterministic`
hold the size preflight, the check after decoding, and the encode and decode entry points. The CBOR
library is a value of type `Library` with a law: it marshals to `Enc`, and reads octets that the scanner
has accepted as the obvious value, in a mode with tags and one without; `LawfulLibraryExists` shows the
law can be met. `ScalarText` says what well-formed text is. `Cose` and `Signing` are the signed objects
(COSE_Sign1, section 4.2 of RFC 9052), which `CoseOctets` spells out octet by octet, `TypedPreflight` the reflective size preflight over structs, `Payloads` and `Prefilters` the two layers
of payload validation behind it, `PayloadTexts` what their id patterns amount to, `PayloadSizes` the payload structs as that preflight sees them,
`Projections` how the two views of a payload relate, member for member, `Png`
and `AssetManifests` the image gate and the manifest around it, `Base64url` the canonical text form and
the attachment metadata check of the TypeScript client.

**The Rust CLI.** The protocols are modelled against an unreliable provider. A command is a
specification function that returns every state of the disk it passes through (`Writes`, `Update`,
`Sent`), so a crash is a cut of that list; beside it stands the command as the program runs it, a method
that assigns and rewrites files through a `Journal` of every state it leaves, proved to leave exactly
those states, and to keep at each of them what the theorems about runs promise (`TransferCommands`,
`UpdateGrant`, `SendMessage`). `TransferProgress` says what the reviews of a transfer amount to and that
good answers lead to the end, `TransferWarrants` and `GrantWarrants` that nothing is ever retained
without its grounds. `CutoverRuns` adds when an interrupted cutover can still be finished, and
that what was signed is what completion takes. Credential rotation is a state machine of single writes
and requests (`Rotation`), and the invocation as it runs is proved to be a run of that machine
(`RotationCommand`). Clocks, randomness, signatures, digests and whatever a provider answers are inputs,
so the theorems hold for all of them.

Four findings about the code as it is:

- The scanner alone lets the integer -2^53 through (packages/hail-codec-go/cbor.go:323-326), as
  `ScannerAdmitsOneTooMany` shows; the check after decoding is what refuses it, and `CheckAfterScan`
  proves that this is the only thing it can still refuse.
- The envelope prefilter lacks the upper bounds on availability and the ban on conversation members
  that the full validator has. `EnvelopePrefilterIsTransparent` states the gap exactly: the full
  validator accepts if and only if the prefilter does and `PrefilterGaps` is false.
  `PrefilterAdmitsTooLong` is an envelope in the gap, kept for longer than 31 days, and
  `PrefilterAdmitsConversationMembers` has two more. What is emitted is the same with and without the
  prefilters (`EncodePayload`).
- Two successful listings in a row are one longer listing if and only if no cursor recurs across them
  and their sizes together stay in bounds (`ListingsJoin`); that each succeeds is not enough, as
  `NotAllListingsJoin` shows.
- A cutover consent lapses an hour after it was signed, a lapsed one is refused on a retry, and nothing
  ever replaces it (apps/cli/src/cutover.rs:195-222). A signing that dies behind the consent and is not
  resumed within the hour can therefore never be finished, and completion stays blocked
  (`OneHourToResume`, and `CutShortIsLost` at an input); apps/cli/docs/cli-workflows.md:372-373 advises to
  restore the original files and resume, or a recovery procedure, and the former does not help then. Nor
  can a cutover ever be finished whose three paths do not differ, which nothing checks
  (`RepeatedPathNeverFinishes`). `CutoverFinishesUnlessLapsed` states exactly when one more signing
  finishes.

## Model

| member | source | states |
|---|---|---|
| Grammar.HeadUnique | packages/hail-codec-go/cbor.go:269-297 | a head can be read in one way only: two heads that start the same octets have the same major type, width and argument |
| Grammar.UniqueReading | packages/hail-codec-go/cbor.go:263-385 | octets that start with the spelling of two well-formed trees start with the same tree, and what follows is the same |
| Grammar.NodesAtMostBytes | packages/hail-codec-go/cbor.go:263-385 | a tree has at most as many nodes as octets, so a scan counts no more items than the input is long |
| Grammar.WithinMonotone | packages/hail-codec-go/cbor.go:263-385 | a tree within the limits stays within looser ones |
| ScalarText.Utf8Exactly | packages/hail-codec-go/cbor.go:338 | octets pass the text check if and only if they spell a sequence of Unicode scalar values, each in its shortest form |
| ScalarText.SpelledOnce | packages/hail-codec-go/cbor.go:338 | and no two such sequences are spelled alike |
| Scanning.Scanner.ReadArgument | packages/hail-codec-go/cbor.go:269-297 | reads the big-endian argument behind an initial octet, of any width, and fails exactly on truncation and on reserved or indefinite lengths |
| Scanning.Scanner.Scan | packages/hail-codec-go/cbor.go:298-377 | succeeds exactly when a conforming item stands at the offset; then the offset has moved past that item and the counter past its nodes, map keys included; the offset never passes the end |
| Scanning.Scanner.ScanBody | packages/hail-codec-go/cbor.go:322-375 | finds the content and the children an argument of each major type demands, or there are none |
| Scanning.Scanner.ScanElements | packages/hail-codec-go/cbor.go:342-350 | scans exactly the row of items that stands at the offset, or none does |
| Scanning.Scanner.ScanEntries | packages/hail-codec-go/cbor.go:351-365 | the same for keys and values in turn, with text keys where they are demanded |
| Scanning.ScanCbor | packages/hail-codec-go/cbor.go:263-385 | accepts exactly the octets that are one conforming item and nothing else, and finds that item |
| Grammar.AppendingChangesNothing | packages/hail-codec-go/cbor.go:263-385 | whatever octets are appended, the item that stands at an offset is the only one that stands there in the longer input, so a scan comes out the same |
| Deterministic.NoProperExtension | packages/hail-codec-go/cbor.go:378-385 | no accepted input is a proper prefix of another accepted input, under whatever rules |
| Deterministic.ItemsAtMostOctets | packages/hail-codec-go/cbor.go:263-385 | the items of an accepted input are at most its octets |
| KeyOrder.OneStrictListing | packages/hail-codec-go/cbor.go:355-358 | a set of keys has one strictly ascending listing |
| KeyOrder.BigEndianOrder | packages/hail-codec-go/cbor.go:355-358 | big-endian numerals of one width are ordered bytewise as their numbers are |
| Deterministic.TextOrdersAgree | packages/hail-codec-go/cbor.go:34 | on encoded text keys length-first order is bytewise order |
| Deterministic.BytewiseOrderIsOrder | packages/hail-codec-go/cbor.go:34 | a listing of a map's text keys is the codec's order if and only if it ascends bytewise, so both sections of RFC 8949 give one encoding |
| Values.WireIsWellFormed | packages/hail-codec-go/cbor.go:27-49 | the canonical tree of a representable value is well-formed |
| Values.UnmarshalOfWire | packages/hail-codec-go/cbor.go:27-49 | reading the canonical tree of a value gives the value back |
| Values.EncInjective | packages/hail-codec-go/cbor.go:55-75 | no two values share an encoding and no encoding is a proper prefix of another |
| Admission.TallyOrder | packages/hail-codec-go/cbor.go:185-228 | sizes and counts of a map's entries do not depend on the order in which its keys are visited |
| Admission.CanonicalNodes | packages/hail-codec-go/cbor.go:263-428 | a readable tree and the canonical tree of the value it is read as have equally many nodes |
| Admission.ScannedFits | packages/hail-codec-go/cbor.go:263-385 | what the scanner accepts reads as a value that fits the same limits, but for the integer -2^53 |
| Admission.WireWithin | packages/hail-codec-go/cbor.go:130-261 | the canonical tree of a value that fits is within the scanner's limits |
| Codec.LawfulLibraryExists | packages/hail-codec-go/cbor.go:27-49 | the law assumed of the CBOR library, on values and on scanned octets, is consistent |
| Codec.ArgumentSize | packages/hail-codec-go/cbor.go:115-128 | is one more than the argument octets of the shortest head |
| Codec.IntegerSize | packages/hail-codec-go/cbor.go:246-261 | refuses exactly the unsafe integers, and otherwise is the length of the integer's encoding |
| Codec.PreflightValue | packages/hail-codec-go/cbor.go:130-232 | succeeds exactly on values that fit, with the length of the encoding modulo 2^64 and the item count the scanner will reach |
| Codec.PreflightArray | packages/hail-codec-go/cbor.go:234-244 | the same for arrays |
| Codec.PreflightMap | packages/hail-codec-go/cbor.go:185-228 | the same for maps, whatever order the keys come in |
| Codec.ValidateValue | packages/hail-codec-go/cbor.go:387-428 | succeeds exactly on values that pass the check after decoding, counting values but not map keys |
| Codec.ChecksOfScanned | packages/hail-codec-go/cbor.go:387-428 | on a scanned value the check agrees with the preflight's limits, and fails exactly on values that hold -2^53 |
| Deterministic.EncodeDeterministicWithLimits | packages/hail-codec-go/cbor.go:55-75 | encodes exactly the admissible values, each as its one canonical encoding |
| Deterministic.DecodeDeterministicWithLimits | packages/hail-codec-go/cbor.go:81-106 | decodes exactly the canonical encodings of admissible values, each to that value |
| Deterministic.OneValuePerEncoding | packages/hail-codec-go/cbor.go:55-106 | admissible values with the same encoding are the same value, even under different limits |
| Deterministic.AdmissibleMonotone | packages/hail-codec-go/cbor.go:108-113 | what is admissible stays so under looser limits |
| Deterministic.CheckAfterScan | packages/hail-codec-go/cbor.go:387-428 | after a text-key scan the check can only fail because of -2^53; its item, depth, array and map limits are implied |
| Deterministic.ScannerAdmitsOneTooMany | packages/hail-codec-go/cbor.go:323-326 | the nine octets of -2^53 pass the scanner |
| Deterministic.DefaultSizesAreExact | packages/hail-codec-go/cbor.go:55-75 | under the default limits the preflight's size does not wrap, so the length check after marshalling cannot fire |
| Cose.ContentTypeInjective | packages/hail-codec-go/cose.go:21-39 | no two kinds share a content type |
| Cose.Profiles | packages/hail-codec-go/cose.go:21-39 | the eleven signed kinds, each with its content type, key role, signer's member, size limit, and whether its payload repeats the key id |
| Cose.KeyIdsAre | packages/hail-codec-go/cose.go:107-195 | a payload's key id is the text under its kind's signer member, a number sign, and the role of the kind, and there is none without that text |
| CoseOctets.HeaderOctets | packages/hail-codec-go/cose.go:246-250 | the protected header is the octet a3 and the labels 1, 3 and 4 in this order, with algorithm -19, content type and key id |
| CoseOctets.ToBeSignedOctets | packages/hail-codec-go/cose.go:218-224 | the signed structure is the octets 84 6a, the text Signature1, the header behind its length, 40, and the payload behind its length |
| CoseOctets.Sign1Octets | packages/hail-codec-go/cose.go:256 | the signed object is d2 84, header, a0, payload, 58 40 and the signature, in this order |
| Cose.ParseOuter | packages/hail-codec-go/cose.go:292-337 | takes exactly the canonical tagged four-element arrays with a 64-octet signature, and returns their parts |
| Cose.DecodeHeader | packages/hail-codec-go/cose.go:338-351 | returns the one value of which the protected octets are the canonical encoding |
| Cose.ParseHeader | packages/hail-codec-go/cose.go:338-369 | for every content type, returns a key id if and only if the octets are the canonical three-label header with that key id, of at most 1024 octets |
| Signing.ToBeSignedInjective | packages/hail-codec-go/cose.go:218-224 | the signed structure is injective in the protected header and the payload |
| Signing.SigStructure | packages/hail-codec-go/cose.go:218-224 | returns the structure of section 4.4 of RFC 9052 octet by octet: the context, the header, no external data, the payload |
| Signing.SignPayload | packages/hail-codec-go/cose.go:226-264 | emits, octet by octet, header, payload and the key's signature over the signed structure of these two, which parsing accepts; fails exactly when key, validators, admission or size say so |
| Signing.ParseCose | packages/hail-codec-go/cose.go:292-387 | accepts exactly the representations of valid payloads with some signature, and returns the payload, key id and signature they were made of, which spell the representation octet by octet |
| Signing.VerifySignedPayload | packages/hail-codec-go/cose.go:274-290 | succeeds if and only if the representation is accepted and the verifier agrees on its key id, the octets of its signed structure, and its signature |
| Signing.RepresentationDeterminesAll | packages/hail-codec-go/cose.go:266-387 | a byte string is accepted for at most one kind, and determines payload and signature |
| TypedPreflight.PreflightTrustedValue | packages/hail-codec-go/typed_preflight.go:441-541 | computes for a struct exactly what the map preflight computes for its projection, over arbitrary nesting |
| TypedPreflight.PreflightSlice | packages/hail-codec-go/typed_preflight.go:494-505 | the same for slices |
| TypedPreflight.PreflightStruct | packages/hail-codec-go/typed_preflight.go:506-537 | the same for structs with distinct tags, with omitted fields left out |
| TypedPreflight.TagsListKeys | packages/hail-codec-go/typed_preflight.go:506-537 | the tags visited in field order list the keys of the projected map, each once |
| PayloadTexts.UuidExactly | packages/hail-codec-go/payload.go:19 | the id pattern matches exactly the texts of 16 octets that are a version 7 UUID |
| PayloadTexts.DidsAgree | packages/hail-codec-go/payload.go:18 | a text is a DID to the payload rules if and only if its octets are one to the signed objects |
| Payloads.NoOverflow | packages/hail-codec-go/payload.go:958-1006 | on integers the encoding admits, the validators' 64-bit sums and differences are exact |
| Prefilters.CheckCategories | packages/hail-codec-go/typed_preflight.go:254-265 | accepts exactly the nonempty, valid, strictly ascending category lists |
| Prefilters.PreflightGrant | packages/hail-codec-go/typed_preflight.go:234-285 | the prefilter's sequence of tests decides what the full validator says of the grant's projection |
| Prefilters.GrantPrefilterIsExact | packages/hail-codec-go/typed_preflight.go:234-285 | on every grant the prefilter and the full validator of its projection agree |
| Prefilters.DeliveryPrefilterIsExact | packages/hail-codec-go/typed_preflight.go:354-393 | on every delivery status they agree too |
| Prefilters.EnvelopePrefilterIsTransparent | packages/hail-codec-go/typed_preflight.go:287-352 | the full validator accepts an envelope's projection if and only if the prefilter accepts it and none of the named gaps applies |
| Prefilters.PrefilterAdmitsTooLong | packages/hail-codec-go/typed_preflight.go:287-352 | an envelope kept for 35 days passes the prefilter and is refused by the full validator |
| Prefilters.PrefilterAdmitsConversationMembers | packages/hail-codec-go/typed_preflight.go:287-352 | so are a grant envelope with a conversation message id and one with a creator in its authorization, neither kept too long |
| PayloadSizes.PreflightSize | packages/hail-codec-go/typed_preflight.go:146-155 | the typed preflight under the default limits accepts exactly the payload structs whose generic projection fits, its exact encoded length and item count within bounds |
| PayloadSizes.SizedEnvelopeIsSafe | packages/hail-codec-go/typed_preflight.go:441-541 | an envelope that has passed the size preflight holds only integers the encoding admits, omitted fields included |
| Projections.DeliveryRepresents | packages/hail-codec-go/payload.go:320-329 | a delivery status is projected, member for member and name for name, to what the size preflight makes of the struct |
| Projections.AuthorizationRepresents | packages/hail-codec-go/payload.go:264-290 | so is an authorization, creator, conversation id, membership revision and descriptor hash included, unless it is a connection's with epoch 0 |
| Projections.EnvelopeRepresents | packages/hail-codec-go/payload.go:264-318 | so is an envelope if and only if its authorization is not a connection's with epoch 0 |
| Projections.GrantRepresents | packages/hail-codec-go/payload.go:234-262 | so is a grant if and only if none of its category selectors lacks its list |
| Prefilters.PrefilterIsTransparent | packages/hail-codec-go/typed_preflight.go:146-165 | behind a passed size preflight every payload that the full validator accepts passes its prefilter |
| Prefilters.EncodePayload | packages/hail-codec-go/payload.go:26-46 | emits exactly what size preflight and full validation alone would let through, so the prefilters never change what is emitted |
| Png.ReadHeader | packages/hail-codec-go/assets.go:38-50 | accepts exactly the permitted header profiles and returns their dimensions and colour type |
| Png.PngDimensions | packages/hail-codec-go/assets.go:15-84 | accepts exactly the PNG files of the chunk grammar and returns the dimensions their header states |
| Png.StuckIsNoPng | packages/hail-codec-go/assets.go:25-73 | where no chunk can be read, or one that may not follow, no continuation makes a PNG |
| Png.StructureEnds | packages/hail-codec-go/assets.go:80-82 | the final check decides the whole chunk structure |
| AssetManifests.CheckAsset | packages/hail-codec-go/assets.go:91-125 | accepts exactly the assets whose data is a PNG with the stated size, digest and dimensions within the role's limits |
| AssetManifests.ValidateAssetManifest | packages/hail-codec-go/assets.go:86-127 | accepts exactly the manifests of one to eight good assets with distinct ids and at most one avatar and one header |
| Base64url.StrictDecodesEncoded | packages/hail-codec-go/base64url.go:8-12 | strict decoding inverts encoding on every octet string |
| Base64url.DecodesExactly | packages/hail-codec-go/base64url.go:10-19 | decoding yields an octet string if and only if the text is its encoding and the length is the expected one |
| Base64url.DigestPatternIsExact | packages/hail-client-support/src/attachments.ts:18-19 | the digest pattern matches exactly the canonical texts of 32-octet strings |
| Base64url.ParseAttachments | packages/hail-client-support/src/attachments.ts:3-23 | accepts exactly lists of at most 20 valid entries of at most 25 MiB in all, each with a canonical digest |
| Rotation.EveryRun | apps/cli/src/credentials.rs:43-245 | over every run of crashes, lost replies and reruns nobody is locked out, the plan is written once, and no token but the planned one is issued |
| Rotation.EveryStepOfEveryRun | apps/cli/src/credentials.rs:144-245 | no step plans, asks for or issues a credential, or takes over a replacement, while the account is migrating; a plan says what the account says and needs the write scope; and no step revokes the source except under a live replacement on disk with its own id and equal scopes |
| Rotation.CalmRunFinishes | apps/cli/src/credentials.rs:122-245 | from any state that can be reached, steps without faults finish the rotation |
| Rotation.AnyRunCanFinish | apps/cli/src/credentials.rs:122-245 | after any run at all one more faultless invocation finishes |
| RotationCommand.Invocation.MakePlan | apps/cli/src/credentials.rs:144-178 | makes the plan from the provider's account of the source, unless that is migrating, as the step machine does |
| RotationCommand.Invocation.MakePending | apps/cli/src/credentials.rs:179-208 | checks the plan and retains the pending request, as the step machine does |
| RotationCommand.Invocation.Create | apps/cli/src/credentials.rs:43-121 | issues and records the requested credential, unless the account is migrating, as the step machine does |
| RotationCommand.Invocation.Rotate | apps/cli/src/credentials.rs:122-245 | an invocation is a run of the step machine, and succeeds exactly when that run finishes |
| RotationCommand.RotateSafely | apps/cli/src/credentials.rs:122-245 | from any reachable state an invocation leaves a usable credential and the plan; when it succeeds the replacement is live with the source's scopes and the source is not; it does succeed if the account is the source file's, is not migrating and can issue; and while the account is migrating nothing is planned, issued or revoked |
| TransferRecords.SigningInputInjective | apps/cli/src/transfers.rs:86-105 | kind, version mark, zero octet and payload are injective in kind and payload |
| TransferRecords.ReservationBindsAll | apps/cli/src/snapshots.rs:70-127 | with an injective digest, states accepted with the same reservation payload hold the same selection, offer and grant payloads, and acknowledgements where managed |
| TransferProgress.RetainedExactly | apps/cli/src/snapshots.rs:70-127 | a chain of grant, offer, selection and reservation passes its review if and only if each of the four stands: of its kind, size and lifetime, signed by the right key, and bound to those before it by account, nonce, transfer, bases, digests and address |
| TransferProgress.OfferSucceeds | apps/cli/src/transfers.rs:401-512 | an offer on a good account, with a vault that signs what it is given and an answer that fits the grant, ends with grant and offer retained, which pass their reviews; owner-controlled or managed, first or retried |
| TransferProgress.FirstOfferGoesThrough | apps/cli/src/transfers.rs:401-512 | those conditions can be met from an empty disk |
| TransferProgress.SelectSucceeds | apps/cli/src/transfers.rs:586-717 | a selection under a live offer, with a reservation that fits, ends with a chain that export and signing take, for the very name asked for |
| TransferProgress.CancelSucceeds | apps/cli/src/transfers.rs:719-810 | a cancellation under the grant, with the source's receipt, ends with both retained and says whether the target knows |
| TransferWarrants.OfferIsWarranted | apps/cli/src/transfers.rs:401-512 | offer writes only for its own account when that may move and is not migrating, and retains an acknowledgement or an offer only under a live grant that it answers |
| TransferWarrants.SelectIsWarranted | apps/cli/src/transfers.rs:586-717 | select signs only under a live offer, and retains only a reservation that completes a standing chain for the name asked for, each record lapsing before the one it rests on |
| TransferWarrants.CancelIsWarranted | apps/cli/src/transfers.rs:719-810 | cancel works only on owner-controlled transfers that are not migrating, and retains only a receipt that answers a cancellation in force under the grant |
| TransferWarrants.ExportIsWarranted | apps/cli/src/snapshots.rs:149-212 | export writes only for a fenced or exported account, and only a snapshot that tells the same story as the chain |
| TransferWarrants.SignIsWarranted | apps/cli/src/cutover.rs:89-405 | signing changes nothing unless snapshot and chain tell the same story, and writes files only with the owner's keys in the vault |
| TransferWarrants.CompleteIsWarranted | apps/cli/src/cutover.rs:415-604 | completion retains an activation receipt only for the recorded snapshot, with every artifact there and a valid, active answer, and the retirement only when the source answers |
| TransferRuns.RecordsAreWriteOnce | apps/cli/src/transfers.rs:401-810 | over any sequence of commands, answers and crashes every retained record, cutover digest, path and operation CID is written once |
| TransferRuns.ArtifactsStayInOrder | apps/cli/src/cutover.rs:167-246 | in every run the artifacts of an owner-controlled cutover are a prefix of operation, consent, binding, each of its own kind, and a recorded CID is the operation's with all three there |
| CutoverRuns.SigningFinishesExactly | apps/cli/src/cutover.rs:89-250 | after any run one more uninterrupted signing leaves the cutover signed whole if and only if it was before, or records, snapshot and vault are in order, the three paths differ and each holds nothing or what this signing accepts; it changes nothing retained |
| CutoverRuns.EveryRunIsOurs | apps/cli/src/cutover.rs:149-246 | from a disk without artifacts, with one decoding and one snapshot per digest, every artifact in every run was signed for the cutover under way, under the custody keys, a consent for its operation and for one hour |
| CutoverRuns.ArtifactsAgree | apps/cli/src/cutover.rs:57-88 | in such a run operation, consent and binding agree: rotation and messaging key, endpoint, address and account are those of the consent's terms, of the chain and of the state, and the operation follows the manifest's prior one |
| CutoverRuns.SigningAddsFresh | apps/cli/src/cutover.rs:57-405 | whatever a signing adds to the disk says what state, records, snapshot and vault say, key by key |
| CutoverRuns.EveryManagedRunTells | apps/cli/src/cutover.rs:251-405 | the operation of a managed cutover puts the keys of the retained reservation in their places |
| CutoverRuns.ReservedInTwoSteps | apps/cli/src/transfers.rs:401-717 | the disk of the examples is what an offer and a selection leave behind that start from nothing |
| CutoverRuns.CutoverFinishesUnlessLapsed | apps/cli/src/cutover.rs:89-250 | so in such a run one more uninterrupted signing leaves the cutover signed whole if and only if it was before, or everything is in order, the three paths differ and hold nothing of another kind, and no consent is there or it has not lapsed |
| CutoverRuns.LapsedIsFinal | apps/cli/src/cutover.rs:195-211 | once a consent has lapsed with no CID recorded, no run with clocks that do not go back signs the cutover whole: no signing changes anything, and completion does nothing |
| CutoverRuns.OneHourToResume | apps/cli/src/cutover.rs:193-250 | so a signing that dies behind its consent, before or after the binding, is lost an hour after it was made |
| CutoverRuns.CutShortIsLost | apps/cli/src/cutover.rs:193-250 | one transfer and one signing, cut short behind the consent, that is lost in this way |
| CutoverRuns.RepeatedPathNeverFinishes | apps/cli/src/cutover.rs:107-128 | a signing whose three paths do not differ records them for good, and no later run signs that cutover whole |
| CutoverRuns.SignedCutoverCompletes | apps/cli/src/cutover.rs:415-560 | after any run that has signed the cutover whole, completion with the same snapshot and a good answer goes through if and only if the identity key in custody is the one the state names |
| CutoverRuns.ManagedSignsExactly | apps/cli/src/cutover.rs:251-405 | a managed cutover not yet recorded is signed to its end if and only if review and vault are in order and its two paths differ and are free |
| TransferRuns.SelectionComesFirst | apps/cli/src/transfers.rs:586-717 | no run leads to a retained reservation without the selection it answers |
| TransferRuns.CancellationBlocks | apps/cli/src/transfers.rs:200-228 | once a cancellation is retained offer, select, export, sign and complete write nothing |
| TransferRuns.CancellationIsFinal | apps/cli/src/transfers.rs:719-810 | and no later run, cancel included, changes grant, offer, selection, reservation, cutover, activation or any artifact |
| TransferRuns.LifetimesNest | apps/cli/src/transfers.rs:648-717 | after every successful selection, first or retried, reservation, selection, offer and grant lapse in that order, and not yet |
| TransferCommands.OfferTransfer | apps/cli/src/transfers.rs:401-512 | leaves what the offer's specification says, write for write; every state it passes through keeps the retained records and the order of the artifacts; once a cancellation is retained it leaves nothing; and where everything is as it should be it ends with grant and offer retained |
| TransferCommands.SelectAddress | apps/cli/src/transfers.rs:586-717 | the same for the address selection, which ends with a standing chain |
| TransferCommands.CancelTransfer | apps/cli/src/transfers.rs:719-810 | the same for a cancellation, its receipt and the target's acknowledgement, except that behind a retained cancellation it touches nothing but the cancellation's own records; it ends with the receipt |
| TransferCommands.ExportSnapshot | apps/cli/src/snapshots.rs:149-212 | the same as for the offer, for the snapshot file |
| TransferCommands.SignCutover | apps/cli/src/cutover.rs:89-405 | the same for the artifacts of a cutover, owner-controlled or managed; what it adds says what state, records, snapshot and vault say |
| TransferCommands.CompleteTransfer | apps/cli/src/cutover.rs:415-604 | the same for the activation receipt and the retirement |
| Grants.SelectScopeMeans | apps/cli/src/grants.rs:13-32 | a scope is selected exactly from nonempty lists of distinct well-formed names, in ascending order, with the same members |
| Grants.RestrictsExactly | apps/cli/src/grants.rs:340-354 | the narrowing test holds if and only if strictly fewer categories and times are permitted afterwards |
| GrantWarrants.SelectionIsWhatTheCodecTakes | apps/cli/src/grants.rs:13-32 | the client selects a list as it stands if and only if the payload codec takes it as the categories of a scope (packages/hail-codec-go/typed_preflight.go:254-265) |
| GrantWarrants.SelectionIsGood | apps/cli/src/grants.rs:13-32 | and however the categories were given, what is selected is a list that the codec takes |
| Grants.UpdateGrant | apps/cli/src/grants.rs:273-427 | leaves what update's specification says, write for write; wherever it dies nothing retained has changed, everything submitted is still the retained output, what it newly keeps or submits is the next revision of the retained base and says what was asked: these categories, this expiry, never more when the expiry is kept and no category added; a good proposal ends signed and submitted |
| Grants.RevokeGrant | apps/cli/src/grants.rs:205-272 | the same for revoke, whose output is the provider's own revocation or the revoking next revision of its record; a first revocation of an active grant ends kept and submitted |
| Grants.RetriesAreIdentical | apps/cli/src/grants.rs:205-427 | however often update and revoke are retried, every submission from one output path carries the same octets, every proposal posted for the provider to sign is the same, and request and output are written once |
| Grants.UpdateSucceeds | apps/cli/src/grants.rs:312-427 | what an update signs is the next revision of its retained base |
| Grants.UpdateSaysAsAsked | apps/cli/src/grants.rs:273-427 | it has exactly the categories asked for, and expires with the base, never, or at the time given, as asked |
| Grants.UpdateEndsWell | apps/cli/src/grants.rs:273-427 | a first update with a provider that proposes what was asked for ends with the proposal signed and submitted, or signed by the provider and kept |
| GrantWarrants.UpdateIsWarranted | apps/cli/src/grants.rs:273-427 | an update writes only for an account that may, from the provider's active record of its own grant, for arguments that are the retained ones; what it signs or has signed continues a base that the owner signed |
| Grants.RevokeSucceeds | apps/cli/src/grants.rs:231-271 | what a revocation submits is the provider's own revocation or the revoking next revision of its record |
| Grants.RevokeEndsWell | apps/cli/src/grants.rs:205-272 | a first revocation of an active grant ends with exactly that grant, revoked, kept and submitted |
| GrantWarrants.RevokeIsWarranted | apps/cli/src/grants.rs:205-272 | revoke works only with the grantor's own unlocked vault, on a record that its key signed, and what it keeps and submits is signed with that key |
| Grants.LineageFacts | apps/cli/src/grants.rs:205-427 | along a lineage revisions are consecutive, update times increase, id, parties and issue time stay, and nothing follows a revocation |
| Grants.EndBindsLineage | apps/cli/src/grants.rs:231-260 | with an injective digest the last record binds the whole lineage and its length |
| Grants.RestrictingShrinks | apps/cli/src/grants.rs:340-380 | over restricting steps permission strictly shrinks and the consent context stays |
| Retries.SendMessage | apps/cli/src/messages.rs:54-154 | leaves what send's specification says, in that order; wherever it dies the retained message is unchanged and everything it posts is the retained message, which says what the present arguments ask; a first message that can be sent is posted; and nothing is written for an account that may not write or is migrating |
| Retries.EveryPostIsTheFirst | apps/cli/src/messages.rs:54-154 | whatever the invocations, crashes and answers, every message posted from a state path is the retained one |
| Retries.NeverPostsAnother | apps/cli/src/messages.rs:54-154 | a new post is exactly one message with the text, attachments, deadline and target of the present arguments: the grant and category, the message, or the connection asked for, with the retained peer or the one row listed |
| Retries.FirstSendPosts | apps/cli/src/messages.rs:54-154 | a first invocation with good arguments and answers retains its message and posts it |
| Retries.RowsMeans | apps/cli/src/messages.rs:92-106 | a peer is found if and only if the provider lists exactly one connection with the id |
| Retries.RetryPostsIff | apps/cli/src/messages.rs:127-153 | a retry posts exactly when rebuilt intent and account are the retained ones |
| Retries.RetryKeepsThePeer | apps/cli/src/messages.rs:79-112 | a retried connection message keeps its peer whatever the provider now lists |
| Retries.AtMostOneMessage | apps/cli/src/messages.rs:54-154 | with a provider that keeps one message per id, at most one message results from a state path |
| Retries.SubmitConversation | apps/cli/src/conversations.rs:97-211 | the same for conversation operations, and what it posts is exactly one operation that says what the present arguments ask |
| Retries.OneOperation | apps/cli/src/conversations.rs:97-211 | all requests posted from a state path are one and the same, even when the state file was there before |
| Retries.NeverPostsAForgery | apps/cli/src/conversations.rs:181-211 | whatever the state file holds, a posted request has the recipients, text, source and target of the present arguments, goes to its verb's path from this account's state, and when new answers the active conversation of its source |
| Retries.FirstRunPosts | apps/cli/src/conversations.rs:131-211 | the request a first invocation retains passes its own review and is posted |
| Paging.ListPages | apps/cli/src/reads.rs:20-92 | succeeds if and only if the provider's pages make a listing, and returns their rows merged and the cursor to resume from |
| Paging.CursorsAreFresh | apps/cli/src/reads.rs:20-92 | no cursor is requested twice, and the returned one was never requested |
| Paging.ListingSplits | apps/cli/src/reads.rs:20-92 | a listing of p+q pages is one of p pages followed by one of q pages from its cursor |
| Paging.ListingsJoin | apps/cli/src/reads.rs:20-92 | two listings in a row, of p and q pages with p+q at most 100, are one of p+q pages if and only if no cursor recurs across them and their sizes together are in bounds |
| Paging.NotAllListingsJoin | apps/cli/src/reads.rs:20-92 | a provider whose two pages name each other gives two good listings in a row that are not one listing |

## Left out

- Error identity: every failure is one `None` or an empty list of writes; which of several failed checks is reported, and in which words, is not modelled.
- Go's typed nil slices and maps inside `any`, and dynamic types that no value here stands for.
- The CBOR library's own nesting and element limits, and its decoding into typed structs; `DecodePayload` returns the value.
- Cryptography: Ed25519, P-256, SHA-256 and CRC-32 are parameters, with injectivity assumed only where a lemma says so.
- Addresses: IDNA, the public suffix list and Unicode normalisation are parameters of the validators and of attachment names.
- Signing.SignPayload: the payload rules are a parameter with the law that a valid payload names a canonical signer; the rules of grants, envelopes and delivery statuses are in `Payloads`, those of the other kinds are not modelled.
- TypedPreflight.PreflightTrustedValue: the SPT-3 projection always emits `children` and `markDefs`, and the SPT-1 projection drops `markDefs`, so for those two the generic projection is not the one the validator gets. The envelope projection emits `epoch` for a connection even when it is 0, and the grant projection emits `values` for a category selector even when nil, where the preflight omits both; the projections in `Payloads` do as the program's do, and `Projections` shows that these are the only differences.
- Prefilters.EnvelopePrefilterIsTransparent: member names are numbered keys rather than text, and the rules of version 4 conversation members are a parameter, which both layers call.
- Base64url.ParseAttachments: entries have the right shape and types already, and sizes are exact integers rather than doubles.
- Rotation.EveryRun: it is assumed that nobody else revokes the two credentials by their ids, which can be listed. The provider keeps tokens and ids apart and only this client knows its own tokens; the source token's hash and expiry dates are not modelled, and the source file is fixed.
- RotationCommand.Invocation.Rotate: one invocation without faults; faults between its steps are those of `Rotation`.
- Issuing a credential outside a rotation, with its own choice of scopes.
- Grants.UpdateGrant: what is checked of the answer to an owner's own submission is not modelled, nor are the body of the request for a proposal and the creation of a grant.
- Retries.SubmitConversation: the connections are given in sorted order, and what is checked of the answer to a post is not modelled.
- TransferRuns.RecordsAreWriteOnce: the digest and signature of a snapshot, its evidence other than the custody keys, and the shape rules of each record are inputs.
- TransferWarrants.SelectIsWarranted: the destination's domain, which is the host of a URL, has no at sign, and a managed transfer, which no command cancels, holds no cancellation.
- TransferProgress.OfferSucceeds: the clock and an hour after it are safe integers; what the vault signs decodes to what it was given and has the right shape.
- CutoverRuns.CutoverFinishesUnlessLapsed: one path is one spelling of one file, and state, snapshot and vault are other files than the artifacts. Nothing in the CLI checks that the paths of a cutover differ, so the caller has to. An operator who deletes artifacts by hand is not modelled.
- TransferCommands.ExportSnapshot: that the snapshot is genuine is an input; whether a file that is already there equals it decides only which error is reported.
- TransferCommands.SignCutover: that the snapshot is genuine, and its evidence other than the custody keys, are inputs; a CID stands for the hash of the operation.
- TransferCommands.CompleteTransfer: that the snapshot is genuine, the form of a managed approval, and the checks of the provider's receipt are inputs.
- A managed cutover interrupted between its two files is refused at the same operation path ever after (`ManagedSignsExactly`), and can be signed at others; which of the two is wanted is not said.
- Files: creating is atomic and fails when the file exists, replacing is an atomic rename; permissions and partial writes are not modelled.
- Message bodies (paragraphs, marks, links, image blocks), sender profiles, and the connection and conversation payload kinds.
- HTTP, TLS, sockets, terminals, argument parsing, release scripts, the provider, the Svelte client.
