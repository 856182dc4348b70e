# Verified models of the repository's proofs of concept

The repository collects proofs of concept for a control plane. Five places in it
hold real logic; each is modelled here and its promises are proved, for all
inputs, all runs and all orders in which Go maps may yield their keys.

- **Versioned schemas** (`XrdClient`, `VersionedCatalog`, `Template`,
  `TemplateReader`, `Provision`). A LIST of XRDs is turned into items and
  per-version schemas, cached as one snapshot, printed as a YAML template and used
  to provision. Proved: the derivation is exact, the printed text does not depend
  on map order and reads back, and a created XR comes from a single snapshot.
- **Approval gate** (`Workflow`, `ApprovalDefinition`, `ApprovalSafety`,
  `Approvers`, `ApprovalDriver`, `OperatorRun`). An interpreter for any workflow
  definition, the generator of the approval definitions, and the driver that polls
  and fires triggers. Proved: general theorems about well-formed definitions, that
  every generated one is well-formed, what each outcome implies over all traces, and
  exactly when the driver gets through, down to the texts of its environment.
- **Compact tokens** (`Base64Url`, `Jwt`). base64url by sections 3.2 and 5 of RFC
  4648 and compact serialization by sections 2 and 7.1 of RFC 7515, on bytes, as
  Go's decoder does it. Proved: the readers undo the signer, and how the padding
  and the unpadded decoder differ on every string.
- **Catalog across crashes** (`CatalogSource`). Cache, poller and one-row database,
  any number of pods, failures, crashes and restarts.
- **Smaller cores**: concurrent creations and their cancellation (`Creations`),
  random UUIDs (`Uuid`), the certificate rewrite (`CertPatch`) and the locked
  in-memory store (`ComputeStore`). `Text`, `LastWriter`, `Json`, `CatalogTypes`,
  `Polling` and `Wrappers` are shared.

Code that works by updating state is imperative here: classes with fields, methods
with loops, `:|` for a map's iteration order and for the order in which goroutines
finish. Such a method is tied by its contract to a specification function, and the
promises are proved about that function. Concurrency is a system of atomic steps:
one per critical section, answer, crash or late write.

Parameters stand for what the repository calls but does not contain: JSON
unmarshalling, `fmt`'s `%v` and `%q`, JSON Schema validation, signatures, the
resolution of user groups, the answers of remote servers, and random bytes.

## Where the code and its documentation differ

The models follow the code.

- `crossplane-xrd-versioned-schema-provisioning-poc/RUNBOOK.md:70-71` says that the
  service is unready after a failed poll. Nothing resets `ready`
  (`VersionedCatalog.ReadyStays`).
- `crossplane-xrd-catalog-source-poc/internal/db/db.go:56-58` calls the upsert safe
  from several pods because it writes the same data. A slow pod can put an older
  LIST over a newer one (`CatalogSource.OlderOverNewer`); it is safe exactly when
  of any two writes that land the later is of a LIST no older, or of equal data
  (`CatalogSource.SafeExactly`).
- `crossplane-xrd-versioned-schema-provisioning-poc/internal/catalog/types.go:25-32`
  suggests that the storage version is one of the served versions. The derivation
  does not check it (`XrdClient.StorageVersionMayBeUnserved`), and then the template
  has no groups and its version is refused when posted back
  (`Provision.UnservedTemplate`).
- `horizon-workflow-approval-gate-poc/idempotency.go:18-20` says that every created
  workflow is cancelled. One whose answer was lost is not even tried, and fifteen
  refusals end the attempt (`Creations.CancelledExactly`, `Creations.NotAllAreCancelled`).

## Model

| member | source | states |
|---|---|---|
| `XrdClient.DeriveEntrySchema` | crossplane-xrd-versioned-schema-provisioning-poc/internal/xrdclient/xrdclient.go:88-159 | The two dependent loops and the early exits compute the schema exactly when the XRD has everything asked for, and nothing otherwise. |
| `XrdClient.DeriveExact` | crossplane-xrd-versioned-schema-provisioning-poc/internal/xrdclient/xrdclient.go:112-158 | A derived schema maps each named served version with parameters to its last such entry; the storage version is the name of the first referenceable entry, and lies in the versions precisely when some entry serves that name. |
| `XrdClient.DerivableExactly` | crossplane-xrd-versioned-schema-provisioning-poc/internal/xrdclient/xrdclient.go:88-158 | In terms of the XRD alone: a schema is derived if and only if the graph parses, group, kind and plural are set, the first referenceable entry has a name and some entry is served with parameters. |
| `XrdClient.DerivesExactly` | crossplane-xrd-versioned-schema-provisioning-poc/internal/xrdclient/xrdclient.go:88-159 | In the raw fields of the XRD and without the lookup functions: a given schema is derived if and only if its graph, group, kind and plural stand where they are read from, its versions are the last entries whose served is true and whose name and parameters are given, its storage version is the name of the first entry whose referenceable is true, and none of these is empty. |
| `XrdClient.ReferenceableExact` | crossplane-xrd-versioned-schema-provisioning-poc/internal/xrdclient/xrdclient.go:147-151 | An entry counts as referenceable if and only if that field holds the boolean true; false, text and absence do not. |
| `XrdClient.ServedEntryExact` | crossplane-xrd-versioned-schema-provisioning-poc/internal/xrdclient/xrdclient.go:122-136 | An entry adds a version if and only if its name is a non-empty string, its served is the boolean true and its parameters path holds an object; then it adds that name and that object. |
| `XrdClient.StorageVersionMayBeUnserved` | crossplane-xrd-versioned-schema-provisioning-poc/internal/xrdclient/xrdclient.go:88-158 | For all graphs, names and parameters, an XRD that derives a schema whose storage version is not among its versions. |
| `XrdClient.ListCatalogItems` | crossplane-xrd-versioned-schema-provisioning-poc/internal/xrdclient/xrdclient.go:42-71 | One LIST yields the items and the last-writer-wins schema map; a failed LIST yields neither. |
| `XrdClient.ItemsExact` | crossplane-xrd-versioned-schema-provisioning-poc/internal/xrdclient/xrdclient.go:56-61 | Items are in LIST order, one for each XRD that carries a service id. |
| `XrdClient.DeriveItemExact` | crossplane-xrd-versioned-schema-provisioning-poc/internal/xrdclient/xrdclient.go:73-86 | An XRD gives an item if and only if it has a non-empty service id, each field from its own annotation and empty where that is missing. |
| `XrdClient.SchemasExact` | crossplane-xrd-versioned-schema-provisioning-poc/internal/xrdclient/xrdclient.go:63-67 | schemas[id] is the derivation of the last XRD with that id that derives, present exactly when there is one. |
| `XrdClient.SchemaKeysAreItems` | crossplane-xrd-versioned-schema-provisioning-poc/internal/xrdclient/xrdclient.go:57-67 | Every schema key is the id of some item. |
| `LastWriter.CollectExact` | crossplane-xrd-versioned-schema-provisioning-poc/internal/xrdclient/xrdclient.go:121-136 | A map filled in a loop holds a key exactly when it was written, with the value written last. |
| `VersionedCatalog.Cache.constructor` | crossplane-xrd-versioned-schema-provisioning-poc/internal/catalog/catalog.go:15-17 | A new cache is empty and not ready. |
| `VersionedCatalog.Cache.Seed` | crossplane-xrd-versioned-schema-provisioning-poc/internal/catalog/catalog.go:19-25 | Items, schemas and readiness are replaced together. |
| `VersionedCatalog.Cache.Swap` | crossplane-xrd-versioned-schema-provisioning-poc/internal/catalog/catalog.go:27-29 | The same replacement for a poll. |
| `VersionedCatalog.Cache.GetEntrySchema` | crossplane-xrd-versioned-schema-provisioning-poc/internal/catalog/catalog.go:39-44 | The entry stored for the id, or none. |
| `VersionedCatalog.Poller` | crossplane-xrd-versioned-schema-provisioning-poc/internal/catalog/poller.go:18-41 | The cache after any sequence of polls is that of the polls taken one by one. |
| `VersionedCatalog.LastGoodSnapshot` | crossplane-xrd-versioned-schema-provisioning-poc/internal/catalog/poller.go:15-24 | After failures the cache still holds the whole of the last successful LIST: its items and its schemas, and is ready. |
| `VersionedCatalog.ReadyStays` | crossplane-xrd-versioned-schema-provisioning-poc/internal/catalog/catalog.go:19-25 | The cache is unchanged until a LIST succeeds, ready from then on, and never unready again. |
| `Template.OrderGroups` | crossplane-xrd-versioned-schema-provisioning-poc/internal/httpapi/httpapi.go:86-105 | For every order in which the group map yields its keys the loops produce the one group order. |
| `Template.GroupOrderSound` | crossplane-xrd-versioned-schema-provisioning-poc/internal/httpapi/httpapi.go:82-105 | That order lists each group once: shared first, then first occurrences in resource-graph order, then the rest sorted. |
| `Template.GroupOrderUnique` | crossplane-xrd-versioned-schema-provisioning-poc/internal/httpapi/httpapi.go:82-105 | No other listing of the groups meets that description. |
| `Template.PrintedFirst` | crossplane-xrd-versioned-schema-provisioning-poc/internal/httpapi/httpapi.go:86-105 | Read off the resource graph itself: of two groups the earlier one is shared, or some node is named after it and none before that after the other, or no node names either and it is the smaller; shared is never the later. |
| `Text.SortedKeys` | horizon-workflow-approval-gate-poc/definition.go:255-262 | Collecting keys in any map order and sorting gives the one ascending listing of the key set. |
| `Text.SortedUnique` | crossplane-xrd-versioned-schema-provisioning-poc/internal/httpapi/httpapi.go:125-129 | Sorting any duplicate-free listing of a set gives its ascending listing. |
| `Text.LeqExact` | crossplane-xrd-versioned-schema-provisioning-poc/internal/httpapi/httpapi.go:104-129 | The order of the listings: at the first difference the smaller code point comes first, and a prefix before what it begins. |
| `Template.RequiredNames` | crossplane-xrd-versioned-schema-provisioning-poc/internal/httpapi/httpapi.go:114-121 | A name is in the set if and only if the group has a list as its required field and that string is in the list. |
| `Template.GroupsExact` | crossplane-xrd-versioned-schema-provisioning-poc/internal/httpapi/httpapi.go:72-80 | The groups are exactly the properties of the parameters of the storage version, when these are objects; any other shape has none. |
| `Template.CommentText` | crossplane-xrd-versioned-schema-provisioning-poc/internal/httpapi/httpapi.go:132-149 | The comment in terms of the raw property: the flag, the description if it is a non-empty string, the default if it is not null. |
| `Template.PropertyText` | crossplane-xrd-versioned-schema-provisioning-poc/internal/httpapi/httpapi.go:149-160 | The text of a property in terms of the raw property: comment, the example, quoted if it is a string and absent if null, and the entry. |
| `Template.PropsLinesSnoc` | crossplane-xrd-versioned-schema-provisioning-poc/internal/httpapi/httpapi.go:131-160 | Each further property adds its own lines, flagged required if and only if the group lists its name. |
| `Template.GroupsLinesSnoc` | crossplane-xrd-versioned-schema-provisioning-poc/internal/httpapi/httpapi.go:107-161 | Each further group adds a blank line, its name and its ascending properties, or nothing when it has none. |
| `Template.TemplateBegins` | crossplane-xrd-versioned-schema-provisioning-poc/internal/httpapi/httpapi.go:74-78 | Every template begins with the four fixed lines, the storage version on the second. |
| `Template.PrintComment` | crossplane-xrd-versioned-schema-provisioning-poc/internal/httpapi/httpapi.go:132-148 | The comment line with its flag, description and default. |
| `Template.PrintProp` | crossplane-xrd-versioned-schema-provisioning-poc/internal/httpapi/httpapi.go:131-160 | The lines of one property. |
| `Template.PrintGroup` | crossplane-xrd-versioned-schema-provisioning-poc/internal/httpapi/httpapi.go:107-161 | The lines of one group, properties ascending, nothing for a group without properties; independent of map order. |
| `Template.HandleTemplate` | crossplane-xrd-versioned-schema-provisioning-poc/internal/httpapi/httpapi.go:65-166 | The body is the text of the specified lines whatever the iteration order of the maps, or the 404 for an unknown service. |
| `TemplateReader.TemplateRoundTrip` | crossplane-xrd-versioned-schema-provisioning-poc/internal/httpapi/httpapi.go:74-161 | For every schema: reading the text gives back the version, the ordered groups that have a property, their ascending properties and the required flags, if and only if the version is one line, every printed name is a plain key, and all that descriptions, defaults and examples print below their first line is blank or a comment. |
| `TemplateReader.ExpectedExact` | crossplane-xrd-versioned-schema-provisioning-poc/internal/httpapi/httpapi.go:107-140 | What the round trip gives back, in raw terms: a property of a group if and only if the parameters of the storage version have it, flagged required if and only if the group lists that string in its required list. |
| `TemplateReader.LineBreakPlantsGroup` | crossplane-xrd-versioned-schema-provisioning-poc/internal/httpapi/httpapi.go:142-149 | For all plain names, a description with a line break and a name with a colon makes the text read with a group that the schema does not have. |
| `Provision.HandleProvision` | crossplane-xrd-versioned-schema-provisioning-poc/internal/httpapi/httpapi.go:174-229 | In terms of the cache, the body and the checks alone: 404 for an unknown id, 400 for an unreadable body, 404 for a version the entry does not have, 400 for refused parameters, then what the API server says; the first that applies wins, and only the last applies a resource. |
| `Provision.OneSnapshot` | crossplane-xrd-versioned-schema-provisioning-poc/internal/httpapi/httpapi.go:174-217 | For every interleaving of polls and requests each created XR comes from one XRD and one served version of a single LIST: schema, group, kind, plural and version all from there, parameters accepted by that schema. |
| `Provision.CreatesExactly` | crossplane-xrd-versioned-schema-provisioning-poc/internal/httpapi/httpapi.go:176-221 | Undisturbed, a request creates an XR if and only if the current LIST serves that version, its schema accepts the parameters and the API server takes it. |
| `TemplateReader.VersionReadsBack` | crossplane-xrd-versioned-schema-provisioning-poc/internal/httpapi/httpapi.go:74-78 | Whatever names and comments it prints, the version reads back from the first two lines, up to its first line break. |
| `Provision.TemplateVersionIsProvisionable` | crossplane-xrd-versioned-schema-provisioning-poc/internal/httpapi/httpapi.go:188-192 | Posting back the version read from any printed template passes the version check if and only if the XRD serves that name. |
| `Provision.UnservedTemplate` | crossplane-xrd-versioned-schema-provisioning-poc/internal/httpapi/httpapi.go:72-112 | For every XRD that derives a schema: its storage version is refused when posted if and only if no entry serves the name of the first referenceable one, and then the template is the header alone. |
| `Template.UnservedPrintsHeader` | crossplane-xrd-versioned-schema-provisioning-poc/internal/httpapi/httpapi.go:72-112 | A schema without parameters for its storage version has no groups and prints the header alone. |
| `Base64Url.RoundTrip` | lbaas-proxy-auth-poc/main.go:89-90 | Decoding undoes the unpadded encoding, for every byte string. |
| `Base64Url.Alphabet` | lbaas-proxy-auth-poc/main.go:89-90 | The 64 digits are those of Table 2 of RFC 4648, section 5. |
| `Base64Url.DigitsAreTheAlphabet` | keycloak-audience-claim/main.go:107-110 | A byte is accepted as a digit if and only if it is one of the 64. |
| `Base64Url.EncodedNumber` | lbaas-proxy-auth-poc/main.go:89-90 | One, two and three bytes become two, three and four digits of the same number, filled with zero bits on the right. |
| `Base64Url.EncodeGroups` | lbaas-proxy-auth-poc/main.go:89-90 | Whole groups of three bytes are encoded one after another. |
| `Base64Url.RawAcceptance` | keycloak-audience-claim/main.go:107-110 | The unpadded decoder accepts exactly the strings that, CR and LF aside, are digits of the alphabet and not of length 1 mod 4. |
| `Base64Url.Canonical` | lbaas-proxy-auth-poc/main.go:99-102 | An accepted string encodes back to itself if and only if its unused bits are zero. |
| `Base64Url.UnusedIgnored` | lbaas-proxy-auth-poc/main.go:99-102 | Clearing the unused bits of a string does not change what it decodes to. |
| `Base64Url.PadThenDecodeExact` | horizon-workflow-approval-gate-poc/auth.go:79-86 | What topping up and the padded decoder do to any string at all, in terms of the unpadded decoding of what is left without CR, LF and trailing padding. |
| `Base64Url.PaddingRefinement` | horizon-workflow-approval-gate-poc/auth.go:79-86 | On strings without padding characters the two decoders agree if and only if the number of CR and LF is a multiple of four or the string is undecodable. |
| `Base64Url.PaddingAgrees` | keycloak-audience-claim/main.go:103-107 | On strings without padding, CR or LF they accept the same and give the same bytes; length 1 mod 4 is refused. |
| `Base64Url.GivenPadsDiffer` | horizon-workflow-approval-gate-poc/auth.go:80-83 | With padding given the unpadded decoder refuses what the other accepts. |
| `Base64Url.LineBreakDiffers` | horizon-workflow-approval-gate-poc/auth.go:80-83 | With one line break it is the other way round. |
| `Jwt.TokenParts` | lbaas-proxy-auth-poc/main.go:87-90 | A signed token splits into exactly three parts that decode to the header, the claims and the signature over the first two. |
| `Jwt.DecodeInvertsSign` | lbaas-proxy-auth-poc/main.go:87-108 | decodeJWT undoes the segment building of signAssertor for all header and claims bytes. |
| `Jwt.SignedTokenInjective` | lbaas-proxy-auth-poc/main.go:87-90 | A token determines header, claims and signature. |
| `Jwt.DecodeJwt` | lbaas-proxy-auth-poc/main.go:93-108 | A token of two, four or any other number of parts is refused; of three, the first fault of header or claims wins, in base64 or in JSON; otherwise both are what the first two parts decode to. |
| `Jwt.EmailFromToken` | horizon-workflow-approval-gate-poc/auth.go:74-97 | The email or the error for every token, through the padding decoder. |
| `Base64Url.DecodersAgree` | horizon-workflow-approval-gate-poc/auth.go:79-86 | For every string at all: the two decoders agree if and only if what is left without CR, LF and trailing padding is undecodable, or none was given and CR and LF are a multiple of four, or the padding given and added is not what is needed. |
| `Jwt.ReadersAgree` | keycloak-audience-claim/main.go:102-116 | decodePayload refuses all but three parts; of three, emailFromToken and decodePayload see the same payload bytes, or both refuse, if and only if the payload meets that condition; any payload without padding, CR and LF does. |
| `Workflow.AcceptedMoves` | horizon-workflow-approval-gate-poc/definition.go:103-134 | In a well-formed definition an event is accepted if and only if it moves the workflow, along the one transition its condition names. |
| `Workflow.AuthorisedExact` | horizon-workflow-approval-gate-poc/definition.go:77-97 | A user may act if and only if some group resolves to users that include him, or every group is null and the rule for that case lets him. |
| `Workflow.RunIsPath` | horizon-workflow-approval-gate-poc/definition.go:136-142 | Any trace of attempts leaves a path of accepted events from start; a result is set exactly at an end node. |
| `Workflow.AcceptedStepsBounded` | horizon-workflow-approval-gate-poc/definition.go:178-222 | With a rank falling along transitions, any run takes fewer accepted steps than there are nodes. |
| `Workflow.EveryRunCanEnd` | horizon-workflow-approval-gate-poc/definition.go:190-222 | In any well-formed ranked definition no trace gets stuck: when every step has someone entitled to some trigger, each trace extends to one with a result. |
| `ApprovalDefinition.AddTyped` | horizon-workflow-approval-gate-poc/definition.go:242-251 | The typed fields enter fingerprint and schema, sorted, whatever the map order. |
| `ApprovalDefinition.FingerprintAndSchema` | horizon-workflow-approval-gate-poc/definition.go:224-251 | Fingerprint and payload schema for all options. |
| `ApprovalDefinition.DeclaredFields` | horizon-workflow-approval-gate-poc/definition.go:225-251 | For all options, the declared fields by name: the seven fixed ones, and the six typed ones with the fingerprint types alone; tenant_rns is the one required. |
| `ApprovalDefinition.FingerprintFields` | horizon-workflow-approval-gate-poc/definition.go:242-251 | For all options, the fingerprint by name: none, the three fixed fields, or those and the typed ones in ascending order. |
| `ApprovalDefinition.NetworkStep` | horizon-workflow-approval-gate-poc/definition.go:148-176 | The network step and its approving trigger for all options. |
| `ApprovalDefinition.BuildDefinition` | horizon-workflow-approval-gate-poc/definition.go:142-253 | The generator, step by step, builds the specified definition for all options. |
| `ApprovalDefinition.BuildWellFormed` | horizon-workflow-approval-gate-poc/definition.go:178-251 | Every definition built is well-formed: endpoints exist, exits and transitions match one to one, results sit exactly on edges into end, skip triggers exist, the fingerprint is duplicate-free and declared in the schema. |
| `ApprovalDefinition.BuildRanked` | horizon-workflow-approval-gate-poc/definition.go:190-222 | A rank falls along every transition of every definition built. |
| `ApprovalDefinition.RunsAreShort` | horizon-workflow-approval-gate-poc/definition.go:178-222 | Any run of a built definition accepts fewer steps than it has nodes. |
| `ApprovalDefinition.EveryBuiltRunCanEnd` | horizon-workflow-approval-gate-poc/definition.go:118-121 | Every run of every built definition extends to one that has ended: the requester may cancel either step. |
| `ApprovalSafety.PathShape` | horizon-workflow-approval-gate-poc/definition.go:190-222 | Every path of every built definition has one of the listed shapes. |
| `ApprovalSafety.TenantAccepts` | horizon-workflow-approval-gate-poc/definition.go:107-132 | The tenant step takes approve and reject from the layer-1 groups and cancel from the requester, with no required field, and nothing else. |
| `ApprovalSafety.NetworkAccepts` | horizon-workflow-approval-gate-poc/definition.go:148-176 | The network step takes its approving trigger, reject and the skip from the team and cancel from the requester; complete alone needs the VLAN, and a given VLAN closes the step. |
| `ApprovalSafety.SuccessNeedsBothLayers` | horizon-workflow-approval-gate-poc/definition.go:136-201 | Over all traces, the success outcome means the last two accepted moves were a layer-1 approval by an entitled user and an exit from the network step by its approving trigger or by skip. |
| `ApprovalSafety.ApproverIsMember` | horizon-workflow-approval-gate-poc/definition.go:180-185 | When some layer-1 group is not null, that approver is a member of one of them. |
| `ApprovalSafety.NetworkNeverEnteredAfterRefusal` | horizon-workflow-approval-gate-poc/definition.go:140-141 | After a layer-1 reject or cancel, or a failed callback, the run is over and the network step was never entered. |
| `ApprovalSafety.OutcomeCause` | horizon-workflow-approval-gate-poc/definition.go:190-222 | Each outcome tells what happened last and who was entitled to it. |
| `ApprovalSafety.NoSuccessfulOutcome` | horizon-workflow-approval-gate-poc/definition.go:143-146 | With the no-successful variant no run ends Successful. |
| `ApprovalSafety.VlanGivenSkipsNetwork` | horizon-workflow-approval-gate-poc/definition.go:165-167 | With a VLAN given, the only exit from the network step is the engine's skip. |
| `ApprovalSafety.SuccessWithoutVlan` | horizon-workflow-approval-gate-poc/definition.go:155-174 | In a conditional definition a success lacks a VLAN if and only if its last move is a skip fired by hand, by a user the team entitles. |
| `ApprovalSafety.SkipByHandSucceeds` | horizon-workflow-approval-gate-poc/definition.go:170-174 | It happens, with and without the notification: for all users so entitled a skip by hand ends the run in success. |
| `Approvers.ApproverEmails` | horizon-workflow-approval-gate-poc/main.go:390-401 | The trimmed parts that are not empty, in their order and as often as they come; nothing for the literal none. |
| `Approvers.ParseVariants` | horizon-workflow-approval-gate-poc/main.go:370-378 | A variant is set if and only if it is not empty and equals some trimmed part. |
| `Text.TrimSpaceExact` | horizon-workflow-approval-gate-poc/main.go:372-374 | Trimming takes white space off both ends, all of it and nothing else. |
| `Approvers.CleanPartsExact` | horizon-workflow-approval-gate-poc/main.go:395-399 | What is kept of any parts are the trimmed ones that are not empty, each in its place. |
| `Approvers.EmailUserGroups` | horizon-workflow-approval-gate-poc/definition.go:84-97 | Five slot groups, the first with the backup. |
| `Approvers.ParsedAreClean` | horizon-workflow-approval-gate-poc/main.go:395-399 | Parsing yields only trimmed, non-empty, comma-free entries. |
| `Approvers.JoinThenParse` | horizon-workflow-approval-gate-poc/main.go:390-401 | Joining any entries and parsing gives the list back if and only if they are trimmed, non-empty and comma-free and not the single entry none. |
| `Approvers.ApproversExact` | horizon-workflow-approval-gate-poc/definition.go:77-97 | For every text, the members of the slot groups are exactly its first five entries; the backup counts only when there is none. |
| `Approvers.SuccessApprovedByListed` | horizon-workflow-approval-gate-poc/definition.go:82-97 | With an email given, a run that succeeds was approved at layer 1 by one of the first five. |
| `ApprovalDriver.Settled` | horizon-workflow-approval-gate-poc/main.go:350-357 | One read and at most fifteen more: processing is returned exactly when the lag outlasts them. |
| `ApprovalDriver.Drive` | horizon-workflow-approval-gate-poc/main.go:306-346 | The driver gets through, and to which state, for any definition and any start. |
| `ApprovalDriver.AfterCreation` | horizon-workflow-approval-gate-poc/definition.go:203-222 | After creation the engine stops at layer 1, or at the end when the notification failed. |
| `ApprovalDriver.AtLayer1` | horizon-workflow-approval-gate-poc/main.go:319-324 | Layer 1 accepts the scenario's trigger if and only if the operator is entitled, and where the engine then stops. |
| `ApprovalDriver.AtLayer2` | horizon-workflow-approval-gate-poc/main.go:333-342 | Layer 2 accepts the driver's trigger and payload if and only if the operator is in the team. |
| `ApprovalDriver.DriverAgrees` | horizon-workflow-approval-gate-poc/main.go:306-346 | For every scenario, variant and VLAN, all triggers the driver fires are accepted if and only if the polls outlast the lags, the callback succeeds and the operator is entitled; the run then has the outcome of the scenario. |
| `ApprovalDriver.RunScenario` | horizon-workflow-approval-gate-poc/main.go:306-346 | The same about a whole run on a freshly built definition and workflow. |
| `OperatorRun.RunMain` | horizon-workflow-approval-gate-poc/main.go:103-346 | For every text of VARIANT, APPROVER_EMAILS, SCENARIO, TEAM_NAME and VLAN: exactly when main finishes, in terms of the texts, the lags and the callback, and the final state then. From SCENARIO itself, a run that finishes ends Rejected for reject-layer1, Canceled for cancel-layer1, in success for happy or nothing, and any other text is an error. |
| `OperatorRun.EndingResult` | horizon-workflow-approval-gate-poc/main.go:106-113 | Which endings the texts of SCENARIO and VARIANT allow: errors, early exits and the result of each scenario. |
| `OperatorRun.EndingFinishes` | horizon-workflow-approval-gate-poc/main.go:306-346 | From the texts themselves: a run finishes if and only if the scenario is known, no variant leaves early, the reads settle within sixteen, the callback succeeds if the email variant is set, and the operator is entitled to each trigger it fires. |
| `OperatorRun.MayActMeant` | horizon-workflow-approval-gate-poc/main.go:150-159 | Who may act on layer 1 for each text of VARIANT: the service role, else the first five of the emails, the operator when none are named and the team when the list is empty, else the tenant admins. |
| `OperatorRun.MayActExactly` | horizon-workflow-approval-gate-poc/main.go:150-159 | The layer-1 groups chosen by the variants entitle exactly the users stated: one of the first five emails, or the team when there is none. |
| `CatalogSource.Cache.constructor` | crossplane-xrd-catalog-source-poc/internal/catalog/catalog.go:22-26 | A new cache is empty and not ready. |
| `CatalogSource.Cache.Seed` | crossplane-xrd-catalog-source-poc/internal/catalog/catalog.go:31-36 | Replaces the items and sets ready. |
| `CatalogSource.Cache.Swap` | crossplane-xrd-catalog-source-poc/internal/catalog/catalog.go:40-45 | Replaces the items and sets ready. |
| `CatalogSource.Store.Upsert` | crossplane-xrd-catalog-source-poc/internal/db/db.go:58-69 | The one row is replaced, or left alone when the write is refused or given up; a lost answer reports failure although the row changed. |
| `CatalogSource.Store.LatestSnapshot` | crossplane-xrd-catalog-source-poc/internal/db/db.go:74-90 | The row, the empty list when there is none, or an error. |
| `CatalogSource.Poller` | crossplane-xrd-catalog-source-poc/internal/catalog/poller.go:26-51 | Cache, row and readiness after any sequence of polls; a failed LIST leaves cache and row alone. |
| `CatalogSource.Boot` | crossplane-xrd-catalog-source-poc/cmd/apiserver/main.go:42-46 | A process starts ready with the stored snapshot, or not at all. |
| `CatalogSource.AlwaysWhole` | crossplane-xrd-catalog-source-poc/internal/catalog/poller.go:30-50 | For any pods, failures, crashes, restarts and writes that land late, the database and every cache hold the empty value or one whole successful LIST, and a running pod is ready. |
| `CatalogSource.GivenUpMayLand` | crossplane-xrd-catalog-source-poc/internal/db/db.go:58-69 | In every state: a write given up or cut off by a crash changes nothing then, and stores its LIST when it lands after all. |
| `CatalogSource.CacheNeverGoesBack` | crossplane-xrd-catalog-source-poc/internal/catalog/catalog.go:38-45 | Until its pod crashes a cache never returns to an older LIST, and stays ready. |
| `CatalogSource.OnePod` | crossplane-xrd-catalog-source-poc/internal/catalog/poller.go:30-50 | With one pod, and no write that lands after it was given up, the database is never newer than the running cache and never goes back. |
| `CatalogSource.OnePodExactly` | crossplane-xrd-catalog-source-poc/internal/catalog/poller.go:30-50 | With one pod and writes that may land late, the database is never newer than the running cache if and only if no late write is of a LIST newer than that cache. |
| `CatalogSource.RowMoves` | crossplane-xrd-catalog-source-poc/internal/db/db.go:58-69 | For every state and step: the row changes by landing writes alone, its place goes down if and only if the write is of an older LIST, and its data changes if and only if the LIST differs. |
| `CatalogSource.BecomesNewer` | crossplane-xrd-catalog-source-poc/internal/catalog/poller.go:36-39 | For every state, step and pod: the row becomes newer than the pod's cache if and only if a write of a LIST newer than that cache lands. |
| `CatalogSource.SafeExactly` | crossplane-xrd-catalog-source-poc/internal/db/db.go:54-58 | For any pods, failures, crashes, restarts and late writes, nothing stored is ever replaced by other, older data if and only if of any two landed writes the later is of a LIST no older, or of equal data. |
| `CatalogSource.EqualDataInBetween` | crossplane-xrd-catalog-source-poc/internal/db/db.go:54-58 | Comparing neighbours is not enough: with LISTs d, e, d the writes landing third, first, second leave e over the newer d. |
| `CatalogSource.SameDataIsSafe` | crossplane-xrd-catalog-source-poc/internal/db/db.go:54-58 | When all LISTs give the same data, as the comment supposes, it never does. |
| `CatalogSource.OlderOverNewer` | crossplane-xrd-catalog-source-poc/internal/db/db.go:54-58 | For any two different LISTs there is a run in which the older ends up over the newer. |
| `CatalogSource.SlowWriterGoesBack` | crossplane-xrd-catalog-source-poc/internal/db/db.go:54-58 | Two swapped-in LISTs written in the opposite order: the row is newer than one cache, then holds the older LIST, and the data changes back if and only if the LISTs differ. |
| `CatalogSource.SlowWriterReachable` | crossplane-xrd-catalog-source-poc/internal/db/db.go:54-58 | Such a state is reached with any two LISTs. |
| `CatalogSource.PollsAsSteps` | crossplane-xrd-catalog-source-poc/internal/catalog/poller.go:30-50 | The steps of an undisturbed pod take cache and row to what the poller's contract names. |
| `Creations.RunInv` | horizon-workflow-approval-gate-poc/fingerprint.go:83-100 | At every point of every interleaving each accepted id is recorded, lost or with one client, the records are distinct, and the mutex keeps what its holder read current. |
| `Creations.JoinedRecordsAll` | horizon-workflow-approval-gate-poc/fingerprint.go:87-140 | Once the goroutines are joined, the list holds each accepted id whose answer arrived exactly once; it is a permutation of all accepted ids if and only if no answer was lost. |
| `Creations.AllRefused` | horizon-workflow-approval-gate-poc/fingerprint.go:87-100 | The server may refuse any number of the clients, in the end all: nothing is accepted or recorded then. |
| `Creations.WithoutMutexAnIdIsLost` | horizon-workflow-approval-gate-poc/fingerprint.go:95-97 | Without the mutex two clients holding their ids could always leave only one of the two recorded. |
| `Creations.RaceTrial` | horizon-workflow-approval-gate-poc/fingerprint.go:45-66 | Slots written in either order; the answers that are not empty are appended, the first before the second. |
| `Creations.RaceWindow` | horizon-workflow-approval-gate-poc/fingerprint.go:38-72 | Over all pairs: what is recorded are the non-empty answers in slot order, each as often as it was answered, and every recorded id gets a cancel run with the server's answers. |
| `Creations.KeptExact` | horizon-workflow-approval-gate-poc/fingerprint.go:59-64 | The ids kept are the non-empty ones, each in its place and as often as it came. |
| `Creations.SlotsOf` | horizon-workflow-approval-gate-poc/fingerprint.go:41-58 | The slots come in the order of the trials, two for each. |
| `Creations.AnsweredAreTried` | horizon-workflow-approval-gate-poc/fingerprint.go:59-70 | A cancel call is made for an id if and only if it is not empty and some trial was answered with it. |
| `Creations.CancelWhenReady` | horizon-workflow-approval-gate-poc/fingerprint.go:21-33 | No call for the empty id, else one to fifteen, each with the server's next answer for that id, all but the last refused, fewer than fifteen only on success; the warning exactly when all failed. |
| `Creations.CancelAll` | horizon-workflow-approval-gate-poc/fingerprint.go:142-144 | One such run per recorded id, in order. |
| `Creations.CallsPerId` | horizon-workflow-approval-gate-poc/fingerprint.go:142-144 | The calls are for recorded ids alone, at least one for each and at most fifteen times as many. |
| `Creations.TriedUnlessLost` | horizon-workflow-approval-gate-poc/idempotency.go:18-20 | Of the accepted workflows, those for which a cancel call is made are exactly those whose creation was answered. |
| `Creations.CancelledExactly` | horizon-workflow-approval-gate-poc/idempotency.go:18-20 | An accepted workflow is cancelled if and only if its creation was answered and one of the server's next fifteen answers for it is an acceptance. |
| `Creations.NotAllAreCancelled` | horizon-workflow-approval-gate-poc/fingerprint.go:21-33 | Both ways to miss it occur: a lost answer leaves nothing recorded, and after fifteen refusals the attempt ends. |
| `Uuid.MaskedIsTheOne` | horizon-workflow-approval-gate-poc/idempotency.go:98-99 | Masking gives a version 4 UUID with the 122 random bits of the source, and no other value is one. |
| `Uuid.ParseExact` | horizon-workflow-approval-gate-poc/idempotency.go:100 | Parsing the text recovers the bytes, and parses to them only from that text. |
| `Uuid.UnhexExact` | horizon-workflow-approval-gate-poc/idempotency.go:100 | Reading lower-case hexadecimal inverts writing it, both ways. |
| `Uuid.DigitTable` | horizon-workflow-approval-gate-poc/idempotency.go:100 | The sixteen digits are 0 to 9 and a to f. |
| `Uuid.HexAt` | horizon-workflow-approval-gate-poc/idempotency.go:100 | Each byte is written high digit first, at twice its position. |
| `Uuid.NewUuid` | horizon-workflow-approval-gate-poc/idempotency.go:95-101 | The text parses to the masked random bytes; it has 36 characters, dashes at the four places, the version 4 and one of 8, 9, a, b at the variant. |
| `Uuid.SameTextSameBits` | horizon-workflow-approval-gate-poc/idempotency.go:95-101 | Two draws print alike if and only if they agree on the random bits. |
| `Uuid.PrintsExactlyVersion4` | horizon-workflow-approval-gate-poc/idempotency.go:95-101 | The texts printed are exactly those that parse to a version 4 UUID. |
| `CertPatch.Rebuild` | gcloud-netskope-tls-fix/patch_critical.py:8-40 | The loop fails exactly on a repeated extension, and else gives the certificate with subject, serial number and dates kept, the issuer given, the public key kept or that of the key, the rewritten extensions and a signature by the key over all of that. |
| `CertPatch.PatchedExtensions` | gcloud-netskope-tls-fix/patch_critical.py:17-39 | Other extensions keep order, value and criticality; exactly one key usage results, critical, the old value if there was one; basic constraints become critical and are never added. |
| `CertPatch.PatchedOneByOne` | gcloud-netskope-tls-fix/patch_critical.py:17-39 | Extension by extension: values stay, only basic constraints and key usage become critical, and a key usage for certificate and CRL signing is added at the end if and only if there was none. |
| `CertPatch.PatchedTwice` | gcloud-netskope-tls-fix/patch_critical.py:16-39 | A second rewrite leaves the extensions unchanged. |
| `CertPatch.StillDistinct` | gcloud-netskope-tls-fix/patch_critical.py:25-39 | The rewritten list repeats no extension, so it can be rewritten again. |
| `CertPatch.StrictAfterwards` | gcloud-netskope-tls-fix/patch_critical.py:18-39 | The rewritten certificate is a strict CA if and only if the original marks a CA, no key usage of it withholds certificate signing, and it carries the key identifiers, which are never added. |
| `CertPatch.KeyIdsKept` | gcloud-netskope-tls-fix/patch_critical.py:23-24 | Key identifiers match after the rewrite if and only if they did before. |
| `CertPatch.PatchChain` | gcloud-netskope-tls-fix/patch_critical.py:57-68 | Both certificates rebuilt with one key, the intermediate issued in the root's name and keeping its public key. |
| `CertPatch.PatchedChainAccepts` | gcloud-netskope-tls-fix/patch_critical.py:60-68 | For every leaf, issuer name and time: strict validation through the patched intermediate up to the patched root succeeds if and only if the original intermediate issued the leaf, the issuer name is the root's, all are in force, key identifiers matched and both were repairable. |
| `ComputeStore.ComputeInstance.constructor` | go-http-framework-comparison/shared/domain.go:68-75 | A new instance is provisioning and has its workflow id. |
| `ComputeStore.Store.constructor` | go-http-framework-comparison/shared/domain.go:58-60 | A new store is empty. |
| `ComputeStore.Store.Create` | go-http-framework-comparison/shared/domain.go:62-78 | Adds an instance with each argument in its own field, provisioning and with the workflow id of its name, and nothing else; or reports that the name exists and changes nothing. |
| `ComputeStore.Store.List` | go-http-framework-comparison/shared/domain.go:80-93 | In any map order: different stored instances of the tenant, as many as there are up to the limit, and one even for a limit below one. |
| `ComputeStore.Store.Get` | go-http-framework-comparison/shared/domain.go:95-103 | The stored instance itself, or not found. |
| `ComputeStore.Store.Delete` | go-http-framework-comparison/shared/domain.go:105-117 | Marks the instance deleting and touches nothing else, or reports that it is missing or already deleting. |
| `ComputeStore.EntriesStay` | go-http-framework-comparison/shared/domain.go:62-117 | Over every interleaving entries are never removed or renamed, and only their status changes, from provisioning to deleting. |
| `ComputeStore.OneCreateOneDelete` | go-http-framework-comparison/shared/domain.go:62-117 | Over every interleaving exactly one create of a name succeeds if any is tried, and a delete succeeds exactly once if one follows a create, else never. |

## Left out

- ApprovalDriver.RunScenario: an accepted trigger leaves "waiting" at once and a lag is a number of reads that still say processing, because the engine is not in the repository.
- OperatorRun.RunMain: production runs; the fingerprint, idempotency and custom-kind variants leave it early, and the setup of test runs is not modelled.
- ApprovalDefinition.FingerprintAndSchema: the type of the items of approver_emails is not modelled.
- ApprovalDefinition.NetworkStep: titles, labels and the property types of payloads are not modelled, apart from required fields.
- ApprovalDefinition.BuildDefinition: names of nodes and the content of the email callback are not modelled.
- ApprovalSafety.ApproverIsMember: asks for a group that is not null, because a logged run let the operator act when all groups were null (horizon-workflow-approval-gate-poc/run-20261007-090755-service-role-empty.log:245); who may act then is a parameter of the model.
- ApprovalSafety.VlanGivenSkipsNetwork: that a step whose skip condition holds takes no trigger is a rule of the engine, which is not in the repository; the interpreter follows the comment at horizon-workflow-approval-gate-poc/definition.go:12-13.
- CertPatch.Rebuild: the library's checks of serial number and dates are not modelled, and its refusal of a repeated extension is taken from the library's documented behaviour.
- CertPatch.PatchedChainAccepts: of strict validation the demands on basic constraints, key usage and key identifiers are modelled; name constraints, extended key usage, revocation and paths with more than one intermediate are not modelled.
- Creations.JoinedRecordsAll: the server is taken to give each accepted creation a new, non-empty id.
- ComputeStore.Store.List: callers share the stored instances, so what a caller does to them outside the lock is not covered.
- HTTP, printing of progress, environment variables, login flows, DNS, timers and real time: delays are step orders and bounded attempt counts.
- JSON encoding and decoding, JSON Schema validation, SQL, Ed25519, RSA and X.509 parsing: parameters, or abstract values.
- The Kubernetes accessors beyond nested lookups: annotations and the decoded object are inputs.
- Sharing of maps between the cache and its readers: snapshots are values here; the code never mutates one after the swap.
- handleDescribe and handleReady, the copying List of both caches: they return a stored field.
- The audience of a token, audienceContains and the claims of signAssertor: a comparison and literals.
- runFingerprintTypes, checkDuplicate and the sequence of labelled creations: straight calls to a server that is not shown; any of their orders is a run of the model of creations.
- settledWithStep and the custom-kind mode: they need the step list of the server.
- The six HTTP variants of the store, the dependency-injection and metrics comparisons, the Temporal worker, ArgoCD and log-shipping manifests: wiring, or behaviour of tools not in the repository.
