# Verified model of the game bridge

This project models the small protocols and byte transformations through which the console talks to a running game,
and proves what they keep over all inputs and all schedules. `dafny verify dfyconfig.toml` checks everything.

* **Native runtime** (`TabProtocol`, `RuntimeSlot`, `RuntimeRuns`, `RuntimeSafety`, `RuntimeResults`, `RuntimeFrontEnd`,
  `RuntimeAnswers`, `RuntimeResponses`, `RuntimeDecisions`, `ActionRegistry`, `ManifestReader`, `JsonText`, `JsonReader`): one server thread and one game thread share a request
  slot under a mutex. The slot is a class whose methods are the locked regions; a transition system runs them in every
  order, with the authority check, `Prepare`, `Verify`, the game's update and the clock left open. `Platform` selects
  the Linux or the Windows twin.
* **Captured commands** (`CaptureAction`, `PatchOrder`, `Substitution`, `CaptureSubstitution`, `CaptureParser`,
  `CaptureFields`): numbers written in place and strings spliced from the last to the first amount to one simultaneous
  substitution, and a reader of the body finds the texts and numbers of the fields.
* **Carrier rewriting** (`PythonBytes`, `CarrierRewrite`, `CarrierReadBack`, `CarrierResults`, `CarrierFound`) and the
  **interceptor** (`PortFilter`, `HostInterceptor`, `HostTraffic`): a building command is rewritten at constant length, at most once, and an
  independent reader of the command format gets the action's fields back.
* **Overlay** (`VisibleReply`, `ServerSentEvents`, `ConsoleStream`, `Overlay`, `OverlayRuns`, `OverlayResults`,
  `OverlayText`, `OverlayWire`, `OverlayGaps`): the bounded event log, its text framing, the client's cursor and the window rebuild
  the broker's state.
* **Console** (`Console`, `ConsoleRuns`, `ConsoleResults`, `ConsoleStop`, `ProtocolSuiteRuns`): request threads, the
  scheduler and a worker under two locks, the stop flag, and the phases of the protocol suite.
* **Save uploader** (`StableSort`, `SaveDiscovery`, `SaveUploader`, `UploaderChoice`) and **command probe**
  (`CommandProbe`, `ProbeRuns`, `ProbeClaims`, `CaptureAnalysis`, `CaptureSelection`): the uploader comes to rest; drops are conserved; windows found by binary search
  are the plain filter.

A transition system is written as `Enabled`, `Next` and `Run` over a list of steps, so a statement about
`Run(start, steps)` is a statement about every reachable state. Classes follow the source's objects; each of their
methods is proved equal to a function on values, and the theorems are about these functions.

## Where the code does less than one may expect

Each of these is a lemma with a concrete run or input, next to a lemma with the exact condition.

* A result "failed" may follow a posted command, because an exception while verifying is reported as a failure
  (`FailedMayBePosted`); "rejected" means not posted only when no action reports it from verification
  (`RejectedMayBePosted`, `OutcomesOfRegisteredActions`).
* A capture target is accepted with an empty optional number that a patch then needs (`EmptyOptionalNumber`,
  `AcceptedTargetMaterialises`).
* The older building layout accepts a record that ends inside its numbers; the rewritten numbers are then lost
  (`ShortRecordLosesItsNumbers`, `OlderReadsBackIff`).
* A job can overlap a live protocol suite: the controller drops its lock while it waits for the game, and the late
  result makes a finished suite live again (`JobBesideLiveSuite`, `ExclusionIff`).
* A stop flag set during a job is removed by that job each time it begins to execute over the client-side packet
  queue, up to five times in one turn (`EveryExecutionClears`, `StopLostTwice`;
  src/iag/stellaris/execution/iag_supervisor.py:875). `StopStaysIff` says for which jobs this can happen, from the
  kind of the job and the configured transport alone: the execution mode can still be saved after the job has started,
  before its worker reads it (`StopStaysUnsavedIff` has the condition when nobody does).
* An overlay message checked against one conversation can start its job in another (`MessageGoesElsewhere`,
  `AsAskedIff`, `MessageStartsIn`).
* The overlay's parser also takes an event that no empty line ends, forgets an identifier that the standard carries on
  to later events, and keeps an empty type (`UnfinishedEvent`, `ParserAgreesIff`, `ParserIdenticalIff`). The events
  that the console sends read the same either way (`RoundTrip`, `SentIsStandard`).
* A client that misses evicted events shows a state that the broker's history does not have, until its next
  bootstrap or until a delivered event decides it anew; `RightAfterMissedIff` says for every missed part when it is
  right all the same (`EvictionLosesState`, `WindowShowsFold`, `BootstrapRestores`).
* The interceptor rewrites one carrier. A second one in the same run is forwarded as it came and still names the
  source (`LaterCarrierUnchanged`, `SourceGoesOutIff`).
* Two threads can claim the same vtable as first seen, because the loser of an exchange does not look at the winner's
  value (`SameVtableClaimedTwice`, `StepDoublesIff`, `ClaimedTwiceIff`, `WithoutRaceClaimedOnce`).

## Model

| member | source | states |
|---|---|---|
| `TabProtocol.SplitTabs` | services/stellaris_native_runtime/runtime.cpp:236-246 | the loop returns the fields between tabs, of which there is one more than tabs |
| `TabProtocol.SplitThenJoin` | services/stellaris_native_runtime/runtime.cpp:236-246 | joining the split fields with tabs gives the line back, and no field contains a tab |
| `TabProtocol.JoinThenSplit` | services/stellaris_native_runtime/runtime.cpp:236-246 | splitting the join of tab-free fields gives the fields back |
| `TabProtocol.TokensAreClean` | services/stellaris_native_runtime/actions/action_registry.cpp:105-115 | a semantic token contains no tab, carriage return or newline |
| `TabProtocol.ParseUint32OfDecimal` | services/stellaris_native_runtime/actions/action_registry.cpp:117-131 | parsing the decimal form of any 32-bit number returns the number, and larger numbers are refused |
| `TabProtocol.FingerprintInjective` | services/stellaris_native_runtime/runtime.cpp:260-263 | equal fingerprints come from equal action, country and echo, for tab-free actions |
| `TabProtocol.SanitizeDetail` | services/stellaris_native_runtime/runtime.cpp:248-258 | the cleaned detail is at most 240 characters long and contains no tab or line end |
| `TabProtocol.ResponseFraming` | services/stellaris_native_runtime/runtime.cpp:265-282 | a response from clean parts has seven tabs and one newline, at its end, and splits into its eight parts |
| `RuntimeSlot.Runtime.constructor` | services/stellaris_native_runtime/runtime.cpp:265-271 | a fresh runtime has no request, no cached result and generation 0 |
| `RuntimeSlot.Runtime.FinishRequest` | services/stellaris_native_runtime/runtime.cpp:291-303 | records the result and closes the request exactly when the generation is still the active one |
| `RuntimeSlot.Runtime.FailActiveRequest` | services/stellaris_native_runtime/runtime.cpp:305-314 | records "failed" exactly when there is a request that is not done |
| `RuntimeSlot.Runtime.CopyInPhase` | services/stellaris_native_runtime/runtime.cpp:318-325 | returns the active request when it is in the phase, and changes nothing |
| `RuntimeSlot.Runtime.BeginPosting` | services/stellaris_native_runtime/runtime.cpp:352-362 | sets deadline and phase of the active request exactly when the generation matches |
| `RuntimeSlot.Runtime.EnterRequest` | services/stellaris_native_runtime/runtime.cpp:519-545 | replay, conflict, busy, wait for the same request, or a new generation, with the resulting slot |
| `RuntimeSlot.Runtime.CollectResult` | services/stellaris_native_runtime/runtime.cpp:547-561 | builds the response, caches it for the id and the fingerprint, and frees the slot |
| `RuntimeResponses.CachedResponseSays` | services/stellaris_native_runtime/runtime.cpp:265-271 | in every schedule the eight fields of a cached response are the version, the request's id and action, the recorded outcome, the build, the request's country and echo, and the cleaned recorded detail |
| `RuntimeResponses.WholeAnswerSays` | services/stellaris_native_runtime/runtime.cpp:519-561 | whoever gets a whole response, collected or replayed, gets these fields for his own ticket and a result that was recorded earlier for a generation of that ticket |
| `RuntimeResponses.ImmediateAnswerSays` | services/stellaris_native_runtime/runtime.cpp:273-282 | every other answer is a conflict, a busy runtime or a timeout, with the fields that say so |
| `RuntimeResponses.ManifestReplyReadsBack` | services/stellaris_native_runtime/runtime.cpp:284-290 | the reply to a request for the tools carries as its seventh field a manifest in which a reader finds the profile and every supported tool |
| `RuntimeDecisions.AdmissionIff` | services/stellaris_native_runtime/runtime.cpp:519-545 | conflict exactly for a known id with another fingerprint, busy exactly for an unknown id beside another request, replay exactly for id and fingerprint of the last result; otherwise the wait for the request under way or for a new one with this ticket |
| `RuntimeDecisions.FifteenSecondsToConfirm` | services/stellaris_native_runtime/runtime.cpp:352-362 | the deadline of a posted command is fifteen seconds behind the moment at which it is marked |
| `RuntimeDecisions.PendingIffExpired` | services/stellaris_native_runtime/runtime.cpp:400-405 | a verification without a report closes the request as pending exactly when its deadline has come |
| `RuntimeDecisions.TwentySecondsToAnswer` | services/stellaris_native_runtime/runtime.cpp:547-557 | a wait ends with the result exactly when it is there, and without it exactly when it is not and twenty seconds have passed |
| `RuntimeDecisions.WindowsSources` | services/stellaris_native_runtime/runtime_windows.cpp:301-393 | in every schedule of the Windows twin a result comes from preparation, from verification or from the deadline |
| `RuntimeSafety.PrepareFindsItsRequest` | services/stellaris_native_runtime/runtime.cpp:316-362 | when Prepare ends, the slot still holds the request it was called for: the mismatch branch is unreachable |
| `RuntimeSafety.VerifyFindsItsRequest` | services/stellaris_native_runtime/runtime.cpp:372-406 | when Verify ends, the slot still holds the posted request it was called for |
| `RuntimeSafety.StepKeepsInv` | services/stellaris_native_runtime/runtime.cpp:291-406 | every step of either thread keeps the agreement of threads, slot, cache and log |
| `RuntimeSafety.RunKeepsInv` | services/stellaris_native_runtime/runtime.cpp:291-406 | the same for every schedule |
| `RuntimeResults.EachGenerationPostedOnce` | services/stellaris_native_runtime/runtime.cpp:316-370 | in every schedule two posts belong to different generations |
| `RuntimeResults.RepostNeedsOtherResult` | services/stellaris_native_runtime/runtime.cpp:519-561 | between two posts of one request id the result of another id was cached |
| `RuntimeResults.ResultTellsPosting` | services/stellaris_native_runtime/runtime.cpp:327-350 | a result recorded before posting belongs to a generation that is never posted; any other to one posted exactly once and earlier |
| `RuntimeResults.OutcomesOfRegisteredActions` | services/stellaris_native_runtime/runtime.cpp:386-398 | if verification never reports a rejection, as the registered actions do not, then "rejected" means never posted and "confirmed" means posted exactly once before |
| `RuntimeResults.FailedMayBePosted` | services/stellaris_native_runtime/runtime.cpp:424-428 | a schedule in which a posted command is reported as failed |
| `RuntimeResults.RejectedMayBePosted` | services/stellaris_native_runtime/runtime.cpp:386-398 | a schedule in which verification reports a posted command as rejected |
| `RuntimeResults.PhasesOnlyAdvance` | services/stellaris_native_runtime/runtime.cpp:291-362 | over every schedule a generation's phase only moves from pending to posted to done, and a recorded result does not change before it is collected |
| `RuntimeResults.ExpiredRequestCloses` | services/stellaris_native_runtime/runtime.cpp:400-405 | a verification pass behind the deadline without a report closes the request as pending |
| `RuntimeResults.CachedResponseIsTheRecordedResult` | services/stellaris_native_runtime/runtime.cpp:558-561 | every cached response is built from the result that was recorded for its generation |
| `RuntimeResults.ResendLatest` | services/stellaris_native_runtime/runtime.cpp:519-529 | resending the latest completed id returns the identical response for the same action, country and echo, and a conflict otherwise |
| `RuntimeResults.ImmediateAnswersChangeNothing` | services/stellaris_native_runtime/runtime.cpp:519-541 | cache hits, conflicts and busy answers leave the slot unchanged |
| `RuntimeResults.TimeoutThenResume` | services/stellaris_native_runtime/runtime.cpp:547-557 | after a timeout the request stays in its slot, and a later call with the same id waits for the same generation |
| `RuntimeResults.AnsweredExactlyOnce` | services/stellaris_native_runtime/runtime.cpp:519-562 | in every schedule the answers are as many as the submissions, minus the one that may still wait |
| `RuntimeFrontEnd.DecisionIsAddressed` | services/stellaris_native_runtime/runtime.cpp:463-516 | whatever is decided about a line names the request id and the action that the line carries, or the fixed pair for a malformed line |
| `RuntimeFrontEnd.EveryLineIsAnswered` | services/stellaris_native_runtime/runtime.cpp:463-516 | every newline-free line that does not reach the lock gets a well-framed response addressed to it, the manifest included |
| `RuntimeFrontEnd.EnteredActionIsListed` | services/stellaris_native_runtime/runtime.cpp:487-491 | a request reaches the lock only for an action that the manifest lists |
| `RuntimeDecisions.RequestIsDecided` | services/stellaris_native_runtime/runtime.cpp:474-516 | a line with at least five fields enters with its own id, action and country and the parser's echo, or the first of its faults is reported |
| `RuntimeDecisions.OtherLinesAreDecided` | services/stellaris_native_runtime/runtime.cpp:463-476 | a request for the manifest is recognised and checked, and every other line is a bad request |
| `RuntimeDecisions.WrittenLineEnters` | services/stellaris_native_runtime/runtime.cpp:463-517 | a line joined from clean parts of a supported action enters with exactly these parts |
| `RuntimeAnswers.StepKeepsAnswers` | services/stellaris_native_runtime/runtime.cpp:519-562 | every step keeps that the slot holds clean parts, that the cached response is addressed to whoever it may be replayed to, and that every answer is framed |
| `RuntimeAnswers.EveryTicketIsAnswered` | services/stellaris_native_runtime/runtime.cpp:519-562 | in every schedule every answer given under the lock, new, replayed, refused or timed out, is one well-framed line with the id and action of the request it answers |
| `RuntimeAnswers.EveryEnteredLineIsAnswered` | services/stellaris_native_runtime/runtime.cpp:463-562 | the same with submissions that the front end makes of arbitrary newline-free lines |
| `ActionRegistry.JsonEscape` | services/stellaris_native_runtime/actions/action_registry.cpp:24-62 | the loop computes the escaped text |
| `JsonText.EscapedHasNoControl` | services/stellaris_native_runtime/actions/action_registry.cpp:24-62 | escaped text contains no character below U+0020 (section 7 of RFC 8259) |
| `JsonText.EscapesAre` | services/stellaris_native_runtime/actions/action_registry.cpp:24-62 | five control characters have short forms, the others four hexadecimal digits, and ordinary characters stay as they are |
| `JsonReader.EscapeRoundTrip` | services/stellaris_native_runtime/actions/action_registry.cpp:24-62 | a reader of JSON strings recovers the original text and stops behind its quote |
| `JsonReader.RoundTrip` | services/stellaris_native_runtime/actions/action_registry.cpp:186-240 | a reader of compact JSON recovers every value that is written so, the manifest and the console's events among them |
| `ActionRegistry.Catalogue` | services/stellaris_native_runtime/actions/action_registry.cpp:76-83 | the catalogue is the registered descriptors in order of type and version |
| `ActionRegistry.ValidateActionDescriptors` | services/stellaris_native_runtime/actions/action_registry.cpp:151-184 | accepts exactly the non-empty registries of well-formed descriptors without a duplicate pair of type and version, although it compares only neighbours |
| `RuntimeDecisions.SoundIff` | services/stellaris_native_runtime/actions/action_registry.cpp:151-184 | what a well-formed descriptor is, with tokens given by the list of their characters |
| `RuntimeDecisions.CatalogueAscends` | services/stellaris_native_runtime/actions/action_registry.cpp:76-83 | of two catalogue entries the earlier has the smaller name, by the first character that differs, or the same name and no larger version |
| `ManifestReader.ManifestReadsBack` | services/stellaris_native_runtime/actions/action_registry.cpp:186-240 | whoever reads the manifest as JSON finds the profile and the supported tools in catalogue order with all that their descriptors say, limits of parameters included |
| `ManifestReader.ListedIff` | services/stellaris_native_runtime/actions/action_registry.cpp:194-198 | a tool is listed exactly when a supported descriptor describes it |
| `ActionRegistry.WriteTools` | services/stellaris_native_runtime/actions/action_registry.cpp:194-238 | the comma handling of the loop writes the JSON items of the supported tools |
| `ActionRegistry.ManifestIsOneField` | services/stellaris_native_runtime/actions/action_registry.cpp:186-240 | the manifest contains no tab and no line end, so it is one field of the response |
| `CaptureAction.DecodeHex` | services/stellaris_native_runtime/actions/capture_action.cpp:55-70 | returns the bytes exactly for non-empty hexadecimal text of even length |
| `CaptureAction.HexRoundTrip` | services/stellaris_native_runtime/actions/capture_action.cpp:42-70 | decoding the hexadecimal digits of any bytes gives the bytes |
| `CaptureFields.HexNibbleIff` | services/stellaris_native_runtime/actions/capture_action.cpp:42-53 | a character denotes a digit exactly when it is the small or the capital one |
| `CaptureAction.WriteLittleEndian` | services/stellaris_native_runtime/actions/capture_action.cpp:96-107 | byte by byte, the loop overwrites the field with the little-endian number and nothing else |
| `Basics.LittleEndianRoundTrip` | services/stellaris_native_runtime/actions/capture_action.cpp:96-107 | reading the bytes back gives the number modulo 256 to the width |
| `CaptureAction.WriteNumbers` | services/stellaris_native_runtime/actions/capture_action.cpp:176-206 | the first loop patches every number in place, or fails at the first patch that cannot be written |
| `CaptureAction.SpliceStrings` | services/stellaris_native_runtime/actions/capture_action.cpp:214-234 | the second loop splices the strings in the given order, or fails |
| `CaptureAction.Materialize` | services/stellaris_native_runtime/actions/capture_action.cpp:166-236 | both loops with the sort between them, or the decoded body field |
| `CaptureSubstitution.MaterialiseIsSubstitution` | services/stellaris_native_runtime/actions/capture_action.cpp:166-236 | for disjoint patches inside the template the result is one simultaneous substitution, and it fails exactly when some field cannot be encoded |
| `CaptureSubstitution.SubstituteLength` | services/stellaris_native_runtime/actions/capture_action.cpp:214-234 | the body is as long as the template plus the growth of all patches |
| `CaptureSubstitution.GrowthOfOne` | services/stellaris_native_runtime/actions/capture_action.cpp:222-233 | only strings change the length, by new length minus captured length |
| `CaptureSubstitution.FieldReadsBack` | services/stellaris_native_runtime/actions/capture_action.cpp:166-236 | every encoded field stands at its offset shifted by the growth of the patches before it |
| `CaptureFields.BodySaysFields` | services/stellaris_native_runtime/actions/capture_action.cpp:166-236 | at the captured offset, pushed back by the growth of the texts in front of it, a reader finds the counted characters of a text field, or the number with its sign that the decimal text of a number field denotes |
| `CaptureFields.EncodableIff` | services/stellaris_native_runtime/actions/capture_action.cpp:193-221 | which fields can be written: texts of at most 65535 characters, and texts that denote a number in the range of four or eight bytes |
| `CaptureFields.ParseInt64Iff` | services/stellaris_native_runtime/actions/capture_action.cpp:30-43 | parsing returns a number exactly for at most twenty characters that denote it in decimal, within 64 bits with a sign |
| `CaptureSubstitution.GapKept` | services/stellaris_native_runtime/actions/capture_action.cpp:166-236 | every byte outside the patches is kept, shifted the same way |
| `CaptureSubstitution.FamilyIsKept` | services/stellaris_native_runtime/actions/capture_action.cpp:134-140 | the body starts with the expected family when no patch begins inside it |
| `Substitution.ApplyLastFirst` | services/stellaris_native_runtime/actions/capture_action.cpp:208-234 | splicing the last edit first and then the others is applying all edits at once |
| `CaptureParser.ParseCaptureAction` | services/stellaris_native_runtime/actions/capture_action.cpp:257-319 | accepts exactly the acceptable fields and otherwise reports the first error in order: field count, first refused field, missing body field, family |
| `CaptureFields.FieldPassesIff` | services/stellaris_native_runtime/actions/capture_action.cpp:265-294 | what each kind of parameter lets pass, between its minimum and maximum or up to its length, and what is reported otherwise |
| `CaptureParser.AcceptedTargetMaterialises` | services/stellaris_native_runtime/actions/capture_action.cpp:166-319 | for a reviewed definition an accepted target materialises if and only if no patched number is empty |
| `CaptureParser.AcceptedBodyMaterialises` | services/stellaris_native_runtime/actions/capture_action.cpp:297-314 | an accepted body field decodes and starts with the family |
| `CaptureParser.AcceptedTargetKeepsFamily` | services/stellaris_native_runtime/actions/capture_action.cpp:134-140 | an accepted target whose patches leave the prefix alone passes the family check |
| `CaptureParser.EmptyOptionalNumber` | services/stellaris_native_runtime/actions/capture_action.cpp:272-274 | a reviewed definition with an optional number, as definitions in general may have, and an accepted target that does not materialise |
| `PythonBytes.U32RoundTrip` | apps/host_bridge/iag_host_interceptor.py:325-335 | a 32-bit number written little-endian reads back |
| `CarrierRewrite.FindCommandRecords` | src/iag/stellaris/execution/packet/iag_stream_command_injector.py:184-227 | the search loop returns the complete record at every marker position, in order |
| `CarrierRewrite.RecordsAreComplete` | src/iag/stellaris/execution/packet/iag_stream_command_injector.py:192-226 | every record found stands twelve bytes before a marker, with envelope, length and serial as declared there |
| `CarrierRewrite.LocateZoneSlot` | apps/host_bridge/iag_host_interceptor.py:248-318 | a located zone-slot command has its fields at fixed distances and fills its record |
| `CarrierFound.CommandIsFoundIff` | src/iag/stellaris/execution/packet/iag_stream_command_injector.py:184-226 | a command of any length inside any bytes is found, with its own length and serial, exactly when the bytes in front of it say its page |
| `CarrierFound.ZoneSlotLocatedIff` | apps/host_bridge/iag_host_interceptor.py:249-318 | a zone-slot command is located at a marker and a record if and only if the marker stands there once, the tags stand around it, and this record, and no other, spans the command and ends with it |
| `CarrierFound.ZoneSlotShapeIff` | apps/host_bridge/iag_host_interceptor.py:263-300 | at which distances from the string tag which bytes stand in a zone-slot command |
| `CarrierFound.OlderShapeIff` | apps/host_bridge/iag_host_interceptor.py:418-440 | and in an older one |
| `CarrierFound.OlderMarkerIff` | apps/host_bridge/iag_host_interceptor.py:407-440 | an older command has its marker exactly where the source stands once between the tags |
| `CarrierRewrite.LocateOlder` | apps/host_bridge/iag_host_interceptor.py:407-488 | absent without its marker between the tags; found, with its fields at fixed distances, exactly when nothing is wrong around it; otherwise the first obstacle is the error |
| `CarrierResults.ZoneSlotReadsBack` | apps/host_bridge/iag_host_interceptor.py:241-389 | a rewritten zone-slot record keeps length, surroundings, envelope and serial, and an independent reader gets the action's queue, target, colony and zone, followed by the layout's tail and zeros only |
| `CarrierResults.ZoneSlotSucceeds` | apps/host_bridge/iag_host_interceptor.py:325-360 | a located record is rewritten exactly when every number fits its field and the target is no longer than the source |
| `CarrierFound.ZoneSlotCarrierIff` | apps/host_bridge/iag_host_interceptor.py:539-611 | a payload in which the source stands once, in a zone-slot command, comes back rewritten if and only if the numbers fit, the string is no longer and the source does not come back by accident; otherwise which error |
| `CarrierFound.HugeSourceFails` | apps/host_bridge/iag_host_interceptor.py:248-252 | a source whose length two bytes cannot say is never rewritten |
| `CarrierFound.OlderOutcome` | apps/host_bridge/iag_host_interceptor.py:482-513 | a located older command is rewritten if and only if the numbers fit and the string with what follows it has room; otherwise which error |
| `CarrierFound.CheckedOutcome` | apps/host_bridge/iag_host_interceptor.py:539-611 | how the checks around the rewriters turn each of their outcomes into the result |
| `CarrierFound.ManyCarriersIff` | apps/host_bridge/iag_host_interceptor.py:547-554 | the payload is refused for several carriers exactly when the source stands in it, but not once |
| `CarrierFound.ExampleIsRewritten` | apps/host_bridge/iag_host_interceptor.py:241-391 | one payload of 140 bytes that is rewritten and says what the action asks for |
| `CarrierResults.RecordStillFound` | apps/host_bridge/iag_host_interceptor.py:302-318 | the record scanner finds the rewritten record with the same offset, length and serial |
| `CarrierResults.OlderReadsBackIff` | apps/host_bridge/iag_host_interceptor.py:490-523 | length and surroundings are always kept; the action's fields read back if and only if the record reaches the placement number, or ends one byte before it with a zero placement and padding |
| `CarrierResults.ShortRecordLosesItsNumbers` | apps/host_bridge/iag_host_interceptor.py:486-507 | a payload that is accepted and rewritten although the fields do not read back |
| `CarrierResults.StringLengthAlwaysAgrees` | apps/host_bridge/iag_host_interceptor.py:473-482 | the string-length error can never be raised |
| `CarrierResults.BuildingFrameKept` | apps/host_bridge/iag_host_interceptor.py:392-537 | either layout: length, bytes outside the record, envelope and serial are kept, and the record ends in its padding of zeros |
| `CarrierResults.CarrierIsSafe` | apps/host_bridge/iag_host_interceptor.py:538-611 | no carrier means no rewrite; the length check never fails; a rewritten payload no longer contains the source unless it was asked for |
| `PortFilter.SortedSet` | apps/host_bridge/iag_host_interceptor.py:682 | the ports in strictly ascending order |
| `PortFilter.ContiguousPortRanges` | apps/host_bridge/iag_host_interceptor.py:680-689 | ranges are sorted, disjoint, non-adjacent and cover exactly the ports; otherwise the smallest invalid port is reported |
| `PortFilter.RangesAreUnique` | apps/host_bridge/iag_host_interceptor.py:680-689 | no other list of separated ranges covers the same ports |
| `PortFilter.PortFilterTerms` | apps/host_bridge/iag_host_interceptor.py:692-702 | some term holds exactly when an end of the packet uses one of the ports |
| `PortFilter.PacketFilterForRoutes` | apps/host_bridge/iag_host_interceptor.py:705-718 | the filter accepts a UDP packet exactly when an end is the peer or one of the ports, so every packet classified as game traffic passes; the error cases otherwise |
| `PortFilter.GameRoute` | apps/host_bridge/iag_host_interceptor.py:726-749 | a route is reported exactly for packets that count as inbound or outbound game traffic |
| `HostInterceptor.HandlePacket` | apps/host_bridge/iag_host_interceptor.py:844-931 | what one iteration sends, counts and records, with the stop flag, a failed rewrite and failed sends |
| `HostInterceptor.RunHostInterceptor` | apps/host_bridge/iag_host_interceptor.py:844-955 | every packet but the last is forwarded once, the first carrier rewritten; how the last one ends the run; confirmed exactly when it carries the target behind a rewrite |
| `HostInterceptor.AtMostOneAltered` | apps/host_bridge/iag_host_interceptor.py:873-884 | only the first carrier is altered, and only the last packet may stay unsent |
| `HostInterceptor.UnsentMeansFailedRewrite` | apps/host_bridge/iag_host_interceptor.py:922-931 | when sending works and nobody stops the run, a packet stays unsent exactly when it is the first carrier and its rewrite failed |
| `HostInterceptor.ConfirmedAfterRewrite` | apps/host_bridge/iag_host_interceptor.py:907-918 | success means that a rewritten packet went out before the outbound packet with the target |
| `HostInterceptor.BuildingTrafficKeepsLength` | apps/host_bridge/iag_host_interceptor.py:873-884 | for a building action every forwarded payload has its old length and no altered one names the source |
| `HostInterceptor.LaterCarrierUnchanged` | apps/host_bridge/iag_host_interceptor.py:873-931 | a carrier behind the first one goes out unchanged and still names the source, unless the run ends at it with an exception; then nothing is sent |
| `HostInterceptor.SourceGoesOutIff` | apps/host_bridge/iag_host_interceptor.py:857-931 | of the inbound packets sent for a building action whose target is not the source, exactly the later carriers and the carrier at which the stop was noticed still contain the source |
| `HostTraffic.TrafficIff` | apps/host_bridge/iag_host_interceptor.py:726-749 | a packet is game traffic of its direction exactly when its remote address is the peer or its local port is one of the game's; the peer comes first |
| `HostTraffic.ConfirmsIff` | apps/host_bridge/iag_host_interceptor.py:902-918 | a packet confirms exactly when it leaves with the target behind a packet that came in with the source |
| `HostTraffic.HostGetsTheAction` | apps/host_bridge/iag_host_interceptor.py:844-920 | the first packet that names the source, with a zone-slot command that can be rewritten, goes out with its old length and a command that asks for the action's queue, building, colony and zone |
| `VisibleReply.VisibleReplyBroker.constructor` | apps/control_center/visible_reply_stream.py:58-67 | an empty broker that keeps at least 64 events |
| `VisibleReply.VisibleReplyBroker.Publish` | apps/control_center/visible_reply_stream.py:69-111 | the error cases in order; otherwise the history grows by one event with the next number, the log holds the last events and the summary all of them |
| `VisibleReply.VisibleReplyBroker.Append` | apps/control_center/visible_reply_stream.py:87-111 | the locked part keeps every conversation's log equal to its last events and its summary equal to the fold of all its events, evicted ones included |
| `VisibleReply.VisibleReplyBroker.EventsAfter` | apps/control_center/visible_reply_stream.py:113-128 | the retained events behind the cursor, cut to the clamped limit |
| `VisibleReply.VisibleReplyBroker.Snapshot` | apps/control_center/visible_reply_stream.py:153-163 | the fold of the conversation's full history, or the newest number for an unknown conversation |
| `OverlayText.OneMoreEvent` | apps/control_center/visible_reply_stream.py:94-109 | what one more event of each type does to the summary that a client is told; a piece of text is added to the draft as it is |
| `OverlayText.TurnDraft` | apps/control_center/visible_reply_stream.py:97-104 | from the start of a turn on the draft is the pieces so far, one behind the other |
| `OverlayText.StripIff` | apps/control_center/visible_reply_stream.py:77-79 | stripping removes exactly the white space at both ends |
| `OverlayText.AllowedIff` | apps/control_center/visible_reply_stream.py:14-37 | which events may carry which key |
| `VisibleReply.RepresentsAppended` | apps/control_center/visible_reply_stream.py:95-110 | appending to one bounded log and one summary keeps all conversations represented |
| `VisibleReply.ConversationAscends` | apps/control_center/visible_reply_stream.py:88-94 | sequence numbers strictly increase within every conversation |
| `VisibleReply.PagingIsComplete` | apps/control_center/visible_reply_stream.py:113-128 | paging by the last returned number yields every event behind the start exactly once and in order, for any page size |
| `VisibleReply.BrokerPaging` | apps/control_center/visible_reply_stream.py:113-128 | the same for the retained events of a conversation and any limit |
| `ConsoleStream.SendOverlayEvents` | apps/control_center/web_console.py:4402-4414 | writes the keepalive, or three fields and an empty line for every event |
| `ServerSentEvents.ParseSseEvents` | apps/game_overlay/transport.py:23-62 | the loop returns the decoded events of the text, flushing at its end, or fails when some data cannot be decoded |
| `ConsoleStream.RoundTrip` | apps/control_center/web_console.py:4402-4414 | for any events of the broker, parsing what the console sends returns their types, identifiers and dictionaries in order, or the one keepalive when there are none |
| `ConsoleStream.SentIsStandard` | apps/control_center/web_console.py:4402-4414 | a reader that follows section 9.2.6 of the HTML standard gets the same events with their identifiers |
| `ServerSentEvents.NormalisedLines` | apps/game_overlay/transport.py:47 | replacing line ends and splitting gives the lines that the standard delimits |
| `ServerSentEvents.FieldAtColon` | apps/game_overlay/transport.py:53-55 | a line is a name up to its first colon and behind it a value without one leading space |
| `ServerSentEvents.ParserIsStandard` | apps/game_overlay/transport.py:29-61 | for any lines the parser finds the events that the standard finds when an empty line is added: equal data, equal types up to an empty one, and equal identifiers exactly for events that carry one of their own |
| `ServerSentEvents.ParserAgreesIff` | apps/game_overlay/transport.py:61 | for any text it agrees with the standard in this sense exactly when no data is pending at the end |
| `ConsoleStream.UnfinishedEvent` | apps/game_overlay/transport.py:61 | a text in which the parser finds an event and the standard none |
| `ServerSentEvents.ParserIdenticalIff` | apps/game_overlay/transport.py:29-61 | type, identifier and data of all events are the standard's exactly when, besides, every event names its type and carries an identifier without U+0000 |
| `Overlay.OverlayWindow.AppendMessage` | apps/game_overlay/window.py:529-551 | appends a message with text whose identifier was not shown yet, and keeps the transcript free of repeats |
| `Overlay.OverlayWindow.ApplyBootstrap` | apps/game_overlay/window.py:552-579 | clears on a change of conversation, appends the messages and takes over the summary |
| `Overlay.OverlayWindow.ApplyEvent` | apps/game_overlay/window.py:581-603 | ignores other conversations and follows the event otherwise |
| `OverlayText.WindowBehindEvent` | apps/game_overlay/window.py:581-603 | what each event without a message does to the window |
| `OverlayText.TurnInWindow` | apps/game_overlay/window.py:581-603 | the window's draft of a turn is its pieces, one behind the other, and the transcript stays as it is |
| `OverlayText.MessageEventIsShown` | apps/game_overlay/window.py:529-550 | a message is shown once, stripped, with a mark in front of the player's own, and a final answer ends the draft |
| `OverlayText.BootstrapShowsMessages` | apps/game_overlay/window.py:552-579 | a bootstrap of another conversation replaces the transcript by its messages |
| `OverlayText.RecoversInRun` | apps/game_overlay/transport.py:237-285 | from any state a fault, a switch and a bootstrap show the messages of the newly active conversation, with the broker's turn and draft |
| `OverlayText.FirstBootstrap` | apps/game_overlay/transport.py:237-265 | the first bootstrap of a fresh client shows its messages and puts the cursor in front of the first event |
| `OverlayText.CursorOnlyGrows` | apps/game_overlay/transport.py:237-280 | while the client stays with a conversation, no step moves its cursor back, and it covers every delivered event |
| `Overlay.AppendKeepsNoRepeats` | apps/game_overlay/window.py:529-540 | the transcript shows no identified message twice |
| `Overlay.OverlayNetworkWorker.ApplyBootstrap` | apps/game_overlay/transport.py:237-255 | the cursor starts at a new conversation's newest event and otherwise only grows; the window follows |
| `Overlay.OverlayNetworkWorker.Deliver` | apps/game_overlay/transport.py:266-280 | the loop advances the cursor and the window through the answer in order |
| `OverlayRuns.NothingMissed` | apps/control_center/visible_reply_stream.py:123-128 | unless an event behind the cursor was evicted, the bounded log answers like the full one |
| `OverlayText.GapIff` | apps/control_center/visible_reply_stream.py:61-63 | nothing is missed at the start; an answer misses something exactly when an event behind the cursor is no longer in the bounded log, and a bootstrap makes up for it |
| `OverlayRuns.AnswerFollows` | apps/control_center/visible_reply_stream.py:123-128 | such an answer continues the conversation behind the cursor without a hole |
| `OverlayRuns.StepKeepsInv` | apps/game_overlay/transport.py:257-280 | publishing, switching, bootstraps, fetching, delivering and faults keep broker, cursor and window in agreement |
| `OverlayResults.WindowShowsFold` | apps/game_overlay/window.py:552-603 | in every run the window shows the summary folded up to the cursor unless the last answer missed an evicted event; the transcript has no repeats |
| `OverlayResults.CaughtUpShowsSnapshot` | apps/control_center/visible_reply_stream.py:153-163 | a client that has seen all events shows exactly the broker's summary |
| `OverlayResults.BootstrapRestores` | apps/game_overlay/window.py:576-579 | a bootstrap restores the agreement whatever was missed before |
| `OverlayResults.EvictionLosesState` | apps/control_center/visible_reply_stream.py:61-63 | a run in which an evicted event leaves the window in a wrong state |
| `OverlayWire.EventRoundTrip` | apps/control_center/visible_reply_stream.py:44-50 | worker and window read sequence, conversation, type and payload of a sent dictionary back as the event |
| `OverlayWire.PayloadRoundTrip` | apps/control_center/visible_reply_stream.py:44-50 | every payload with allowed keys has a list of items that reads back as the payload |
| `OverlayWire.BatchCanBeWritten` | apps/control_center/visible_reply_stream.py:44-50 | every batch of events with allowed keys can be written as dictionaries |
| `OverlayWire.FetchDeliversAnswer` | apps/game_overlay/transport.py:262-280 | what the worker reads from the text that the console sends for the broker's answer is that answer, so the transition system delivers the same batch; a keepalive delivers nothing |
| `OverlayGaps.RightAfterMissedIff` | apps/control_center/visible_reply_stream.py:123-128 | from any state in agreement and whatever was evicted behind the cursor: behind k delivered events the window's turn flag, and its draft, are right exactly when one of these events decides it or the missed ones would have left it as it was |
| `OverlayGaps.ForgottenIff` | apps/game_overlay/window.py:581-603 | two different starts lead to the same flag, or draft, exactly when some event sets the flag, or empties the draft |
| `OverlayGaps.MissedTextIff` | apps/game_overlay/window.py:581-603 | missed events that do not empty the draft leave it as it was exactly when none of them adds text |
| `ProtocolSuiteRuns.LiveIffLastOpens` | src/iag/stellaris/execution/protocol_compatibility_control.py:516-956 | after any order of the suite's regions, refused ones included, it is live exactly when the last start, write-back of a result, finish or reset was one of the first two |
| `ProtocolSuiteRuns.VerdictsNeedResults` | src/iag/stellaris/execution/protocol_compatibility_control.py:705-840 | in any order of regions no result is judged twice and none before it was written back |
| `ProtocolSuiteRuns.HaltedIff` | src/iag/stellaris/execution/protocol_compatibility_control.py:792-840 | after a failed verdict the suite stays halted exactly until it is ended or a result still in flight is written back |
| `ProtocolSuiteRuns.CompletedIff` | src/iag/stellaris/execution/protocol_compatibility_control.py:792-860 | a run through a plan is completed exactly when every action has passed or was skipped, and halted exactly when one has failed |
| `Console.ConsoleService.constructor` | apps/control_center/web_console.py:606-645 | a console without a running job |
| `Console.ConsoleService.EnsureNoRunningJob` | apps/control_center/web_console.py:919-922 | succeeds exactly when no job runs |
| `Console.ConsoleService.RequireProtocolCompatibilityIdle` | apps/control_center/web_console.py:2675-2681 | succeeds exactly when the suite is not live |
| `Console.ConsoleService.StartProtocolCompatibilityLive` | apps/control_center/web_console.py:2713-2732 | makes the suite live exactly when no job runs, scheduled reviews are paused, no suite is live and it is ready; otherwise changes nothing |
| `Console.ProtocolSuite.Perform` | src/iag/stellaris/execution/protocol_compatibility_control.py:516-956 | guards and assignments of every region take exactly the step that the theorems on the order of regions are about; a refused region changes nothing |
| `Console.ConsoleService.TakeJob` | apps/control_center/web_console.py:4207-4217 | replaces the job exactly when none runs |
| `Console.ConsoleService.FinishJob` | apps/control_center/web_console.py:4236-4243 | ends the job and changes nothing else of it |
| `Console.ConsoleService.SwitchConversation` | apps/control_center/web_console.py:1101-1108 | changes the conversation exactly when no job runs and the store does not refuse it, and reports a failure otherwise or when the store fails afterwards |
| `Console.ConsoleService.EmergencyStop` | apps/control_center/web_console.py:4304-4306 | sets the flag |
| `Console.ConsoleService.ClearEmergencyStop` | apps/control_center/web_console.py:4308-4321 | removes the flag exactly when no job runs and says whether it was set |
| `ConsoleRuns.StepKeepsInv` | apps/control_center/web_console.py:4199-4253 | every step of every thread keeps what threads may rely on between their checks and their effects |
| `ConsoleResults.OneJobOneConversation` | apps/control_center/web_console.py:866-922 | in every schedule at most one worker runs, and the active conversation is still the one under which the job was recorded |
| `ConsoleResults.RunningJobIsUndisturbed` | apps/control_center/web_console.py:1058-1162 | while a job runs no step changes the conversation or replaces the job |
| `ConsoleResults.LockExcludes` | apps/control_center/web_console.py:608 | two threads are never in the conversation lock together |
| `ConsoleResults.FailedRequestFreesLock` | apps/control_center/web_console.py:1058-1162 | a request that fails inside the lock frees it and changes nothing else |
| `ConsoleResults.ExclusionIff` | apps/control_center/web_console.py:2718-2732 | the exclusion of jobs and live suite is lost by exactly one kind of step: a result written back into a suite that is no longer live, beside a job |
| `ConsoleResults.NoJobBesideLiveSuite` | src/iag/stellaris/execution/protocol_compatibility_control.py:705-790 | if nobody ends the suite while an action is in flight, no job ever overlaps a live suite |
| `ConsoleResults.JobBesideLiveSuite` | src/iag/stellaris/execution/protocol_compatibility_control.py:764-790 | a schedule in which a job runs beside a live suite |
| `ConsoleStop.StopStaysIff` | apps/control_center/web_console.py:4304-4321 | for a job just started: every stop requested while it runs survives every schedule until it ends, if and only if its kind cannot execute or the configured transport is not the client-side packet queue |
| `ConsoleStop.StopStaysUnsavedIff` | src/iag/stellaris/execution/iag_supervisor.py:768-876 | the same while no settings are saved: if and only if the kind cannot execute or mode and transport do not lead to that queue |
| `ConsoleStop.StopStaysFromHereIff` | src/iag/stellaris/execution/iag_supervisor.py:874-876 | for a job in flight: a stop set now survives every schedule if and only if no execution over the queue is ahead |
| `ConsoleStop.EveryExecutionClears` | src/iag/applications/economy_governance/agent_tools.py:1605-1660 | each further execution of one job over the queue removes the flag again, whatever was requested in between |
| `ConsoleStop.ExecutionsAreBounded` | src/iag/applications/economy_governance/agent_tools.py:684-687 | no schedule of one job begins more executions than its kind and the limit of its turn allow |
| `ConsoleStop.ExecutionsOf` | src/iag/applications/economy_governance/agent_tools.py:680-687 | how many executions each kind of job may begin |
| `ConsoleStop.ClearStopIff` | apps/control_center/web_console.py:4308-4321 | the flag is cleared exactly between jobs |
| `ConsoleStop.StopLostTwice` | src/iag/stellaris/execution/iag_supervisor.py:875 | a run in which a stop requested after the first of two executions is removed by the second |
| `ConsoleResults.AsAskedIff` | apps/control_center/web_console.py:3268-3280 | pending overlay messages stay bound to the active conversation until a switch takes effect between check and start |
| `ConsoleResults.MessagesGoWhereAsked` | apps/control_center/web_console.py:3268-3280 | without such a switch every overlay message starts its job in the conversation its client expected |
| `ConsoleResults.MessageStartsIn` | apps/control_center/web_console.py:3268-3280 | whatever was switched in between, there and back included, one message starts its job in the conversation its client expected exactly when that one is active as the starting thread enters the lock |
| `ConsoleResults.JobRecordsConversation` | apps/control_center/web_console.py:4199-4217 | a continuation's job records the conversation for which the scheduler found it, every other job the one that is active as its thread enters the lock |
| `ConsoleResults.MessageGoesElsewhere` | apps/control_center/web_console.py:3275-3280 | a schedule in which the job starts in another conversation |
| `StableSort.SortIsStable` | apps/host_bridge/iag_save_uploader.py:189 | sorting by a key is a permutation in order, and equal keys keep their order |
| `SaveDiscovery.StableSaveDiscovery.constructor` | apps/host_bridge/iag_save_uploader.py:156-159 | nothing observed yet |
| `SaveDiscovery.StableSaveDiscovery.Scan` | apps/host_bridge/iag_save_uploader.py:161-189 | returns, newest first, files that a walk at least the patience earlier and every walk since showed unchanged; remembers exactly the files of this walk |
| `SaveDiscovery.AllSettle` | apps/host_bridge/iag_save_uploader.py:161-189 | once the patience has passed, every walk over an unchanged tree returns all its files |
| `SaveDiscovery.SettledFilesWereUnchanged` | apps/host_bridge/iag_save_uploader.py:164-186 | the same promise about one walk with the memory of earlier ones |
| `SaveUploader.SaveUploader.ResetCampaign` | apps/host_bridge/iag_save_uploader.py:412-426 | forgets the lock and the last upload |
| `SaveUploader.SaveUploader.Cycle` | apps/host_bridge/iag_save_uploader.py:482-532 | one cycle behind the scan: choice, lock, parsing, comparison, upload and the new state, with failures |
| `UploaderChoice.FirstCycleIff` | apps/host_bridge/iag_save_uploader.py:453-503 | without a campaign a cycle locks one exactly when it may begin with what it finds and some save is young enough; it takes a newest save of all, and otherwise changes nothing |
| `UploaderChoice.LockedCycleTakes` | apps/host_bridge/iag_save_uploader.py:436-503 | with a campaign it takes a newest save of another directory behind the last upload, else a newest one of its own that is not older, else nothing |
| `SaveUploader.NeverOlder` | apps/host_bridge/iag_save_uploader.py:428-532 | a locked uploader never uploads an older save, and failures leave the last upload unchanged |
| `SaveUploader.RunNeverOlder` | apps/host_bridge/iag_save_uploader.py:428-532 | over any run with changing trees and failures the last upload's time never decreases |
| `SaveUploader.RestIff` | apps/host_bridge/iag_save_uploader.py:428-503 | a cycle does nothing exactly at rest, and then no save in any directory is newer than the last upload |
| `SaveUploader.CycleMakesProgress` | apps/host_bridge/iag_save_uploader.py:428-532 | with everything working, a cycle that is not at rest uploads and lowers the measure |
| `SaveUploader.ComesToRest` | apps/host_bridge/iag_save_uploader.py:161-532 | scans and cycles together: once the tree stops changing and the patience is over, two working passes for every file and one more bring a locked uploader to rest, and nothing in the tree is newer than its last upload |
| `UploaderChoice.NeverBegins` | apps/host_bridge/iag_save_uploader.py:453-454 | as long as it may not begin with what it finds, an uploader without a campaign stays as it is |
| `UploaderChoice.FreshComesToRest` | apps/host_bridge/iag_save_uploader.py:161-532 | the same for an uploader without a campaign, with one more pass |
| `CommandProbe.Probe.constructor` | services/stellaris_native_runtime/research/command_probe.cpp:161-163 | empty table and counters |
| `CommandProbe.Probe.NextSequence` | services/stellaris_native_runtime/research/command_probe.cpp:485 | the next sequence number |
| `CommandProbe.Probe.TakeDropped` | services/stellaris_native_runtime/research/command_probe.cpp:489 | takes the drop counter and leaves zero |
| `CommandProbe.Probe.GiveBack` | services/stellaris_native_runtime/research/command_probe.cpp:526-529 | returns the carried drops and one more, modulo 2^64 |
| `CommandProbe.Probe.ClaimFirstVtable` | services/stellaris_native_runtime/research/command_probe.cpp:361-375 | the probing loop, run without interference |
| `CommandProbe.SecondClaimFails` | services/stellaris_native_runtime/research/command_probe.cpp:361-375 | without interference a vtable is claimed at most once |
| `CommandProbe.ClaimSucceedsIff` | services/stellaris_native_runtime/research/command_probe.cpp:361-375 | without interference a claim succeeds exactly when one of the 32 probes meets an empty entry before the vtable, and it fills the first such entry and no other |
| `CommandProbe.SlotIs` | services/stellaris_native_runtime/research/command_probe.cpp:362-364 | probes start at the entry of the vtable's address in units of sixteen bytes and go round the table |
| `ProbeRuns.DropsAreConserved` | services/stellaris_native_runtime/research/command_probe.cpp:484-529 | in every interleaving counter, drops in flight and reported drops add up to the failed writes below 2^64, so the analyser's total never exceeds them |
| `ProbeRuns.FailedWriteGivesBack` | services/stellaris_native_runtime/research/command_probe.cpp:520-529 | a failed write puts what it carried and one more back into the counter |
| `ProbeRuns.SequenceNumbersAreUnique` | services/stellaris_native_runtime/research/command_probe.cpp:485 | no two written events share a sequence number |
| `ProbeClaims.StepKeepsClaims` | services/stellaris_native_runtime/research/command_probe.cpp:361-375 | every step keeps what probing threads have passed and what claims say about the table |
| `ProbeClaims.ClaimedTwiceIff` | services/stellaris_native_runtime/research/command_probe.cpp:361-375 | a vtable is claimed twice exactly when a call that lost an exchange to it claims it all the same |
| `ProbeClaims.StepDoublesIff` | services/stellaris_native_runtime/research/command_probe.cpp:361-375 | exactly one kind of step makes a vtable claimed twice: an exchange at an empty entry by a call that has passed an entry holding that vtable |
| `ProbeClaims.WithoutRaceClaimedOnce` | services/stellaris_native_runtime/research/command_probe.cpp:361-375 | if no two calls for one vtable ever stand between the load and the exchange of the same entry, in particular if no two calls for it overlap, it is claimed at most once |
| `ProbeClaims.SameVtableClaimedTwice` | services/stellaris_native_runtime/research/command_probe.cpp:370-373 | a schedule of two threads in which it happens |
| `CaptureAnalysis.BisectLeft` | services/stellaris_native_runtime/research/analyze_capture.py:125-126 | the binary search returns the first position from `lo` on whose time is not smaller |
| `CaptureAnalysis.Window` | services/stellaris_native_runtime/research/analyze_capture.py:125-127 | the slice between two searches is the plain filter start <= t < end |
| `CaptureAnalysis.JudgePost` | services/stellaris_native_runtime/research/analyze_capture.py:116-153 | one post adds the verdict that the plain filter gives |
| `CaptureAnalysis.CorrelatePayloads` | services/stellaris_native_runtime/research/analyze_capture.py:78-154 | the three counters are those of the analysis by the plain filter |
| `CaptureAnalysis.WindowsAreDisjoint` | services/stellaris_native_runtime/research/analyze_capture.py:121-122 | no payload lies in the windows of two posts |
| `CaptureAnalysis.EveryCountingPostIsJudgedOnce` | services/stellaris_native_runtime/research/analyze_capture.py:116-153 | correlated and missing posts together are the wrapper posts whose window ends behind the first payload |
| `CaptureAnalysis.MatchLiesInWindow` | services/stellaris_native_runtime/research/analyze_capture.py:128-139 | a correlated object type is that of a matching payload inside the post's own window |
| `CaptureSelection.VerdictMeans` | services/stellaris_native_runtime/research/analyze_capture.py:116-153 | a wrapper's post is missing exactly when no payload of its window answers for it, and otherwise correlated with the earliest that does |
| `CaptureSelection.MatchesIff` | services/stellaris_native_runtime/research/analyze_capture.py:71-75 | a payload answers by its kind for a construction, and by its name for a fleet order |
| `CaptureSelection.NestedTypesOf` | services/stellaris_native_runtime/research/analyze_capture.py:142-152 | the nested types are the types of the nested payloads of the window, in order |
| `CaptureSelection.NestedIff` | services/stellaris_native_runtime/research/analyze_capture.py:144-151 | which payloads are nested, by their name |
| `CaptureSelection.PayloadsLookedAt` | services/stellaris_native_runtime/research/analyze_capture.py:87-95 | the payloads looked at are those of the game's thread with a time, each as often as it was captured |
| `CaptureSelection.PostsLookedAt` | services/stellaris_native_runtime/research/analyze_capture.py:101-111 | the posts looked at are those of the game's thread up to the last payload |
| `CaptureSelection.PayloadsInOrder` | services/stellaris_native_runtime/research/analyze_capture.py:87-95 | payloads are looked at in the order of their own times |
| `CaptureSelection.PostsInOrder` | services/stellaris_native_runtime/research/analyze_capture.py:101-111 | posts are looked at in the order of their own times |
| `CaptureSelection.EveryPayloadHasAWindow` | services/stellaris_native_runtime/research/analyze_capture.py:120-122 | every payload from the first post on lies in the window of the last post before it |

## Left out

* Hook installation, trampolines, memory protection, relay code, vtable reads and everything else that depends on the game's binary: `Prepare`, `Verify`, posting and the game's update are open decisions of the schedule.
* An exception thrown by the game's own posting function: posting is taken to return.
* Sockets, pipes, WinDivert, process discovery, HTTPS and certificates: only the lines, packets and bytes that they deliver.
* Wrap-around of the request generation and of the probe's sequence number at 2^64; the drop counter's wrap-around is modelled.
* The 64-bit target digest of captured actions (services/stellaris_native_runtime/actions/capture_action.cpp:72-94) is an opaque echo; fingerprints are injective in action, country and echo, not in the captured fields.
* Texts are sequences of characters below 256 where the source has narrow strings; Unicode normalisation, case mapping, UTF-8 decoding and the byte order mark are not modelled, and stripping knows the white space of Latin-1 only.
* The rewriters for districts, zones, upgrades and replacements, and the session proxy.
* The text of the packet filter and of error messages in Chinese: filters and errors are values.
* Qt widgets, timers and the queueing of signals: the window handles bootstraps and events in the order in which the worker emits them.
* What a model turn decides to execute, how the game confirms it and whether a chosen candidate replaces a building: a job may begin each execution that its kind and limit allow. The configured transport does not change while the console runs.
* The conversation store, model pools, autonomy decisions, archive and rename: any request that holds the conversation lock may give up at any point.
* The order of insertion that Python's counters remember: the analysis returns multisets. A JSON null as an object type reads as missing.
* Payload values other than texts, whole numbers and null, and the order of a dictionary's items where an event is read back; neither worker nor window looks at the order.
* Fractions and exponents in JSON numbers, white space and escapes beyond one byte in JSON texts: neither writer produces them for what is modelled.
* Python's `int` on message identifiers accepts signs, white space and underscores; the model reads plain digits.
* The persistent file of the uploader, the host executor's requests and its list of handled identifiers, which keeps the 50 lexicographically largest ones.
* RuntimeSlot.Runtime.CollectResult: the condition variable and its timed wait are steps of the transition system, not part of the method.
* CommandProbe.Probe.ClaimFirstVtable: the class runs one thread alone; loads and exchanges of different threads are steps of ProbeRuns, whose claims ProbeClaims proves.
* Console.ConsoleService.SwitchConversation: the class runs one request alone; the region boundaries inside a request are steps of ConsoleRuns.
