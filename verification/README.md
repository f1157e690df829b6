# IoTivity-Constrained: ownership, access control, text forms and timers

A Dafny model of one device, and of the onboarding tool that takes ownership of it, with
the printers, parsers, block-wise transfer and timer list underneath. It covers the C code
under `security/`, `api/` and `util/` with OC_SECURITY, OC_SERVER, OC_CLIENT,
OC_DYNAMIC_ALLOCATION, OC_TCP and OC_IPV4 on and OC_PKI off. `dafny verify dfyconfig.toml`
checks all of it.

## How it is organised

Code that changes state step by step is a method with its loops (`SecureDevice`, `ObtTool`,
`AccessControl`, `Base64`, `Pem`, `Ipv6`, `Endpoint`, `Blockwise`, `Query`, `Etimer`,
`ClientCallbacks`). Each method is tied to a function, or to a property stated outright.
What the source promises is then proved about those functions, over all inputs and over
whole runs.

**Ownership and provisioning**

- `Payload`, `CredModel`, `AclModel`, `DeviceModel`: the device as a value, with one function for each handler.
- `SecureDevice`: the same handlers as methods of a class, loop by loop, proved equal to those functions.
- `DeviceRuns`: what every request keeps, and what holds after any sequence of requests from anybody.
- `StateTable`: which state changes and properties each state of the device accepts, and what they lead to, written out with the numbers and names of the protocol.
- `StoredKeys`: what an accepted POST to cred stores, field by field, the owner's key included.
- `CredRefusals`: what a POST to cred leaves behind when it is refused, and whether the entry that waits for the owner's key is still there.
- `AccessControl`: the access decision, a nest of searches that resume where they stopped, equal to a declarative rule.
- `AccessTable`, `DefaultReads`: the same rule spelt out down to bits, addresses and wildcards; what one entry lets its subject do, and what the default list lets anybody do.
- `PostedAces`: what a POST of an entry to acl2 stores, and exactly what it grants from then on.
- `Tightening`, `DefaultAcl`: the list after a reset, its tightening on the way to normal operation, and who reaches which security resource before and after.
- `ObtModel`, `ObtTool`: the tool's contexts, requests and timeouts, as functions and as a class.
- `ObtHandles`: which device records the tool's contexts may still use, as records are freed by whoever ends first.
- `ObtRuns`: every accepted procedure completes exactly once, whatever order responses, late responses, errors and timeouts come in.
- `ObtKeys`: what success and failure of a transfer mean for the credentials of the tool.
- `ObtTransfer`, `ObtSwitches`: what every answer makes of a transfer, a state switch, a provisioning and a hard reset: when it goes on, with which request, and how it ends.
- `ObtProvision`: over runs, what provisioning and hard reset ask of the device and what their success means.
- `Transfer`: tool and device together, through the device's own access checks.
- `ProvisionRun`: provisioning and hard reset, tool and device together, also after such a transfer.
- `LeftOpen`: a run from a reset to normal operation on which tightening stops too soon.

**Text forms and transfer**

- `Base64`, `Pem`: section 4 of RFC 4648, decoded in place, and the line-breaking encoder against section 2 of RFC 7468.
- `Ipv6`, `Endpoint`: endpoint strings, with the text form of section 2.2 of RFC 4291.
- `Blockwise`: section 2 of RFC 7959 at both ends, and the choice of the block size.
- `Query`: splitting, iterating and filtering queries.

**Timers and buffers**

- `Etimer`: the intrusive timer list on heap nodes, with a ghost sequence and a wrapping clock.
- `ClientCallbacks`: block-wise buffers and the timeouts that would free them.

`Text` and `Lists` hold the little that several of these share. Where a function and the
method proved against it share a table (permission bits, states, letters, request
properties), a theorem states the table again in literals, without that function.

## Where the code does not do what it is for

Each of these has a theorem with the exact condition and, but for the last, an example.

- A refused request should change nothing. This holds of every request except a POST to cred that fails while its entries are applied (`RefusalChangesNothing`). Such a POST may have stored earlier entries (`RefusedPostMayStore`), and it takes away the stored credential that the failing entry names, because that is removed before the key is judged and is not put back (`RefusedPostMayRemove`). A stored identifier survives exactly when the state refused the payload, or neither the entry that fails nor the one that waits for the owner's key names it (`RefusedPostKeepsId`), and a credential that no handled entry names is untouched (`RefusedPostKeepsCred`). A payload of one entry leaves the device as it was exactly when the entry has no subject or its identifier is not stored (`OneEntryRefused`); the same holds of any payload in which only empty entries come before the one that fails, as long as the resource owner is not changed (`RefusedPostChangesNothing`).
- The entry that waits for the owner's key is still the one the source points at exactly when no entry handled after it names its identifier (`OwnerEntryStays`, `OwnerEntryReplaced`).
- The tightening loop stops at the first entry that it empties. It does its whole job exactly when no emptied entry is followed by one that it should still change (`LoopTightens`, `LoopMayStopTooSoon`). From the default list it always does (`DefaultIsTightened`). An owner who clears the list and posts two entries leaves cred open to everybody in normal operation (`RunLeavesCredOpen`).
- A posted entry should grant what it lists. A resource of it is dropped when one before it in the same entry passes for it in the search for a resource that is already there: "*" passes for every resource that says nothing of wildcards, also for the configuration resources that "*" does not open (`LostResource`). Access is granted exactly as the resources that are kept say, beside what the other entries grant (`PostedEntryGrants`); all are kept when none passes for a later one (`AllKept`), as with different addresses (`AddressedAreKept`), and so is a single one (`OnePostedResource`).
- Reading an IPv6 address does not come to an end exactly when one of the first eight non-empty segments has more than four characters (`StuckExactly`, `StuckExample`), and reading an endpoint exactly when that is so inside its brackets (`EndlessExactly`, `EndlessExample`).
- The end of a failed transfer and of any hard reset frees the device record. Whichever context of the tool times out next, the others keep theirs exactly when no context shares its device with one whose end frees it (`ExclusiveExactly`). Runs in which no procedure is started on such a device keep every context's record (`RunStaysHome`); two transfers started on one device do not (`SharedDeviceRun`).
- The PEM text has the standard form and the announced length exactly when the certificate's length is not a multiple of 48. Otherwise one empty line, two bytes, is added (`PemForm`, `FortyEightBytesRunOver`). The terminator lies inside the announced buffer exactly when there is room for it and for that line (`Serialize`). The comparison is with lines of 64 characters, each with its break; an empty certificate has no line.
- A printed endpoint is read back exactly when the zero groups of its IPv6 address lie together (`EndpointRoundTrip`, `TwoRunsExample`).
- A served block is announced with its true size exactly when it is not the case that 0 < offset < payload size < requested size (`ServedSizeExact`, `OverstatedExample`). Offsets that are multiples of the requested size are never in that family (`AlignedIsExact`).
- Encoding what was decoded gives the text back exactly when its unused bits are zero (`EncodeDecode`, `SpareBitsExample`).
- Inserting a timer outside any process (with no current process) breaks the property that lets later insertions skip their search; inside a process it is kept (`AddTimer`).

Where comments and code differ the code was followed: the comment on step 11 of the
transfer speaks of setting isop, but only the state is posted (security/oc_obt.c:450-462,
security/oc_obt.c:818-832).

## Model

| member | source | states |
|---|---|---|
| SecureDevice.SecureDevice.constructor | security/oc_pstat.c:355-360 | Start-up puts the record through a reset, whatever memory held, and establishes the layered invariant that every run below keeps |
| SecureDevice.SecureDevice.EnterState | security/oc_pstat.c:126-338 | Preparing and entering a state has exactly the specified effect on all four resources; success means the record is in the requested state, RFOTM for a reset |
| SecureDevice.SecureDevice.IsProvisioned | security/oc_pstat.c:222-230 | The entry guard holds exactly when the device is owned, has both identities, four non-nil resource owners and a credential for each |
| SecureDevice.SecureDevice.DecodePstat | security/oc_pstat.c:395-494 | A POST to pstat works on a copy: nothing changes unless the whole payload is acceptable and the transition is allowed, and the first entry into RFNOP tightens the ACL. StateTable says which transitions and properties those are |
| SecureDevice.SecureDevice.DecodeDoxm | security/oc_doxm.c:147-277 | All properties are judged before any is applied; an accepted POST applies them in order, and a non-nil owner draws a new identity |
| SecureDevice.SecureDevice.DecodeAcl | security/oc_acl.c:872-1103 | All properties are judged before any is applied; entries and resource owner end as the specification of a POST to acl2 says, with the status |
| SecureDevice.SecureDevice.ApplyAceList | security/oc_acl.c:911-1095 | A posted list replaces entries by identifier and adds their resources one by one, in order |
| SecureDevice.SecureDevice.UpdateAce | security/oc_acl.c:587-719 | Finds or creates the entry and adds the resource unless a matching one is there; allocation failures leave exactly the specified partial result. PostedAces says what is stored and what it grants |
| SecureDevice.SecureDevice.AclDefault | security/oc_acl.c:808-840 | The list after a reset is that of the core table, built on an emptied list, with a nil resource owner |
| SecureDevice.SecureDevice.FreeResources | security/oc_acl.c:722-749 | Removing by href in place keeps all other resources in order, and drops the entry exactly when none is left |
| SecureDevice.SecureDevice.SetPostOtmAcl | security/oc_acl.c:842-870 | The do-while over resumed searches computes the specified tightening, early stop included |
| SecureDevice.SecureDevice.RemoveAceById | security/oc_acl.c:751-774 | Removes the first entry with the identifier and says whether there was one |
| SecureDevice.SecureDevice.HandleAclDelete | security/oc_acl.c:1120-1155 | Forbidden in normal operation; clears the list without an identifier, removes one entry or reports that there is none with it |
| SecureDevice.SecureDevice.AddNewCred | security/oc_cred.c:297-544 | Removes the credential with the identifier, and one of the same subject and type that still has it; then stores the new one and returns its identifier. When memory or the key fails the result is -1, and what was removed is not put back |
| SecureDevice.SecureDevice.RemoveSame | security/oc_cred.c:376-410 | The resumed walk over a subject's credentials removes the first of the same type and identifier, and nothing else |
| SecureDevice.SecureDevice.ReadKey | security/oc_cred.c:474-497 | A base64 pre-shared key is stored decoded, when it is 24 well-formed characters; other keys are stored as given. StoredKeys carries this to what a POST leaves on the list |
| SecureDevice.SecureDevice.RemoveCredById | security/oc_cred.c:176-188 | Removes the first credential with the identifier and says whether there was one |
| SecureDevice.SecureDevice.DecodeCred | security/oc_cred.c:796-1007 | All properties are judged before any is applied; entries are applied in order up to the first failure, and the entry awaiting an owner key is remembered |
| SecureDevice.SecureDevice.HandleCredPost | security/oc_cred.c:1122-1183 | The owner's key is derived from the session, the transfer method and both identities, or its entry is withdrawn |
| SecureDevice.SecureDevice.HandleCredDelete | security/oc_cred.c:1056-1119 | Forbidden in normal operation; clears the list without an identifier, removes one credential or reports that there is none with it |
| SecureDevice.SecureDevice.FindCredsForSubject | security/oc_cred.c:240-255 | The first credential of the subject from the starting point on |
| SecureDevice.SecureDevice.Handle | security/oc_pstat.c:510-523 | Every request has exactly the effect and the status of its specification, keeps the layered invariant, and outside RFOTM either leaves owner and identity alone or resets everything |
| SecureDevice.SecureDevice.ApplyCredList | security/oc_cred.c:842-1000 | A posted list is applied in order up to the first entry that fails |
| SecureDevice.SecureDevice.ClearAcl | security/oc_acl.c:776-792 | Popping entry by entry empties the list |
| SecureDevice.SecureDevice.ClearCreds | security/oc_cred.c:190-216 | Removing one by one empties the list |
| DeviceRuns.StepKeepsInv | security/oc_pstat.c:126-338 | Every request, granted or refused, keeps the layered invariant: SRESET, RFPRO and RFNOP are owned, RFPRO and RFNOP have four resource owners, RFNOP has a credential for each, isop means RFNOP, all identifiers are distinct |
| DeviceRuns.DefaultHoldsInv | security/oc_pstat.c:355-360 | Start-up establishes the invariant in RFOTM |
| DeviceRuns.OperationalMeansProvisioned | security/oc_pstat.c:222-275 | After any requests in any order from start-up, an operational device is owned, knows its identity, and has a non-nil owner with a stored credential for each of the four resources |
| DeviceRuns.RunKeepsInv | security/oc_cred.c:796-829 | The layered invariant holds after every run from a state that has it |
| DeviceRuns.OneStepOfOwnership | security/oc_doxm.c:154-225 | Outside RFOTM one request either leaves owner and identity alone or resets everything |
| DeviceRuns.OwnershipFrozen | security/oc_doxm.c:154-225 | Over a run that stays out of RFOTM, owned, devowneruuid and deviceuuid never change |
| DeviceRuns.ReentryIsReset | security/oc_pstat.c:131-166 | A run comes back to RFOTM only by a POST to pstat that cleared owners, credentials and resource owners and rebuilt the default ACL |
| DeviceRuns.OperationIsClosed | security/oc_acl.c:895-901 | In RFNOP no request but a POST to pstat changes anything |
| DeviceRuns.RefusalChangesNothing | security/oc_doxm.c:147-225 | A refused request changes nothing, except the credentials and their resource owner when a POST to cred passed its state check |
| StateTable.StateChanges | security/oc_pstat.c:98-122 | Of any state a POST asks for, on any device with the layered invariant: accepted exactly as a table of the five states says, which asks for an owned device with both identities and a credential for each of four resource owners, and for a transfer to begin for an unowned one; the reached device is written out, and a refusal changes nothing |
| StateTable.OutAndBack | security/oc_pstat.c:395-494 | An operational device is taken to RFPRO and back to RFNOP, both requests accepted, and ends as it was but for the two masks |
| StateTable.PstatProperties | security/oc_pstat.c:395-494 | A POST of any one other property: accepted exactly for the resource owner in RFOTM and SRESET and for integers whose names begin with tm or om, with exactly that effect |
| StateTable.DoxmProperties | security/oc_doxm.c:147-277 | A POST of any one property to doxm: name, type and state decide as written out; a non-nil owner draws a new identity |
| StateTable.AclStates | security/oc_acl.c:872-1103 | In which states acl2 takes an owner, entries and deletions |
| StateTable.CredStates | security/oc_cred.c:796-829 | In which states cred takes an owner, entries and deletions |
| CredRefusals.RefusedPostKeepsId | security/oc_cred.c:360-364 | After a refused POST to cred a stored identifier is still there exactly when the state refused the payload, or neither the failing entry nor the one waiting for the owner's key names it |
| CredRefusals.RefusedPostKeepsCred | security/oc_cred.c:984-986 | A stored credential that no handled entry names is still there, as it was |
| CredRefusals.RefusedPostChangesNothing | security/oc_cred.c:474-497 | With nothing but empty entries before the failing one, the device is unchanged exactly when that entry has no subject or its identifier is not stored |
| CredRefusals.OneEntryRefused | security/oc_cred.c:1122-1183 | A refused POST of one entry changes nothing exactly when the entry has no subject or its identifier is not stored, whatever made it fail |
| CredRefusals.OwnerEntryStays | security/oc_cred.c:988-992 | The credential that waits for the owner's key is still the one its entry stored exactly when no entry handled later names its identifier |
| CredRefusals.OwnerEntryReplaced | security/oc_cred.c:988-992 | A second entry with the same identifier takes the place of the one that waits for the owner's key |
| CredRefusals.PropsAreEntries | security/oc_cred.c:842-1000 | A payload stores what the list of all its entries stores, up to the first that fails |
| CredRefusals.RefusedPostMayStore | security/oc_cred.c:984-986 | A POST refused at its second entry has stored the first |
| CredRefusals.RefusedPostMayRemove | security/oc_cred.c:474-497 | A malformed key for identifier 5 is refused, and the stored credential 5 is gone |
| DeviceRuns.PostOtmKeepsIds | security/oc_acl.c:842-870 | Tightening keeps entry identifiers distinct |
| AclModel.PostedAceIdsDistinct | security/oc_acl.c:978-980 | Entry identifiers stay distinct across any posted list, replacements and failed allocations included |
| AclModel.RemoveAceDropsId | security/oc_acl.c:751-774 | Removal keeps identifiers distinct and leaves no entry with the removed one |
| AclModel.DefaultAcesShape | security/oc_acl.c:808-840 | The default list has at most the anonymous read entry 1 and the anonymous entry 2 with permission 14 |
| PostedAces.PostedList | security/oc_acl.c:587-719 | A POST of an entry with an identifier, or of one to be given an identifier when no entry has its subject and permission, is accepted; the list is the others with the entry behind them, its resources stored as posted but for those that an earlier one passes for |
| PostedAces.PostedEntryGrants | security/oc_acl.c:666-669 | From then on access is granted exactly as the other entries grant it, or to its subject for the posted methods on resources that a kept pattern is for, within reach of the device's state |
| PostedAces.OnePostedResource | security/oc_acl.c:587-719 | An entry with one resource lets its subject do what was posted, whatever that resource says of address, types, interfaces or wildcard |
| PostedAces.PlainPatterns | security/oc_acl.c:100-176 | A pattern of an address alone is for that address, one of types alone for a listed type before any star, one of interfaces alone for a common interface |
| PostedAces.WildcardPatterns | security/oc_acl.c:232-270 | The pattern "*" is for every resource but the configuration ones, "+" for the discoverable of them, "-" for the discoverable ones without security |
| PostedAces.AllKept | security/oc_acl.c:603-611 | All posted resources are kept when none passes for a later one |
| PostedAces.AddressedAreKept | security/oc_acl.c:116-125 | Resources with different addresses are all kept |
| PostedAces.LostResource | security/oc_acl.c:149-172 | An entry that lists "*" and then /oic/d does not let its subject read /oic/d |
| PostedAces.RemovalKeepsOthers | security/oc_acl.c:751-774 | Removing by identifier takes away exactly the entry that has it |
| PostedAces.DeletedEntry | security/oc_acl.c:1120-1155 | Deleting by identifier takes away exactly the entry that has it, and says whether there was one |
| CredModel.PostedCredIdsDistinct | security/oc_cred.c:297-544 | Credential identifiers stay distinct and never -1 wherever a POST stops, failed additions included |
| CredModel.RemoveCredidKeepsIds | security/oc_cred.c:176-188 | Removal keeps identifiers distinct and leaves none with the removed one |
| StoredKeys.EntryIsStored | security/oc_cred.c:297-544 | A POST of one entry with key data is accepted exactly when it has a subject, memory suffices and a base64 pre-shared key is 24 well-formed characters; then the last credential is what was posted, its identifier is its own, and the others are those that did not have it |
| StoredKeys.KeyIsDecoded | security/oc_cred.c:474-489 | Posting the 24-character encoding of any bytes as a pre-shared key stores those bytes, 16 to 18 of them |
| StoredKeys.OwnerKey | security/oc_cred.c:1122-1183 | The owner's entry of a POST that also names the owner: with just works or random PIN its key comes from the session, the method's name, the device's and the owner's identity; without a session the POST is refused and the entry withdrawn; with any other method the key stays unset |
| StoredKeys.OthersRemain | security/oc_cred.c:176-188 | Making room for an identifier takes away exactly the credential that had it |
| StoredKeys.DeletedCred | security/oc_cred.c:1056-1119 | Deleting by identifier takes away exactly the credential that has it, and says whether there was one |
| AccessControl.CheckAcl | security/oc_acl.c:355-501 | Access is granted exactly when the device operates or the resource is for configuration, and the peer is its resource owner or some entry for the peer's UUID, its key's role, auth-crypt on a secured endpoint or anon-clear has a matching resource and a bit for the method; AccessTable.GrantedLiterally writes this out |
| AccessControl.FindResource | security/oc_acl.c:100-176 | The next matching resource after the starting point, none skipped |
| AccessControl.EntryMatches | security/oc_acl.c:116-172 | An entry matches exactly when every criterion carried by both sides agrees and there is one |
| AccessControl.TypesMatch | security/oc_acl.c:127-148 | A type is listed exactly when it occurs before any "*" |
| AccessControl.FindSubject | security/oc_acl.c:179-229 | The first entry after the starting point that agrees on subject, identifier and permission |
| AccessControl.GetPermission | security/oc_acl.c:232-270 | An entry contributes its permission exactly when one of its resources matches |
| AccessControl.SubjectPermission | security/oc_acl.c:403-420 | The loop over resumed searches collects the permissions of all entries of a subject |
| AccessControl.CollectedBits | security/oc_acl.c:403-420 | The collected mask meets another exactly when one contributing entry does |
| AccessControl.SomeAceGrants | security/oc_acl.c:403-478 | Some entry grants exactly when one of the subjects that the code looks up does |
| AccessControl.FindCred | security/oc_cred.c:257-275 | The first pre-shared key of the subject |
| AccessControl.IsCoreDcr | api/oc_core_res.c:502-520 | The loop recognises exactly the platform resource and the configuration range, both ends included |
| AccessControl.MoreAcesGrantMore | security/oc_acl.c:355-501 | Adding an entry anywhere never revokes access |
| AccessTable.GrantedLiterally | security/oc_acl.c:355-501 | The decision over all devices and requests, with every table in literals: configuration slots, the four owned addresses, connection types, the first pre-shared key, address, type, interface and wildcard matching, and the permission bits |
| AccessTable.OneEntryDecides | security/oc_acl.c:480-498 | When exactly one entry stands for the request, its permission decides: GET takes bit 2 or 16, POST and PUT bit 1 or 4, DELETE bit 8 |
| DefaultReads.AnybodyReads | security/oc_acl.c:808-840 | Under the default list whoever asks may GET a core resource outside the four security ones, and nobody may POST, PUT or DELETE it |
| AccessControl.ServesOnlyWhenProvisioned | security/oc_acl.c:366-369 | After any run from start-up, whoever reaches an application resource reaches a device that is owned and holds a credential for each of its four resource owners |
| Tightening.LoopStopsEarly | security/oc_acl.c:842-870 | The loop, which edits the list that it searches, equals one pass that stops at the first emptied entry |
| Tightening.LoopTightens | security/oc_acl.c:842-870 | The loop strips acl2 and cred from every anonymous entry with permission 14 exactly when no emptied entry comes before one still to be changed |
| Tightening.LoopMayStopTooSoon | security/oc_acl.c:858-869 | A two-entry list on which cred stays open |
| Tightening.StrippedKeepsOthers | security/oc_acl.c:722-749 | Stripping removes acl2 and cred and nothing else |
| Tightening.DefaultIsTightened | security/oc_acl.c:808-870 | From the default list the loop does its whole job |
| LeftOpen.RunLeavesCredOpen | security/oc_acl.c:842-870 | After eight to ten exchanges of a transfer from any device state, the owner's DELETE of acl2, POST of two entries and entry into RFNOP are all accepted, and anybody may post to cred |
| LeftOpen.OwnerLeavesCredOpen | security/oc_pstat.c:478-489 | The same three requests, from any device that a transfer has brought to that point |
| DefaultAcl.DefaultLayout | security/oc_acl.c:808-840 | The default list opens exactly the security resources to anonymous reading and writing |
| DefaultAcl.TightenedLayout | security/oc_acl.c:842-870 | Tightening the default list leaves exactly doxm and pstat open |
| DefaultAcl.LayoutOpens | security/oc_svr.c:41-57 | Whoever asks may read and write the open security resources |
| DefaultAcl.LayoutCloses | security/oc_acl.c:377-404 | Beyond them access is granted exactly to the resource owner |
| ObtTool.ObtTool.PerformJustWorksOtm | security/oc_obt.c:833-877 | A start is accepted exactly as specified, and registers context, timeout and first request together |
| ObtTool.ObtTool.ObtJw2 | security/oc_obt.c:792-815 | Stale answers are ignored, errors end the transfer, otherwise the state is asked for |
| ObtTool.ObtTool.ObtJw3 | security/oc_obt.c:751-790 | Goes on to take doxm only from a device that reports RFOTM |
| ObtTool.ObtTool.ObtJw4 | security/oc_obt.c:726-749 | Goes on to read doxm |
| ObtTool.ObtTool.ObtJw5 | security/oc_obt.c:666-724 | Stores the identity that the device reports, then takes acl2 |
| ObtTool.ObtTool.ObtJw6 | security/oc_obt.c:595-664 | Stores the tool's half of the key before it posts the device's half; each failure ends the transfer from where it is |
| ObtTool.ObtTool.ObtJw7 | security/oc_obt.c:559-593 | Goes on to take pstat |
| ObtTool.ObtTool.ObtJw8 | security/oc_obt.c:529-557 | Goes on to mark the device owned |
| ObtTool.ObtTool.ObtJw9 | security/oc_obt.c:497-527 | Goes on to request RFPRO |
| ObtTool.ObtTool.ObtJw10 | security/oc_obt.c:472-495 | Goes on to read the state |
| ObtTool.ObtTool.ObtJw11 | security/oc_obt.c:437-470 | Requests RFNOP only from a device that reports RFPRO |
| ObtTool.ObtTool.ObtJw12 | security/oc_obt.c:409-435 | Goes on to read the state over the new key |
| ObtTool.ObtTool.ObtJw13 | security/oc_obt.c:385-407 | Reports success exactly when the device answers RFNOP |
| ObtTool.ObtTool.FreeOtmCtx | security/oc_obt.c:351-383 | Ending a transfer cancels its timeout, reports once, and moves the device or drops it with its credential |
| ObtTool.ObtTool.ReadDos | security/oc_obt.c:183-212 | The state read off an answer is the last one in it, 0 if there is none |
| ObtTool.ObtTool.GetDeviceHandle | security/oc_obt.c:155-166 | The first handle on the list with the UUID |
| ObtTool.ObtTool.OwnedDevice | security/oc_obt.c:168-181 | A device counts as owned exactly when the tool holds a credential for it |
| ObtTool.ObtTool.RemoveCredOf | security/oc_cred.c:1034-1054 | Removes the first credential of the subject, and no other |
| ObtTool.ObtTool.SwitchDos | security/oc_obt.c:1135-1173 | A state switch is registered exactly when its request could be sent |
| ObtTool.ObtTool.FreeSwitchDosCtx | security/oc_obt.c:1085-1091 | The context is gone before its callback runs |
| ObtTool.ObtTool.PstatPosted | security/oc_obt.c:1115-1133 | After the state was posted it is read back, or the switch fails |
| ObtTool.ObtTool.PstatRead | security/oc_obt.c:1093-1113 | A switch succeeds exactly when the device reports the wanted state, RFOTM for a reset |
| ObtTool.ObtTool.DeviceHardReset | security/oc_obt.c:1214-1246 | A hard reset starts only on an owned device that the tool knows |
| ObtTool.ObtTool.FreeHardResetCtx | security/oc_obt.c:1176-1203 | Ending a hard reset reports once, drops the credential only on success, and ends the switch it waits for |
| ObtTool.ObtTool.HardResetCb | security/oc_obt.c:1205-1212 | The end of the switch ends the reset, without touching the switch again |
| ObtTool.ObtTool.FreeAclProvCtx | security/oc_obt.c:1614-1640 | Ending a provisioning cancels its timeout, reports once, and ends the switch it waits for |
| ObtTool.ObtTool.ProvisionAceStart | security/oc_obt.c:1774-1808 | Provisioning starts with a switch to RFPRO, or not at all |
| ObtTool.ObtTool.ProvisionAceCb | security/oc_obt.c:1680-1772 | The entry is posted after the switch to RFPRO succeeded |
| ObtTool.ObtTool.AclResponse | security/oc_obt.c:1659-1678 | After the entry was accepted the device is switched back to RFNOP, or the provisioning ends; ObtSwitches.AceAnswer writes this out |
| ObtTool.ObtTool.ProvisionAceComplete | security/oc_obt.c:1642-1657 | The outcome of the last switch is reported |
| ObtTool.ObtTool.OnResponse | security/oc_obt.c:385-815 | An answer reaches the handler of its request, once |
| ObtTool.ObtTool.OnTimeout | security/oc_obt.c:371-376 | A pending timeout ends its own context and no other |
| ObtTool.ObtTool.OnDiscovery | security/oc_obt.c:974-1033 | A discovered device is put once on the list it belongs to, never the tool itself nor a device owned by others; without memory for its endpoint a known device is dropped |
| ObtTool.ObtTool.OnEvent | security/oc_obt.c:335-877 | Every event has exactly its specified effect on the tool, keeps contexts, timeouts, switches and reports consistent, and keeps every context's device as long as nothing is started on one that is in the way |
| ObtRuns.NextKeeps | security/oc_obt.c:335-407 | Every event keeps contexts, timeouts, switches and reports consistent, and loses no accepted procedure |
| ObtRuns.CompletesExactlyOnce | security/oc_obt.c:1077-1246 | After any further events an accepted transfer, reset or provisioning either still runs, unreported and with its timeout pending, or was reported exactly once; the timeout would report it. While no procedure is started on a device that is in the way, every context's device record stays on its list |
| ObtRuns.AcceptedCompletesOnce | security/oc_obt.c:833-877 | After any run an accepted call gets a context that nothing was reported for; after any further events it still runs with its timeout pending, or was reported exactly once |
| ObtRuns.TimeoutReports | security/oc_obt.c:1628-1633 | A timeout that fires reports its context |
| ObtHandles.RunStaysHome | security/oc_obt.c:251-260 | Over any run in which no procedure is started, and no device dropped, where a context is in the way, every context's device stays on the list it was taken from |
| ObtHandles.NextStaysHome | security/oc_obt.c:351-369 | Every single event keeps that, if it is no such start |
| ObtHandles.ExclusiveExactly | security/oc_obt.c:1176-1203 | Whichever context times out next, all others keep their device exactly when no context shares its device with one whose end frees it |
| ObtHandles.SharedDeviceRun | security/oc_obt.c:371-376 | Two transfers on one device: the first timeout leaves the second one running on a freed record |
| ObtKeys.SuccessMeansOperational | security/oc_obt.c:385-407 | Success of a transfer is reported only by the answer to its last request, when that says RFNOP |
| ObtKeys.OutcomeDecidesCredential | security/oc_obt.c:603-664 | In orderly surroundings, the event that ends a transfer reports it and leaves one credential for the device on success and none on failure |
| ObtKeys.OrderlyStep | security/oc_obt.c:351-369 | Every event keeps each running transfer with one outstanding request and exactly the credential of its step |
| ObtKeys.IdleIsFine | security/oc_obt.c:76-140 | An initialised tool satisfies all these invariants |
| ObtTransfer.TransferBegins | security/oc_obt.c:833-877 | An accepted transfer is of a cached device with the UUID, and has its context, its timeout and its first request, a POST of RESET to pstat |
| ObtTransfer.TransferAnswer | security/oc_obt.c:385-815 | Any answer to any step: the transfer goes on exactly when the answer is good, sending and memory suffice, and the two readings on the way say RFOTM and RFPRO; then exactly the next request of the protocol is out. Otherwise it is over and reported, with success exactly when the last reading says RFNOP |
| ObtTransfer.TransferredMeansOperational | security/oc_obt.c:385-407 | After any run, whatever a transfer has outstanding is the request of its step, word for word, and success is told only by the answer to the last GET of pstat, when that says RFNOP |
| ObtTransfer.TimeoutEnds | security/oc_obt.c:371-376 | A timeout ends its transfer with failure and gives the device up |
| ObtTransfer.Discovered | security/oc_obt.c:974-1033 | What a discovered device does to the two lists, case by case |
| ObtTransfer.LastDosCounts | security/oc_obt.c:183-212 | The state read off an answer is the last integer s of its dos objects, and nothing else in it counts |
| ObtTransfer.LastIdentityCounts | security/oc_obt.c:678-701 | The identity read off an answer is its last deviceuuid |
| ObtSwitches.SwitchAnswer | security/oc_obt.c:1085-1133 | A posted state is read back; the switch succeeds exactly when what is read is what was wanted, RFOTM passing for RESET. Then the entry is posted, or the provisioning or reset is over with exactly that outcome |
| ObtSwitches.AceAnswer | security/oc_obt.c:1659-1678 | Once the entry is accepted RFNOP is asked for, when memory and sending suffice; otherwise the provisioning ends with failure |
| ObtSwitches.TimeoutEnds | security/oc_obt.c:1614-1640 | A timeout ends its provisioning or hard reset with failure, and the switch it waits for |
| ObtProvision.NextKeepsAims | security/oc_obt.c:1135-1173 | Every event keeps this: a switch wants what its purpose needs (RESET, RFPRO or RFNOP), its requests post and read that state, and a provisioning posts the entry that the caller gave |
| ObtProvision.RunKeepsAims | security/oc_obt.c:1614-1808 | So does every run |
| ObtProvision.ProvisionedMeansOperational | security/oc_obt.c:1093-1113 | After any run of an initialised tool, success of a provisioning is told only by the answer to its last reading of pstat, when that says RFNOP |
| ObtProvision.ResetMeansCleared | security/oc_obt.c:1093-1113 | And success of a hard reset only when it says RESET or RFOTM |
| ObtProvision.AcceptedExactly | security/oc_obt.c:1774-1808 | A call is accepted exactly when the device is known on the right list, the tool has a credential for it, or for a transfer has none, and memory and sending suffice |
| ObtProvision.ResetOutcome | security/oc_obt.c:1176-1203 | The event that ends a hard reset reports it, and takes away one credential of the device on success and none on failure |
| Transfer.UndisturbedTransfer | security/oc_obt.c:385-877 | From any device state, once the first request gets through, all twelve requests pass access control and are accepted; the device ends in RFNOP, owned, with devowneruuid and four rowneruuids equal to the tool's UUID; both ends hold the key derived from the same arguments; success is reported once |
| Transfer.OnlyOwnerConfigures | security/oc_acl.c:377-404 | After that transfer acl2 and cred are reached exactly by the owner, while doxm and pstat stay open |
| Transfer.RequestGranted | api/oc_ri.c:838-848 | Every request after the reset passes the access check, whoever the device takes the sender for |
| Transfer.DeviceStep | security/oc_pstat.c:478-489 | Each exchange brings the device to the next stage and tells the tool what it checks |
| Transfer.ToolStep | security/oc_obt.c:385-815 | Each accepted answer makes the tool send the next request, for the same transfer |
| Transfer.OnTakeCred | security/oc_cred.c:1122-1183 | The device derives the owner's key from the session, its own identity and the tool's |
| ProvisionRun.ProvisionStep | security/oc_obt.c:1659-1772 | An answer that says what is wanted brings out the next of the five requests of a provisioning, and changes nothing else in the tool |
| ProvisionRun.DeviceServes | security/oc_pstat.c:98-122 | An operational device grants each of them to its owner and carries it out |
| ProvisionRun.ProvisioningSucceeds | security/oc_obt.c:1614-1808 | From normal operation all five requests, POST of RFPRO, GET, POST of the caller's entry, POST of RFNOP, GET, are granted and accepted; the tool reports success once and is otherwise as before, and the device is back in normal operation with the entry on its list |
| ProvisionRun.ProvisionedGrants | security/oc_acl.c:355-501 | From then on access is granted exactly as the other entries grant it, or as the entry says |
| ProvisionRun.TakenOverServes | security/oc_obt.c:385-877 | The device and the tool that an undisturbed transfer leaves meet what these theorems ask for |
| ProvisionRun.HardResetSucceeds | security/oc_obt.c:1175-1246 | Once its first request gets through, both requests of a hard reset are granted and accepted; the device is as after a reset, and the tool reports success once and gives up the device with its credential |
| Base64.Encode | api/oc_base64.c:23-117 | Fails exactly when the buffer is too small; otherwise the output is the RFC 4648 encoding and the rest of the buffer is untouched |
| Base64.Decode | api/oc_base64.c:119-205 | In place: accepts exactly whole quads of letters with legal final padding, leaves the decoded bytes followed by zeros, and returns their number |
| Base64.DecodeBytes | api/oc_base64.c:133-198 | The write index stays at or behind the read index, so no unread character is overwritten |
| Base64.BytesDone | api/oc_base64.c:133-198 | The bytes completed by i characters are at most i |
| Base64.DecodeEncode | api/oc_base64.c:23-205 | Decoding an encoding gives the bytes back, for every input |
| Base64.EncodeDecode | api/oc_base64.c:23-205 | Encoding a decoding gives the text back exactly when its unused bits are zero |
| Base64.SpareBitsExample | api/oc_base64.c:119-205 | QR== is accepted, decodes to the letter A and is not given back |
| Base64.EncodedPadding | api/oc_base64.c:105-114 | An encoding is well formed, with the padding that its length asks for |
| Base64.EncoderStep | api/oc_base64.c:61-100 | The bits carried between input bytes spell the sextets of the 24-bit groups |
| Base64.DecoderStep | api/oc_base64.c:133-198 | The bits carried between characters spell the bytes of the 24-bit groups |
| Base64.LetterIsListed | api/oc_base64.c:23-33 | The letters of the 64 sextets are the capitals, the small letters, the digits, + and /, in that order |
| Base64.Vectors | api/oc_base64.c:61-114 | Two of the vectors of section 10 of RFC 4648 |
| Pem.Serialize | security/oc_certs.c:203-287 | Fails exactly when the announced length does not fit; otherwise writes the text, the terminator and nothing behind it, and returns the text's true length; the terminator lies inside the announced buffer exactly when that has room for it and for the empty line of a length that is a multiple of 48 |
| Pem.PemForm | security/oc_certs.c:203-287 | The text is the standard form, with the announced length, exactly when the certificate's length is not a multiple of 48 |
| Pem.FortyEightBytesRunOver | security/oc_certs.c:275-286 | For 48 bytes 122 are announced and 124 written |
| Pem.BodyIsBase64 | security/oc_certs.c:249-286 | The body is the lines of the encoding, and without its breaks the encoding itself, for every certificate |
| Pem.LinesFilled | security/oc_certs.c:230-238 | What is left for the last line: nothing for multiples of 48, else one to 64 characters |
| Pem.EncodeLines | security/oc_certs.c:252-269 | The second encoder writes the characters of the first, with a break after each 64 |
| Pem.PadsFit | security/oc_certs.c:275-280 | The padding loop, bounded by the announced length, writes exactly the padding |
| Ipv6.PrintAddress | api/oc_endpoint.c:84-137 | The text has minimal groups and "::" in place of the first of the longest runs of zero groups, for every address, within the buffer |
| Ipv6.PrintGroups | api/oc_endpoint.c:89-131 | The counters find the first of the longest runs, and where it was left out |
| Ipv6.Double | api/oc_endpoint.c:132-136 | The backward shift doubles one character and moves the rest up |
| Ipv6.ParseAddress | api/oc_endpoint.c:266-322 | Terminates exactly when none of the first eight non-empty segments has more than four characters, and leaves the bytes read, with those behind "::" moved to the end |
| Ipv6.ReadSegments | api/oc_endpoint.c:269-312 | Reads segments of one to four digits over a cleared address; where one of the first eight is longer the source stands still, and it says so |
| Ipv6.ShiftBack | api/oc_endpoint.c:313-322 | The shift over overlapping places moves every byte unharmed and clears the gap |
| Ipv6.StuckExactly | api/oc_endpoint.c:273-312 | From any point of the reading: it stands still exactly when a segment of more than four characters comes before the address is full |
| Ipv6.StuckExample | api/oc_endpoint.c:308-310 | Reading 12345 does not end |
| Ipv6.RoundTrip | api/oc_endpoint.c:84-322 | Reading a printed address terminates, and gives it back exactly when its zero groups lie together |
| Ipv6.LocalText | api/oc_endpoint.c:84-157 | One address spelt out: it prints as fe80::20f:ab and as nothing else |
| Endpoint.Print | api/oc_endpoint.c:158-176 | The text is scheme, address and port; both buffers suffice for every address and port |
| Endpoint.PrintV4 | api/oc_endpoint.c:60-84 | Dotted decimal and port fill the 22-byte buffer at most exactly |
| Endpoint.PrintV6 | api/oc_endpoint.c:84-156 | Bracketed address and port never overrun the 54-byte buffer |
| Endpoint.ParseEndpoint | api/oc_endpoint.c:325-418 | Splits at the last colon and behind the scheme; each way to fail or to hang is told apart, and it hangs exactly when a bracketed host has too long a segment too early |
| Endpoint.ParseV4 | api/oc_endpoint.c:179-193 | Reads up to four numbers as strtoul does, blanks, signs and overflow included, each modulo 256, and leaves missing ones as they were |
| Endpoint.EndlessExactly | api/oc_endpoint.c:325-418 | Reading an endpoint does not end exactly when scheme and brackets are right and a segment inside is too long, too early |
| Endpoint.BracketedHostHangs | api/oc_endpoint.c:266-312 | For a printed scheme and port around any bracketed text, that is decided by the text alone |
| Endpoint.EndlessExample | api/oc_endpoint.c:308-310 | Reading coap://[12345]:1 does not end |
| Endpoint.ReadNumber | api/oc_endpoint.c:179-193 | Skips blanks, takes one sign and all digits behind it; a minus negates modulo the word, and too large a number is the maximum |
| Endpoint.EndpointRoundTrip | api/oc_endpoint.c:59-418 | Address, port, TCP and SECURED are restored for every IPv4 endpoint, and for an IPv6 endpoint exactly when its zero groups lie together |
| Endpoint.TwoRunsExample | api/oc_endpoint.c:92-136 | 1:0:2:0:0:3:4:5 is not read back |
| Endpoint.SchemeIsSpelt | api/oc_endpoint.c:26-29 | A scheme is coap, then s when secured, then +tcp over TCP, then :// |
| Endpoint.SchemeIsRead | api/oc_endpoint.c:325-360 | The flags read off any text are those whose scheme it begins with, spelt like that |
| Endpoint.V4TextExample | api/oc_endpoint.c:59-82 | One secured IPv4 endpoint prints as coaps://192.168.0.10:5684 and as nothing else |
| Endpoint.V6TextExample | api/oc_endpoint.c:84-157 | One IPv6 endpoint over TCP prints as coap+tcp://[fe80::20f:ab]:5683 and as nothing else |
| Blockwise.Buffer.Dispatch | api/oc_blockwise.c:304-320 | A block is served exactly for offsets inside the payload, with the specified size, and the next offset follows it |
| Blockwise.ServedSizeExact | api/oc_blockwise.c:308-316 | The announced size is the block's, and inside the payload, exactly outside 0 < offset < size < requested |
| Blockwise.OverstatedExample | api/oc_blockwise.c:309-311 | At offset 16 of 100 bytes a block of 84 is announced as 100 |
| Blockwise.AlignedIsExact | api/oc_blockwise.c:308-316 | Offsets that are multiples of the requested size are served exactly |
| Blockwise.Buffer.Handle | api/oc_blockwise.c:322-341 | Blocks that do not fit or lie ahead, and only those, are refused; the one that continues the prefix is stored behind it, any other changes nothing |
| Blockwise.AnyScheduleKeepsPrefix | api/oc_blockwise.c:322-341 | For any schedule of lost, repeated or reordered blocks the stored prefix matches the payload, never shrinks and never outgrows the buffer |
| Blockwise.EveryBlockMeansComplete | api/oc_blockwise.c:304-341 | Once every block has arrived in its turn, whatever came in between, the buffer holds exactly the payload |
| Blockwise.Settings.SetMtuSize | api/oc_main.c:58-73 | The block size is the largest power of two from 16 to 1024 that a message has room for; a smaller MTU is refused and changes nothing |
| Query.GetNthKeyValue | api/oc_ri.c:153-186 | Finds what the specification of the n-th pair says, on any text |
| Query.PairExactly | api/oc_ri.c:171-184 | Any text begins with a pair exactly when it has a =: the key is what stands before the first one, the value what follows up to the next & or the end |
| Query.SkipExactly | api/oc_ri.c:162-169 | The n-th pair of any text is looked for behind its n-th & |
| Query.NthOfJoin | api/oc_ri.c:153-186 | On joined pairs iteration yields exactly the pairs in order, then nothing; only the last one ends at the end |
| Query.GetQueryValue | api/oc_ri.c:188-209 | Terminates, and returns the first value found, on any text |
| Query.QueryValueOfJoin | api/oc_ri.c:188-209 | On joined pairs that is the value of the first pair with the key, ignoring case |
| Query.SameExactly | api/oc_ri.c:202-205 | Two keys are the same exactly when they differ at most in the case of letters of ASCII |
| Query.QueryIterator.Iterate | api/oc_server_api.c:111-119 | Each call yields the next pair |
| Query.QueryIterator.GetValues | api/oc_server_api.c:121-145 | Terminates at the next pair with the key, and says whether text is left |
| Query.NextValueOfJoin | api/oc_server_api.c:121-145 | On joined pairs no pair with the key is skipped, and more text means more pairs |
| Query.QueryIterator.FilterByRt | api/oc_core_res.c:580-605 | The loop terminates with the specified answer |
| Query.FilterOfJoin | api/oc_core_res.c:580-605 | A resource passes exactly when no non-empty rt is asked for or one of those asked for is among its types |
| Etimer.TimerList.UpdateTime | util/oc_etimer.c:45-66 | The next expiration is now plus the least distance over all listed timers, 0 without any |
| Etimer.TimerList.AddTimer | util/oc_etimer.c:139-163 | The timer is on the list once, at the front if it was not there; the list stays acyclic, and fit for further insertions exactly when a process is running |
| Etimer.TimerList.Set | util/oc_etimer.c:166-170 | Starts now, is listed once, and the next expiration is right; the list stays fit for insertions exactly when a process is running |
| Etimer.TimerList.ResetWithNewInterval | util/oc_etimer.c:173-179 | Starts where the last period ended, with the new interval |
| Etimer.TimerList.Reset | util/oc_etimer.c:182-186 | Starts where the last period ended |
| Etimer.TimerList.Restart | util/oc_etimer.c:189-193 | Starts now, with the old interval |
| Etimer.TimerList.Adjust | util/oc_etimer.c:196-200 | Only the start moves, modulo the word, and the next expiration follows |
| Etimer.TimerList.Stop | util/oc_etimer.c:232-261 | The timer is off the list and marked; the others keep their order; the next expiration changes only if it was listed |
| Etimer.TimerList.Exit | util/oc_etimer.c:79-95 | Exactly the timers of the exited process leave, the others keep their order, and the next expiration is not touched |
| Etimer.TimerList.Poll | util/oc_etimer.c:100-126 | Terminates with the posted timers, and only those, unlinked and marked, each posted once; every expired timer left was refused; the rest keeps its order and the next expiration is right after any firing |
| Etimer.TimerList.Scan | util/oc_etimer.c:102-126 | One pass tries every expired timer up to the first accepted post |
| Etimer.ExpiredExactly | util/oc_timer.c:107-114 | Expired exactly when the interval has elapsed, except in the last tick before the elapsed time wraps |
| Etimer.NextIsEarliest | util/oc_etimer.c:45-66 | With none overdue, the next expiration is the earliest expiry in true time, across the clock's wrap-around |
| ClientCallbacks.Buffers.AllocRequest | api/oc_blockwise.c:105-119 | A new buffer at a free address keeps every pending timeout pointing at a listed buffer |
| ClientCallbacks.Buffers.AllocResponse | api/oc_blockwise.c:121-145 | The same for response buffers |
| ClientCallbacks.Buffers.RemoveTimed | api/oc_ri.c:375-391 | Cancels the first callback with this function and argument, and no other |
| ClientCallbacks.Buffers.FreeRequest | api/oc_blockwise.c:147-152 | The buffer goes with its timeout, and with no other callback |
| ClientCallbacks.Buffers.FreeResponse | api/oc_blockwise.c:154-159 | The same for response buffers |
| ClientCallbacks.Buffers.RequestExpires | api/oc_blockwise.c:89-95 | A timeout that fires frees its own buffer, which is still there |
| ClientCallbacks.Buffers.ResponseExpires | api/oc_blockwise.c:97-103 | The same for response buffers |
| ClientCallbacks.Buffers.Scrub | api/oc_blockwise.c:162-205 | Both lists are filtered while they are walked, and what remains pending is what still has a buffer |
| ClientCallbacks.Buffers.FreeClientCb | api/oc_ri.c:1096-1108 | No buffer refers to the ended request, all others keep their order |
| ClientCallbacks.SweepCancelsExactly | api/oc_blockwise.c:162-205 | A pending callback survives exactly unless it is the timeout of a freed buffer |
| ClientCallbacks.CancelOne | api/oc_ri.c:375-391 | Cancelling the first match leaves exactly the timeouts that still have a buffer |

## Left out

- Several devices, and the tightening flag that they share (security/oc_pstat.c:525-532): one device is modelled.
- PKI: certificates beyond their PEM text, roles, security profiles, CSR, key pairs, and all of mbedTLS.
- Decoding from storage, persistence dumps, CoAP, sockets, discovery payloads, observers, collections and introspection: I/O and plumbing.
- Pairwise credential provisioning (security/oc_obt.c:1250-1484): one of its failure paths frees the context with its timeout pending (security/oc_obt.c:1424), so completing exactly once does not hold there.
- Payload bytes: handlers receive parsed properties, a text stands for the UUID it spells, and entries of posted lists arrive as records. Subjects of access control entries do not share memory as the C union does. Integers of payloads are unbounded, so their narrowing is not modelled.
- Randomness and memory: generated UUIDs, identifiers and allocation outcomes are parameters of each request. The loops that draw random identifiers are modelled as choosing an unused one, so their termination is not modelled.
- The mask tests on cm and tm in the state guards: they read constants assigned just before, so they always hold.
- Key derivation: a derived key is represented by the arguments it is derived from, the TLS session included.
- SecureDevice.SecureDevice.HandleCredPost: names the entry awaiting its owner key by identifier, where the source keeps a pointer. When a later entry of the same request names that identifier the pointer dangles, and what the source does then is not modelled; OwnerEntryStays says exactly when that is not so.
- ObtRuns.CompletesExactlyOnce: contexts and device handles are numbers that are never used again, where the source compares addresses that an allocator may reuse; adding a timeout is taken to succeed; completion callbacks do not call the tool again while it reports. A freed device record stays readable in `handles`, so what it says of a run in which a context has lost its device is not what the source does; as long as Home holds there is no such context.
- ObtTool.ObtTool.FreeOtmCtx: the freed device record stays readable in `handles`; ObtHandles says when another context would still read it.
- ObtTool.ObtTool.FreeHardResetCtx: as FreeOtmCtx.
- ObtTool.ObtTool.OnDiscovery: the device's endpoints, and the second request that asks for them and keeps a pointer to the device while it is unanswered.
- ObtKeys.OutcomeDecidesCredential: assumes that nobody starts a second procedure on a device in transfer and that a device picks a UUID new to the tool; otherwise another credential for the same UUID may exist or be removed. What is said of freed records under CompletesExactlyOnce holds here too.
- ObtTool.ObtTool.HardResetCb: the source does not look its context up before use; the invariant (NextKeeps) shows that it is there.
- Transfer.UndisturbedTransfer: assumes that the first request passes the device's access control, as it does for anybody while the default entries stand, and that memory and randomness do not fail.
- PostedAces.PostedEntryGrants: takes memory not to fail, and an entry without an identifier to have a subject and permission of its own; one that joins a stored entry, and failed allocations, have what UpdateAce and PostedAceIdsDistinct say.
- ProvisionRun.ProvisioningSucceeds: the same of the entry, and answers that arrive; any other answer has what SwitchAnswer and AceAnswer say.
- Endpoint.ParseEndpoint: DNS lookup of host names is not modelled; an unsigned long is taken to have 64 bits; a text whose last colon comes before the end of its scheme makes the source read outside it and is told apart as undefined.
- Endpoint.Print: an endpoint with neither address family, for which the source returns -1, is not a value of the model; flags are booleans, not bits.
- Query.GetQueryValue: case is folded for ASCII letters only.
- Blockwise.Buffer.Dispatch: offsets and sizes are unbounded; in the source they fit 32 bits as long as the payload does.
- Pem.Serialize: the memory at the output buffer is taken to hold the text and its terminator, which may reach past the announced length.
- Base64.Encode: for an empty input the source stores a terminator at the first byte of the buffer before it looks at anything else; a buffer without a byte is excluded.
- Etimer.TimerList.Poll: the clock stands still during one poll.
- oc_list, oc_memb and oc_process are not part of this model: lists are sequences, except in the timer list, pools are allocation that may fail, and posting an event is accepted or refused.
