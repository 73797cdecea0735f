# Open Mod audit trail, modelled in Dafny

Open Mod is a Reddit (Devvit) app that keeps a public audit trail of a
community's moderation. When a moderator removes, approves or marks a post or
comment as spam, or bans, unbans, mutes or unmutes a user, the app can publish
a post describing the action in a target community. It files the post in a
key/value store (Redis): the thing under the user it concerns, the post under
the thing, and an audit record under the post. Under the content-deletion
policy, a user's own deletion of a post or comment removes what was filed
about it. A scheduled sweep probes the users on a candidate list and, for
every departed account, removes everything filed about the things that user
authored.

The model covers these modules of the app:

- `Text`: JavaScript's `trim`, `split`, `join`, `includes` and decimal rendering.
- `Types`: action types, `t1_`/`t2_`/`t3_` identifiers, cached snapshots,
  the current `Extract` shapes, and the v1 record with its hash encoding.
- `Constants`: store key names and fixed values.
- `Store`: the store as an immutable value with its single-key primitives.
- `Events`: the platform events.
- `Audit`: the event interpretation.
- `Settings`: settings parsing and validation.
- `Utility`: event dedup and account-list membership.
- `CdpEnforcement`: content-deletion enforcement and the sweep.
- `Disclosure`: the extract publishing path.
- `Handlers`: the two event handlers.

Every operation is pure. It takes the store and returns the new store together
with the platform calls it made (`Effect`: a submitted or an edited post). The
following are parameters:

- whatever the platform would be asked (the account directory, the live
  snapshots of things, the account probe);
- the clock, and the id the platform gives a new post;
- the preflight verdict;
- the title phrase tables.

A thrown exception becomes a `Failure` value, and the store writes made before
the throw are kept.

Where the code and its documentation differ, the model follows the code:

- The moderation-action handler writes its audit record in the v1 shape
  (`thingId`, actor by username). The disclosure path reports such records as
  legacy and does not read them.
- The settings parser splits the exclusion lists, so the exclusion filters
  test list membership, not substrings. An exclusion list that was never set
  makes the split throw, after the event's dedup sentinel is written.
- The moderation-action handler chooses the permalink as written (see
  Findings). An event without a post therefore fails after its thing is filed
  under the user, and is never published.
- `distilEvent` in `src/extract.ts` cannot run as written (see Findings). The
  model's `Disclosure.DistilEvent` follows the evident intent of each branch.

## Model

| member | source | states |
|---|---|---|
| Text.TrimStart | src/settings.ts:112-113 | the result is a suffix of the input, the dropped prefix is all white space, and the result does not start with white space |
| Text.TrimEnd | src/settings.ts:112-113 | the result is a prefix of the input, the dropped suffix is all white space, and the result does not end with white space |
| Text.TrimIsWhitespaceFramedSlice | src/settings.ts:124-125 | `trim` returns a slice of the input with only white space cut from either end, and with no white space at either end |
| Text.TrimIdempotent | src/settings.ts:112-113 | trimming twice is trimming once |
| Text.Split | src/settings.ts:112-113 | a split on a one-character separator never returns an empty list, and no piece contains the separator |
| Text.JoinSplit | src/settings.ts:112-113 | joining the pieces of a split with the separator gives back the original string |
| Text.SplitCount | src/settings.ts:112-113 | a split has exactly one more piece than the separator has occurrences |
| Text.NatToString | src/handlers.ts:101 | the decimal rendering of a timestamp is a non-empty run of digits |
| Text.ParseNatToString | src/handlers.ts:101 | the decimal rendering reads back as the number it came from |
| Text.NatToStringInjective | src/audit.ts:81 | different timestamps render to different text |
| Types.ParseModActionType | src/types.ts:3-14 | a string is accepted only as the wire name of the action it yields |
| Types.ParseModActionTypeRoundTrip | src/types.ts:3-14 | every action's wire name parses back to that action |
| Types.ModActionTypesAreTenDistinctValues | src/types.ts:3-14 | there are exactly ten actions and their wire names are pairwise distinct |
| Types.ParseThingID | src/types.ts:16-19 | an identifier is accepted only as the rendering of the id it yields |
| Types.ThingIDRoundTrip | src/types.ts:16-19 | every identifier renders to a string that parses back to it |
| Types.ThingIDKindByPrefix | src/types.ts:16-19 | a string is a thing id exactly when it starts with `t1_`, `t2_` or `t3_`, and the prefix decides the kind |
| Types.ParseUserID | src/types.ts:17 | a string is accepted as an account id only as that id's rendering |
| Types.ParseLinkID | src/types.ts:18 | a string is accepted as a post id only as that id's rendering |
| Types.ParseCommentID | src/types.ts:16 | a string is accepted as a comment id only as that id's rendering |
| Types.ParseUserIDRoundTrip | src/types.ts:17 | every account id parses back from its rendering |
| Types.ParseLinkIDRoundTrip | src/types.ts:18 | every post id parses back from its rendering |
| Types.ParseCommentIDRoundTrip | src/types.ts:16 | every comment id parses back from its rendering |
| Types.ExtractShapes | src/types.ts:80-128 | only the bare remove-link shape lacks a target; `link` goes with link actions and `comment` with comment actions; both imply a target and exclude each other; exactly ban and mute carry a length |
| Types.EncodeExtract | src/types.ts:118-128 | a stored extract has a `target`, `link` or `comment` field exactly when the extract has that field, and never looks like a v1 record |
| Types.DecodeExtract | src/extract.ts:7-9 | a record with a `thingId` field is reported as legacy; whatever decodes is a well-formed extract |
| Types.ExtractRoundTrip | src/types.ts:80-116 | reading back a stored extract gives the same extract |
| Types.V1RecordIsLegacy | src/extract.ts:7-9 | every v1 record is recognised as v1 and reported as legacy |
| Types.IsExtractV1 | src/extract.ts:7-9 | a record is taken for v1 when it has a `thingId` field; `Types.V1RecordIsLegacy` and `Types.EncodeExtract` state that v1 records are and current ones never are |
| Constants.KeyNameStartsWithFamilyPrefix | src/constants.ts:6-16 | each key's name starts with its family's prefix (`user:`, `mod-actions:`, `audit:`) |
| Constants.KeyNameInjective | src/constants.ts:3-16 | two different keys never share a name |
| Constants.FixedValues | src/constants.ts:3-18 | the batch size is 50, there are four special account names, and the key names have the documented forms |
| Store.ZAdd | src/handlers.ts:80-81 | the member is inserted, or its score is overwritten; no other key changes |
| Store.ZRem | src/cdpEnforcement.ts:80 | the given members are removed from one sorted set; no other key changes |
| Store.ZDel | src/cdpEnforcement.ts:53 | the sorted set reads as empty afterwards; no other key changes |
| Store.HSet | src/handlers.ts:104 | the given fields are written and the hash's other fields are kept; no other key changes |
| Store.HDelAll | src/cdpEnforcement.ts:40-42 | exactly the given hash keys are gone; nothing else changes |
| Store.Uncache | src/cdpEnforcement.ts:29 | the thing's snapshot is gone; every other snapshot and every other key is unchanged |
| Store.EnumerationCount | src/cdpEnforcement.ts:62-63 | a range read that lists each member once has as many entries as the set has members |
| Audit.ResolveAccountInformation | src/audit.ts:10-23 | the special platform names count as admin accounts; any other name is kept, and counts as admin exactly when the directory marks it so |
| Audit.RedactedAccountIsAntiEvil | src/audit.ts:10-23 | the redaction placeholder resolves to the admin account "Anti-Evil Operations" whatever the directory says |
| Audit.HumanReadableModActionType | src/audit.ts:25-50 | a phrase exists exactly for the ten known actions, and it is never empty |
| Audit.LockHasNoPhrase | src/audit.ts:25-50 | `lock` and `unlock` have no phrase |
| Audit.ResolveThingIdFromModActionEvent | src/audit.ts:52-74 | a resolved thing id is the id of one of the event's targets; a failure is a missing target or an unsupported action, and it is unsupported exactly for an action that is not one of the ten nor lock or unlock |
| Audit.ThingIdFollowsActionFamily | src/audit.ts:52-74 | the thing id is the post id for link actions, the comment id for comment actions and the user id for ban, unban, mute and unmute; it fails when that target is absent; any other action except lock and unlock is unsupported |
| Audit.ResolveModActionId | src/audit.ts:76-82 | the id fails exactly when the action, the time or the target user id is missing; otherwise it is the action name followed by digits that read back as the timestamp |
| Audit.ModActionIdIdentifiesActionAndTime | src/audit.ts:76-82 | two events with digit-free action names share an id only when they have the same action and the same time |
| Audit.ActionNamesHaveNoDigits | src/types.ts:3-14 | no action name contains a digit, so the previous lemma covers every action |
| Audit.ResolveThingIdFromSubmissionDeleteEvent | src/audit.ts:84-90 | a comment deletion is about its comment, a post deletion about its post |
| Audit.DeletionNamesAuditedThing | src/audit.ts:52-90 | deleting the comment of a comment action, or the post of a post action, resolves to the thing id the action was filed under |
| Audit.GeneratePostText | src/audit.ts:97-122 | the text exists exactly for the ten known actions, and the title is the moderator's name followed by the action's phrase |
| Audit.PostTextLines | src/audit.ts:97-122 | the body splits on newlines into header, author, moderator and action lines, separated by blank lines, followed by the permalink block exactly when there is a non-empty permalink |
| Audit.SplitJoinLines | src/audit.ts:105-118 | lines with no separator in them are recovered by splitting their join |
| Audit.AdminMarkerIffAdmin | src/audit.ts:101-102 | an author or moderator line ends in `(Admin)` exactly for admin accounts |
| Audit.PermalinkAsWrittenThrowsWithoutPost | src/audit.ts:124-136 | as written, a ban event with no post and no comment throws when the permalink is read |
| Audit.ExtractPermalinkAsWritten | src/audit.ts:124-136 | as written, the choice throws exactly when there is no post, or the post's permalink is empty and there is no comment; a chosen permalink is never empty |
| Audit.ExtractPermalinkFromModActionEvent | src/audit.ts:124-136 | the permalink is the post's when it is non-empty, else the comment's when that is non-empty, else none; it is never empty |
| Audit.PermalinkAgreesWhereDefined | src/audit.ts:124-136 | wherever the as-written choice does not throw, it agrees with the intended one; it never throws when both a post and a comment are present |
| Settings.ModerationActionOptionsShape | src/settings.ts:70-84 | there are twelve distinct selectable values; the default selection is drawn from them; all ten action types are selectable |
| Settings.ModerationActionOptionsAsWrittenShape | src/settings.ts:70-84 | as written there are twelve distinct values, the default selection is drawn from them, and an action type's wire name is among them exactly when it is not comment approval |
| Settings.ApproveCommentNeverSelectableAsWritten | src/settings.ts:76 | with the options as written, no selection contains `approvecomment` |
| Settings.HasAtLeastOneOptionSelected | src/settings.ts:21-25 | the selector reports an error exactly when nothing is selected |
| Settings.SplitAndTrim | src/settings.ts:112-113 | one entry per split piece, each the trimmed piece |
| Settings.SplitAndTrimShape | src/settings.ts:112-113 | one more entry than there are commas; no entry contains a comma or has white space at either end |
| Settings.TrimKeepsOnlyOriginalChars | src/settings.ts:32 | trimming never introduces a character |
| Settings.InvalidOf | src/settings.ts:32 | the reported names are exactly the listed names that fail the username pattern |
| Settings.NothingInvalid | src/settings.ts:32-35 | nothing is reported exactly when every listed name matches the pattern |
| Settings.ListOfExcludedUsersIsValid | src/settings.ts:27-36 | a blank value is accepted; otherwise the value is accepted exactly when every name matches the pattern, and a rejection lists the invalid names |
| Settings.ValidNamesNeverReported | src/settings.ts:32 | a valid name is never reported, whatever else is on the list |
| Settings.GetAppSettings | src/settings.ts:88-115 | reading fails exactly when an exclusion list was never set (the lists have no default), naming the moderators' list first; otherwise both lists are parsed as comma lists and the other settings pass through unchanged |
| Settings.ClearedListExcludesNobody | src/settings.ts:112-113 | with both lists set but empty, the settings read and exclude no non-empty name |
| Settings.IsMinimallyConfigured | src/settings.ts:123-136 | an installation is unusable exactly when its destination is blank after trimming or no action is selected |
| Settings.BlankDestinationIsNotConfigured | src/settings.ts:123-128 | a destination made only of white space is not configured |
| Utility.EventHasBeenProcessed | src/utility.ts:75-86 | reports whether the sentinel was already set; afterwards it is set; a seen event changes nothing; otherwise only the sentinel is written |
| Utility.DedupTwice | src/utility.ts:75-86 | of two deliveries, the first is new and the second is a duplicate that writes nothing |
| Utility.IsModerator | src/utility.ts:6-9 | true exactly when some moderator's name is one of the given names |
| Utility.IsApprovedUserOf | src/utility.ts:11-14 | true exactly when some approved user's name is one of the given names |
| Utility.AnyListed | src/utility.ts:6-14 | true exactly when some listed account is one of the given names |
| Utility.ListArgumentAgrees | src/utility.ts:6-14 | with a list argument, `includes` as written and the membership test agree |
| Utility.SingleNameMatchesSubstrings | src/utility.ts:11-14 | with a single-name argument, `includes` as written counts the approved user `open` as a match for `openmod` |
| CdpEnforcement.IsUserActive | src/cdpEnforcement.ts:18-25 | a user is active exactly when the lookup returns an account; a throw counts as inactive |
| CdpEnforcement.EnforceThing | src/cdpEnforcement.ts:28-43 | the thing's snapshot and record set are gone, as is every audit record named in that set; nothing else changes; with nothing filed, only the snapshot goes |
| CdpEnforcement.CascadeStep | src/cdpEnforcement.ts:55-58 | forgetting one more thing extends a partial cascade by that thing |
| CdpEnforcement.EnforceContentDeletionPolicyForUser | src/cdpEnforcement.ts:46-59 | with nothing tracked, nothing changes; otherwise the user's tracking set goes, every thing in it is forgotten, and nothing else changes |
| CdpEnforcement.ForgetThings | src/cdpEnforcement.ts:55-58 | forgetting the remaining things completes a partial cascade |
| CdpEnforcement.CascadeEmptiesTrackingSet | src/cdpEnforcement.ts:53 | after the cascade the user's tracking set is empty, so running it again finds nothing |
| CdpEnforcement.CascadeIsComplete | src/cdpEnforcement.ts:46-59 | after the cascade, no record filed under a thing the user authored remains, and neither do the thing's record set or snapshot |
| CdpEnforcement.CascadeCompose | src/cdpEnforcement.ts:82-85 | cascading users one after another equals the cascade for all of them together |
| CdpEnforcement.Batch | src/cdpEnforcement.ts:70 | the batch is the first fifty due users, or all of them when fewer are due |
| CdpEnforcement.ProbeBatch | src/cdpEnforcement.ts:71-78 | the batch splits into active users and inactive users by the probe |
| CdpEnforcement.Requeue | src/cdpEnforcement.ts:73-76 | active users are (re)added with the new due time; other candidates keep theirs; no other key changes |
| CdpEnforcement.CascadeAll | src/cdpEnforcement.ts:82-85 | cascading the users in turn gives the cascade for the whole set |
| CdpEnforcement.CascadeRespectsSameContents | src/cdpEnforcement.ts:46-59 | the cascade depends only on what the store primitives read |
| CdpEnforcement.EnforceContentDeletionPolicy | src/cdpEnforcement.ts:61-98 | an empty due list changes nothing; active users of the batch are re-queued and inactive ones are removed and cascaded; a follow-up run is requested exactly when more than a batch was due |
| CdpEnforcement.ApplyProbes | src/cdpEnforcement.ts:73-81 | re-queueing and removal give the requeued candidate list and leave every other key alone |
| CdpEnforcement.BatchIsDue | src/cdpEnforcement.ts:62-70 | every user of the batch is a candidate |
| CdpEnforcement.CascadeKeepsCandidates | src/cdpEnforcement.ts:82-85 | a cascade never touches the candidate list |
| CdpEnforcement.RequeuedOutcome | src/cdpEnforcement.ts:73-81 | each probed user ends up re-queued at the new time if active and off the list if not; everyone else keeps their due time |
| CdpEnforcement.BatchIsEarliestDue | src/cdpEnforcement.ts:70 | nobody left waiting was due before anyone in the batch |
| CdpEnforcement.SweepDrainsDueSet | src/cdpEnforcement.ts:61-98 | when re-queued users fall due after now, a run shrinks the due set by exactly the batch |
| Disclosure.GetCached | src/extract.ts:21 | a cached snapshot of the right kind is returned unchanged; otherwise the platform's snapshot is fetched and cached; absence is reported and changes nothing |
| Disclosure.ReadThroughIsStable | src/extract.ts:94-111 | a second read of the same thing is a cache hit that changes nothing |
| Disclosure.DistilEvent | src/extract.ts:16-76 | the moderator and action must be present and the moderator must resolve; link and comment actions target the author of the cached post or comment; ban and mute target the event's user with an empty length; unban and unmute target the user only; other actions fail |
| Disclosure.DistilEventAsWritten | src/extract.ts:26-73 | as written, distillation never succeeds: every supported action throws once the moderator has resolved |
| Disclosure.DistilAsWrittenLosesEveryAction | src/extract.ts:54-62 | a ban by a known moderator distils to a ban extract under the intended reading and throws as written |
| Disclosure.AssociationKey | src/extract.ts:170-177 | an extract is filed under its link, else its comment, else its target, and the key's kind says which |
| Disclosure.AssociationKeyAgreesWithAudit | src/extract.ts:170-177 | the thing an extract is filed under is the thing id the audit path resolves for the same event |
| Disclosure.Augment | src/extract.ts:94-111 | the snapshots the extract names are read and returned; every one the platform has is cached, even when the actor is missing, and nothing cached is dropped; a missing actor fails, and a cached actor never does |
| Disclosure.ThingIDKindsRenderApart | src/types.ts:16-19 | a link or comment id never renders the same as an account id |
| Disclosure.WriteTitle | src/extract.ts:113-118 | the title starts with `u/<actor> ` and ends with ` r/<community>` |
| Disclosure.DiscloseExtract | src/extract.ts:137-181 | an extract without a target is skipped; a publication submits one post, files it under the extract's key and stores the extract under the post; nothing else changes |
| Disclosure.Disclose | src/extract.ts:161-181 | a failed distillation publishes and records nothing; a success is one submitted post |
| Disclosure.DisclosedExtractReadsBack | src/extract.ts:179-180 | with a fresh post id, the post is filed under the event's thing and its record reads back as the published extract |
| Disclosure.UpdatePublishedExtract | src/extract.ts:151-159 | a missing record or a v1 record fails without editing; a success edits exactly that post |
| Disclosure.UpdateDisclosures | src/extract.ts:183-193 | nothing is filed, nothing happens; otherwise the filed posts are edited one at a time in listing order, stopping at the first failure, and a success edits every one |
| Disclosure.UpdatesOnlyEditFiledPosts | src/extract.ts:183-193 | re-rendering never submits, edits only posts filed under the thing, and edits each at most once |
| Handlers.HandleCommentOrPostDeleteEvent | src/handlers.ts:9-31 | nothing happens after failed preflight or for deletions not made by the user; a repeat id is skipped; otherwise the dedup sentinel is set and the thing is enforced away: its post set, its audit records and its snapshot go, and every other key is unchanged |
| Handlers.SkipReasonOf | src/handlers.ts:50-74 | an action is recorded exactly when every settings filter passes |
| Handlers.SkipReasonsFollowSettings | src/handlers.ts:50-74 | admin actions are skipped exactly when admin recording is off; an admin action passing the other filters is recorded when admin recording is on; an unselected action is always skipped |
| Handlers.AdminModeratorSkippedExactlyWhenAdminsOff | src/handlers.ts:49-53 | a platform account or one the directory marks as admin is skipped for being an admin exactly when admin actions are not recorded |
| Handlers.EmptySelectionSkipsEveryEvent | src/handlers.ts:71-74 | with the selection the settings form rejects (nothing selected), every event is skipped |
| Handlers.EmptySelectionNeverPublishes | src/handlers.ts:71-74 | with nothing selected, the handler never publishes |
| Handlers.AuditRecord | src/handlers.ts:96-102 | the audit record holds the action, the moderator's name and the thing id, the permalink or "", and the time as decimal digits that read back as the timestamp |
| Handlers.HandleModActionEvent | src/handlers.ts:33-106 | nothing happens after failed preflight, for an event missing required fields, or for a repeat; unreadable settings fail with only the sentinel written; only a recorded action publishes, and it publishes one post in the target community |
| Handlers.RecordAction | src/handlers.ts:76-105 | the thing is always filed under the user first; recording fails exactly when the as-written permalink choice throws or the action has no phrase, and then nothing else is written; otherwise one post is submitted and filed under the thing, and its audit record is stored |
| Handlers.SkippedEventWritesOnlySentinel | src/handlers.ts:50-74 | a skipped event writes only its dedup sentinel and publishes nothing |
| Handlers.RecordedEventWrites | src/handlers.ts:80-104 | a recorded action writes three things besides its sentinel (the thing under the user, the post under the thing, the v1 record under the post), both with score `actionedAt`; nothing else changes |
| Handlers.SecondDeliveryIsNoOp | src/handlers.ts:40-45 | a second delivery of the same event writes nothing and publishes nothing |
| Handlers.SentinelSurvivesHandling | src/handlers.ts:40-45 | after handling an event with a valid id, its sentinel is set |
| Handlers.DeletionUndoesRecording | src/handlers.ts:9-31 | a user deletion after a recorded action removes the thing's record set and the audit record that was written |
| Handlers.RecordedEventIsLegacyForRerendering | src/handlers.ts:96-104 | the record the handler writes is in the v1 shape, which re-rendering reports as legacy and does not edit |
| Handlers.RecordedThroughRecordAction | src/handlers.ts:33-106 | a recorded event passed every check and is the outcome of recording on the store with its sentinel set |
| Handlers.RecordedUnderModeratorName | src/handlers.ts:85-104 | a recorded action's title starts with the moderator's resolved name, and a new audit record names it as the actor |
| Handlers.RedactedModeratorRecordedAsAntiEvil | src/handlers.ts:49-89 | an action by the redacted account is published under the name "Anti-Evil Operations" |
| Handlers.RedactedModeratorAuditedAsAntiEvil | src/handlers.ts:96-104 | the audit record of such an action has "Anti-Evil Operations" as its actor |
| Handlers.EventWithoutPostIsNeverPublished | src/handlers.ts:84-89 | as written, an event without a post is never published |
| Handlers.BanAsWrittenFailsAfterFilingThing | src/handlers.ts:76-85 | a ban that passes every filter files the thing under the user and then fails, publishing and auditing nothing |

## Left out

- `src/temporal.ts`, `src/main.tsx` and `src/installEvents.ts` are not part of this model. They hold scheduling, registration and installation glue.
- `src/redis.ts` is not part of this model. The helpers `cdpEnforcement.ts` and `extract.ts` import from it are modelled by these assumptions:
  - a sorted set read returns its members;
  - an absent sorted set reads as empty;
  - `getCached*` reads through the cache to the platform;
  - `addModAction` uses score `now`;
  - the candidate list's due read is the members scored at or below `now`, in ascending order;
  - `addCdpEnforcement` is a `ZAdd` of each user at the renewal time, and `stopCdpEnforcement` a `ZRem`;
  - `deleteTrackingSet` and `deleteModAction` delete a sorted set, `deleteExtract` a hash, and `deleteCachedThing` a snapshot;
  - `addModAction` is a `ZAdd` and `addExtract` an `HSet` of the encoded extract;
  - `getExtract` decodes the stored hash, and reports a v1 record as legacy rather than upgrading it.
- `appPassesPreflightChecks` (`src/utility.ts:21-62`) is an input boolean. It queries the platform and the settings.
- The settings form definition and the reading of the settings store are left out. The raw values come in as `RawSettings`, where an exclusion list that was never set is `None`.
- `Promise.all` in the sweep is modelled as probing in batch order. The probes are independent, so order does not matter.
- The sentinel TTL (28 days) and every log line are left out. Expiry is a clock effect.
- `getAppUser` in the sweep is left out. Its result is unused.
- `upgradeExtract` is left out. It refers to an undefined value, and nothing calls it.
- `Disclosure.DistilEvent` takes the actor's id from the event's moderator, because a cached account snapshot carries no id.
- `writeBody` is a stub that returns "". It is modelled as such.
- The phrase tables `MOD_ACTION_PAST_SIMPLE` and `MOD_ACTION_PREPOSITION` are parameters of `Disclosure.WriteTitle`. `src/extract.ts:4` imports them, but `src/constants.ts` does not define them.
- The `updateDisclosure` call at `src/cdpEnforcement.ts:37` is left out. `src/extract.ts` exports only `updateDisclosures` (`Disclosure.UpdateDisclosures`), and the import at line 5 names nothing.
- Identifier casts (`as UserID`, `as LinkID`) are checked parses in the model. An id without the right prefix is a failure rather than a mistyped value.
- Timestamps are unbounded naturals (milliseconds). JavaScript's number precision is not modelled.
- Disclosure.WriteTitle: states the fixed prefix and suffix only. The middle comes from the phrase tables, which are not part of the source.

## Findings

| source | as written | input that shows it | evidently intended | confidence | as-written member | corrected member |
|---|---|---|---|---|---|---|
| src/settings.ts:76 | the comment-approval option's value is `approveComment` | selecting "Comment Approved" stores `approveComment`, and events carry `approvecomment`, so the selection test at src/handlers.ts:71 never matches | the value `approvecomment`, as the other options spell their actions | high (not executed) | Settings.ApproveCommentNeverSelectableAsWritten | Settings.ModerationActionOptionsShape |
| src/audit.ts:124-136 | `targetPost?.permalink !== ''` is true when the post is absent, and `targetPost!.permalink` then throws | a ban event with neither a post nor a comment; in the handler it fails after filing the thing under the user (`Handlers.BanAsWrittenFailsAfterFilingThing`) | skip an absent post, then an absent comment, and return undefined for user actions | medium (not executed) | Audit.PermalinkAsWrittenThrowsWithoutPost | Audit.ExtractPermalinkFromModActionEvent |
| src/utility.ts:6-14 | `username.includes(name)` is a substring test when a single name is passed | approved user `open`, argument `openmod` | membership of the account name among the given names | medium (not executed) | Utility.SingleNameMatchesSubstrings | Utility.IsApprovedUserOf |
| src/extract.ts:26-73 | every branch reads `extract.type` or `extract.thingId` before `extract` is assigned | a `banuser` event by a cached moderator | take the action from the event and the thing from the event's post, comment or user | high (not executed) | Disclosure.DistilEventAsWritten | Disclosure.DistilEvent |
