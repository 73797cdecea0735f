/**
 * The two event handlers: a user's own deletion of a post or comment triggers
 * content-deletion enforcement for it, and a moderation action is filtered by
 * the installation's settings and, when recorded, published as a post in the
 * target community with three store writes filing it.
 *
 * The preflight result, the settings as stored, the platform's account
 * directory, the clock and the id the platform gives the new post are inputs.
 */
module Handlers {
  import opened Wrappers
  import opened Text
  import opened Types
  import opened Constants
  import opened Store
  import opened Events
  import opened Audit
  import opened Settings
  import opened Utility
  import opened CdpEnforcement
  import Disclosure

  /** Why a moderation action was not recorded although the event is new. */
  datatype SkipReason = AdminAction | AutoModeratorAction | ExcludedModerator | ExcludedUser | ActionNotSelected

  datatype Status =
    | PreflightFailed
    | NotUserDeletion
    | AlreadyProcessed
    | Enforced
    | Skipped(reason: SkipReason)
    | Recorded(post: string)
    | Failed(error: AuditError)
    | SettingsUnreadable(why: SettingsError)
    | MissingModerator

  /** What handling an event did: how it ended, the store afterwards, and the posts it submitted. */
  datatype Handled = Handled(status: Status, store: Store, effects: seq<Effect>)

  /**
   * A user's own deletion of a thing: after preflight, and only for deletions
   * with source 1, the thing id is deduplicated and, when new, its records are
   * enforced away.
   */
  function HandleCommentOrPostDeleteEvent(s: Store, e: DeleteEvent, preflight: bool, now: nat): (r: Handled)
    ensures r.effects == []
    ensures !preflight ==> r == Handled(PreflightFailed, s, [])
    ensures preflight && e.source != 1 ==> r == Handled(NotUserDeletion, s, [])
    ensures preflight && e.source == 1 && SentinelSet(s, ResolveThingIdFromSubmissionDeleteEvent(e)) ==>
      r == Handled(AlreadyProcessed, s, [])
    ensures r.status == Enforced <==>
      preflight && e.source == 1 && !SentinelSet(s, ResolveThingIdFromSubmissionDeleteEvent(e))
    ensures r.status == Enforced ==> var thing := ResolveThingIdFromSubmissionDeleteEvent(e);
      && SentinelSet(r.store, thing)
      && thing !in r.store.cache
      && Members(r.store, ModActionsKey(thing)) == {}
      && (forall p :: p in Members(s, ModActionsKey(thing)) ==> AuditKey(p) !in r.store.hashes)
    ensures r.status == Enforced ==> var thing := ResolveThingIdFromSubmissionDeleteEvent(e);
      && (forall k :: k != ModActionsKey(thing) ==> ZGet(r.store, k) == ZGet(s, k))
      && r.store.hashes == s.hashes - AuditKeys(Members(s, ModActionsKey(thing)))
      && r.store.cache == s.cache - {thing}
      && (forall k :: k != EventKey(thing) ==> (k in r.store.strings <==> k in s.strings))
      && (forall k :: k != EventKey(thing) && k in s.strings ==> r.store.strings[k] == s.strings[k])
  {
    if !preflight then Handled(PreflightFailed, s, [])
    else if e.source != 1 then Handled(NotUserDeletion, s, [])
    else
      var thing := ResolveThingIdFromSubmissionDeleteEvent(e);
      var d := EventHasBeenProcessed(s, thing, now);
      if d.seen then Handled(AlreadyProcessed, s, [])
      else
        assert Members(d.store, ModActionsKey(thing)) == Members(s, ModActionsKey(thing));
        Handled(Enforced, EnforceThing(d.store, thing), [])
  }

  /** The settings filters in the order they are applied; `None` when the action is to be recorded. */
  function SkipReasonOf(settings: AppSettings, mod: AccountInformation, user: AccountInformation, action: string)
    : (r: Option<SkipReason>)
    ensures r.None? <==>
      && (settings.recordAdminActions || !mod.isAdmin)
      && (settings.recordAutoModeratorActions || mod.username != "AutoModerator")
      && mod.username !in settings.excludedModerators
      && user.username !in settings.excludedUsers
      && action in settings.moderationActions
  {
    if !settings.recordAdminActions && mod.isAdmin then Some(AdminAction)
    else if !settings.recordAutoModeratorActions && mod.username == "AutoModerator" then Some(AutoModeratorAction)
    else if mod.username in settings.excludedModerators then Some(ExcludedModerator)
    else if user.username in settings.excludedUsers then Some(ExcludedUser)
    else if action !in settings.moderationActions then Some(ActionNotSelected)
    else None
  }

  /** The audit record of a recorded action, in the v1 shape. */
  function AuditRecord(e: ModActionEvent, mod: AccountInformation, thingId: string, permalink: Option<string>): (v: ExtractV1)
    requires e.actionedAt.Some?
    ensures v.action == e.action && v.actor == mod.username && v.thingId == thingId
    ensures v.permalink == (if permalink.Some? then permalink.value else "")
    ensures AllDigits(v.createdAt) && ParseNat(v.createdAt) == e.actionedAt.value
  {
    ParseNatToString(e.actionedAt.value);
    ExtractV1(e.action, mod.username, thingId, if permalink.Some? then permalink.value else "",
              NatToString(e.actionedAt.value))
  }

  /**
   * A moderation action: after preflight it is deduplicated by its action id;
   * a new event has the settings read (which fails on an unset exclusion list)
   * and is filtered by them; an event that passes has its thing filed under the
   * target user with score `actionedAt`, is published as one post in the
   * target community, and has that post filed under the thing and its audit
   * record stored under the post.
   */
  function HandleModActionEvent(s: Store, e: ModActionEvent, preflight: bool, raw: RawSettings,
                                directory: map<string, bool>, newPost: string, now: nat): (r: Handled)
    ensures !preflight ==> r == Handled(PreflightFailed, s, [])
    ensures preflight && ResolveModActionId(e).Failure? ==> r == Handled(Failed(MissingRequiredFields), s, [])
    ensures preflight && ResolveModActionId(e).Success? && SentinelSet(s, ResolveModActionId(e).value) ==>
      r == Handled(AlreadyProcessed, s, [])
    ensures (preflight && ResolveModActionId(e).Success? && !SentinelSet(s, ResolveModActionId(e).value) &&
             GetAppSettings(raw).Failure?) ==>
      r == Handled(SettingsUnreadable(GetAppSettings(raw).error),
                   EventHasBeenProcessed(s, ResolveModActionId(e).value, now).store, [])
    ensures !r.status.Recorded? ==> r.effects == []
    ensures r.status.Recorded? ==>
      && r.status.post == newPost
      && GetAppSettings(raw).Success?
      && |r.effects| == 1 && r.effects[0].Submitted?
      && r.effects[0].subreddit == raw.targetSubreddit
  {
    if !preflight then Handled(PreflightFailed, s, [])
    else match ResolveModActionId(e)
      case Failure(err) => Handled(Failed(err), s, [])
      case Success(id) =>
        var d := EventHasBeenProcessed(s, id, now);
        if d.seen then Handled(AlreadyProcessed, s, [])
        else match GetAppSettings(raw)
          case Failure(why) => Handled(SettingsUnreadable(why), d.store, [])
          case Success(settings) =>
            if e.moderator.None? then Handled(MissingModerator, d.store, [])
            else
              var mod := ResolveAccountInformation(e.moderator.value.name, directory);
              var user := ResolveAccountInformation(e.targetUser.value.name, directory);
              match SkipReasonOf(settings, mod, user, e.action)
              case Some(reason) => Handled(Skipped(reason), d.store, [])
              case None =>
                match ResolveThingIdFromModActionEvent(e)
                case Failure(err) => Handled(Failed(err), d.store, [])
                case Success(thingId) => RecordAction(d.store, e, mod, user, thingId, newPost, settings.targetSubreddit)
  }

  /**
   * The writes and the post of an action that passed every filter: the thing
   * under the target user; then the permalink choice as written, which throws
   * for an event without a post, or without a comment when the post's
   * permalink is empty; then the post text, which fails for an action without
   * a phrase; then the submission, the post under the thing and the audit
   * record under the post. A failure keeps the first write.
   */
  function RecordAction(s: Store, e: ModActionEvent, mod: AccountInformation, user: AccountInformation,
                        thingId: string, newPost: string, subreddit: string): (r: Handled)
    requires e.targetUser.Some? && e.actionedAt.Some?
    ensures var userKey := UserKey(e.targetUser.value.id);
      && ZGet(r.store, userKey) == ZGet(s, userKey)[thingId := e.actionedAt.value]
      && r.store.strings == s.strings && r.store.cache == s.cache
    ensures r.status.Recorded? || r.status.Failed?
    ensures r.status.Failed? <==> ExtractPermalinkAsWritten(e).Failure? || ParseModActionType(e.action).None?
    ensures ExtractPermalinkAsWritten(e).Failure? ==> r.status == Failed(ExtractPermalinkAsWritten(e).error)
    ensures r.status.Failed? ==>
      && r.effects == [] && r.store.hashes == s.hashes
      && (forall k :: k != UserKey(e.targetUser.value.id) ==> ZGet(r.store, k) == ZGet(s, k))
    ensures r.status.Recorded? ==>
      && r.status.post == newPost
      && r.effects == [Submitted(subreddit, GeneratePostText(e.action, mod, user, ExtractPermalinkFromModActionEvent(e)).value.title,
                                 GeneratePostText(e.action, mod, user, ExtractPermalinkFromModActionEvent(e)).value.text)]
      && ZGet(r.store, ModActionsKey(thingId)) == ZGet(s, ModActionsKey(thingId))[newPost := e.actionedAt.value]
      && (forall k :: k != UserKey(e.targetUser.value.id) && k != ModActionsKey(thingId) ==> ZGet(r.store, k) == ZGet(s, k))
      && AuditKey(newPost) in r.store.hashes && IsExtractV1(r.store.hashes[AuditKey(newPost)])
      && r.store.hashes[AuditKey(newPost)]["thingId"] == thingId
      && "type" in r.store.hashes[AuditKey(newPost)] && r.store.hashes[AuditKey(newPost)]["type"] == e.action
      && (AuditKey(newPost) !in s.hashes ==>
            r.store.hashes[AuditKey(newPost)] == EncodeV1(AuditRecord(e, mod, thingId, ExtractPermalinkFromModActionEvent(e))))
      && (forall k :: k != AuditKey(newPost) ==> (k in r.store.hashes <==> k in s.hashes))
      && (forall k :: k != AuditKey(newPost) && k in s.hashes ==> r.store.hashes[k] == s.hashes[k])
  {
    var at := e.actionedAt.value;
    var userKey := UserKey(e.targetUser.value.id);
    var s1 := ZAdd(s, userKey, thingId, at);
    match ExtractPermalinkAsWritten(e)
    case Failure(err) => Handled(Failed(err), s1, [])
    case Success(permalink) =>
      PermalinkAgreesWhereDefined(e);
      match GeneratePostText(e.action, mod, user, permalink)
      case Failure(err) => Handled(Failed(err), s1, [])
      case Success(content) =>
        var s2 := ZAdd(s1, ModActionsKey(thingId), newPost, at);
        var s3 := HSet(s2, AuditKey(newPost), EncodeV1(AuditRecord(e, mod, thingId, permalink)));
        assert ZGet(s3, userKey) == ZGet(s1, userKey) by {
          assert userKey != ModActionsKey(thingId);
        }
        Handled(Recorded(newPost), s3, [Submitted(subreddit, content.title, content.text)])
  }

  /** A new event that fails a settings filter writes only its dedup sentinel and publishes nothing. */
  lemma SkippedEventWritesOnlySentinel(s: Store, e: ModActionEvent, raw: RawSettings, directory: map<string, bool>,
                                       newPost: string, now: nat)
    requires HandleModActionEvent(s, e, true, raw, directory, newPost, now).status.Skipped?
    ensures var r := HandleModActionEvent(s, e, true, raw, directory, newPost, now);
      var id := ResolveModActionId(e).value;
      && !SentinelSet(s, id) && SentinelSet(r.store, id)
      && r.store.zsets == s.zsets && r.store.hashes == s.hashes && r.store.cache == s.cache
      && (forall k :: k != EventKey(id) ==> (k in r.store.strings <==> k in s.strings))
      && r.effects == []
  {
  }

  /** The skip reason names the first filter that rejects the event. */
  lemma SkipReasonsFollowSettings(settings: AppSettings, mod: AccountInformation, user: AccountInformation, action: string)
    ensures SkipReasonOf(settings, mod, user, action) == Some(AdminAction) <==>
      !settings.recordAdminActions && mod.isAdmin
    ensures (settings.recordAdminActions && mod.isAdmin && mod.username != "AutoModerator" &&
             mod.username !in settings.excludedModerators && user.username !in settings.excludedUsers &&
             action in settings.moderationActions) ==> SkipReasonOf(settings, mod, user, action).None?
    ensures action !in settings.moderationActions ==> SkipReasonOf(settings, mod, user, action).Some?
  {
  }

  /**
   * A recorded action makes exactly three writes besides its sentinel: the
   * thing under the target user with score `actionedAt` (overwriting an earlier
   * score), the new post under the thing with the same score, and the v1 audit
   * record under the post. Nothing else in the store changes.
   */
  lemma RecordedEventWrites(s: Store, e: ModActionEvent, raw: RawSettings, directory: map<string, bool>,
                            newPost: string, now: nat)
    requires HandleModActionEvent(s, e, true, raw, directory, newPost, now).status.Recorded?
    ensures var r := HandleModActionEvent(s, e, true, raw, directory, newPost, now).store;
      var thingId := ResolveThingIdFromModActionEvent(e).value;
      var userKey := UserKey(e.targetUser.value.id);
      var at := e.actionedAt.value;
      && ResolveThingIdFromModActionEvent(e).Success?
      && ZGet(r, userKey) == ZGet(s, userKey)[thingId := at]
      && ZGet(r, ModActionsKey(thingId)) == ZGet(s, ModActionsKey(thingId))[newPost := at]
      && (forall k :: k != userKey && k != ModActionsKey(thingId) ==> ZGet(r, k) == ZGet(s, k))
      && AuditKey(newPost) in r.hashes && IsExtractV1(r.hashes[AuditKey(newPost)])
      && r.hashes[AuditKey(newPost)]["thingId"] == thingId
      && (forall k :: k != AuditKey(newPost) ==> (k in r.hashes <==> k in s.hashes))
      && r.cache == s.cache
      && SentinelSet(r, ResolveModActionId(e).value)
  {
    var id := ResolveModActionId(e).value;
    var d := EventHasBeenProcessed(s, id, now);
    var mod := ResolveAccountInformation(e.moderator.value.name, directory);
    var user := ResolveAccountInformation(e.targetUser.value.name, directory);
    var thingId := ResolveThingIdFromModActionEvent(e).value;
    var settings := GetAppSettings(raw).value;
    var rec := RecordAction(d.store, e, mod, user, thingId, newPost, settings.targetSubreddit);
    assert HandleModActionEvent(s, e, true, raw, directory, newPost, now) == rec;
  }

  /**
   * Delivering the same moderation event twice records it once: the second
   * delivery finds the sentinel, writes nothing and publishes nothing.
   */
  lemma SecondDeliveryIsNoOp(s: Store, e: ModActionEvent, raw: RawSettings, directory: map<string, bool>,
                             post1: string, post2: string, now1: nat, now2: nat)
    requires ResolveModActionId(e).Success?
    ensures var first := HandleModActionEvent(s, e, true, raw, directory, post1, now1);
      var second := HandleModActionEvent(first.store, e, true, raw, directory, post2, now2);
      second == Handled(AlreadyProcessed, first.store, [])
  {
    var id := ResolveModActionId(e).value;
    var first := HandleModActionEvent(s, e, true, raw, directory, post1, now1);
    SentinelSurvivesHandling(s, e, raw, directory, post1, now1);
  }

  /** Handling an event with a valid id always leaves its sentinel set. */
  lemma SentinelSurvivesHandling(s: Store, e: ModActionEvent, raw: RawSettings, directory: map<string, bool>,
                                 newPost: string, now: nat)
    requires ResolveModActionId(e).Success?
    ensures SentinelSet(HandleModActionEvent(s, e, true, raw, directory, newPost, now).store, ResolveModActionId(e).value)
  {
    var id := ResolveModActionId(e).value;
    var d := EventHasBeenProcessed(s, id, now);
    assert SentinelSet(d.store, id);
  }

  /**
   * A user deletion handled after a recorded action removes what recording
   * wrote about the thing: its post set, every audit record filed under it, and
   * its cached snapshot.
   */
  lemma DeletionUndoesRecording(s: Store, e: ModActionEvent, raw: RawSettings, directory: map<string, bool>,
                                newPost: string, now: nat, del: DeleteEvent, later: nat)
    requires HandleModActionEvent(s, e, true, raw, directory, newPost, now).status.Recorded?
    requires del.source == 1
    requires ResolveThingIdFromSubmissionDeleteEvent(del) == ResolveThingIdFromModActionEvent(e).value
    requires !SentinelSet(HandleModActionEvent(s, e, true, raw, directory, newPost, now).store,
                          ResolveThingIdFromSubmissionDeleteEvent(del))
    ensures var r1 := HandleModActionEvent(s, e, true, raw, directory, newPost, now).store;
      var r2 := HandleCommentOrPostDeleteEvent(r1, del, true, later);
      && r2.status == Enforced
      && AuditKey(newPost) !in r2.store.hashes
      && Members(r2.store, ModActionsKey(ResolveThingIdFromModActionEvent(e).value)) == {}
  {
    var r1 := HandleModActionEvent(s, e, true, raw, directory, newPost, now).store;
    RecordedEventWrites(s, e, raw, directory, newPost, now);
    assert newPost in Members(r1, ModActionsKey(ResolveThingIdFromModActionEvent(e).value));
  }

  /**
   * The audit record a recorded action stores is in the v1 shape, which the
   * re-rendering path reports as a legacy record and does not edit.
   */
  lemma RecordedEventIsLegacyForRerendering(s: Store, e: ModActionEvent, raw: RawSettings, directory: map<string, bool>,
                                            newPost: string, now: nat, live: map<string, CachedThing>, subreddit: string)
    requires HandleModActionEvent(s, e, true, raw, directory, newPost, now).status.Recorded?
    ensures var r := HandleModActionEvent(s, e, true, raw, directory, newPost, now).store;
      Disclosure.UpdatePublishedExtract(r, live, newPost, subreddit)
        == Disclosure.Outcome(Failure(Disclosure.RecordUnreadable(LegacyRecord)), r, [])
  {
    RecordedEventWrites(s, e, raw, directory, newPost, now);
  }

  /**
   * An admin moderator, a platform account or one the directory marks as
   * admin, is skipped for being an admin exactly when admin actions are not
   * recorded.
   */
  lemma AdminModeratorSkippedExactlyWhenAdminsOff(settings: AppSettings, name: string, directory: map<string, bool>,
                                                  user: AccountInformation, action: string)
    requires name in SpecialAccountNames || (name in directory && directory[name])
    ensures SkipReasonOf(settings, ResolveAccountInformation(name, directory), user, action) == Some(AdminAction)
      <==> !settings.recordAdminActions
  {
    var mod := ResolveAccountInformation(name, directory);
    assert mod.isAdmin;
  }

  /**
   * An action by the redacted platform account is published and audited under
   * the name "Anti-Evil Operations".
   */
  lemma RedactedModeratorRecordedAsAntiEvil(s: Store, e: ModActionEvent, raw: RawSettings, directory: map<string, bool>,
                                            newPost: string, now: nat)
    requires HandleModActionEvent(s, e, true, raw, directory, newPost, now).status.Recorded?
    requires e.moderator.Some? && e.moderator.value.name == "[ redacted ]"
    ensures var r := HandleModActionEvent(s, e, true, raw, directory, newPost, now);
      && HumanReadableModActionType(e.action).Some?
      && r.effects[0].title == "Anti-Evil Operations " + HumanReadableModActionType(e.action).value
  {
    RecordedThroughRecordAction(s, e, raw, directory, newPost, now);
    var d := EventHasBeenProcessed(s, ResolveModActionId(e).value, now);
    var mod := ResolveAccountInformation(e.moderator.value.name, directory);
    RedactedAccountIsAntiEvil(directory);
    RecordedUnderModeratorName(d.store, e, mod, ResolveAccountInformation(e.targetUser.value.name, directory),
      ResolveThingIdFromModActionEvent(e).value, newPost, GetAppSettings(raw).value.targetSubreddit);
  }

  /** The audit record of an action by the redacted account names "Anti-Evil Operations" as its actor. */
  lemma RedactedModeratorAuditedAsAntiEvil(s: Store, e: ModActionEvent, raw: RawSettings, directory: map<string, bool>,
                                           newPost: string, now: nat)
    requires HandleModActionEvent(s, e, true, raw, directory, newPost, now).status.Recorded?
    requires e.moderator.Some? && e.moderator.value.name == "[ redacted ]"
    requires AuditKey(newPost) !in s.hashes
    ensures var r := HandleModActionEvent(s, e, true, raw, directory, newPost, now).store;
      AuditKey(newPost) in r.hashes && r.hashes[AuditKey(newPost)] == EncodeV1(AuditRecord(e,
        AccountInformation("Anti-Evil Operations", true), ResolveThingIdFromModActionEvent(e).value,
        ExtractPermalinkFromModActionEvent(e)))
  {
    RecordedThroughRecordAction(s, e, raw, directory, newPost, now);
    RedactedAccountIsAntiEvil(directory);
  }

  /** A recorded event is the outcome of `RecordAction` on the store with its sentinel set. */
  lemma RecordedThroughRecordAction(s: Store, e: ModActionEvent, raw: RawSettings, directory: map<string, bool>,
                                    newPost: string, now: nat)
    requires HandleModActionEvent(s, e, true, raw, directory, newPost, now).status.Recorded?
    ensures && ResolveModActionId(e).Success? && GetAppSettings(raw).Success?
            && e.moderator.Some? && e.targetUser.Some? && e.actionedAt.Some?
            && ResolveThingIdFromModActionEvent(e).Success?
    ensures var d := EventHasBeenProcessed(s, ResolveModActionId(e).value, now);
      && d.store.hashes == s.hashes
      && HandleModActionEvent(s, e, true, raw, directory, newPost, now)
        == RecordAction(d.store, e, ResolveAccountInformation(e.moderator.value.name, directory),
                        ResolveAccountInformation(e.targetUser.value.name, directory),
                        ResolveThingIdFromModActionEvent(e).value, newPost, GetAppSettings(raw).value.targetSubreddit)
  {
  }

  /** A recorded action is published and audited under the moderator's resolved name. */
  lemma RecordedUnderModeratorName(s: Store, e: ModActionEvent, mod: AccountInformation, user: AccountInformation,
                                   thingId: string, newPost: string, subreddit: string)
    requires e.targetUser.Some? && e.actionedAt.Some?
    requires RecordAction(s, e, mod, user, thingId, newPost, subreddit).status.Recorded?
    ensures var r := RecordAction(s, e, mod, user, thingId, newPost, subreddit);
      && HumanReadableModActionType(e.action).Some?
      && r.effects[0].title == mod.username + " " + HumanReadableModActionType(e.action).value
      && AuditKey(newPost) in r.store.hashes && "actor" in r.store.hashes[AuditKey(newPost)]
      && (AuditKey(newPost) !in s.hashes ==> r.store.hashes[AuditKey(newPost)]["actor"] == mod.username)
  {
    var r := RecordAction(s, e, mod, user, thingId, newPost, subreddit);
    var text := GeneratePostText(e.action, mod, user, ExtractPermalinkFromModActionEvent(e));
    assert r.effects[0].title == text.value.title;
  }

  /**
   * With no action selected (the selection the settings form rejects), every
   * event is skipped, and none is ever published.
   */
  lemma EmptySelectionSkipsEveryEvent(settings: AppSettings, mod: AccountInformation, user: AccountInformation,
                                      action: string)
    requires HasAtLeastOneOptionSelected(Some(settings.moderationActions)).Some?
    ensures SkipReasonOf(settings, mod, user, action).Some?
  {
    assert action !in settings.moderationActions;
  }

  /** The handler-level reading of the empty selection: nothing is published. */
  lemma EmptySelectionNeverPublishes(s: Store, e: ModActionEvent, raw: RawSettings, directory: map<string, bool>,
                                     newPost: string, now: nat)
    requires HasAtLeastOneOptionSelected(Some(raw.moderationActions)).Some?
    ensures var r := HandleModActionEvent(s, e, true, raw, directory, newPost, now);
      !r.status.Recorded? && r.effects == []
  {
    if GetAppSettings(raw).Success? && e.moderator.Some? && e.targetUser.Some? {
      EmptySelectionSkipsEveryEvent(GetAppSettings(raw).value,
        ResolveAccountInformation(e.moderator.value.name, directory),
        ResolveAccountInformation(e.targetUser.value.name, directory), e.action);
    }
  }

  /**
   * As written, the permalink choice throws for an event without a post, so
   * no such event is ever published: user actions (ban, mute and their
   * reversals) never reach the audit community.
   */
  lemma EventWithoutPostIsNeverPublished(s: Store, e: ModActionEvent, raw: RawSettings, directory: map<string, bool>,
                                         newPost: string, now: nat)
    requires e.targetPost.None?
    ensures var r := HandleModActionEvent(s, e, true, raw, directory, newPost, now);
      !r.status.Recorded? && r.effects == []
  {
  }

  /**
   * A ban of a user that passes every filter, as written: the thing is filed
   * under the user, then the permalink choice throws, and nothing is published
   * or audited.
   */
  lemma BanAsWrittenFailsAfterFilingThing()
    ensures var e := ModActionEvent("banuser", Some(UserRef("t2_mod", "mod")), Some(UserRef("t2_u", "u")), None, None, Some(0));
      var raw := RawSettings("audit", true, false, ["banuser"], Some(""), Some(""));
      var r := HandleModActionEvent(Store(map[], map[], map[], map[]), e, true, raw, map[], "t3_new", 0);
      && r.status == Failed(MissingTarget)
      && r.effects == []
      && ZGet(r.store, UserKey("t2_u")) == map["t2_u" := 0]
      && r.store.hashes == map[]
  {
    var e := ModActionEvent("banuser", Some(UserRef("t2_mod", "mod")), Some(UserRef("t2_u", "u")), None, None, Some(0));
    var raw := RawSettings("audit", true, false, ["banuser"], Some(""), Some(""));
    ClearedListExcludesNobody(raw, "mod");
    ClearedListExcludesNobody(raw, "u");
    PermalinkAsWrittenThrowsWithoutPost();
    FixedValues();
    var mod := ResolveAccountInformation("mod", map[]);
    assert mod == AccountInformation("mod", false);
    assert ResolveThingIdFromModActionEvent(e) == Success("t2_u");
  }
}
