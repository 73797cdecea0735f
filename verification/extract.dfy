/**
 * The forward disclosure path: turning a moderation event into an extract,
 * publishing it as a post in the installation's own community, filing it under
 * the thing it concerns, and re-rendering the posts filed under a thing.
 *
 * The platform's read of a thing is the `live` map (thing id to snapshot); the
 * store's cache is read through in front of it. The phrase tables that name an
 * action in a title are the parameters `pastSimple` and `preposition`.
 */
module Disclosure {
  import opened Wrappers
  import opened Types
  import opened Constants
  import opened Store
  import opened Events
  import Audit

  datatype DisclosureError =
    | MissingModeratorOrAction
    | ModeratorNotFound
    | UnexpectedAction(action: string)
    | MissingTarget
    | BadIdentifier(id: string)
    | ThingNotFound(id: string)
    | ActorNotFound
    | RecordMissing(post: string)
    | RecordUnreadable(error: DecodeError)
    | UndefinedExtract

  /** A cache read: the snapshot, if any, and the store after the read. */
  datatype Read = Read(value: Option<CachedThing>, store: Store)

  /** A step that may fail, with the store it leaves behind either way. */
  datatype Step<T> = Step(result: Result<T, DisclosureError>, store: Store)

  /** A step that may fail, with the store it leaves behind and the platform calls it made. */
  datatype Outcome<T> = Outcome(result: Result<T, DisclosureError>, store: Store, effects: seq<Effect>)

  /**
   * Read-through cache: a cached snapshot of the right kind is returned as is;
   * otherwise the platform's snapshot is fetched and cached. A thing the
   * platform does not have reads as absent and leaves the store alone.
   */
  function GetCached(s: Store, live: map<string, CachedThing>, id: string, kind: CacheType): (r: Read)
    ensures r.value.Some? ==> r.value.value.Kind() == kind && id in r.store.cache && r.store.cache[id] == r.value.value
    ensures id in s.cache && s.cache[id].Kind() == kind ==> r == Read(Some(s.cache[id]), s)
    ensures r.value.Some? && !(id in s.cache && s.cache[id].Kind() == kind) ==> id in live && r.value.value == live[id]
    ensures r.value.None? <==> !(id in s.cache && s.cache[id].Kind() == kind) && !(id in live && live[id].Kind() == kind)
    ensures r.value.None? ==> r.store == s
    ensures r.store.zsets == s.zsets && r.store.hashes == s.hashes && r.store.strings == s.strings
    ensures forall t :: t != id ==> (t in r.store.cache <==> t in s.cache)
    ensures forall t :: t != id && t in s.cache ==> r.store.cache[t] == s.cache[t]
  {
    if id in s.cache && s.cache[id].Kind() == kind then Read(Some(s.cache[id]), s)
    else if id in live && live[id].Kind() == kind then Read(Some(live[id]), s.(cache := s.cache[id := live[id]]))
    else Read(None, s)
  }

  /** Reading a thing a second time is a cache hit that returns the same snapshot and changes nothing. */
  lemma ReadThroughIsStable(s: Store, live: map<string, CachedThing>, id: string, kind: CacheType)
    requires GetCached(s, live, id, kind).value.Some?
    ensures var first := GetCached(s, live, id, kind);
      GetCached(first.store, live, id, kind) == first
  {
  }

  function AsUser(o: Option<CachedThing>): Option<CachedUser> {
    if o.Some? && o.value.UserSnapshot? then Some(o.value.user) else None
  }

  function AsPost(o: Option<CachedThing>): Option<CachedPost> {
    if o.Some? && o.value.PostSnapshot? then Some(o.value.post) else None
  }

  function AsComment(o: Option<CachedThing>): Option<CachedComment> {
    if o.Some? && o.value.CommentSnapshot? then Some(o.value.comment) else None
  }

  /** Only the cache changes. */
  ghost predicate CacheOnly(s: Store, r: Store) {
    r.zsets == s.zsets && r.hashes == s.hashes && r.strings == s.strings
  }

  /**
   * Builds the extract of a moderation event. The moderator and the action must
   * be present and the moderator must resolve; link and comment actions take
   * the author of the cached post or comment as target and the event's post or
   * comment as link or comment; ban and mute take the event's user with an empty
   * length; unban and unmute take the event's user only; anything else fails.
   */
  function DistilEvent(s: Store, live: map<string, CachedThing>, e: ModActionEvent): (r: Step<Extract>)
    ensures CacheOnly(s, r.store)
    ensures e.moderator.None? || e.action == "" ==> r == Step(Failure(MissingModeratorOrAction), s)
    ensures e.moderator.Some? && e.action != "" && GetCached(s, live, e.moderator.value.id, UserCache).value.None? ==>
      r.result == Failure(ModeratorNotFound)
    ensures ParseModActionType(e.action).None? ==> r.result.Failure?
    ensures r.result.Success? ==> var x := r.result.value;
      && x.WellFormed() && HasTarget(x)
      && x.action.Value() == e.action
      && e.moderator.Some? && x.actor.ToString() == e.moderator.value.id
    ensures r.result.Success? && r.result.value.action.IsLinkAction() ==> var x := r.result.value;
      && x.OnLink? && e.targetPost.Some? && x.link.ToString() == e.targetPost.value.id
      && x.link.ToString() in r.store.cache && r.store.cache[x.link.ToString()].PostSnapshot?
      && r.store.cache[x.link.ToString()].post.author == x.target
    ensures r.result.Success? && r.result.value.action.IsCommentAction() ==> var x := r.result.value;
      && x.OnComment? && e.targetComment.Some? && x.comment.ToString() == e.targetComment.value.id
      && x.comment.ToString() in r.store.cache && r.store.cache[x.comment.ToString()].CommentSnapshot?
      && r.store.cache[x.comment.ToString()].comment.author == x.target
    ensures r.result.Success? && r.result.value.action.IsRestriction() ==> var x := r.result.value;
      x.WithLength? && x.length == "" && e.targetUser.Some? && x.target.ToString() == e.targetUser.value.id
    ensures r.result.Success? && r.result.value.action.IsLifting() ==> var x := r.result.value;
      x.TargetOnly? && e.targetUser.Some? && x.target.ToString() == e.targetUser.value.id
  {
    if e.moderator.None? || e.action == "" then Step(Failure(MissingModeratorOrAction), s)
    else
      var modId := e.moderator.value.id;
      var actorRead := GetCached(s, live, modId, UserCache);
      var s1 := actorRead.store;
      if actorRead.value.None? then Step(Failure(ModeratorNotFound), s1)
      else match ParseUserID(modId)
        case None => Step(Failure(BadIdentifier(modId)), s1)
        case Some(actor) =>
          match ParseModActionType(e.action)
          case None => Step(Failure(UnexpectedAction(e.action)), s1)
          case Some(a) =>
            if a.IsLinkAction() then
              if e.targetPost.None? then Step(Failure(MissingTarget), s1)
              else
                var id := e.targetPost.value.id;
                var postRead := GetCached(s1, live, id, PostCache);
                match AsPost(postRead.value)
                case None => Step(Failure(ThingNotFound(id)), postRead.store)
                case Some(post) =>
                  match ParseLinkID(id)
                  case None => Step(Failure(BadIdentifier(id)), postRead.store)
                  case Some(link) => Step(Success(OnLink(a, actor, post.author, link)), postRead.store)
            else if a.IsCommentAction() then
              if e.targetComment.None? then Step(Failure(MissingTarget), s1)
              else
                var id := e.targetComment.value.id;
                var commentRead := GetCached(s1, live, id, CommentCache);
                match AsComment(commentRead.value)
                case None => Step(Failure(ThingNotFound(id)), commentRead.store)
                case Some(comment) =>
                  match ParseCommentID(id)
                  case None => Step(Failure(BadIdentifier(id)), commentRead.store)
                  case Some(c) => Step(Success(OnComment(a, actor, comment.author, c)), commentRead.store)
            else if e.targetUser.None? then Step(Failure(MissingTarget), s1)
            else
              match ParseUserID(e.targetUser.value.id)
              case None => Step(Failure(BadIdentifier(e.targetUser.value.id)), s1)
              case Some(target) =>
                if a.IsRestriction() then Step(Success(WithLength(a, actor, target, "")), s1)
                else Step(Success(TargetOnly(a, actor, target)), s1)
  }

  /**
   * The distillation as written: after the moderator lookup, every supported
   * branch reads `type` or `thingId` from the extract it is about to build,
   * which is still undefined, and throws (`UndefinedExtract`). The link
   * branch reads the event's post before the throw; the comment branch throws
   * before reading anything.
   */
  function DistilEventAsWritten(s: Store, live: map<string, CachedThing>, e: ModActionEvent): (r: Step<Extract>)
    ensures r.result.Failure?
    ensures CacheOnly(s, r.store)
    ensures (ParseModActionType(e.action).Some? && e.moderator.Some? &&
             GetCached(s, live, e.moderator.value.id, UserCache).value.Some?) ==> r.result == Failure(UndefinedExtract)
  {
    if e.moderator.None? || e.action == "" then Step(Failure(MissingModeratorOrAction), s)
    else
      var actorRead := GetCached(s, live, e.moderator.value.id, UserCache);
      var s1 := actorRead.store;
      if actorRead.value.None? then Step(Failure(ModeratorNotFound), s1)
      else match ParseModActionType(e.action)
        case None => Step(Failure(UnexpectedAction(e.action)), s1)
        case Some(a) =>
          if a.IsLinkAction() && e.targetPost.Some? then
            Step(Failure(UndefinedExtract), GetCached(s1, live, e.targetPost.value.id, PostCache).store)
          else Step(Failure(UndefinedExtract), s1)
  }

  /**
   * A ban by a known moderator of a user with a well-formed id: the intended
   * distillation yields a ban extract, the one as written throws.
   */
  lemma DistilAsWrittenLosesEveryAction()
    ensures var s := Store(map[], map[], map[], map["t2_mod" := UserSnapshot(CachedUser("mod", false, false))]);
      var e := ModActionEvent("banuser", Some(UserRef("t2_mod", "mod")), Some(UserRef("t2_user", "user")),
                              None, None, Some(1));
      && DistilEvent(s, map[], e).result == Success(WithLength(BanUser, Account("mod"), Account("user"), ""))
      && DistilEventAsWritten(s, map[], e).result == Failure(UndefinedExtract)
  {
    var s := Store(map[], map[], map[], map["t2_mod" := UserSnapshot(CachedUser("mod", false, false))]);
    var e := ModActionEvent("banuser", Some(UserRef("t2_mod", "mod")), Some(UserRef("t2_user", "user")),
                            None, None, Some(1));
    assert ParseModActionType("banuser") == Some(BanUser) by { ParseModActionTypeRoundTrip(BanUser); }
    assert ParseUserID("t2_mod") == Some(Account("mod")) by { ParseUserIDRoundTrip(Account("mod")); }
    assert ParseUserID("t2_user") == Some(Account("user")) by { ParseUserIDRoundTrip(Account("user")); }
  }

  /** The thing an extract is filed under: its link, else its comment, else its target. */
  function AssociationKey(x: Extract): (k: ThingID)
    requires HasTarget(x)
    ensures HasLink(x) ==> k == x.link
    ensures HasComment(x) ==> k == x.comment
    ensures !HasLink(x) && !HasComment(x) ==> k == x.target
    ensures k.Link? <==> HasLink(x)
    ensures k.Comment? <==> HasComment(x)
  {
    if HasLink(x) then x.link
    else if HasComment(x) then x.comment
    else x.target
  }

  /**
   * The key the disclosure path files an extract under is the thing id the
   * audit path resolves for the same event.
   */
  lemma AssociationKeyAgreesWithAudit(s: Store, live: map<string, CachedThing>, e: ModActionEvent)
    requires DistilEvent(s, live, e).result.Success?
    ensures var x := DistilEvent(s, live, e).result.value;
      Audit.ResolveThingIdFromModActionEvent(e) == Success(AssociationKey(x).ToString())
  {
    var x := DistilEvent(s, live, e).result.value;
    Audit.ThingIdFollowsActionFamily(e);
    assert x.action.Value() == e.action;
  }

  /** What a title and body are written from: the extract, the community, and the snapshots it names. */
  datatype Data = Data(actor: CachedUser, target: Option<CachedUser>, link: Option<CachedPost>, comment: Option<CachedComment>)
  datatype Augmented = Augmented(extract: Extract, subreddit: string, data: Data)

  /**
   * Reads the snapshots an extract names: its link or comment, its actor and its
   * target, in that order, caching each one the platform has. Missing link,
   * comment or target snapshots stay absent; a missing actor fails after all
   * four reads, since the title needs the actor's name.
   */
  function Augment(s: Store, live: map<string, CachedThing>, x: Extract, subreddit: string): (r: Step<Augmented>)
    ensures CacheOnly(s, r.store)
    ensures forall t :: t in s.cache ==> t in r.store.cache
    ensures HasLink(x) && x.link.ToString() in live && live[x.link.ToString()].PostSnapshot? ==>
      x.link.ToString() in r.store.cache
    ensures HasComment(x) && x.comment.ToString() in live && live[x.comment.ToString()].CommentSnapshot? ==>
      x.comment.ToString() in r.store.cache
    ensures HasTarget(x) && x.target.ToString() in live && live[x.target.ToString()].UserSnapshot? ==>
      x.target.ToString() in r.store.cache
    ensures r.result.Success? ==> var g := r.result.value;
      && g.extract == x && g.subreddit == subreddit
      && x.actor.ToString() in r.store.cache && r.store.cache[x.actor.ToString()] == UserSnapshot(g.data.actor)
    ensures r.result.Success? ==>
      && (r.result.value.data.link.Some? ==> HasLink(x))
      && (r.result.value.data.comment.Some? ==> HasComment(x))
      && (r.result.value.data.target.Some? ==> HasTarget(x))
    ensures x.actor.ToString() in s.cache && s.cache[x.actor.ToString()].UserSnapshot? ==> r.result.Success?
  {
    ThingIDKindsRenderApart(x);
    var linkRead := if HasLink(x) then GetCached(s, live, x.link.ToString(), PostCache) else Read(None, s);
    var commentRead := if HasComment(x) then GetCached(linkRead.store, live, x.comment.ToString(), CommentCache)
                       else Read(None, linkRead.store);
    var actorRead := GetCached(commentRead.store, live, x.actor.ToString(), UserCache);
    var targetRead := if HasTarget(x) then GetCached(actorRead.store, live, x.target.ToString(), UserCache)
                      else Read(None, actorRead.store);
    match AsUser(actorRead.value)
    case None => Step(Failure(ActorNotFound), targetRead.store)
    case Some(actor) =>
      var data := Data(actor, AsUser(targetRead.value), AsPost(linkRead.value), AsComment(commentRead.value));
      Step(Success(Augmented(x, subreddit, data)), targetRead.store)
  }

  /** Identifiers of different kinds never render to the same string. */
  lemma ThingIDKindsRenderApart(x: Extract)
    ensures HasLink(x) ==> x.link.ToString() != x.actor.ToString()
    ensures HasComment(x) ==> x.comment.ToString() != x.actor.ToString()
  {
    ThingIDRoundTrip(x.actor);
    if HasLink(x) {
      ThingIDRoundTrip(x.link);
    }
    if HasComment(x) {
      ThingIDRoundTrip(x.comment);
    }
  }

  /** `u/<actor> <past simple> <preposition> r/<community>`. */
  function WriteTitle(g: Augmented, pastSimple: ModActionType -> string, preposition: ModActionType -> string): (t: string)
    ensures |t| >= |"u/" + g.data.actor.username + " "| + |" r/" + g.subreddit|
    ensures t[..|"u/" + g.data.actor.username + " "|] == "u/" + g.data.actor.username + " "
    ensures t[|t| - |" r/" + g.subreddit|..] == " r/" + g.subreddit
  {
    var head := "u/" + g.data.actor.username + " ";
    var phrase := pastSimple(g.extract.action) + " " + preposition(g.extract.action);
    var tail := " r/" + g.subreddit;
    assert (head + phrase + tail)[..|head|] == head;
    assert (head + phrase + tail)[|head + phrase|..] == tail;
    head + phrase + tail
  }

  /** The body writer is an unfinished stub that writes nothing. */
  function WriteBody(g: Augmented): string {
    ""
  }

  /** What a publication did: nothing (no target), or a new post filed under a thing. */
  datatype Published = NoTarget | Posted(post: LinkID, key: ThingID)

  /**
   * Publishes an extract with a target: one new post in the current community,
   * the post id added to the thing's record set with score `now`, and the
   * extract stored under the post id. An extract without a target is skipped.
   */
  function DiscloseExtract(s: Store, live: map<string, CachedThing>, x: Extract, subreddit: string, newPost: LinkID,
                           now: nat, pastSimple: ModActionType -> string, preposition: ModActionType -> string)
    : (r: Outcome<Published>)
    ensures !HasTarget(x) ==> r == Outcome(Success(NoTarget), s, [])
    ensures r.result.Failure? ==> r.effects == [] && CacheOnly(s, r.store)
    ensures r.result.Success? && HasTarget(x) ==>
      && r.result.value == Posted(newPost, AssociationKey(x))
      && |r.effects| == 1 && r.effects[0].Submitted? && r.effects[0].subreddit == subreddit
      && newPost.ToString() in Members(r.store, ModActionsKey(AssociationKey(x).ToString()))
      && AuditKey(newPost.ToString()) in r.store.hashes
      && (AuditKey(newPost.ToString()) !in s.hashes ==> r.store.hashes[AuditKey(newPost.ToString())] == EncodeExtract(x))
    ensures forall k :: k != ModActionsKey(if HasTarget(x) then AssociationKey(x).ToString() else "") ==>
      ZGet(r.store, k) == ZGet(s, k)
    ensures forall k :: k != AuditKey(newPost.ToString()) ==> (k in r.store.hashes <==> k in s.hashes)
    ensures forall k :: k != AuditKey(newPost.ToString()) && k in s.hashes ==> r.store.hashes[k] == s.hashes[k]
    ensures r.store.strings == s.strings
  {
    if !HasTarget(x) then Outcome(Success(NoTarget), s, [])
    else
      var aug := Augment(s, live, x, subreddit);
      match aug.result
      case Failure(err) => Outcome(Failure(err), aug.store, [])
      case Success(g) =>
        var submission := Submitted(g.subreddit, WriteTitle(g, pastSimple, preposition), WriteBody(g));
        var key := AssociationKey(x);
        var s1 := ZAdd(aug.store, ModActionsKey(key.ToString()), newPost.ToString(), now);
        var s2 := HSet(s1, AuditKey(newPost.ToString()), EncodeExtract(x));
        Outcome(Success(Posted(newPost, key)), s2, [submission])
  }

  /**
   * The whole forward path: distil, then publish. A failed distillation
   * publishes and records nothing.
   */
  function Disclose(s: Store, live: map<string, CachedThing>, e: ModActionEvent, subreddit: string, newPost: LinkID,
                    now: nat, pastSimple: ModActionType -> string, preposition: ModActionType -> string)
    : (r: Outcome<Published>)
    ensures DistilEvent(s, live, e).result.Failure? ==> r.result.Failure? && r.effects == [] && CacheOnly(s, r.store)
    ensures r.result.Success? ==> r.result.value.Posted? && |r.effects| == 1 && r.effects[0].Submitted?
  {
    var d := DistilEvent(s, live, e);
    match d.result
    case Failure(err) => Outcome(Failure(err), d.store, [])
    case Success(x) => DiscloseExtract(d.store, live, x, subreddit, newPost, now, pastSimple, preposition)
  }

  /**
   * After a successful disclosure with a fresh post id, the new post is filed
   * under the thing id the audit path resolves for the event, and reading its
   * record back gives the extract that was published.
   */
  lemma DisclosedExtractReadsBack(s: Store, live: map<string, CachedThing>, e: ModActionEvent, subreddit: string,
                                  newPost: LinkID, now: nat, pastSimple: ModActionType -> string,
                                  preposition: ModActionType -> string)
    requires AuditKey(newPost.ToString()) !in s.hashes
    requires Disclose(s, live, e, subreddit, newPost, now, pastSimple, preposition).result.Success?
    ensures var r := Disclose(s, live, e, subreddit, newPost, now, pastSimple, preposition);
      var x := DistilEvent(s, live, e).result.value;
      && Audit.ResolveThingIdFromModActionEvent(e).Success?
      && newPost.ToString() in Members(r.store, ModActionsKey(Audit.ResolveThingIdFromModActionEvent(e).value))
      && DecodeExtract(r.store.hashes[AuditKey(newPost.ToString())]) == Success(x)
  {
    var d := DistilEvent(s, live, e);
    var x := d.result.value;
    AssociationKeyAgreesWithAudit(s, live, e);
    ExtractRoundTrip(x);
  }

  /**
   * Re-renders one published post: reads its stored extract, reads the
   * snapshots it names, and edits the post's text. A missing or legacy record
   * fails without editing.
   */
  function UpdatePublishedExtract(s: Store, live: map<string, CachedThing>, post: string, subreddit: string)
    : (r: Outcome<Extract>)
    ensures CacheOnly(s, r.store)
    ensures AuditKey(post) !in s.hashes ==> r == Outcome(Failure(RecordMissing(post)), s, [])
    ensures AuditKey(post) in s.hashes && IsExtractV1(s.hashes[AuditKey(post)]) ==>
      r == Outcome(Failure(RecordUnreadable(LegacyRecord)), s, [])
    ensures r.result.Success? ==>
      && AuditKey(post) in s.hashes && DecodeExtract(s.hashes[AuditKey(post)]) == Success(r.result.value)
      && |r.effects| == 1 && r.effects[0].Edited? && r.effects[0].post == post
    ensures r.result.Failure? ==> r.effects == []
  {
    if AuditKey(post) !in s.hashes then Outcome(Failure(RecordMissing(post)), s, [])
    else match DecodeExtract(s.hashes[AuditKey(post)])
      case Failure(err) => Outcome(Failure(RecordUnreadable(err)), s, [])
      case Success(x) =>
        var aug := Augment(s, live, x, subreddit);
        match aug.result
        case Failure(err) => Outcome(Failure(err), aug.store, [])
        case Success(g) => Outcome(Success(x), aug.store, [Edited(post, WriteBody(g))])
  }

  /**
   * Re-renders every post filed under a thing, in the order the set lists
   * them, stopping at the first failure. It only ever edits: each listed post
   * is edited once, in order, and nothing new is submitted.
   */
  method UpdateDisclosures(s: Store, live: map<string, CachedThing>, thing: string, order: seq<string>, subreddit: string)
    returns (r: Outcome<nat>)
    requires Enumerates(order, Members(s, ModActionsKey(thing)))
    ensures Members(s, ModActionsKey(thing)) == {} ==> r == Outcome(Success(0), s, [])
    ensures CacheOnly(s, r.store)
    ensures |r.effects| <= |order|
    ensures forall i :: 0 <= i < |r.effects| ==> r.effects[i].Edited? && r.effects[i].post == order[i]
    ensures r.result.Success? ==> r.result.value == |order| == |r.effects|
    ensures r.result.Failure? ==> |r.effects| < |order|
  {
    if Members(s, ModActionsKey(thing)) == {} {
      EnumerationCount(order, Members(s, ModActionsKey(thing)));
      return Outcome(Success(0), s, []);
    }
    r := EditEach(s, live, order, subreddit);
  }

  /** Re-renders the posts of `order` one at a time, stopping at the first failure. */
  method EditEach(s: Store, live: map<string, CachedThing>, order: seq<string>, subreddit: string)
    returns (r: Outcome<nat>)
    ensures CacheOnly(s, r.store)
    ensures |r.effects| <= |order|
    ensures forall i :: 0 <= i < |r.effects| ==> r.effects[i].Edited? && r.effects[i].post == order[i]
    ensures r.result.Success? ==> r.result.value == |order| == |r.effects|
    ensures r.result.Failure? ==> |r.effects| < |order|
  {
    var st := s;
    var effects: seq<Effect> := [];
    for i := 0 to |order|
      invariant CacheOnly(s, st)
      invariant |effects| == i
      invariant forall j :: 0 <= j < i ==> effects[j].Edited? && effects[j].post == order[j]
    {
      var one := EditOne(st, live, order[i], subreddit);
      if one.result.Failure? {
        return Outcome(Failure(one.result.error), one.store, effects);
      }
      st := one.store;
      effects := effects + one.effects;
    }
    return Outcome(Success(|order|), st, effects);
  }

  /** One re-rendering, seen only through what the loop needs of it. */
  method EditOne(s: Store, live: map<string, CachedThing>, post: string, subreddit: string) returns (r: Outcome<Extract>)
    ensures CacheOnly(s, r.store)
    ensures r.result.Failure? ==> r.effects == []
    ensures r.result.Success? ==> |r.effects| == 1 && r.effects[0].Edited? && r.effects[0].post == post
  {
    r := UpdatePublishedExtract(s, live, post, subreddit);
  }

  /** Re-rendering never submits: every platform call it makes is an edit of a post already filed under the thing. */
  lemma UpdatesOnlyEditFiledPosts(s: Store, r: Outcome<nat>, thing: string, order: seq<string>)
    requires Enumerates(order, Members(s, ModActionsKey(thing)))
    requires |r.effects| <= |order|
    requires forall i :: 0 <= i < |r.effects| ==> r.effects[i].Edited? && r.effects[i].post == order[i]
    ensures forall i :: 0 <= i < |r.effects| ==> !r.effects[i].Submitted? && r.effects[i].post in Members(s, ModActionsKey(thing))
    ensures forall i, j :: 0 <= i < j < |r.effects| ==> r.effects[i].post != r.effects[j].post
  {
  }
}
