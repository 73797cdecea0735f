/**
 * The record model of the audit trail: moderation action types, prefixed thing
 * identifiers, cached snapshots of users, posts and comments, the current
 * `Extract` variants with their structural predicates, the legacy v1 record, and
 * the hash encoding under which both shapes are stored.
 */
module Types {
  import opened Wrappers

  /** The ten moderation actions the audit trail knows about. */
  datatype ModActionType =
    | RemoveLink | SpamLink | ApproveLink
    | RemoveComment | SpamComment | ApproveComment
    | BanUser | UnbanUser | MuteUser | UnmuteUser
  {
    /** The platform's wire name of the action. */
    function Value(): string {
      match this
      case RemoveLink => "removelink"
      case SpamLink => "spamlink"
      case ApproveLink => "approvelink"
      case RemoveComment => "removecomment"
      case SpamComment => "spamcomment"
      case ApproveComment => "approvecomment"
      case BanUser => "banuser"
      case UnbanUser => "unbanuser"
      case MuteUser => "muteuser"
      case UnmuteUser => "unmuteuser"
    }

    predicate IsLinkAction() {
      RemoveLink? || SpamLink? || ApproveLink?
    }

    predicate IsCommentAction() {
      RemoveComment? || SpamComment? || ApproveComment?
    }

    /** Ban and mute carry a duration. */
    predicate IsRestriction() {
      BanUser? || MuteUser?
    }

    /** Unban and unmute carry only their target. */
    predicate IsLifting() {
      UnbanUser? || UnmuteUser?
    }
  }

  const AllModActionTypes: seq<ModActionType> :=
    [RemoveLink, SpamLink, ApproveLink, RemoveComment, SpamComment, ApproveComment,
     BanUser, UnbanUser, MuteUser, UnmuteUser]

  /** Reads a wire name back; anything other than the ten names is rejected. */
  function ParseModActionType(s: string): (r: Option<ModActionType>)
    ensures r.Some? ==> r.value.Value() == s
  {
    if s == "removelink" then Some(RemoveLink)
    else if s == "spamlink" then Some(SpamLink)
    else if s == "approvelink" then Some(ApproveLink)
    else if s == "removecomment" then Some(RemoveComment)
    else if s == "spamcomment" then Some(SpamComment)
    else if s == "approvecomment" then Some(ApproveComment)
    else if s == "banuser" then Some(BanUser)
    else if s == "unbanuser" then Some(UnbanUser)
    else if s == "muteuser" then Some(MuteUser)
    else if s == "unmuteuser" then Some(UnmuteUser)
    else None
  }

  /** Every action's wire name parses back to that action. */
  lemma ParseModActionTypeRoundTrip(a: ModActionType)
    ensures ParseModActionType(a.Value()) == Some(a)
  {
  }

  /**
   * There are exactly ten actions, every action is listed, and their wire names
   * are pairwise distinct.
   */
  lemma ModActionTypesAreTenDistinctValues()
    ensures |AllModActionTypes| == 10
    ensures forall a: ModActionType :: a in AllModActionTypes
    ensures forall i, j :: 0 <= i < j < |AllModActionTypes| ==>
      AllModActionTypes[i].Value() != AllModActionTypes[j].Value()
  {
    forall a: ModActionType ensures a in AllModActionTypes {
      match a
      case RemoveLink => assert AllModActionTypes[0] == a;
      case SpamLink => assert AllModActionTypes[1] == a;
      case ApproveLink => assert AllModActionTypes[2] == a;
      case RemoveComment => assert AllModActionTypes[3] == a;
      case SpamComment => assert AllModActionTypes[4] == a;
      case ApproveComment => assert AllModActionTypes[5] == a;
      case BanUser => assert AllModActionTypes[6] == a;
      case UnbanUser => assert AllModActionTypes[7] == a;
      case MuteUser => assert AllModActionTypes[8] == a;
      case UnmuteUser => assert AllModActionTypes[9] == a;
    }
    forall i, j | 0 <= i < j < |AllModActionTypes|
      ensures AllModActionTypes[i].Value() != AllModActionTypes[j].Value()
    {
      ParseModActionTypeRoundTrip(AllModActionTypes[i]);
      ParseModActionTypeRoundTrip(AllModActionTypes[j]);
    }
  }

  /**
   * A platform identifier: the kind tag is the `t1_` (comment), `t2_` (account)
   * or `t3_` (post) prefix, `base` is what follows it.
   */
  datatype ThingID = Comment(base: string) | Account(base: string) | Link(base: string) {

    function Prefix(): string {
      match this
      case Comment(_) => "t1_"
      case Account(_) => "t2_"
      case Link(_) => "t3_"
    }

    function ToString(): string {
      Prefix() + base
    }
  }

  type CommentID = t: ThingID | t.Comment? witness Comment("")
  type UserID = t: ThingID | t.Account? witness Account("")
  type LinkID = t: ThingID | t.Link? witness Link("")

  /** Classifies an identifier string by its prefix. */
  function ParseThingID(s: string): (r: Option<ThingID>)
    ensures r.Some? ==> r.value.ToString() == s
  {
    if |s| < 3 then None
    else if s[..3] == "t1_" then Some(Comment(s[3..]))
    else if s[..3] == "t2_" then Some(Account(s[3..]))
    else if s[..3] == "t3_" then Some(Link(s[3..]))
    else None
  }

  /** Every identifier renders to a string that parses back to it. */
  lemma ThingIDRoundTrip(t: ThingID)
    ensures ParseThingID(t.ToString()) == Some(t)
  {
    var s := t.ToString();
    assert s[..3] == t.Prefix() && s[3..] == t.base;
  }

  /** An identifier string is a thing id exactly when it starts with one of the three tags. */
  lemma ThingIDKindByPrefix(s: string)
    ensures ParseThingID(s).Some? <==> |s| >= 3 && (s[..3] == "t1_" || s[..3] == "t2_" || s[..3] == "t3_")
    ensures ParseThingID(s).Some? ==>
      (ParseThingID(s).value.Comment? <==> s[..3] == "t1_") &&
      (ParseThingID(s).value.Account? <==> s[..3] == "t2_") &&
      (ParseThingID(s).value.Link? <==> s[..3] == "t3_")
  {
  }

  function ParseUserID(s: string): (r: Option<UserID>)
    ensures r.Some? ==> r.value.ToString() == s
  {
    match ParseThingID(s)
    case Some(Account(b)) => Some(Account(b))
    case _ => None
  }

  function ParseLinkID(s: string): (r: Option<LinkID>)
    ensures r.Some? ==> r.value.ToString() == s
  {
    match ParseThingID(s)
    case Some(Link(b)) => Some(Link(b))
    case _ => None
  }

  function ParseCommentID(s: string): (r: Option<CommentID>)
    ensures r.Some? ==> r.value.ToString() == s
  {
    match ParseThingID(s)
    case Some(Comment(b)) => Some(Comment(b))
    case _ => None
  }

  /** Snapshots kept by the thing cache. */
  datatype CachedUser = CachedUser(username: string, isAdmin: bool, isApp: bool)
  datatype CachedPost = CachedPost(author: UserID, title: string, body: Option<string>, url: string, permalink: string)
  datatype CachedComment = CachedComment(author: UserID, body: string, permalink: string)

  datatype CacheType = UserCache | PostCache | CommentCache

  datatype CachedThing =
    | UserSnapshot(user: CachedUser)
    | PostSnapshot(post: CachedPost)
    | CommentSnapshot(comment: CachedComment)
  {
    function Kind(): CacheType {
      match this
      case UserSnapshot(_) => UserCache
      case PostSnapshot(_) => PostCache
      case CommentSnapshot(_) => CommentCache
    }
  }

  /**
   * The current extract: one constructor per field shape. `Untargeted` is the
   * bare remove-link shape with neither target nor link; `OnLink` and
   * `OnComment` carry target plus link or comment; `WithLength` (ban, mute)
   * carries target plus length; `TargetOnly` (unban, unmute) carries the target.
   */
  datatype Extract =
    | Untargeted(action: ModActionType, actor: UserID)
    | OnLink(action: ModActionType, actor: UserID, target: UserID, link: LinkID)
    | OnComment(action: ModActionType, actor: UserID, target: UserID, comment: CommentID)
    | WithLength(action: ModActionType, actor: UserID, target: UserID, length: string)
    | TargetOnly(action: ModActionType, actor: UserID, target: UserID)
  {
    /** The action type admitted by each shape. */
    predicate WellFormed() {
      match this
      case Untargeted(a, _) => a == RemoveLink
      case OnLink(a, _, _, _) => a.IsLinkAction()
      case OnComment(a, _, _, _) => a.IsCommentAction()
      case WithLength(a, _, _, _) => a.IsRestriction()
      case TargetOnly(a, _, _) => a.IsLifting()
    }
  }

  /** Whether the extract has a `target` field. */
  predicate HasTarget(x: Extract) {
    !x.Untargeted?
  }

  /** Whether the extract has a `link` field. */
  predicate HasLink(x: Extract) {
    x.OnLink?
  }

  /** Whether the extract has a `comment` field. */
  predicate HasComment(x: Extract) {
    x.OnComment?
  }

  /**
   * How the structural predicates line up with the action types: only the bare
   * remove-link shape lacks a target, links and comments exclude each other and
   * both imply a target, and exactly ban and mute carry a length.
   */
  lemma ExtractShapes(x: Extract)
    requires x.WellFormed()
    ensures !HasTarget(x) ==> x.action == RemoveLink
    ensures HasLink(x) <==> x.action.IsLinkAction() && HasTarget(x)
    ensures HasComment(x) <==> x.action.IsCommentAction()
    ensures HasLink(x) ==> HasTarget(x)
    ensures HasComment(x) ==> HasTarget(x)
    ensures !(HasLink(x) && HasComment(x))
    ensures x.WithLength? <==> x.action.IsRestriction()
    ensures x.TargetOnly? <==> x.action.IsLifting()
  {
  }

  /** A stored hash: field name to field value. */
  type Record = map<string, string>

  /** The Open Mod v1 record: actor by username, raw thing id, permalink and creation time. */
  datatype ExtractV1 = ExtractV1(action: string, actor: string, thingId: string, permalink: string, createdAt: string)

  function EncodeV1(v: ExtractV1): Record {
    map["type" := v.action, "actor" := v.actor, "thingId" := v.thingId,
        "permalink" := v.permalink, "createdAt" := v.createdAt]
  }

  /** A stored record is a v1 record exactly when it has a `thingId` field. */
  predicate IsExtractV1(r: Record) {
    "thingId" in r
  }

  /** The hash fields a current extract is stored as: exactly the fields its shape has. */
  function EncodeExtract(x: Extract): (r: Record)
    ensures !IsExtractV1(r)
    ensures "target" in r <==> HasTarget(x)
    ensures "link" in r <==> HasLink(x)
    ensures "comment" in r <==> HasComment(x)
  {
    var base := map["type" := x.action.Value(), "actor" := x.actor.ToString()];
    match x
    case Untargeted(_, _) => base
    case OnLink(_, _, t, l) => base["target" := t.ToString()]["link" := l.ToString()]
    case OnComment(_, _, t, c) => base["target" := t.ToString()]["comment" := c.ToString()]
    case WithLength(_, _, t, n) => base["target" := t.ToString()]["length" := n]
    case TargetOnly(_, _, t) => base["target" := t.ToString()]
  }

  datatype DecodeError = LegacyRecord | MissingField(name: string) | BadValue(name: string) | ShapeMismatch

  /** Reads a stored record as a current extract; a v1 record is reported, not read. */
  function DecodeExtract(r: Record): (res: Result<Extract, DecodeError>)
    ensures IsExtractV1(r) ==> res == Failure(LegacyRecord)
    ensures res.Success? ==> res.value.WellFormed()
  {
    if IsExtractV1(r) then Failure(LegacyRecord)
    else if "type" !in r then Failure(MissingField("type"))
    else if "actor" !in r then Failure(MissingField("actor"))
    else
      var action :- ParseModActionType(r["type"]).ToResult(BadValue("type"));
      var actor :- ParseUserID(r["actor"]).ToResult(BadValue("actor"));
      if "target" !in r then
        if action == RemoveLink then Success(Untargeted(action, actor)) else Failure(MissingField("target"))
      else
        var target :- ParseUserID(r["target"]).ToResult(BadValue("target"));
        if "link" in r then
          var link :- ParseLinkID(r["link"]).ToResult(BadValue("link"));
          if action.IsLinkAction() then Success(OnLink(action, actor, target, link)) else Failure(ShapeMismatch)
        else if "comment" in r then
          var comment :- ParseCommentID(r["comment"]).ToResult(BadValue("comment"));
          if action.IsCommentAction() then Success(OnComment(action, actor, target, comment)) else Failure(ShapeMismatch)
        else if action.IsRestriction() then
          if "length" in r then Success(WithLength(action, actor, target, r["length"])) else Failure(MissingField("length"))
        else if action.IsLifting() then Success(TargetOnly(action, actor, target))
        else Failure(ShapeMismatch)
  }

  lemma ParseUserIDRoundTrip(t: UserID)
    ensures ParseUserID(t.ToString()) == Some(t)
  {
    ThingIDRoundTrip(t);
  }

  lemma ParseLinkIDRoundTrip(t: LinkID)
    ensures ParseLinkID(t.ToString()) == Some(t)
  {
    ThingIDRoundTrip(t);
  }

  lemma ParseCommentIDRoundTrip(t: CommentID)
    ensures ParseCommentID(t.ToString()) == Some(t)
  {
    ThingIDRoundTrip(t);
  }

  /** Reading back what was written gives the same extract. */
  lemma ExtractRoundTrip(x: Extract)
    requires x.WellFormed()
    ensures DecodeExtract(EncodeExtract(x)) == Success(x)
  {
    ParseModActionTypeRoundTrip(x.action);
    ParseUserIDRoundTrip(x.actor);
    match x
    case Untargeted(_, _) =>
    case OnLink(_, _, t, l) =>
      ParseUserIDRoundTrip(t);
      ParseLinkIDRoundTrip(l);
    case OnComment(_, _, t, c) =>
      ParseUserIDRoundTrip(t);
      ParseCommentIDRoundTrip(c);
    case WithLength(_, _, t, _) =>
      ParseUserIDRoundTrip(t);
    case TargetOnly(_, _, t) =>
      ParseUserIDRoundTrip(t);
  }

  /** A v1 record is always recognised as one, whatever its contents. */
  lemma V1RecordIsLegacy(v: ExtractV1)
    ensures IsExtractV1(EncodeV1(v))
    ensures DecodeExtract(EncodeV1(v)) == Failure(LegacyRecord)
  {
  }
}
