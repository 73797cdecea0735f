/**
 * Pure interpretation of moderation events for the audit trail: action phrases,
 * which thing an event is about, dedup identifiers, permalink choice, account
 * resolution and the text of the published record.
 */
module Audit {
  import opened Wrappers
  import opened Text
  import opened Types
  import opened Constants
  import opened Events

  datatype AuditError =
    | UnsupportedAction(action: string)
    | MissingTarget
    | MissingRequiredFields

  datatype AccountInformation = AccountInformation(username: string, isAdmin: bool)

  /**
   * Resolves a username for display. `directory` is the platform's user lookup:
   * the admin flag of each account it can find.
   */
  function ResolveAccountInformation(username: string, directory: map<string, bool>): (r: AccountInformation)
    ensures username in SpecialAccountNames ==> r.isAdmin
    ensures username in SpecialAccountNames ==>
      r.username == (if username == "[ redacted ]" then "Anti-Evil Operations" else username)
    ensures username !in SpecialAccountNames ==> r.username == username
    ensures username !in SpecialAccountNames ==> (r.isAdmin <==> username in directory && directory[username])
  {
    if username in SpecialAccountNames then
      AccountInformation(if username == "[ redacted ]" then "Anti-Evil Operations" else username, true)
    else
      AccountInformation(username, username in directory && directory[username])
  }

  /** The redaction placeholder resolves to the admin account "Anti-Evil Operations", whatever the directory says. */
  lemma RedactedAccountIsAntiEvil(directory: map<string, bool>)
    ensures ResolveAccountInformation("[ redacted ]", directory) == AccountInformation("Anti-Evil Operations", true)
  {
    assert SpecialAccountNames[3] == "[ redacted ]";
  }

  /** The phrase used in titles; only the ten known actions have one. */
  function HumanReadableModActionType(action: string): (r: Option<string>)
    ensures r.Some? <==> ParseModActionType(action).Some?
    ensures r.Some? ==> |r.value| > 0
  {
    match ParseModActionType(action)
    case None => None
    case Some(a) =>
      Some(match a
        case RemoveLink => "removed a post"
        case SpamLink => "marked a post as spam"
        case ApproveLink => "approved a post"
        case RemoveComment => "removed a comment"
        case SpamComment => "marked a comment as spam"
        case ApproveComment => "approved a comment"
        case BanUser => "banned a user"
        case UnbanUser => "unbanned a user"
        case MuteUser => "muted a user"
        case UnmuteUser => "unmuted a user")
  }

  /** Lock and unlock are recordable settings but have no phrase. */
  lemma LockHasNoPhrase()
    ensures HumanReadableModActionType("lock").None?
    ensures HumanReadableModActionType("unlock").None?
  {
  }

  /**
   * The thing an action is about. A `!` on an absent target throws, which is
   * `MissingTarget` here; lock and unlock test the post id against "" first.
   */
  function ResolveThingIdFromModActionEvent(e: ModActionEvent): (r: Result<string, AuditError>)
    ensures r.Success? ==>
      || (e.targetPost.Some? && r.value == e.targetPost.value.id)
      || (e.targetComment.Some? && r.value == e.targetComment.value.id)
      || (e.targetUser.Some? && r.value == e.targetUser.value.id)
    ensures r.Failure? ==> r.error == MissingTarget || r.error == UnsupportedAction(e.action)
    ensures r.Failure? && r.error.UnsupportedAction? <==>
      ParseModActionType(e.action).None? && e.action != "lock" && e.action != "unlock"
  {
    var a := e.action;
    if a == "removelink" || a == "spamlink" || a == "approvelink" then
      if e.targetPost.Some? then Success(e.targetPost.value.id) else Failure(MissingTarget)
    else if a == "removecomment" || a == "spamcomment" || a == "approvecomment" then
      if e.targetComment.Some? then Success(e.targetComment.value.id) else Failure(MissingTarget)
    else if a == "banuser" || a == "unbanuser" || a == "muteuser" || a == "unmuteuser" then
      if e.targetUser.Some? then Success(e.targetUser.value.id) else Failure(MissingTarget)
    else if a == "lock" || a == "unlock" then
      // `targetPost?.id !== ""` is also true when the post is absent, and then `targetPost!` throws.
      if e.targetPost.None? then Failure(MissingTarget)
      else if e.targetPost.value.id != "" then Success(e.targetPost.value.id)
      else if e.targetComment.Some? then Success(e.targetComment.value.id)
      else Failure(MissingTarget)
    else Failure(UnsupportedAction(a))
  }

  /**
   * The thing id follows the action's family: the post for link actions, the
   * comment for comment actions, the user for ban, unban, mute and unmute; it
   * fails exactly when that target is absent, and any other action that is not
   * lock or unlock is unsupported.
   */
  lemma ThingIdFollowsActionFamily(e: ModActionEvent)
    ensures forall a: ModActionType :: a.Value() == e.action && a.IsLinkAction() ==>
      ResolveThingIdFromModActionEvent(e) == (if e.targetPost.Some? then Success(e.targetPost.value.id) else Failure(MissingTarget))
    ensures forall a: ModActionType :: a.Value() == e.action && a.IsCommentAction() ==>
      ResolveThingIdFromModActionEvent(e) == (if e.targetComment.Some? then Success(e.targetComment.value.id) else Failure(MissingTarget))
    ensures forall a: ModActionType :: a.Value() == e.action && (a.IsRestriction() || a.IsLifting()) ==>
      ResolveThingIdFromModActionEvent(e) == (if e.targetUser.Some? then Success(e.targetUser.value.id) else Failure(MissingTarget))
    ensures (e.action == "lock" || e.action == "unlock") && e.targetPost.Some? ==>
      ResolveThingIdFromModActionEvent(e) ==
        (if e.targetPost.value.id != "" then Success(e.targetPost.value.id)
         else if e.targetComment.Some? then Success(e.targetComment.value.id)
         else Failure(MissingTarget))
    ensures ParseModActionType(e.action).None? && e.action != "lock" && e.action != "unlock" ==>
      ResolveThingIdFromModActionEvent(e) == Failure(UnsupportedAction(e.action))
  {
  }

  /** The dedup id of a moderation action: its action name followed by its timestamp in decimal. */
  function ResolveModActionId(e: ModActionEvent): (r: Result<string, AuditError>)
    ensures r.Failure? <==> e.action == "" || e.actionedAt.None? || e.targetUser.None? || e.targetUser.value.id == ""
    ensures r.Success? ==> |r.value| > |e.action| && r.value[..|e.action|] == e.action
    ensures r.Success? ==> AllDigits(r.value[|e.action|..]) && ParseNat(r.value[|e.action|..]) == e.actionedAt.value
  {
    if e.action == "" || e.actionedAt.None? || e.targetUser.None? || e.targetUser.value.id == "" then
      Failure(MissingRequiredFields)
    else
      var ms := NatToString(e.actionedAt.value);
      ParseNatToString(e.actionedAt.value);
      assert (e.action + ms)[|e.action|..] == ms;
      Success(e.action + ms)
  }

  predicate NoDigits(s: string) {
    forall i :: 0 <= i < |s| ==> !IsDigit(s[i])
  }

  /** A digit-free word followed by a non-empty digit run splits at a unique place. */
  lemma WordDigitsSplit(a1: string, d1: string, a2: string, d2: string)
    requires NoDigits(a1) && NoDigits(a2) && AllDigits(d1) && AllDigits(d2)
    requires |d1| > 0 && |d2| > 0
    requires a1 + d1 == a2 + d2
    ensures a1 == a2 && d1 == d2
  {
    var w := a1 + d1;
    assert IsDigit(w[|a1|]) by { assert w[|a1|] == d1[0]; }
    assert IsDigit(w[|a2|]) by { assert w[|a2|] == (a2 + d2)[|a2|] == d2[0]; }
    assert forall i :: 0 <= i < |a1| ==> !IsDigit(w[i]) by {
      forall i | 0 <= i < |a1| ensures !IsDigit(w[i]) { assert w[i] == a1[i]; }
    }
    assert forall i :: 0 <= i < |a2| ==> !IsDigit(w[i]) by {
      forall i | 0 <= i < |a2| ensures !IsDigit(w[i]) { assert w[i] == (a2 + d2)[i] == a2[i]; }
    }
    assert |a1| == |a2|;
    assert a1 == w[..|a1|] && a2 == w[..|a2|];
    assert d1 == w[|a1|..] && d2 == w[|a2|..];
  }

  /**
   * Two actions whose names carry no digits get the same dedup id only when
   * they have the same action name and the same timestamp.
   */
  lemma ModActionIdIdentifiesActionAndTime(e1: ModActionEvent, e2: ModActionEvent)
    requires NoDigits(e1.action) && NoDigits(e2.action)
    requires ResolveModActionId(e1).Success? && ResolveModActionId(e2).Success?
    requires ResolveModActionId(e1).value == ResolveModActionId(e2).value
    ensures e1.action == e2.action && e1.actionedAt == e2.actionedAt
  {
    var d1 := NatToString(e1.actionedAt.value);
    var d2 := NatToString(e2.actionedAt.value);
    WordDigitsSplit(e1.action, d1, e2.action, d2);
    NatToStringInjective(e1.actionedAt.value, e2.actionedAt.value);
  }

  /** None of the ten action names contains a digit. */
  lemma ActionNamesHaveNoDigits(a: ModActionType)
    ensures NoDigits(a.Value())
  {
    var v := a.Value();
    forall i | 0 <= i < |v| ensures !IsDigit(v[i]) {
      match a
      case RemoveLink =>
      case SpamLink =>
      case ApproveLink =>
      case RemoveComment =>
      case SpamComment =>
      case ApproveComment =>
      case BanUser =>
      case UnbanUser =>
      case MuteUser =>
      case UnmuteUser =>
    }
  }

  /** The thing a deletion is about: the comment for a comment deletion, else the post. */
  function ResolveThingIdFromSubmissionDeleteEvent(e: DeleteEvent): (r: string)
    ensures e.CommentDelete? ==> r == e.commentId
    ensures e.PostDelete? ==> r == e.postId
  {
    match e
    case CommentDelete(c, _) => c
    case PostDelete(p, _) => p
  }

  /**
   * A deletion names the thing a moderation action was filed under: deleting
   * the comment of a comment action, or the post of a post action, resolves to
   * the same thing id as the action did.
   */
  lemma DeletionNamesAuditedThing(e: ModActionEvent, del: DeleteEvent)
    requires ParseModActionType(e.action).Some?
    requires ResolveThingIdFromModActionEvent(e).Success?
    ensures forall a: ModActionType :: (a.Value() == e.action && a.IsCommentAction() && e.targetComment.Some? &&
      del == CommentDelete(e.targetComment.value.id, del.source)) ==>
        ResolveThingIdFromSubmissionDeleteEvent(del) == ResolveThingIdFromModActionEvent(e).value
    ensures forall a: ModActionType :: (a.Value() == e.action && a.IsLinkAction() && e.targetPost.Some? &&
      del == PostDelete(e.targetPost.value.id, del.source)) ==>
        ResolveThingIdFromSubmissionDeleteEvent(del) == ResolveThingIdFromModActionEvent(e).value
  {
    ThingIdFollowsActionFamily(e);
  }

  datatype PostContent = PostContent(title: string, text: string)

  function AdminMarker(isAdmin: bool): string {
    if isAdmin then "(Admin)" else ""
  }

  /** Whether a permalink section is written (`permalink && permalink !== ''`). */
  predicate HasPermalink(permalink: Option<string>) {
    permalink.Some? && permalink.value != ""
  }

  function PermalinkSection(p: string): string {
    "\n\nPermalink:\n\nhttps://reddit.com" + p
  }

  /**
   * The lines of the published body: bold header, author, moderator and action
   * separated by blank lines, then the permalink block when there is one.
   */
  function BodyLines(phrase: string, action: string, mod: AccountInformation, user: AccountInformation,
                     permalink: Option<string>): seq<string>
  {
    var core := ["**" + mod.username + " " + phrase + "**", "",
                 "Author: " + user.username + " " + AdminMarker(user.isAdmin), "",
                 "Moderator: " + mod.username + " " + AdminMarker(mod.isAdmin), "",
                 "Action: " + action];
    if HasPermalink(permalink) then core + ["", "Permalink:", "", "https://reddit.com" + permalink.value] else core
  }

  /** The published title and body of a recorded action; fails for an action without a phrase. */
  function GeneratePostText(action: string, mod: AccountInformation, user: AccountInformation, permalink: Option<string>)
    : (r: Result<PostContent, AuditError>)
    ensures r.Success? <==> ParseModActionType(action).Some?
    ensures r.Success? ==> r.value.title == mod.username + " " + HumanReadableModActionType(action).value
  {
    var phrase :- HumanReadableModActionType(action).ToResult(UnsupportedAction(action));
    Success(PostContent(mod.username + " " + phrase, Join(BodyLines(phrase, action, mod, user, permalink), "\n")))
  }

  /** Splitting on a separator that is not in `a` peels `a` off as the first piece. */
  lemma {:induction false} SplitAfterPiece(a: string, sep: char, b: string)
    requires sep !in a
    ensures Split(a + [sep] + b, sep) == [a] + Split(b, sep)
    decreases |a|
  {
    if |a| == 0 {
      assert a + [sep] + b == [sep] + b;
      assert ([sep] + b)[1..] == b;
    } else {
      var s := a + [sep] + b;
      assert s[0] == a[0];
      assert s[1..] == a[1..] + [sep] + b;
      SplitAfterPiece(a[1..], sep, b);
      assert [a[0]] + a[1..] == a;
    }
  }

  lemma {:induction false} SplitSinglePiece(a: string, sep: char)
    requires sep !in a
    ensures Split(a, sep) == [a]
    decreases |a|
  {
    if |a| > 0 {
      SplitSinglePiece(a[1..], sep);
      assert [a[0]] + a[1..] == a;
    }
  }

  /** Lines free of the separator are recovered by splitting their join. */
  lemma {:induction false} SplitJoinLines(lines: seq<string>, sep: char)
    requires |lines| >= 1
    requires forall i :: 0 <= i < |lines| ==> sep !in lines[i]
    ensures Split(Join(lines, [sep]), sep) == lines
    decreases |lines|
  {
    if |lines| == 1 {
      SplitSinglePiece(lines[0], sep);
    } else {
      SplitJoinLines(lines[1..], sep);
      SplitAfterPiece(lines[0], sep, Join(lines[1..], [sep]));
      assert [lines[0]] + lines[1..] == lines;
    }
  }

  /**
   * A reader splitting the body on newlines gets back exactly its lines, as
   * long as no name, the action or the permalink contains a line break: the
   * body can be re-parsed for later editing.
   */
  lemma PostTextLines(action: string, mod: AccountInformation, user: AccountInformation, permalink: Option<string>)
    requires ParseModActionType(action).Some?
    requires '\n' !in mod.username && '\n' !in user.username && '\n' !in action
    requires permalink.Some? ==> '\n' !in permalink.value
    ensures var phrase := HumanReadableModActionType(action).value;
      Split(GeneratePostText(action, mod, user, permalink).value.text, '\n') == BodyLines(phrase, action, mod, user, permalink)
  {
    var phrase := HumanReadableModActionType(action).value;
    assert '\n' !in phrase by {
      var a := ParseModActionType(action).value;
      match a
      case RemoveLink =>
      case SpamLink =>
      case ApproveLink =>
      case RemoveComment =>
      case SpamComment =>
      case ApproveComment =>
      case BanUser =>
      case UnbanUser =>
      case MuteUser =>
      case UnmuteUser =>
    }
    var lines := BodyLines(phrase, action, mod, user, permalink);
    forall i | 0 <= i < |lines| ensures '\n' !in lines[i] {
    }
    SplitJoinLines(lines, '\n');
  }

  /** The author and moderator lines end in the admin marker exactly for admin accounts. */
  lemma AdminMarkerIffAdmin(prefix: string, isAdmin: bool)
    ensures var line := prefix + " " + AdminMarker(isAdmin);
      (|line| >= 7 && line[|line| - 7..] == "(Admin)") <==> isAdmin
  {
    var line := prefix + " " + AdminMarker(isAdmin);
    if !isAdmin {
      assert line[|line| - 1] == ' ';
    } else {
      assert line[|line| - 7..] == "(Admin)";
    }
  }

  /**
   * Permalink choice as written: a `targetPost?.permalink !== ''` test that is
   * also true when the post is absent, followed by `targetPost!`, which then
   * throws; likewise for the comment.
   */
  function ExtractPermalinkAsWritten(e: ModActionEvent): (r: Result<Option<string>, AuditError>)
    ensures r.Failure? <==> e.targetPost.None? || (e.targetPost.value.permalink == "" && e.targetComment.None?)
    ensures r.Failure? ==> r.error == MissingTarget
    ensures r.Success? && r.value.Some? ==> r.value.value != ""
  {
    if e.targetPost.None? then Failure(MissingTarget)
    else if e.targetPost.value.permalink != "" then Success(Some(e.targetPost.value.permalink))
    else if e.targetComment.None? then Failure(MissingTarget)
    else if e.targetComment.value.permalink != "" then Success(Some(e.targetComment.value.permalink))
    else Success(None)
  }

  /** A ban event carrying no post or comment makes the as-written choice throw. */
  lemma PermalinkAsWrittenThrowsWithoutPost()
    ensures ExtractPermalinkAsWritten(
      ModActionEvent("banuser", Some(UserRef("t2_mod", "mod")), Some(UserRef("t2_u", "u")), None, None, Some(0)))
      == Failure(MissingTarget)
  {
  }

  /**
   * Permalink choice as intended: the post's permalink if there is a non-empty
   * one, else the comment's, else none (a user action links nowhere).
   */
  function ExtractPermalinkFromModActionEvent(e: ModActionEvent): (r: Option<string>)
    ensures r.Some? ==> r.value != ""
    ensures e.targetPost.Some? && e.targetPost.value.permalink != "" ==> r == Some(e.targetPost.value.permalink)
    ensures !(e.targetPost.Some? && e.targetPost.value.permalink != "") ==>
      r == (if e.targetComment.Some? && e.targetComment.value.permalink != "" then Some(e.targetComment.value.permalink) else None)
  {
    if e.targetPost.Some? && e.targetPost.value.permalink != "" then Some(e.targetPost.value.permalink)
    else if e.targetComment.Some? && e.targetComment.value.permalink != "" then Some(e.targetComment.value.permalink)
    else None
  }

  /** Wherever the as-written choice does not throw, it agrees with the intended one. */
  lemma PermalinkAgreesWhereDefined(e: ModActionEvent)
    ensures ExtractPermalinkAsWritten(e).Success? ==>
      ExtractPermalinkAsWritten(e).value == ExtractPermalinkFromModActionEvent(e)
    ensures e.targetPost.Some? && e.targetComment.Some? ==> ExtractPermalinkAsWritten(e).Success?
  {
  }
}
