/**
 * Installation settings: the selectable action values, the two form
 * validators, the comma-list parsing of the exclusion settings and the
 * minimal-configuration test. Reading the settings store is left to the caller,
 * which passes the raw values in.
 */
module Settings {
  import opened Wrappers
  import opened Text
  import opened Types

  /**
   * The values as stored by the settings form. The two exclusion lists have no
   * default, so they stay unset until a moderator types something in.
   */
  datatype RawSettings = RawSettings(
    targetSubreddit: string,
    recordAdminActions: bool,
    recordAutoModeratorActions: bool,
    moderationActions: seq<string>,
    excludedModerators: Option<string>,
    excludedUsers: Option<string>)

  /** Reading the settings failed: the named list is unset, and splitting it throws. */
  datatype SettingsError = UnsetList(name: string)

  datatype AppSettings = AppSettings(
    targetSubreddit: string,
    recordAdminActions: bool,
    recordAutoModeratorActions: bool,
    moderationActions: seq<string>,
    excludedModerators: seq<string>,
    excludedUsers: seq<string>)

  /** The option values of the action selector as written, with `approveComment` in camel case. */
  const ModerationActionOptionsAsWritten: seq<string> :=
    ["removelink", "spamlink", "approvelink", "removecomment", "spamcomment", "approveComment",
     "lock", "unlock", "banuser", "unbanuser", "muteuser", "unmuteuser"]

  /** The option values with the comment-approval value spelled as the platform spells the action. */
  const ModerationActionOptions: seq<string> :=
    ["removelink", "spamlink", "approvelink", "removecomment", "spamcomment", "approvecomment",
     "lock", "unlock", "banuser", "unbanuser", "muteuser", "unmuteuser"]

  const DefaultModerationActions: seq<string> :=
    ["removelink", "spamlink", "removecomment", "spamcomment", "banuser", "muteuser"]

  /**
   * Twelve distinct selectable values, the default selection drawn from them,
   * and every one of the ten action types selectable.
   */
  lemma ModerationActionOptionsShape()
    ensures |ModerationActionOptions| == 12
    ensures forall i, j :: 0 <= i < j < 12 ==> ModerationActionOptions[i] != ModerationActionOptions[j]
    ensures forall i :: 0 <= i < |DefaultModerationActions| ==> DefaultModerationActions[i] in ModerationActionOptions
    ensures forall a: ModActionType :: a.Value() in ModerationActionOptions
  {
    forall a: ModActionType ensures a.Value() in ModerationActionOptions {
      match a
      case RemoveLink => assert ModerationActionOptions[0] == a.Value();
      case SpamLink => assert ModerationActionOptions[1] == a.Value();
      case ApproveLink => assert ModerationActionOptions[2] == a.Value();
      case RemoveComment => assert ModerationActionOptions[3] == a.Value();
      case SpamComment => assert ModerationActionOptions[4] == a.Value();
      case ApproveComment => assert ModerationActionOptions[5] == a.Value();
      case BanUser => assert ModerationActionOptions[8] == a.Value();
      case UnbanUser => assert ModerationActionOptions[9] == a.Value();
      case MuteUser => assert ModerationActionOptions[10] == a.Value();
      case UnmuteUser => assert ModerationActionOptions[11] == a.Value();
    }
  }

  /**
   * The options as written: also twelve distinct values with the default
   * selection drawn from them, but only nine of the ten action types are
   * selectable; comment approval is the one missing.
   */
  lemma ModerationActionOptionsAsWrittenShape()
    ensures |ModerationActionOptionsAsWritten| == 12
    ensures forall i, j :: 0 <= i < j < 12 ==> ModerationActionOptionsAsWritten[i] != ModerationActionOptionsAsWritten[j]
    ensures forall i :: 0 <= i < |DefaultModerationActions| ==> DefaultModerationActions[i] in ModerationActionOptionsAsWritten
    ensures forall a: ModActionType :: a.Value() in ModerationActionOptionsAsWritten <==> a != ApproveComment
  {
    forall a: ModActionType ensures a.Value() in ModerationActionOptionsAsWritten <==> a != ApproveComment {
      match a
      case RemoveLink => assert ModerationActionOptionsAsWritten[0] == a.Value();
      case SpamLink => assert ModerationActionOptionsAsWritten[1] == a.Value();
      case ApproveLink => assert ModerationActionOptionsAsWritten[2] == a.Value();
      case RemoveComment => assert ModerationActionOptionsAsWritten[3] == a.Value();
      case SpamComment => assert ModerationActionOptionsAsWritten[4] == a.Value();
      case ApproveComment =>
      case BanUser => assert ModerationActionOptionsAsWritten[8] == a.Value();
      case UnbanUser => assert ModerationActionOptionsAsWritten[9] == a.Value();
      case MuteUser => assert ModerationActionOptionsAsWritten[10] == a.Value();
      case UnmuteUser => assert ModerationActionOptionsAsWritten[11] == a.Value();
    }
  }

  /**
   * With the options as written, no selection contains the platform's
   * `approvecomment` value, so comment approvals are never recorded.
   */
  lemma ApproveCommentNeverSelectableAsWritten(selection: seq<string>)
    requires forall i :: 0 <= i < |selection| ==> selection[i] in ModerationActionOptionsAsWritten
    ensures ApproveComment.Value() !in selection
  {
    assert ApproveComment.Value() !in ModerationActionOptionsAsWritten;
  }

  /** Form validation of the action selector: an error exactly when nothing is selected. */
  function HasAtLeastOneOptionSelected(value: Option<seq<string>>): (r: Option<string>)
    ensures r.Some? <==> value.None? || |value.value| == 0
  {
    if value.None? || |value.value| == 0 then Some("At least one option must be selected") else None
  }

  predicate IsUsernameChar(c: char) {
    ('a' <= c <= 'z') || ('A' <= c <= 'Z') || ('0' <= c <= '9') || c == '_' || c == '-'
  }

  /** `/^[a-zA-Z0-9_-]{3,20}$/`. */
  predicate IsValidUsername(u: string) {
    3 <= |u| <= 20 && forall i :: 0 <= i < |u| ==> IsUsernameChar(u[i])
  }

  /** `raw.split(',').map(x => x.trim())`. */
  function SplitAndTrim(raw: string): (r: seq<string>)
    ensures |r| == |Split(raw, ',')|
    ensures forall i :: 0 <= i < |r| ==> r[i] == Trim(Split(raw, ',')[i])
  {
    var pieces := Split(raw, ',');
    seq(|pieces|, i requires 0 <= i < |pieces| => Trim(pieces[i]))
  }

  /**
   * The parsed list has one entry per comma plus one, no entry contains a comma,
   * and no entry starts or ends with white space.
   */
  lemma SplitAndTrimShape(raw: string)
    ensures |SplitAndTrim(raw)| == Count(raw, ',') + 1
    ensures forall i :: 0 <= i < |SplitAndTrim(raw)| ==> ',' !in SplitAndTrim(raw)[i]
    ensures forall i :: 0 <= i < |SplitAndTrim(raw)| ==> Trim(SplitAndTrim(raw)[i]) == SplitAndTrim(raw)[i]
  {
    SplitCount(raw, ',');
    var pieces := Split(raw, ',');
    var r := SplitAndTrim(raw);
    forall i | 0 <= i < |r| ensures ',' !in r[i] && Trim(r[i]) == r[i] {
      assert r[i] == Trim(pieces[i]);
      TrimKeepsOnlyOriginalChars(pieces[i], ',');
      TrimIdempotent(pieces[i]);
    }
  }

  /** Trimming never introduces a character. */
  lemma TrimKeepsOnlyOriginalChars(p: string, c: char)
    requires c !in p
    ensures c !in Trim(p)
  {
    var a := TrimStart(p);
    var r := TrimEnd(a);
    forall k | 0 <= k < |r| ensures r[k] != c {
      assert r[k] == a[k] == p[|p| - |a| + k];
    }
  }

  /** The entries of `names` that fail the username pattern, in their original order. */
  function InvalidOf(names: seq<string>): (r: seq<string>)
    ensures forall u :: u in r <==> u in names && !IsValidUsername(u)
    ensures |r| <= |names|
  {
    if |names| == 0 then []
    else
      var rest := InvalidOf(names[1..]);
      assert forall u :: u in names <==> u == names[0] || u in names[1..];
      if IsValidUsername(names[0]) then rest else [names[0]] + rest
  }

  lemma NothingInvalid(names: seq<string>)
    ensures |InvalidOf(names)| == 0 <==> forall u :: u in names ==> IsValidUsername(u)
  {
    if |InvalidOf(names)| != 0 {
      assert InvalidOf(names)[0] in InvalidOf(names);
    }
  }

  /** Form validation of an exclusion list: blank is fine, otherwise every bad name is reported. */
  function ListOfExcludedUsersIsValid(value: Option<string>): (r: Option<string>)
    ensures value.None? || Trim(value.value) == "" ==> r.None?
    ensures value.Some? && Trim(value.value) != "" ==>
      (r.None? <==> forall u :: u in SplitAndTrim(value.value) ==> IsValidUsername(u))
    ensures r.Some? ==>
      r.value == "The following usernames are invalid: " + Join(InvalidOf(SplitAndTrim(value.value)), ", ")
  {
    if value.None? || Trim(value.value) == "" then None
    else
      var names := SplitAndTrim(value.value);
      var invalid := InvalidOf(names);
      NothingInvalid(names);
      if |invalid| > 0 then Some("The following usernames are invalid: " + Join(invalid, ", "))
      else None
  }

  /** Valid names are never reported, whatever else is on the list. */
  lemma ValidNamesNeverReported(value: string, u: string)
    requires IsValidUsername(u)
    ensures u !in InvalidOf(SplitAndTrim(value))
  {
  }

  /**
   * The settings the handlers use, with both exclusion lists parsed. The lists
   * are parsed in field order, and an unset one fails the whole read.
   */
  function GetAppSettings(raw: RawSettings): (r: Result<AppSettings, SettingsError>)
    ensures r.Failure? <==> raw.excludedModerators.None? || raw.excludedUsers.None?
    ensures raw.excludedModerators.None? ==> r == Failure(UnsetList("excludedModerators"))
    ensures raw.excludedModerators.Some? && raw.excludedUsers.None? ==> r == Failure(UnsetList("excludedUsers"))
    ensures r.Success? ==>
      && r.value.excludedModerators == SplitAndTrim(raw.excludedModerators.value)
      && r.value.excludedUsers == SplitAndTrim(raw.excludedUsers.value)
      && r.value.targetSubreddit == raw.targetSubreddit && r.value.moderationActions == raw.moderationActions
      && r.value.recordAdminActions == raw.recordAdminActions
      && r.value.recordAutoModeratorActions == raw.recordAutoModeratorActions
  {
    if raw.excludedModerators.None? then Failure(UnsetList("excludedModerators"))
    else if raw.excludedUsers.None? then Failure(UnsetList("excludedUsers"))
    else
      Success(AppSettings(raw.targetSubreddit, raw.recordAdminActions, raw.recordAutoModeratorActions,
                          raw.moderationActions, SplitAndTrim(raw.excludedModerators.value),
                          SplitAndTrim(raw.excludedUsers.value)))
  }

  /**
   * A list stored as the empty string parses to the single entry "": no
   * username matches it, so nobody is excluded.
   */
  lemma ClearedListExcludesNobody(raw: RawSettings, u: string)
    requires raw.excludedModerators == Some("") && raw.excludedUsers == Some("")
    requires u != ""
    ensures GetAppSettings(raw).Success?
    ensures u !in GetAppSettings(raw).value.excludedModerators && u !in GetAppSettings(raw).value.excludedUsers
  {
    assert Split("", ',') == [""];
    assert Trim("") == "";
  }

  /** An installation is usable when it names a destination and selects at least one action. */
  function IsMinimallyConfigured(settings: AppSettings): (r: bool)
    ensures !r <==> Trim(settings.targetSubreddit) == "" || |settings.moderationActions| == 0
  {
    if |Trim(settings.targetSubreddit)| == 0 then false
    else if |settings.moderationActions| == 0 then false
    else true
  }

  /** A destination made only of white space does not count as configured. */
  lemma BlankDestinationIsNotConfigured(settings: AppSettings)
    requires AllWhitespace(settings.targetSubreddit)
    ensures !IsMinimallyConfigured(settings)
  {
    TrimIsWhitespaceFramedSlice(settings.targetSubreddit);
  }
}
