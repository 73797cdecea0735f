/**
 * The platform events the handlers receive, with the optional fields of their
 * wire messages as `Option`. A string field the platform leaves unset reads as
 * the empty string; timestamps are milliseconds since the epoch.
 */
module Events {
  import opened Wrappers

  datatype UserRef = UserRef(id: string, name: string)

  /** A post or comment the action was taken on. */
  datatype TargetRef = TargetRef(id: string, permalink: string)

  datatype ModActionEvent = ModActionEvent(
    action: string,
    moderator: Option<UserRef>,
    targetUser: Option<UserRef>,
    targetPost: Option<TargetRef>,
    targetComment: Option<TargetRef>,
    actionedAt: Option<nat>)

  /** Content deletion events; `source` 1 marks a deletion by the author. */
  datatype DeleteEvent =
    | CommentDelete(commentId: string, source: int)
    | PostDelete(postId: string, source: int)

  /** The platform calls that publish: a new text post, or an edit of an existing post's text. */
  datatype Effect =
    | Submitted(subreddit: string, title: string, text: string)
    | Edited(post: string, text: string)
}
