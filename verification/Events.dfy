/** Normalized webhook events (src/core/contracts/events.py). */
module Events {
  import opened Basics

  datatype EventType = PROpenedType | PRUpdatedType | PRCommentedType | PRReviewedType | CICompletedType | ChatMentionType

  datatype EventSource = GitHub | Slack | Teams | Replay

  /** An instant; its text format is a parameter of the job codec. */
  type Timestamp = int

  datatype EventMeta = EventMeta(
    eventId: string, eventType: EventType, correlationId: string, timestamp: Timestamp, source: EventSource)

  datatype FileChange = FileChange(
    path: string, status: string, additions: int, deletions: int, previousFilename: string)

  /** Fields shared by `PROpened` and `PRUpdated`. */
  datatype PREvent = PREvent(
    meta: EventMeta, repoFullName: string, prNumber: int, title: string, body: string, author: string,
    baseBranch: string, headBranch: string, diffUrl: string, filesChanged: seq<FileChange>, headSha: string)

  datatype PRCommented = PRCommented(
    meta: EventMeta, repoFullName: string, prNumber: int, commentId: int, author: string, body: string,
    isReviewComment: bool, path: string, line: Option<int>)

  datatype PRReviewed = PRReviewed(
    meta: EventMeta, repoFullName: string, prNumber: int, reviewer: string, state: string, body: string)

  datatype CICompleted = CICompleted(
    meta: EventMeta, repoFullName: string, prNumber: Option<int>, commitSha: string, workflowName: string,
    conclusion: string, runUrl: string, failedJobs: seq<string>, logsUrl: string, runId: Option<int>)

  datatype ChatMention = ChatMention(
    meta: EventMeta, platform: string, channelId: string, channelName: string, author: string,
    message: string, threadId: string, referencedPr: Option<int>)

  datatype Event =
    | Opened(pr: PREvent)
    | Updated(pr: PREvent)
    | Commented(comment: PRCommented)
    | Reviewed(review: PRReviewed)
    | CI(ci: CICompleted)
    | Chat(mention: ChatMention)
  {
    function Meta(): EventMeta {
      match this
      case Opened(e) => e.meta
      case Updated(e) => e.meta
      case Commented(e) => e.meta
      case Reviewed(e) => e.meta
      case CI(e) => e.meta
      case Chat(e) => e.meta
    }

    /** The event type that belongs to the event's class. */
    function ClassType(): EventType {
      match this
      case Opened(_) => PROpenedType
      case Updated(_) => PRUpdatedType
      case Commented(_) => PRCommentedType
      case Reviewed(_) => PRReviewedType
      case CI(_) => CICompletedType
      case Chat(_) => ChatMentionType
    }
  }
}
