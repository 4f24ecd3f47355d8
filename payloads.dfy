/** The metadata each producer writes into an audit row. One constructor
    function per producer shape, shared by the API, the UI views, the status
    hook, auto-assignment and the SLA sweep, so the renderers can be proved
    against exactly what is written. */
module Payloads {
  import opened Wrappers
  import opened Strings
  import opened Meta
  import opened Roles
  import opened Models

  /** CREATE (API `perform_create`): the category and priority ids. */
  function CreateMeta(category: nat, priority: nat): Payload
  {
    map["category" := JInt(category), "priority" := JInt(priority)]
  }

  /** ASSIGN from the API, from auto-assignment and from UI creation: the
      previous and new assignee ids and usernames and the reason. */
  function AssignMeta(prev: Option<UserId>, prevName: Option<string>, to: UserId, toName: string,
                      reason: string): Payload
  {
    map["from" := IntOrNull(prev), "from_username" := StrOrNull(prevName),
        "to" := JInt(to), "to_username" := JStr(toName), "reason" := JStr(reason)]
  }

  /** ASSIGN from the UI assignment view: also whether and how the title changed. */
  function TitledAssignMeta(prev: Option<UserId>, prevName: Option<string>, to: UserId, toName: string,
                            reason: string, titleChanged: bool, titleFrom: string, titleTo: string): Payload
  {
    AssignMeta(prev, prevName, to, toName, reason)
      ["title_changed" := JBool(titleChanged)]["title_from" := JStr(titleFrom)]["title_to" := JStr(titleTo)]
  }

  /** STATUS, from the status hook, the API and the UI: the two codes with
      their labels and the optional comment. */
  function StatusMeta(from: Status, to: Status, withComment: bool, internal: bool,
                      commentId: Option<nat>, preview: string): Payload
  {
    map["from" := JStr(Code(from)), "from_label" := JStr(Label(from)),
        "to" := JStr(Code(to)), "to_label" := JStr(Label(to)),
        "with_comment" := JBool(withComment), "internal" := JBool(internal),
        "comment_id" := IntOrNull(commentId), "body_preview" := JStr(preview)]
  }

  /** COMMENT from the UI: visibility, the comment id, the attachment name
      (None without a file) and the preview. */
  function CommentMeta(internal: bool, commentId: nat, withAttachment: bool,
                       filename: Option<string>, preview: string): Payload
  {
    map["internal" := JBool(internal), "comment_id" := JInt(commentId),
        "with_attachment" := JBool(withAttachment), "filename" := StrOrNull(filename),
        "body_preview" := JStr(preview)]
  }

  /** COMMENT from the API: no attachment and no filename key. */
  function ApiCommentMeta(internal: bool, commentId: nat, preview: string): Payload
  {
    map["internal" := JBool(internal), "comment_id" := JInt(commentId),
        "with_attachment" := JBool(false), "body_preview" := JStr(preview)]
  }

  /** ATTACH from the API: file basename, size and content type. */
  function AttachMeta(filename: string, size: int, contentType: string): Payload
  {
    map["filename" := JStr(filename), "size" := JInt(size), "content_type" := JStr(contentType)]
  }

  /** SLA_BREACH of a ticket resolved after its due time (times in seconds). */
  function BreachResolvedMeta(due: int, resolvedAt: int): Payload
  {
    map["due_at" := JInt(due), "resolved_at" := JInt(resolvedAt)]
  }

  /** SLA_BREACH of an unresolved ticket: whole hours past due. */
  function BreachOverdueMeta(due: int, overdueH: int): Payload
  {
    map["due_at" := JInt(due), "overdue_h" := JInt(overdueH)]
  }

  /** SLA_WARN: whole hours left before the due time. */
  function WarnMeta(due: int, remainingH: int): Payload
  {
    map["due_at" := JInt(due), "remaining_h" := JInt(remainingH)]
  }

  // ------------------------------------------- what each payload reads back

  lemma CreateMetaReads(category: nat, priority: nat)
    ensures var m := CreateMeta(category, priority);
      Get(m, "category") == JInt(category) && Get(m, "priority") == JInt(priority)
  {
  }

  lemma AssignMetaReads(prev: Option<UserId>, prevName: Option<string>, to: UserId, toName: string,
                        reason: string)
    ensures var m := AssignMeta(prev, prevName, to, toName, reason);
      Get(m, "from") == IntOrNull(prev) && Get(m, "to") == JInt(to)
      && Get(m, "from_username") == StrOrNull(prevName) && Get(m, "to_username") == JStr(toName)
      && Get(m, "reason") == JStr(reason)
      && !Truthy(Get(m, "title_changed"))
  {
  }

  lemma TitledAssignMetaReads(prev: Option<UserId>, prevName: Option<string>, to: UserId, toName: string,
                               reason: string, titleChanged: bool, titleFrom: string, titleTo: string)
    ensures var m := TitledAssignMeta(prev, prevName, to, toName, reason, titleChanged, titleFrom, titleTo);
      Get(m, "from") == IntOrNull(prev) && Get(m, "to") == JInt(to)
      && Get(m, "from_username") == StrOrNull(prevName) && Get(m, "to_username") == JStr(toName)
      && Get(m, "reason") == JStr(reason)
      && Get(m, "title_changed") == JBool(titleChanged)
      && Get(m, "title_from") == JStr(titleFrom) && Get(m, "title_to") == JStr(titleTo)
  {
  }

  lemma StatusMetaReads(from: Status, to: Status, withComment: bool, internal: bool,
                        commentId: Option<nat>, preview: string)
    ensures var m := StatusMeta(from, to, withComment, internal, commentId, preview);
      Get(m, "from") == JStr(Code(from)) && Get(m, "from_label") == JStr(Label(from))
      && Get(m, "to") == JStr(Code(to)) && Get(m, "to_label") == JStr(Label(to))
      && Get(m, "with_comment") == JBool(withComment) && Get(m, "internal") == JBool(internal)
      && Get(m, "comment_id") == IntOrNull(commentId) && Get(m, "body_preview") == JStr(preview)
  {
  }

  lemma CommentMetaReads(internal: bool, commentId: nat, withAttachment: bool,
                         filename: Option<string>, preview: string)
    ensures var m := CommentMeta(internal, commentId, withAttachment, filename, preview);
      Get(m, "internal") == JBool(internal) && Get(m, "comment_id") == JInt(commentId)
      && Get(m, "with_attachment") == JBool(withAttachment)
      && Get(m, "filename") == StrOrNull(filename) && Get(m, "body_preview") == JStr(preview)
  {
  }

  lemma ApiCommentMetaReads(internal: bool, commentId: nat, preview: string)
    ensures var m := ApiCommentMeta(internal, commentId, preview);
      Get(m, "internal") == JBool(internal) && Get(m, "comment_id") == JInt(commentId)
      && !Truthy(Get(m, "with_attachment")) && Get(m, "filename") == JNull
      && Get(m, "body_preview") == JStr(preview)
  {
  }

  lemma AttachMetaReads(filename: string, size: int, contentType: string)
    ensures var m := AttachMeta(filename, size, contentType);
      Get(m, "filename") == JStr(filename) && Get(m, "size") == JInt(size)
      && Get(m, "content_type") == JStr(contentType)
  {
  }

  lemma BreachResolvedMetaReads(due: int, resolvedAt: int)
    ensures var m := BreachResolvedMeta(due, resolvedAt);
      Get(m, "due_at") == JInt(due) && Get(m, "resolved_at") == JInt(resolvedAt)
      && Get(m, "overdue_h") == JNull
  {
  }

  lemma BreachOverdueMetaReads(due: int, overdueH: int)
    ensures var m := BreachOverdueMeta(due, overdueH);
      Get(m, "due_at") == JInt(due) && Get(m, "overdue_h") == JInt(overdueH)
  {
  }

  lemma WarnMetaReads(due: int, remainingH: int)
    ensures var m := WarnMeta(due, remainingH);
      Get(m, "due_at") == JInt(due) && Get(m, "remaining_h") == JInt(remainingH)
  {
  }
}
