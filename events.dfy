/** The `post_save` hook on audit rows (tickets/signals.py `on_audit_log`):
    every new audit row yields one global event whose message is rendered
    from the row's action code and metadata. */
module Events {
  import opened Wrappers
  import opened Strings
  import opened Meta
  import opened Roles
  import opened Models
  import opened Payloads

  /** `_username_from_meta`: the recorded username, else the name `names`
      gives the recorded id (an integer or a digit string), else
      "Sin asignar". The event hook looks names up in the whole user
      directory, the activity feed in the directory restricted to the ids its
      rows mention. */
  function UsernameFromMeta(m: Payload, keyId: string, keyName: string, names: map<int, string>): (s: string)
    ensures Truthy(Get(m, keyName)) ==> s == Show(Get(m, keyName))
    ensures !Truthy(Get(m, keyName)) && !Truthy(Get(m, keyId)) ==> s == "Sin asignar"
    ensures !Truthy(Get(m, keyName)) && AsUserId(Get(m, keyId)).Some? && AsUserId(Get(m, keyId)).value !in names
            ==> s == "Sin asignar"
    ensures !Truthy(Get(m, keyName)) && Truthy(Get(m, keyId)) && AsUserId(Get(m, keyId)).Some?
            && AsUserId(Get(m, keyId)).value in names
            ==> s == names[AsUserId(Get(m, keyId)).value]
    ensures !Truthy(Get(m, keyName)) && AsUserId(Get(m, keyId)).None? ==> s == "Sin asignar"
  {
    if Truthy(Get(m, keyName)) then Show(Get(m, keyName))
    else if !Truthy(Get(m, keyId)) then "Sin asignar"
    else match AsUserId(Get(m, keyId))
      case None => "Sin asignar"
      case Some(id) => if id in names then names[id] else "Sin asignar"
  }

  function Scope(m: Payload): string {
    if Truthy(Get(m, "internal")) then "interno" else "público"
  }

  function CommentMessage(author: string, m: Payload): string {
    var preview := Strip(Text(m, "body_preview"));
    var base := if preview != "" then author + " comentó (" + Scope(m) + "): " + preview
                else author + " agregó un comentario " + Scope(m) + ".";
    if Truthy(Get(m, "with_attachment"))
    then base + " Adjuntó " + ShowOr(Get(m, "filename"), "archivo adjunto") + "."
    else base
  }

  /** Re-assignment is reported when the previous assignee is set and differs. */
  predicate IsReassign(m: Payload) {
    Truthy(Get(m, "from")) && Get(m, "from") != Get(m, "to")
  }

  function AssignHead(m: Payload, names: map<int, string>): string {
    var toName := UsernameFromMeta(m, "to", "to_username", names);
    if IsReassign(m)
    then "Reasignado de " + UsernameFromMeta(m, "from", "from_username", names) + " a " + toName + "."
    else "Asignado a " + toName + "."
  }

  function AssignMessage(m: Payload, users: seq<User>): string {
    var head := AssignHead(m, Usernames(users));
    var reason := Strip(Text(m, "reason"));
    var withReason := if reason != "" then head + " Motivo: " + reason + "." else head;
    var titleFrom := Strip(Text(m, "title_from"));
    var titleTo := Strip(Text(m, "title_to"));
    if Truthy(Get(m, "title_changed")) && (titleFrom != "" || titleTo != "")
    then withReason + " Título: '" + (if titleFrom != "" then titleFrom else "—") + "' → '"
         + (if titleTo != "" then titleTo else "—") + "'."
    else withReason
  }

  /** `meta.get(label_key) or status_map.get(meta.get(code_key))`, else "Sin estado". */
  function StatusLabel(m: Payload, codeKey: string, labelKey: string): (s: string)
    ensures s != ""
  {
    if Truthy(Get(m, labelKey)) then
      var v := Show(Get(m, labelKey));
      if v != "" then v else "Sin estado"
    else match LabelOfCode(Get(m, codeKey))
      case Some(l) => l
      case None => "Sin estado"
  }

  function StatusMessage(m: Payload): string {
    var head := "Estado: " + StatusLabel(m, "from", "from_label") + " → " + StatusLabel(m, "to", "to_label") + ".";
    var preview := Strip(Text(m, "body_preview"));
    if Truthy(Get(m, "with_comment")) && preview != ""
    then head + " Comentario " + Scope(m) + ": " + preview + "."
    else head
  }

  function AttachMessage(m: Payload): string {
    if Truthy(Get(m, "filename"))
    then "Adjunto agregado: " + AfterLastSlash(Show(Get(m, "filename"))) + "."
    else "Adjunto agregado al ticket."
  }

  /** The event message for an audit row of kind `a`, actor name `author`
      and metadata `m`. */
  function MessageOf(a: Action, author: string, m: Payload, users: seq<User>): string {
    match a
    case Comment => CommentMessage(author, m)
    case Assign => AssignMessage(m, users)
    case StatusChange => StatusMessage(m)
    case Attach => AttachMessage(m)
    case SlaWarn =>
      if Get(m, "remaining_h") != JNull then "Alerta SLA: " + Show(Get(m, "remaining_h")) + "h restantes."
      else "Advertencia SLA."
    case SlaBreach =>
      if Get(m, "overdue_h") != JNull then "SLA vencido hace " + Show(Get(m, "overdue_h")) + "h."
      else "Incumplimiento SLA."
    case Create => "Ticket creado."
  }

  /** The message for a stored action code: the kind's message, or "" for a
      code outside the seven kinds. */
  function Message(action: string, author: string, m: Payload, users: seq<User>): (s: string)
    ensures ParseAction(action).None? ==> s == ""
    ensures ParseAction(action).Some? ==> s == MessageOf(ParseAction(action).value, author, m, users)
  {
    match ParseAction(action)
    case None => ""
    case Some(a) => MessageOf(a, author, m, users)
  }

  /** `getattr(instance.actor, "username", "usuario")`. */
  function ActorName(actor: Option<UserId>, users: seq<User>): string {
    match actor
    case None => "usuario"
    case Some(id) => (match Lookup(users, id) case Some(u) => u.username case None => "usuario")
  }

  /** The event derived from an audit row. */
  function Derive(log: AuditLog, users: seq<User>): (e: EventLog)
    ensures e.actor == log.actor && e.action == ActionCode(log.action)
    ensures e.model == "ticket" && e.objId == log.ticket && e.createdAt == log.createdAt
  {
    var code := ActionCode(log.action);
    EventLog(log.actor, "ticket", log.ticket, code, MessageOf(log.action, ActorName(log.actor, users), log.meta, users),
             log.createdAt)
  }

  /** The events derived from a sequence of audit rows, one per row, in order. */
  function DeriveAll(logs: seq<AuditLog>, users: seq<User>): (es: seq<EventLog>)
    ensures |es| == |logs|
    ensures forall i :: 0 <= i < |logs| ==> es[i] == Derive(logs[i], users)
  {
    if logs == [] then [] else DeriveAll(logs[..|logs| - 1], users) + [Derive(logs[|logs| - 1], users)]
  }

  lemma DeriveAllAppend(logs: seq<AuditLog>, l: AuditLog, users: seq<User>)
    ensures DeriveAll(logs + [l], users) == DeriveAll(logs, users) + [Derive(l, users)]
  {
    assert (logs + [l])[..|logs + [l]| - 1] == logs;
  }

  // ----------------------------------------------------------- properties

  /** A status row as the producers write it renders "Estado: A → B." with
      the two labels, followed by the comment note when a non-blank comment
      was attached. */
  lemma StatusMessageOfMeta(from: Status, to: Status, withComment: bool, internal: bool,
                            commentId: Option<nat>, preview: string, author: string, users: seq<User>)
    ensures var p := Strip(preview);
      MessageOf(StatusChange, author, StatusMeta(from, to, withComment, internal, commentId, preview), users)
      == "Estado: " + Label(from) + " → " + Label(to) + "."
         + (if withComment && p != "" then " Comentario " + (if internal then "interno" else "público")
                                           + ": " + p + "."
            else "")
  {
    var m := StatusMeta(from, to, withComment, internal, commentId, preview);
    assert StatusLabel(m, "from", "from_label") == Label(from);
    assert StatusLabel(m, "to", "to_label") == Label(to);
    assert Text(m, "body_preview") == preview;
    assert Scope(m) == if internal then "interno" else "público";
  }

  /** Without labels or a known code, both sides read "Sin estado". */
  lemma StatusMessageWithoutLabels(author: string, users: seq<User>)
    ensures MessageOf(StatusChange, author, map[], users) == "Estado: Sin estado → Sin estado."
  {
  }

  /** An assignment row reads as a re-assignment exactly when a previous,
      different assignee was recorded; the names are the recorded usernames. */
  lemma AssignHeadOfMeta(prev: Option<UserId>, prevName: string, to: UserId, toName: string,
                         reason: string, names: map<int, string>)
    requires prevName != "" && toName != ""
    ensures var m := AssignMeta(prev, if prev.Some? then Some(prevName) else None, to, toName, reason);
      AssignHead(m, names)
      == if prev.Some? && prev.value != 0 && prev.value != to
         then "Reasignado de " + prevName + " a " + toName + "."
         else "Asignado a " + toName + "."
  {
  }

  /** The full message of an assignment row without a title change: the
      headline and, for a non-blank reason, " Motivo: r.". */
  lemma AssignMessageOfMeta(prev: Option<UserId>, prevName: Option<string>, to: UserId, toName: string,
                            reason: string, users: seq<User>)
    ensures var m := AssignMeta(prev, prevName, to, toName, reason);
      var r := Strip(reason);
      MessageOf(Assign, "x", m, users) == AssignHead(m, Usernames(users)) + (if r != "" then " Motivo: " + r + "." else "")
  {
    var m := AssignMeta(prev, prevName, to, toName, reason);
    assert Text(m, "reason") == reason;
    assert !Truthy(Get(m, "title_changed"));
  }

  /** A retitling assignment appends both titles, a blank one shown as "—". */
  lemma AssignTitleNote(prev: Option<UserId>, prevName: Option<string>, to: UserId, toName: string,
                        titleFrom: string, titleTo: string, users: seq<User>)
    requires Strip(titleFrom) != "" && Strip(titleTo) != ""
    ensures var m := TitledAssignMeta(prev, prevName, to, toName, "", true, titleFrom, titleTo);
      MessageOf(Assign, "x", m, users)
      == AssignHead(m, Usernames(users)) + " Título: '" + Strip(titleFrom) + "' → '" + Strip(titleTo) + "'."
  {
    var m := TitledAssignMeta(prev, prevName, to, toName, "", true, titleFrom, titleTo);
    assert Text(m, "reason") == "";
    assert Strip(Text(m, "reason")) == "";
    assert Text(m, "title_from") == titleFrom && Text(m, "title_to") == titleTo;
    assert Truthy(Get(m, "title_changed"));
  }

  /** An attachment row names only the last path component of its file. */
  lemma AttachMessageOfMeta(filename: string, size: int, contentType: string, author: string, users: seq<User>)
    requires filename != ""
    ensures MessageOf(Attach, author, AttachMeta(filename, size, contentType), users)
            == "Adjunto agregado: " + AfterLastSlash(filename) + "."
    ensures '/' !in AfterLastSlash(filename)
  {
  }

  /** The SLA rows carry their hour counts into the message. */
  lemma SlaMessagesOfMeta(due: int, h: int, author: string, users: seq<User>)
    ensures MessageOf(SlaWarn, author, WarnMeta(due, h), users) == "Alerta SLA: " + IntToString(h) + "h restantes."
    ensures MessageOf(SlaBreach, author, BreachOverdueMeta(due, h), users) == "SLA vencido hace " + IntToString(h) + "h."
    ensures MessageOf(SlaBreach, author, BreachResolvedMeta(due, h), users) == "Incumplimiento SLA."
  {
  }

  /** A comment row with a non-blank preview quotes it with its scope; a file
      adds its name. */
  lemma CommentMessageOfMeta(author: string, internal: bool, commentId: nat, filename: string,
                             preview: string, users: seq<User>)
    requires Strip(preview) != "" && filename != ""
    ensures MessageOf(Comment, author, CommentMeta(internal, commentId, true, Some(filename), preview), users)
            == author + " comentó (" + (if internal then "interno" else "público") + "): " + Strip(preview)
               + " Adjuntó " + filename + "."
    ensures MessageOf(Comment, author, ApiCommentMeta(internal, commentId, preview), users)
            == author + " comentó (" + (if internal then "interno" else "público") + "): " + Strip(preview)
  {
  }
}
