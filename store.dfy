/** The helpdesk's database as one object: the ticket rows and the
    append-only rows written around them (comments, attachments, assignment
    history, audit and event logs, notifications), the auto-assignment rules,
    and the mails the hooks ask to send. Its methods are the operations of
    tickets/api.py, tickets/views.py and tickets/services.py together with the
    model `save()` and the `post_save` hooks they trigger. A ticket's id is its
    position plus one, a user's id likewise. */
module Store {
  import opened Wrappers
  import opened Strings
  import opened Meta
  import opened Roles
  import opened Models
  import opened Validators
  import opened Access
  import opened Payloads
  import opened Events
  import opened Feed
  import opened Hooks
  import opened Sla

  /** Every reference a ticket holds names an existing user. */
  predicate TicketRefs(users: seq<User>, t: Ticket) {
    ValidId(users, t.requester) && (t.assignee.Some? ==> ValidId(users, t.assignee.value))
  }

  predicate RefsResolve(users: seq<User>, ts: seq<Ticket>) {
    forall i :: 0 <= i < |ts| ==> TicketRefs(users, ts[i])
  }

  /** Every audit row belongs to one of the first `n` tickets. */
  predicate AuditsInRange(logs: seq<AuditLog>, n: nat) {
    forall k :: 0 <= k < |logs| ==> 1 <= logs[k].ticket <= n
  }

  /** At most one SLA warning and one SLA breach row per ticket. */
  predicate SlaOnce(logs: seq<AuditLog>) {
    forall i, j :: 0 <= i < j < |logs| && (logs[j].action == SlaWarn || logs[j].action == SlaBreach)
      ==> logs[i].ticket != logs[j].ticket || logs[i].action != logs[j].action
  }

  predicate RulesResolve(users: seq<User>, rules: seq<Rule>) {
    forall i :: 0 <= i < |rules| ==> ValidId(users, rules[i].tech)
  }

  /** The codes in use. */
  function Codes(ts: seq<Ticket>): set<string> {
    set i | 0 <= i < |ts| :: ts[i].code
  }

  /** Codes are the ids rendered in decimal. */
  predicate CodesSequential(ts: seq<Ticket>) {
    forall i :: 0 <= i < |ts| ==> ts[i].code == NatToString(i + 1)
  }

  /** `code = str(pk)` keeps the unique index satisfied: no two tickets share a code. */
  lemma CodesUnique(ts: seq<Ticket>, i: nat, j: nat)
    requires CodesSequential(ts) && i < |ts| && j < |ts| && ts[i].code == ts[j].code
    ensures i == j
  {
    NatToStringInjective(i + 1, j + 1);
  }

  /** A temporary code never collides with a stored one. */
  lemma TemporaryCodeIsFree(ts: seq<Ticket>, hex: string)
    requires CodesSequential(ts)
    ensures TemporaryCode(hex) !in Codes(ts)
  {
    forall i | 0 <= i < |ts| ensures ts[i].code != TemporaryCode(hex) {
      assert IsDigits(ts[i].code);
    }
  }

  /** The row inserted for ticket `t` with id `id` at time `now`. */
  function Inserted(t: Ticket, id: nat, now: int): (r: Ticket)
    ensures r.code == NatToString(id) && r.createdAt == now && r.updatedAt == now
    ensures r.title == t.title && r.status == t.status && r.requester == t.requester && r.assignee == t.assignee
  {
    t.(code := NatToString(id), createdAt := now, updatedAt := now)
  }

  /** The code a new row is inserted under: the given one, or the temporary
      code when none was given. */
  function InsertCode(code: string, hex: string): (c: string)
    ensures c != ""
    ensures code != "" ==> c == code
    ensures code == "" ==> c == TemporaryCode(hex) && !IsDigits(c)
  {
    if code == "" then TemporaryCode(hex) else code
  }

  /** `getattr(prev, "username", None) if prev else None`. */
  function PrevName(users: seq<User>, prev: Option<UserId>): (r: Option<string>)
    requires prev.Some? ==> ValidId(users, prev.value)
    ensures r.Some? <==> prev.Some?
    ensures r.Some? ==> r.value == users[prev.value - 1].username
  {
    match prev
    case None => None
    case Some(p) => Some(users[p - 1].username)
  }

  /** The ASSIGN row of an assignment from `prev` to `to`. */
  function AssignRow(users: seq<User>, id: nat, actor: Option<UserId>, prev: Option<UserId>, to: UserId,
                     reason: string, now: int): (l: AuditLog)
    requires ValidId(users, to) && (prev.Some? ==> ValidId(users, prev.value))
    ensures l.ticket == id && l.actor == actor && l.action == Assign && l.createdAt == now
  {
    AuditLog(id, actor, Assign, AssignMeta(prev, PrevName(users, prev), to, users[to - 1].username, reason), now)
  }

  /** The technician `apply_auto_assign` moves ticket `t` to: the matched
      rule's technician, unless no rule matches or that technician already
      has the ticket. */
  function AutoTarget(rules: seq<Rule>, t: Ticket): (r: Option<UserId>)
    ensures r.Some? <==> MatchRule(rules, t.category, t.area).Some?
                         && t.assignee != Some(rules[MatchRule(rules, t.category, t.area).value].tech)
    ensures r.Some? ==> r.value == rules[MatchRule(rules, t.category, t.area).value].tech && t.assignee != r
  {
    match MatchRule(rules, t.category, t.area)
    case None => None
    case Some(k) => if t.assignee == Some(rules[k].tech) then None else Some(rules[k].tech)
  }

  /** The fallback STATUS row of the ticket hook, when the hook writes one. */
  function FallbackRows(id: nat, actor: Option<UserId>, e: HookEffect, from: Status, to: Status, now: int)
    : (rows: seq<AuditLog>)
    ensures |rows| <= 1
    ensures rows != [] <==> e.audit
    ensures rows != [] ==> rows[0].action == StatusChange && rows[0].actor == actor && rows[0].ticket == id
  {
    if e.audit then [AuditLog(id, actor, StatusChange, StatusMeta(from, to, false, false, None, ""), now)] else []
  }

  /** Entering a status stamps its time: RESOLVED sets `resolved_at`, CLOSED
      sets `closed_at`, each overwritten on every entry and never cleared. */
  function Entered(t: Ticket, next: Status, now: int): (r: Ticket)
    ensures r.status == next
    ensures r.resolvedAt == (if next == Resolved then Some(now) else t.resolvedAt)
    ensures r.closedAt == (if next == Closed then Some(now) else t.closedAt)
    ensures r.(status := t.status, resolvedAt := t.resolvedAt, closedAt := t.closedAt) == t
  {
    t.(status := next,
       resolvedAt := if next == Resolved then Some(now) else t.resolvedAt,
       closedAt := if next == Closed then Some(now) else t.closedAt)
  }

  /** Once set, a resolution or closing time stays set through any transition. */
  lemma StampsNeverCleared(t: Ticket, next: Status, now: int)
    ensures t.resolvedAt.Some? ==> Entered(t, next, now).resolvedAt.Some?
    ensures t.closedAt.Some? ==> Entered(t, next, now).closedAt.Some?
    ensures next == Resolved ==> Entered(t, next, now).resolvedAt == Some(now)
  {
  }

  /** Appending a fresh row keeps codes sequential and references resolved. */
  lemma TicketAppended(users: seq<User>, ts: seq<Ticket>, logs: seq<AuditLog>, row: Ticket)
    requires CodesSequential(ts) && RefsResolve(users, ts) && AuditsInRange(logs, |ts|)
    requires row.code == NatToString(|ts| + 1) && TicketRefs(users, row)
    ensures CodesSequential(ts + [row]) && RefsResolve(users, ts + [row]) && AuditsInRange(logs, |ts| + 1)
  {
    var all := ts + [row];
    forall i | 0 <= i < |all| ensures all[i].code == NatToString(i + 1) && TicketRefs(users, all[i]) {
      if i < |ts| { assert all[i] == ts[i]; } else { assert all[i] == row; }
    }
  }

  /** Replacing a row by one with the same code keeps the same facts. */
  lemma TicketReplaced(users: seq<User>, ts: seq<Ticket>, logs: seq<AuditLog>, id: nat, row: Ticket)
    requires CodesSequential(ts) && RefsResolve(users, ts) && AuditsInRange(logs, |ts|)
    requires 1 <= id <= |ts| && row.code == ts[id - 1].code && TicketRefs(users, row)
    ensures CodesSequential(ts[id - 1 := row]) && RefsResolve(users, ts[id - 1 := row])
    ensures AuditsInRange(logs, |ts[id - 1 := row]|)
  {
    var all := ts[id - 1 := row];
    forall i | 0 <= i < |all| ensures all[i].code == NatToString(i + 1) && TicketRefs(users, all[i]) {
      if i == id - 1 { assert all[i] == row; } else { assert all[i] == ts[i]; }
    }
  }

  /** The API's assignment reply: the previous assignee and the new one. */
  datatype Moved = Moved(from: Option<UserId>, to: UserId)

  /** The UI's success message after a transition. */
  function TransitionFlash(s: Status): string { "Estado actualizado a " + Code(s) + "." }

  /** A rejected request: the HTTP status (302 for a redirect with an error
      message) and the message. */
  datatype Outcome<T> = Ok(value: T) | Fail(status: int, detail: string)

  /** A snapshot of every table. */
  datatype Tables = Tables(tickets: seq<Ticket>, comments: seq<TicketComment>,
                           attachments: seq<TicketAttachment>, assignments: seq<Assignment>,
                           audits: seq<AuditLog>,
                           notifications: seq<Notification>, mails: seq<Mail>, rules: seq<Rule>)

  /** DRF's 404 body under the project's Spanish locale. */
  const NOT_FOUND: string := "No encontrado."

  /** A status sent as JSON: only a string holding one of the four codes. */
  function JsonStatus(v: Json): (r: Option<Status>)
    ensures r.Some? ==> v == JStr(Code(r.value))
    ensures forall s: Status :: v == JStr(Code(s)) ==> r == Some(s)
  {
    match v
    case JStr(s) => ParseStatus(s)
    case _ => None
  }

  // -------------------------------------------------------------- the API

  /** The rejections of `assign`, in the order the view tests them; the
      target's id when none applies. */
  function ApiAssignCheck(ts: seq<Ticket>, users: seq<User>, actorId: UserId, id: int, toUserId: Json)
    : (r: Outcome<UserId>)
    requires ValidId(users, actorId)
    ensures r.Ok? <==> SeesId(ts, users[actorId - 1], actorId, id) && Truthy(toUserId)
                       && JsonUserId(toUserId).Some? && ValidId(users, JsonUserId(toUserId).value)
                       && ApiMayAssign(users[actorId - 1], actorId, JsonUserId(toUserId).value)
    ensures r.Ok? ==> r.value == JsonUserId(toUserId).value && ValidId(users, r.value)
    ensures r.Fail? ==> (r.status == 404 <==> !SeesId(ts, users[actorId - 1], actorId, id)
                                              || (Truthy(toUserId) && JsonUserId(toUserId).Some?
                                                  && !ValidId(users, JsonUserId(toUserId).value)))
    ensures r.Fail? && r.status == 400 <==> SeesId(ts, users[actorId - 1], actorId, id) && !Truthy(toUserId)
    ensures r == Fail(500, "") <==> SeesId(ts, users[actorId - 1], actorId, id) && Truthy(toUserId)
                                     && JsonUserId(toUserId).None?
  {
    var actor := users[actorId - 1];
    if !SeesId(ts, actor, actorId, id) then Fail(404, NOT_FOUND)
    else if !Truthy(toUserId) then Fail(400, "to_user_id requerido")
    else match JsonUserId(toUserId)
      case None => Fail(500, "")
      case Some(to) =>
        if !ValidId(users, to) then Fail(404, "Usuario destino no existe")
        else if !ApiMayAssign(actor, actorId, to) then Fail(403, "No autorizado para asignar")
        else Ok(to)
  }

  /** The rejections of `transition`; the target status when none applies. */
  function ApiTransitionCheck(ts: seq<Ticket>, actor: User, actorId: UserId, id: int, next: Json)
    : (r: Outcome<Status>)
    ensures r.Ok? <==> SeesId(ts, actor, actorId, id) && JsonStatus(next).Some?
                       && JsonStatus(next).value in Successors(ts[id - 1].status)
                       && CanTransition(actor, actorId, ts[id - 1])
    ensures r.Ok? ==> r.value == JsonStatus(next).value
    ensures r == Fail(404, NOT_FOUND) <==> !SeesId(ts, actor, actorId, id)
    ensures r.Fail? && r.status == 403 <==>
      SeesId(ts, actor, actorId, id) && JsonStatus(next).Some?
      && JsonStatus(next).value in Successors(ts[id - 1].status) && !CanTransition(actor, actorId, ts[id - 1])
  {
    if !SeesId(ts, actor, actorId, id) then Fail(404, NOT_FOUND)
    else match JsonStatus(next)
      case None => Fail(400, "Estado destino inválido")
      case Some(s) =>
        var t := ts[id - 1];
        if s !in Successors(t.status) then Fail(400, "Transición no permitida desde " + Code(t.status) + " → " + Code(s))
        else if !CanTransition(actor, actorId, t) then Fail(403, "No autorizado a cambiar estado")
        else Ok(s)
  }

  /** The rejections of a comment POST: the serializer's required and blank
      checks on the trimmed body; the trimmed body when none applies. */
  function ApiCommentCheck(ts: seq<Ticket>, actor: User, actorId: UserId, id: int, body: Option<string>)
    : (r: Outcome<string>)
    ensures r.Ok? <==> SeesId(ts, actor, actorId, id) && body.Some? && Strip(body.value) != ""
    ensures r.Ok? ==> r.value == Strip(body.value)
    ensures r == Fail(404, NOT_FOUND) <==> !SeesId(ts, actor, actorId, id)
  {
    if !SeesId(ts, actor, actorId, id) then Fail(404, NOT_FOUND)
    else if body.None? then Fail(400, "Este campo es requerido.")
    else if Strip(body.value) == "" then Fail(400, "Este campo no puede estar en blanco.")
    else Ok(Strip(body.value))
  }

  /** The rejections shared by both methods of `attachments`. */
  function ApiFilesCheck(ts: seq<Ticket>, actor: User, actorId: UserId, id: int): (r: Outcome<Ticket>)
    ensures r.Ok? <==> SeesId(ts, actor, actorId, id) && CanUploadAttachments(ts[id - 1], actor, actorId)
    ensures r.Ok? ==> r.value == ts[id - 1]
    ensures r == Fail(404, NOT_FOUND) <==> !SeesId(ts, actor, actorId, id)
  {
    if !SeesId(ts, actor, actorId, id) then Fail(404, NOT_FOUND)
    else if !CanUploadAttachments(ts[id - 1], actor, actorId) then Fail(403, "No autorizado a ver/adjuntar")
    else Ok(ts[id - 1])
  }

  /** The rejections of an attachment POST; the accepted upload. */
  function ApiUploadCheck(ts: seq<Ticket>, actor: User, actorId: UserId, id: int, file: Option<Upload>)
    : (r: Outcome<Upload>)
    ensures r.Ok? <==> ApiFilesCheck(ts, actor, actorId, id).Ok? && file.Some? && Validate(file.value) == Accepted
    ensures r.Ok? ==> r.value == file.value
    ensures ApiFilesCheck(ts, actor, actorId, id).Ok? && file.Some? && Validate(file.value).Rejected? ==>
              r == Fail(400, Validators.Message(Validate(file.value).error))
  {
    match ApiFilesCheck(ts, actor, actorId, id)
    case Fail(code, detail) => Fail(code, detail)
    case Ok(_) =>
      if file.None? then Fail(400, "Archivo 'file' requerido")
      else match Validate(file.value)
        case Rejected(e) => Fail(400, Validators.Message(e))
        case Accepted => Ok(file.value)
  }

  /** The attachments of ticket `id`, newest first. */
  function NewestFiles(atts: seq<TicketAttachment>, id: nat): (r: seq<TicketAttachment>)
    ensures forall a :: a in r <==> a in atts && a.ticket == id
    ensures |r| <= |atts|
  {
    if atts == [] then []
    else
      var rest := NewestFiles(atts[1..], id);
      if atts[0].ticket == id then rest + [atts[0]] else rest
  }

  // --------------------------------------------------------------- the UI

  /** The `int()` conversion a lookup `get(id=...)` applies to a posted id:
      surrounding whitespace and one sign are allowed; None when the text is
      no integer (a ValueError, answered with a server error). */
  function PostedId(s: string): (r: Option<int>)
    ensures IsDigits(s) ==> r == Some(DigitsValue(s))
  {
    StripDigits(s);
    IntValue(Strip(s))
  }

  /** A digit string after one sign reads as its value with that sign. */
  lemma PostedIdSigned(sign: char, d: string)
    requires sign == '+' || sign == '-'
    requires IsDigits(d)
    ensures PostedId([sign] + d) == Some(if sign == '-' then -(DigitsValue(d) as int) else DigitsValue(d))
  {
    var t := [sign] + d;
    StripUnpadded(t);
    assert t[1..] == d;
    IntValueSigned(t, d);
  }

  /** A rendered id reads back as itself, also after a plus sign. */
  lemma PostedIdOfNatToString(n: nat)
    ensures PostedId(NatToString(n)) == Some(n)
    ensures PostedId("+" + NatToString(n)) == Some(n)
  {
    var d := NatToString(n);
    DigitsValueOfNatToString(n);
    PostedIdSigned('+', d);
    assert "+" + d == ['+'] + d;
  }

  /** Whitespace around a posted id does not change what it reads as. */
  lemma PostedIdIgnoresSpace(s: string)
    ensures PostedId(Strip(s)) == PostedId(s)
  {
    StripIdempotent(s);
  }

  /** The `int()` conversion a lookup `get(id=...)` applies to a JSON body
      value: an integer as itself, a boolean as 1 or 0, a string as a posted
      id is read; None for a value `int()` refuses (an uncaught error, so a
      server error). */
  function JsonUserId(v: Json): (r: Option<int>)
    ensures v.JInt? ==> r == Some(v.i)
    ensures v.JBool? ==> r == Some(if v.b then 1 else 0)
    ensures v.JStr? ==> r == PostedId(v.s)
    ensures v.JNull? ==> r.None?
  {
    match v
    case JNull => None
    case JBool(b) => Some(if b then 1 else 0)
    case JInt(i) => Some(i)
    case JStr(s) => PostedId(s)
  }

  /** Every id the metadata reader accepts reads the same way as a lookup
      value. */
  lemma JsonUserIdExtendsAsUserId(v: Json)
    ensures AsUserId(v).Some? ==> JsonUserId(v) == AsUserId(v)
  {
  }

  /** The rejections of `ticket_assign`, in order; the technician's id when
      none applies. A technician who is not an admin always targets themself. */
  function UiAssignCheck(ts: seq<Ticket>, users: seq<User>, groups: set<string>, actorId: UserId, id: int,
                         toUserId: Option<string>): (r: Outcome<UserId>)
    requires ValidId(users, actorId)
    ensures r.Ok? ==> ValidId(users, r.value) && users[r.value - 1].isActive && 1 <= id <= |ts|
    ensures r.Ok? ==> IsAdmin(users[actorId - 1]) || IsTech(users[actorId - 1])
    ensures r == Fail(404, "") <==> !(1 <= id <= |ts|)
    ensures r.Fail? && r.status == 403 <==>
      1 <= id <= |ts| && !IsAdmin(users[actorId - 1]) && !IsTech(users[actorId - 1])
  {
    var actor := users[actorId - 1];
    if !(1 <= id <= |ts|) then Fail(404, "")
    else if !(IsAdmin(actor) || IsTech(actor)) then Fail(403, "Sin autorización para asignar")
    else
      var target := if IsTech(actor) && !IsAdmin(actor) then Some(NatToString(actorId)) else toUserId;
      if target.None? || target.value == "" then Fail(302, "Debes seleccionar un técnico.")
      else UiTargetCheck(users, groups, IsAdmin(actor), PostedId(target.value))
  }

  /** The lookup of the posted technician in `ticket_assign`, given what
      `int()` made of the posted text: no integer is a server error; an id
      without an active user, or (for an admin) a missing TECNICO group or a
      user outside it, is sent back with its message. */
  function UiTargetCheck(users: seq<User>, groups: set<string>, isAdmin: bool, posted: Option<int>): (r: Outcome<UserId>)
    ensures r.Ok? ==> posted == Some(r.value) && ValidId(users, r.value) && users[r.value - 1].isActive
    ensures r.Ok? && isAdmin ==> ROLE_TECH in groups && ROLE_TECH in users[r.value - 1].groups
    ensures r.Fail? ==> r.status == 302 || r.status == 500
    ensures r == Fail(500, "") <==> posted.None?
    ensures posted.Some? && !(ValidId(users, posted.value) && users[posted.value - 1].isActive)
            ==> r == Fail(302, "Técnico no válido.")
  {
    match posted
    case None => Fail(500, "")
    case Some(to) =>
      if !ValidId(users, to) || !users[to - 1].isActive then Fail(302, "Técnico no válido.")
      else if isAdmin && ROLE_TECH !in groups then Fail(302, "No existe el grupo " + ROLE_TECH + ".")
      else if isAdmin && ROLE_TECH !in users[to - 1].groups
      then Fail(302, "El usuario seleccionado no es " + ROLE_TECH + ".")
      else Ok(to)
  }

  /** `can_rename`: an admin, or a technician assigning themself. */
  predicate CanRename(actor: User, actorId: UserId, target: Option<string>) {
    IsAdmin(actor) || (IsTech(actor) && target == Some(NatToString(actorId)))
  }

  /** The posted target of `ticket_assign` after the technician override. */
  function AssignTarget(actor: User, actorId: UserId, toUserId: Option<string>): Option<string> {
    if IsTech(actor) && !IsAdmin(actor) then Some(NatToString(actorId)) else toUserId
  }

  /** Whether `ticket_assign` retitles a ticket now titled `title`: the actor
      may rename and the stripped new title is non-empty and different. */
  predicate Retitles(actor: User, actorId: UserId, toUserId: Option<string>, newTitle: string, title: string) {
    CanRename(actor, actorId, AssignTarget(actor, actorId, toUserId)) && Strip(newTitle) != "" && Strip(newTitle) != title
  }

  /** The two notifications of a UI assignment: to the technician, then to the requester. */
  function AssignNotices(code: string, id: nat, to: UserId, toName: string, requester: UserId, now: int)
    : (ns: seq<Notification>)
    ensures |ns| == 2 && ns[0].user == to && ns[1].user == requester
    ensures forall k :: 0 <= k < 2 ==> ns[k].url == TicketLink(id) && !ns[k].isRead
  {
    [Notification(to, "Ticket " + code + " te ha sido asignado", TicketLink(id), false, now),
     Notification(requester, "Ticket " + code + " asignado a " + toName, TicketLink(id), false, now)]
  }

  function AssignedFlash(toName: string, titleChanged: bool): string {
    "Ticket asignado a " + toName + "." + (if titleChanged then " Título actualizado." else "")
  }

  /** `str(next_status)` in the UI's error message. */
  function ShowPosted(s: Option<string>): string {
    match s
    case None => "None"
    case Some(v) => v
  }

  /** The posted status, when it names one. */
  function PostedStatus(s: Option<string>): (r: Option<Status>)
    ensures r.Some? ==> s == Some(Code(r.value))
    ensures forall st: Status :: s == Some(Code(st)) ==> r == Some(st)
  {
    match s
    case None => None
    case Some(v) => ParseStatus(v)
  }

  /** The rejections of `ticket_transition`; the target status when none applies. */
  function UiTransitionCheck(ts: seq<Ticket>, actor: User, actorId: UserId, id: int, next: Option<string>)
    : (r: Outcome<Status>)
    ensures r.Ok? <==> 1 <= id <= |ts| && PostedStatus(next).Some?
                       && PostedStatus(next).value in AllowedTransitionsFor(ts[id - 1], actor, actorId)
    ensures r.Ok? ==> r.value == PostedStatus(next).value
    ensures r == Fail(404, "") <==> !(1 <= id <= |ts|)
    ensures r.Fail? && r.status == 403 <==> 1 <= id <= |ts| && AllowedTransitionsFor(ts[id - 1], actor, actorId) == {}
  {
    if !(1 <= id <= |ts|) then Fail(404, "")
    else
      var t := ts[id - 1];
      var allowed := AllowedTransitionsFor(t, actor, actorId);
      if allowed == {} then Fail(403, "Sin autorización para cambiar estado")
      else match PostedStatus(next)
        case Some(s) => if s in allowed then Ok(s) else Fail(302, "Transición no permitida desde " + Code(t.status) + " a " + ShowPosted(next) + ".")
        case None => Fail(302, "Transición no permitida desde " + Code(t.status) + " a " + ShowPosted(next) + ".")
  }

  /** The notifications of a UI transition, with `t` the saved ticket: the
      requester, then the assignee when there is one. */
  function StatusNotices(t: Ticket, id: nat, now: int): (ns: seq<Notification>)
    ensures |ns| == (if t.assignee.Some? then 2 else 1) && ns[0].user == t.requester
    ensures t.assignee.Some? ==> ns[1].user == t.assignee.value
    ensures forall k :: 0 <= k < |ns| ==> ns[k].url == TicketLink(id) && ns[k].message == ns[0].message
  {
    var msg := "Ticket " + t.code + " estado actualizado a " + Label(t.status);
    [Notification(t.requester, msg, TicketLink(id), false, now)]
    + (if t.assignee.Some? then [Notification(t.assignee.value, msg, TicketLink(id), false, now)] else [])
  }

  /** A file is attached when one was sent with a name (`if uploaded_file`). */
  predicate HasFile(file: Option<Upload>) { file.Some? && file.value.name != "" }

  /** The rejections of `add_comment`, in order; the stripped body when none applies. */
  function UiCommentCheck(ts: seq<Ticket>, actor: User, actorId: UserId, id: int, body: string, file: Option<Upload>)
    : (r: Outcome<string>)
    ensures r.Ok? <==> 1 <= id <= |ts| && CanOpen(ts[id - 1], actor, actorId) && Strip(body) != ""
                       && (HasFile(file) ==> CanUploadAttachments(ts[id - 1], actor, actorId)
                                             && Validate(file.value) == Accepted)
    ensures r.Ok? ==> r.value == Strip(body)
    ensures r == Fail(404, "") <==> !(1 <= id <= |ts|)
  {
    if !(1 <= id <= |ts|) then Fail(404, "")
    else if !CanOpen(ts[id - 1], actor, actorId) then Fail(403, "Sin autorización")
    else if Strip(body) == "" then Fail(400, "Comentario vacío")
    else if HasFile(file) && !CanUploadAttachments(ts[id - 1], actor, actorId) then Fail(403, "Sin autorización para adjuntar")
    else if HasFile(file) && Validate(file.value).Rejected? then Fail(400, Validators.Message(Validate(file.value).error))
    else Ok(Strip(body))
  }

  /** The ticket fields a creation form or serializer leaves to the server:
      no code yet, OPEN, the actor as requester, no stamps. */
  function Fresh(form: Ticket, requester: UserId, assignee: Option<UserId>): (t: Ticket)
    ensures t.code == "" && t.status == Open && t.requester == requester && t.assignee == assignee
    ensures t.resolvedAt.None? && t.closedAt.None?
    ensures t.title == form.title && t.category == form.category && t.area == form.area
  {
    form.(code := "", status := Open, requester := requester, assignee := assignee, resolvedAt := None, closedAt := None)
  }

  /** The notifications of `ticket_create`: to the creator, then to the final assignee. */
  function CreateNotices(code: string, id: nat, creator: UserId, assignee: Option<UserId>, now: int)
    : (ns: seq<Notification>)
    ensures |ns| == (if assignee.Some? then 2 else 1) && ns[0].user == creator
    ensures assignee.Some? ==> ns[1].user == assignee.value
  {
    [Notification(creator, "Ticket " + code + " creado", TicketLink(id), false, now)]
    + (if assignee.Some? then [Notification(assignee.value, "Ticket " + code + " te ha sido asignado", TicketLink(id), false, now)] else [])
  }

  // ------------------------------------------------- properties of the checks

  /** `ticket_assign`: a technician who is not an admin can only take the
      ticket themself, whatever was posted; an admin's target is an active
      member of TECNICO. */
  lemma UiAssignTargets(ts: seq<Ticket>, users: seq<User>, groups: set<string>, actorId: UserId, id: int,
                        toUserId: Option<string>)
    requires ValidId(users, actorId)
    ensures var r := UiAssignCheck(ts, users, groups, actorId, id, toUserId);
      var actor := users[actorId - 1];
      (r.Ok? && !IsAdmin(actor) ==> r.value == actorId)
      && (r.Ok? && IsAdmin(actor) ==> ROLE_TECH in users[r.value - 1].groups && users[r.value - 1].isActive)
  {
    var actor := users[actorId - 1];
    if IsTech(actor) && !IsAdmin(actor) && 1 <= id <= |ts| {
      PostedIdOfNatToString(actorId);
      assert UiAssignCheck(ts, users, groups, actorId, id, toUserId)
             == UiTargetCheck(users, groups, false, Some(actorId));
    }
  }

  /** Any admin or technician who passes the checks may rename: the
      technician's own id replaces the posted target before `can_rename`
      compares them. */
  lemma RenameFollowsRole(actor: User, actorId: UserId, toUserId: Option<string>)
    ensures CanRename(actor, actorId, AssignTarget(actor, actorId, toUserId)) <==> IsAdmin(actor) || IsTech(actor)
  {
  }

  /** The API's `assign`: a technician who is not an admin can only assign
      to themself; a requester cannot assign at all. */
  lemma ApiAssignTargets(ts: seq<Ticket>, users: seq<User>, actorId: UserId, id: int, toUserId: Json)
    requires ValidId(users, actorId)
    ensures var r := ApiAssignCheck(ts, users, actorId, id, toUserId);
      var actor := users[actorId - 1];
      (r.Ok? && !IsAdmin(actor) ==> IsTech(actor) && r.value == actorId)
      && (!IsAdmin(actor) && !IsTech(actor) ==> r.Fail?)
  {
  }

  /** The UI and the API accept the same transitions: whoever may move a
      ticket also sees it through the API's filter, and both read the posted
      code the same way. */
  lemma TransitionChecksAgree(ts: seq<Ticket>, actor: User, actorId: UserId, id: int, code: string)
    ensures var ui := UiTransitionCheck(ts, actor, actorId, id, Some(code));
      var api := ApiTransitionCheck(ts, actor, actorId, id, JStr(code));
      (ui.Ok? <==> api.Ok?) && (ui.Ok? ==> ui.value == api.value)
  {
    if 1 <= id <= |ts| && CanTransition(actor, actorId, ts[id - 1]) {
      assert SeesId(ts, actor, actorId, id);
    }
  }

  /** The 403 of the API's `attachments` never happens: every ticket the
      API's filter lets through may have attachments viewed and added. */
  lemma AttachmentForbiddenUnreachable(ts: seq<Ticket>, actor: User, actorId: UserId, id: int)
    ensures var r := ApiFilesCheck(ts, actor, actorId, id);
      r.Fail? ==> r.status == 404 && !SeesId(ts, actor, actorId, id)
  {
    if SeesId(ts, actor, actorId, id) {
      assert CanUploadAttachments(ts[id - 1], actor, actorId);
    }
  }

  lemma AppendAssoc<T>(a: seq<T>, b: seq<T>, c: seq<T>)
    ensures (a + b) + c == a + (b + c)
  {
    assert forall k :: 0 <= k < |a + b + c| ==> ((a + b) + c)[k] == (a + (b + c))[k];
  }

  /** Overwriting the last element of `s + [x]` appends `y` instead. */
  lemma ReplaceLast<T>(s: seq<T>, x: T, y: T)
    ensures (s + [x])[|s| := y] == s + [y]
  {
    assert forall k :: 0 <= k < |s| ==> (s + [x])[|s| := y][k] == s[k];
  }

  class Store {
    const users: seq<User>
    /** The names of the groups that exist. */
    const groups: set<string>
    var tickets: seq<Ticket>
    var comments: seq<TicketComment>
    var attachments: seq<TicketAttachment>
    var assignments: seq<Assignment>
    var audits: seq<AuditLog>
    var notifications: seq<Notification>
    var mails: seq<Mail>
    var rules: seq<Rule>

    function Snap(): Tables
      reads this
    {
      Tables(tickets, comments, attachments, assignments, audits, notifications, mails, rules)
    }

    /** The event table: the `post_save` hook on audit rows writes one event
        per saved audit row, in the same order, and nothing else writes it. */
    function EventRows(): (es: seq<EventLog>)
      reads this
      ensures |es| == |audits|
      ensures forall i :: 0 <= i < |audits| ==> es[i].objId == audits[i].ticket && es[i].actor == audits[i].actor
    {
      DeriveAll(audits, users)
    }

    /** The invariant every operation keeps: codes are the ids, references
        resolve, every audit row names a stored ticket, and each ticket has at
        most one SLA warning and one SLA breach row. */
    ghost predicate Valid()
      reads this
    {
      CodesSequential(tickets) && RefsResolve(users, tickets) && AuditsInRange(audits, |tickets|)
      && SlaOnce(audits)
      && RulesResolve(users, rules)
    }

    constructor(users: seq<User>, groups: set<string>, rules: seq<Rule>)
      requires RulesResolve(users, rules)
      ensures Valid()
      ensures this.users == users && this.groups == groups
      ensures Snap() == Tables([], [], [], [], [], [], [], rules)
    {
      this.users := users;
      this.groups := groups;
      this.rules := rules;
      tickets, comments, attachments, assignments := [], [], [], [];
      audits, notifications, mails := [], [], [];
    }

    /** Saves an audit row; its `post_save` hook derives the event row. An
        SLA row is saved only when the ticket has none of its kind yet. */
    method Record(log: AuditLog)
      requires Valid() && 1 <= log.ticket <= |tickets|
      requires log.action == SlaWarn || log.action == SlaBreach ==> !HasLog(audits, log.ticket, log.action)
      modifies this`audits
      ensures Valid()
      ensures audits == old(audits) + [log]
    {
      HasLogExists(audits, log.ticket, log.action);
      audits := audits + [log];
    }

    /** `TicketAssignment.objects.create`: the history row and its hook's mail. */
    method AddAssignment(id: nat, from: Option<UserId>, to: UserId, reason: string, now: int)
      requires Valid() && 1 <= id <= |tickets| && ValidId(users, to)
      modifies this`assignments, this`mails
      ensures Valid()
      ensures assignments == old(assignments) + [Assignment(id, from, to, reason, now)]
      ensures mails == old(mails) + AssignmentMail(users[to - 1], tickets[id - 1].code, reason)
    {
      var m := AssignmentMail(users[to - 1], tickets[id - 1].code, reason);
      assignments := assignments + [Assignment(id, from, to, reason, now)];
      mails := mails + m;
    }

    /** `TicketComment.objects.create`: the comment row and its hook's mail;
        the new comment's id. */
    method AddComment(id: nat, author: UserId, body: string, internal: bool, now: int) returns (cid: nat)
      requires Valid() && 1 <= id <= |tickets| && ValidId(users, author)
      modifies this`comments, this`mails
      ensures Valid()
      ensures cid == |old(comments)| + 1
      ensures comments == old(comments) + [TicketComment(id, author, body, internal, now)]
      ensures mails == old(mails) + CommentMail(users[tickets[id - 1].requester - 1], tickets[id - 1].code,
                                                users[author - 1].username, body, internal)
    {
      var t := tickets[id - 1];
      var m := CommentMail(users[t.requester - 1], t.code, users[author - 1].username, body, internal);
      comments := comments + [TicketComment(id, author, body, internal, now)];
      cid := |comments|;
      mails := mails + m;
    }

    /** An optional comment sent with a transition: stored (with its hook's
        mail) only when `body` is non-empty; the new comment's id, if any. */
    method AddOptionalComment(id: nat, author: UserId, body: string, internal: bool, now: int) returns (cid: Option<nat>)
      requires Valid() && 1 <= id <= |tickets| && ValidId(users, author)
      modifies this`comments, this`mails
      ensures Valid()
      ensures cid == if body != "" then Some(|old(comments)| + 1) else None
      ensures comments == old(comments) + (if body != "" then [TicketComment(id, author, body, internal, now)] else [])
      ensures mails == old(mails)
                       + (if body != "" then CommentMail(users[tickets[id - 1].requester - 1], tickets[id - 1].code,
                                                         users[author - 1].username, body, internal)
                          else [])
    {
      cid := None;
      if body != "" {
        var c := AddComment(id, author, body, internal, now);
        cid := Some(c);
      }
    }

    /** The attachment of a comment form, saved under `folder` when a file was
        sent; the file name its COMMENT row records. The storage saves the
        file under `stored`, the name its `get_valid_name` and
        `get_available_name` make of the uploaded one, which holds no slash. */
    method AttachSent(id: nat, uploader: UserId, file: Option<Upload>, stored: string, folder: string, now: int)
      returns (fname: Option<string>)
      requires HasFile(file) ==> '/' !in stored
      modifies this`attachments
      ensures fname == if HasFile(file) then Some(stored) else None
      ensures attachments == old(attachments)
                             + (if HasFile(file)
                                then [TicketAttachment(id, uploader, folder + "/" + stored, file.value.contentType,
                                                       file.value.size, now)]
                                else [])
    {
      fname := None;
      if HasFile(file) {
        var a := TicketAttachment(id, uploader, folder + "/" + stored, file.value.contentType, file.value.size, now);
        attachments := attachments + [a];
        AfterLastSlashOfPath(folder, stored);
        fname := Some(AfterLastSlash(a.fileName));
      }
    }

    /** `Ticket.save()` of a new row: a ticket without a code is inserted
        under a temporary code, an insert whose code is taken fails, and the
        code is then rewritten to the id. The creation hook runs inside the
        insert, before the rewrite, so its mail to the requester carries the
        code the row was inserted under. */
    method InsertTicket(t: Ticket, hex: string, now: int) returns (id: Option<nat>)
      requires Valid() && TicketRefs(users, t)
      modifies this`tickets, this`mails
      ensures Valid()
      ensures id.None? <==> t.code != "" && t.code in Codes(old(tickets))
      ensures id.None? ==> tickets == old(tickets) && mails == old(mails)
      ensures id.Some? ==>
        id.value == |old(tickets)| + 1
        && tickets == old(tickets) + [Inserted(t, id.value, now)]
        && mails == old(mails) + CreatedMail(users[t.requester - 1], InsertCode(t.code, hex), Inserted(t, id.value, now))
    {
      var code := InsertCode(t.code, hex);
      TemporaryCodeIsFree(tickets, hex);
      if code in Codes(tickets) {
        return None;
      }
      var n := |tickets| + 1;
      // the row is inserted under `code`, then its code is rewritten to the id
      var provisional := t.(code := code, createdAt := now, updatedAt := now);
      var row := provisional.(code := NatToString(n));
      var e := TicketSaved(true, StashedStatus(tickets, None), row.status, false);
      var m := NoticeMail(e.notice, users[t.requester - 1], provisional.code, provisional);
      TicketAppended(users, tickets, audits, row);
      tickets, mails := tickets + [row], mails + m;
      id := Some(n);
    }

    /** `Ticket.save()` of an existing row (`updated_at` set to `now`) and the
        ticket hook: the stashed status is the stored one; a changed status
        mails the requester on RESOLVED or CLOSED and, unless `skip` is set,
        writes a STATUS row whose actor is `changedBy`. */
    method SaveTicket(id: nat, nt: Ticket, changedBy: Option<UserId>, skip: bool, now: int)
      requires Valid() && 1 <= id <= |tickets| && nt.code == tickets[id - 1].code && TicketRefs(users, nt)
      modifies this`tickets, this`mails, this`audits
      ensures Valid()
      ensures var before := old(tickets[id - 1]);
        var saved := nt.(updatedAt := now);
        var e := TicketSaved(false, Some(before.status), nt.status, skip);
        tickets == old(tickets)[id - 1 := saved]
        && mails == old(mails) + NoticeMail(e.notice, users[nt.requester - 1], nt.code, saved)
        && audits == old(audits) + FallbackRows(id, changedBy, e, before.status, nt.status, now)
    {
      var stashed := StashedStatus(tickets, Some(id));
      var before := tickets[id - 1];
      var saved := nt.(updatedAt := now);
      var e := TicketSaved(false, stashed, saved.status, skip);
      var m := NoticeMail(e.notice, users[nt.requester - 1], nt.code, saved);
      var rows := FallbackRows(id, changedBy, e, before.status, saved.status, now);
      TicketReplaced(users, tickets, audits, id, saved);
      tickets, mails := tickets[id - 1 := saved], mails + m;
      if rows != [] {
        Record(rows[0]);
        assert [rows[0]] == rows;
      }
      assert stashed == Some(before.status);
      assert audits == old(audits) + rows;
    }

    /** `apply_auto_assign`: moves the ticket to the matched rule's
        technician, with a history row from `actor` and an ASSIGN row, and
        tells whether it did. */
    method ApplyAutoAssign(id: nat, actor: Option<UserId>, now: int) returns (applied: bool)
      requires Valid() && 1 <= id <= |tickets|
      modifies this`tickets, this`assignments, this`mails, this`audits
      ensures Valid()
      ensures applied == AutoTarget(rules, old(tickets[id - 1])).Some?
      ensures !applied ==>
        tickets == old(tickets) && assignments == old(assignments) && mails == old(mails) && audits == old(audits)
      ensures applied ==>
        var t := old(tickets[id - 1]);
        var tech := AutoTarget(rules, t).value;
        tickets == old(tickets)[id - 1 := t.(assignee := Some(tech), updatedAt := now)]
        && assignments == old(assignments) + [Assignment(id, actor, tech, "auto-assign", now)]
        && mails == old(mails) + AssignmentMail(users[tech - 1], t.code, "auto-assign")
        && audits == old(audits) + [AssignRow(users, id, actor, t.assignee, tech, "auto-assign", now)]
    {
      var t := tickets[id - 1];
      var target := AutoTarget(rules, t);
      if target.None? {
        return false;
      }
      var tech := target.value;
      SaveTicket(id, t.(assignee := Some(tech)), None, false, now);
      assert mails == old(mails) && audits == old(audits);
      ghost var m1 := mails;
      assert tickets[id - 1].code == t.code;
      AddAssignment(id, actor, tech, "auto-assign", now);
      assert mails == m1 + AssignmentMail(users[tech - 1], t.code, "auto-assign");
      ghost var m2 := mails;
      Record(AssignRow(users, id, actor, t.assignee, tech, "auto-assign", now));
      assert mails == m2;
      assert m1 == old(mails);
      assert mails == old(mails) + AssignmentMail(users[tech - 1], t.code, "auto-assign");
      assert tech == AutoTarget(rules, old(tickets[id - 1])).value;
      applied := true;
    }

    /** The effect both transition endpoints share once their checks pass:
        the ticket enters `s` (its hook's fallback row skipped), a non-empty
        `body` is stored as a comment, and one STATUS row records the edge. */
    method EnterStatus(id: nat, actorId: UserId, s: Status, body: string, internal: bool, now: int)
      requires Valid() && 1 <= id <= |tickets| && ValidId(users, actorId)
      modifies this`tickets, this`comments, this`mails, this`audits
      ensures Valid()
      ensures var t := old(tickets[id - 1]);
        var saved := Entered(t, s, now).(updatedAt := now);
        var requester := users[t.requester - 1];
        var hp := body != "";
        var cid := if hp then Some(|old(comments)| + 1) else None;
        tickets == old(tickets)[id - 1 := saved]
        && comments == old(comments) + (if hp then [TicketComment(id, actorId, body, internal, now)] else [])
        && mails == old(mails) + NoticeMail(TicketSaved(false, Some(t.status), s, true).notice, requester, t.code, saved)
                    + (if hp then CommentMail(requester, t.code, users[actorId - 1].username, body, internal) else [])
        && audits == old(audits) + [AuditLog(id, Some(actorId), StatusChange,
                                             StatusMeta(t.status, s, hp, internal, cid, if hp then Take(body, 120) else ""),
                                             now)]
    {
      var t := tickets[id - 1];
      assert TicketRefs(users, t);
      var nt := Entered(t, s, now);
      assert nt.requester == t.requester && nt.code == t.code;
      ghost var saved := nt.(updatedAt := now);
      ghost var requester := users[t.requester - 1];
      SaveTicket(id, nt, Some(actorId), true, now);
      assert audits == old(audits);
      assert tickets[id - 1] == saved;
      ghost var m1 := mails;
      assert m1 == old(mails) + NoticeMail(TicketSaved(false, Some(t.status), s, true).notice, requester, t.code, saved);
      var cid := AddOptionalComment(id, actorId, body, internal, now);
      assert mails == m1 + (if body != "" then CommentMail(requester, t.code, users[actorId - 1].username, body, internal) else []);
      ghost var m2 := mails;
      var preview := if body != "" then Take(body, 120) else "";
      Record(AuditLog(id, Some(actorId), StatusChange, StatusMeta(t.status, s, body != "", internal, cid, preview), now));
      assert mails == m2;
    }

    /** Adding an auto-assignment rule; the unique constraint on (category,
        area), as SQLite evaluates it, refuses a second rule only when both
        fields are set, so rules that leave a field empty are never refused. */
    method AddRule(rule: Rule) returns (ok: bool)
      requires Valid() && ValidId(users, rule.tech)
      modifies this
      ensures Valid()
      ensures ok == SqlAdmits(old(rules), rule)
      ensures rule.category.None? || rule.area.None? ==> ok
      ensures ok ==> Snap() == old(Snap()).(rules := old(rules) + [rule])
      ensures !ok ==> Snap() == old(Snap())
    {
      ok := forall i | 0 <= i < |rules| ::
        !(rule.category.Some? && rule.area.Some? && rules[i].category == rule.category && rules[i].area == rule.area);
      if ok {
        rules := rules + [rule];
      }
    }

    /** `_email_warn` / `_email_breach` for decision `d` on ticket `id`: one
        mail to the recipients that have an address, when any has one, and one
        notification per recipient. */
    method NotifySla(id: nat, t: Ticket, d: Decision, roleIds: seq<UserId>, now: int)
      requires d != Skip
      modifies this`notifications, this`mails
      ensures notifications == old(notifications) + SlaNotices(users, roleIds, id, t, d, now)
      ensures mails == old(mails) + SlaMails(users, roleIds, t, d)
    {
      var r := CollectRecipients(users, roleIds, t, IsBreach(d));
      var ids := InIdOrder(r, |users|);
      var emails := EmailsOf(users, ids);
      assert ids == RecipientOrder(users, roleIds, t, d);
      if emails != [] {
        mails := mails + [Mail(emails, MailSubject(d, t.code), MailBody(d, t.code, t.title))];
      }
      var ns := NoticesFor(ids, NoticeText(d, t.code), TicketLink(id), now);
      assert ns == SlaNotices(users, roleIds, id, t, d, now);
      notifications := notifications + ns;
    }

    /** `run_sla_check`: scans the tickets in id order and, for each OPEN or
        IN_PROGRESS one, decides against the rows `_has_log` finds at that
        moment; unless `dryRun` is set, writes the row and tells the
        recipients. Returns the counts, which a dry run computes the same way. */
    method RunSlaCheck(now: int, ratio: real, dryRun: bool) returns (c: Counts)
      requires Valid()
      modifies this`audits, this`notifications, this`mails
      ensures Valid()
      ensures var ds := SweepDecisions(tickets, old(audits), now, ratio);
        c == SweepCounts(ds, |tickets|)
        && (dryRun ==> audits == old(audits) && notifications == old(notifications) && mails == old(mails))
        && (!dryRun ==>
              audits == old(audits) + SweepRows(tickets, ds, |tickets|, now)
              && notifications == old(notifications) + SweepNotices(users, RoleUserIds(users), tickets, ds, |tickets|, now)
              && mails == old(mails) + SweepMails(users, RoleUserIds(users), tickets, ds, |tickets|))
    {
      ghost var ds := SweepDecisions(tickets, audits, now, ratio);
      var roleIds := if dryRun then [] else RoleUserIds(users);
      c := SweepLoop(ds, roleIds, now, ratio, dryRun);
    }

    /** The loop of `run_sla_check` over the tickets in id order, with the
        decisions `ds` of the rows present when it starts and the role users
        `roleIds`: the counters end as the counts of all decisions, and every
        ticket's row, notifications and mails have been appended. */
    method SweepLoop(ghost ds: seq<Decision>, roleIds: seq<UserId>, now: int, ratio: real, dryRun: bool)
      returns (c: Counts)
      requires Valid() && ds == SweepDecisions(tickets, audits, now, ratio)
      modifies this`audits, this`notifications, this`mails
      ensures Valid()
      ensures c == SweepCounts(ds, |tickets|)
      ensures Swept(old(audits), old(notifications), old(mails), ds, roleIds, |tickets|, now, dryRun)
    {
      ghost var logs0 := audits;
      c := Counts(0, 0);
      var i := 0;
      assert SweepRows(tickets, ds, 0, now) == [] && SweepNotices(users, roleIds, tickets, ds, 0, now) == []
             && SweepMails(users, roleIds, tickets, ds, 0) == [];
      assert audits + [] == audits && notifications + [] == notifications && mails + [] == mails;
      while i < |tickets|
        invariant 0 <= i <= |tickets|
        invariant Valid()
        invariant c == SweepCounts(ds, i)
        invariant Swept(logs0, old(notifications), old(mails), ds, roleIds, i, now, dryRun)
      {
        c := SweepStep(i, logs0, old(notifications), old(mails), ds, roleIds, now, ratio, dryRun, c);
        i := i + 1;
      }
    }

    /** Where a sweep started over the rows `logs0`, the notifications `n0`
        and the mails `m0` stands once the first `i` tickets are done: a dry
        run has changed nothing; otherwise the rows, notifications and mails
        of those tickets' decisions have been appended. */
    ghost predicate Swept(logs0: seq<AuditLog>, n0: seq<Notification>, m0: seq<Mail>, ds: seq<Decision>,
                          roleIds: seq<UserId>, i: nat, now: int, dryRun: bool)
      reads this
      requires |ds| == |tickets| && i <= |tickets|
    {
      if dryRun then audits == logs0 && notifications == n0 && mails == m0
      else
        audits == logs0 + SweepRows(tickets, ds, i, now)
        && notifications == n0 + SweepNotices(users, roleIds, tickets, ds, i, now)
        && mails == m0 + SweepMails(users, roleIds, tickets, ds, i)
    }

    /** A loop iteration of `run_sla_check`: the sweep and its counters `c`
        move from ticket `i` to ticket `i + 1`. */
    method SweepStep(i: nat, ghost logs0: seq<AuditLog>, ghost n0: seq<Notification>, ghost m0: seq<Mail>,
                     ghost ds: seq<Decision>, roleIds: seq<UserId>, now: int, ratio: real, dryRun: bool, c: Counts)
      returns (c': Counts)
      requires Valid() && i < |tickets| && ds == SweepDecisions(tickets, logs0, now, ratio)
      requires Swept(logs0, n0, m0, ds, roleIds, i, now, dryRun) && c == SweepCounts(ds, i)
      modifies this`audits, this`notifications, this`mails
      ensures Valid()
      ensures c' == SweepCounts(ds, i + 1)
      ensures Swept(logs0, n0, m0, ds, roleIds, i + 1, now, dryRun)
    {
      var d := SweepTicket(i, logs0, ds, roleIds, now, ratio, dryRun);
      c' := Tally(c, d);
      if !dryRun {
        AppendAssoc(logs0, SweepRows(tickets, ds, i, now), if d == Skip then [] else [SlaRow(i + 1, tickets[i], d, now)]);
        AppendAssoc(n0, SweepNotices(users, roleIds, tickets, ds, i, now),
                    SlaNotices(users, roleIds, i + 1, tickets[i], d, now));
        AppendAssoc(m0, SweepMails(users, roleIds, tickets, ds, i), SlaMails(users, roleIds, tickets[i], d));
      }
    }

    /** One iteration of the sweep, for the ticket at index `i`: its
        decision, which is the one taken against the rows present when the
        sweep started, and, unless `dryRun` is set, its row, mail and
        notifications. */
    method SweepTicket(i: nat, ghost logs0: seq<AuditLog>, ghost ds: seq<Decision>, roleIds: seq<UserId>,
                       now: int, ratio: real, dryRun: bool) returns (d: Decision)
      requires Valid() && i < |tickets| && ds == SweepDecisions(tickets, logs0, now, ratio)
      requires dryRun ==> audits == logs0
      requires !dryRun ==> audits == logs0 + SweepRows(tickets, ds, i, now)
      modifies this`audits, this`notifications, this`mails
      ensures Valid()
      ensures d == ds[i]
      ensures dryRun ==> audits == old(audits) && notifications == old(notifications) && mails == old(mails)
      ensures !dryRun ==>
        audits == old(audits) + (if d == Skip then [] else [SlaRow(i + 1, tickets[i], d, now)])
        && notifications == old(notifications) + SlaNotices(users, roleIds, i + 1, tickets[i], d, now)
        && mails == old(mails) + SlaMails(users, roleIds, tickets[i], d)
    {
      d := DecideTicket(i, logs0, ds, now, ratio, dryRun);
      if !dryRun {
        if d != Skip {
          EmitSla(i, d, roleIds, now);
        } else {
          assert SlaNotices(users, roleIds, i + 1, tickets[i], d, now) == [] && SlaMails(users, roleIds, tickets[i], d) == [];
        }
      }
    }

    /** The writes of one SLA emission for the ticket at index `i`: its row,
        then the mail and the notifications of its recipients. */
    method EmitSla(i: nat, d: Decision, roleIds: seq<UserId>, now: int)
      requires Valid() && i < |tickets| && d != Skip && !HasLog(audits, i + 1, RowAction(d))
      modifies this`audits, this`notifications, this`mails
      ensures Valid()
      ensures audits == old(audits) + [SlaRow(i + 1, tickets[i], d, now)]
      ensures notifications == old(notifications) + SlaNotices(users, roleIds, i + 1, tickets[i], d, now)
      ensures mails == old(mails) + SlaMails(users, roleIds, tickets[i], d)
    {
      var t := tickets[i];
      var row := SlaRow(i + 1, t, d, now);
      assert row.action == RowAction(d);
      Record(row);
      NotifySla(i + 1, t, d, roleIds, now);
    }

    /** The decision the sweep takes for the ticket at index `i`, with
        `_has_log` querying the rows present now: the same as against the rows
        present when the sweep started, and never a second row of a kind the
        ticket has. */
    method DecideTicket(i: nat, ghost logs0: seq<AuditLog>, ghost ds: seq<Decision>, now: int, ratio: real,
                        dryRun: bool) returns (d: Decision)
      requires i < |tickets| && |ds| == |tickets|
      requires dryRun ==> audits == logs0
      requires !dryRun ==> audits == logs0 + SweepRows(tickets, ds, i, now)
      ensures d == SweepDecision(tickets, logs0, i, now, ratio)
      ensures d != Skip ==> !HasLog(audits, i + 1, RowAction(d))
    {
      var t := tickets[i];
      d := Skip;
      if OpenLike(t.status) {
        d := Decide(t, HasLog(audits, i + 1, SlaBreach), HasLog(audits, i + 1, SlaWarn), now, ratio);
      }
      if !dryRun {
        SweepPrefixHidesOthers(tickets, ds, logs0, i, now, SlaBreach);
        SweepPrefixHidesOthers(tickets, ds, logs0, i, now, SlaWarn);
      }
    }

    // ------------------------------------------------------------ the API

    /** `perform_create`: the serializer's insert (OPEN, the actor as
        requester, no assignee), the CREATE row, then auto-assignment with
        the actor as the author of the history row. */
    method ApiCreate(form: Ticket, actorId: UserId, hex: string, now: int) returns (id: nat)
      requires Valid() && ValidId(users, actorId)
      modifies this`tickets, this`assignments, this`mails, this`audits
      ensures Valid()
      ensures id == |old(tickets)| + 1
      ensures var row := Inserted(Fresh(form, actorId, None), id, now);
        var target := AutoTarget(rules, row);
        tickets == old(tickets) + [row.(assignee := target)]
        && assignments == old(assignments)
                          + (if target.Some? then [Assignment(id, Some(actorId), target.value, "auto-assign", now)] else [])
        && mails == old(mails) + CreatedMailAsWritten(users[actorId - 1], hex, row)
                    + (if target.Some? then AssignmentMail(users[target.value - 1], row.code, "auto-assign") else [])
        && audits == old(audits) + [AuditLog(id, Some(actorId), Create, CreateMeta(row.category, row.priority), now)]
                     + (if target.Some? then [AssignRow(users, id, Some(actorId), None, target.value, "auto-assign", now)]
                        else [])
    {
      var draft := Fresh(form, actorId, None);
      var inserted := InsertTicket(draft, hex, now);
      id := inserted.value;
      var row := Inserted(draft, id, now);
      assert draft.requester == actorId && row.code == NatToString(id) && InsertCode(draft.code, hex) == TemporaryCode(hex);
      assert mails == old(mails) + CreatedMailAsWritten(users[actorId - 1], hex, row);
      ghost var m1 := mails;
      assert tickets == old(tickets) + [row];
      assert tickets[id - 1] == row;
      ghost var target := AutoTarget(rules, row);
      LogCreated(id, actorId, now);
      if target.Some? {
        ReplaceLast(old(tickets), row, row.(assignee := target));
      }
      assert tickets == old(tickets) + [row.(assignee := target)];
    }

    /** What `perform_create` does after the insert of ticket `id`: the
        CREATE row, then auto-assignment with the actor as the author of the
        history row. */
    method LogCreated(id: nat, actorId: UserId, now: int)
      requires Valid() && 1 <= id <= |tickets| && ValidId(users, actorId)
      modifies this`tickets, this`assignments, this`mails, this`audits
      ensures Valid()
      ensures var t := old(tickets[id - 1]);
        var target := AutoTarget(rules, t);
        tickets == (if target.Some? then old(tickets)[id - 1 := t.(assignee := target, updatedAt := now)] else old(tickets))
        && assignments == old(assignments)
                          + (if target.Some? then [Assignment(id, Some(actorId), target.value, "auto-assign", now)] else [])
        && mails == old(mails) + (if target.Some? then AssignmentMail(users[target.value - 1], t.code, "auto-assign") else [])
        && audits == old(audits) + [AuditLog(id, Some(actorId), Create, CreateMeta(t.category, t.priority), now)]
                     + (if target.Some? then [AssignRow(users, id, Some(actorId), t.assignee, target.value, "auto-assign", now)]
                        else [])
    {
      var t := tickets[id - 1];
      Record(AuditLog(id, Some(actorId), Create, CreateMeta(t.category, t.priority), now));
      var applied := ApplyAutoAssign(id, Some(actorId), now);
    }

    /** `assign`: after the checks, the ticket moves to the target, with a
        history row and an ASSIGN row whose author is the actor. */
    method ApiAssign(id: int, actorId: UserId, toUserId: Json, reason: string, now: int) returns (r: Outcome<Moved>)
      requires Valid() && ValidId(users, actorId)
      modifies this`tickets, this`assignments, this`mails, this`audits
      ensures Valid()
      ensures var chk := old(ApiAssignCheck(tickets, users, actorId, id, toUserId));
        chk.Fail? ==>
          r == Fail(chk.status, chk.detail)
          && tickets == old(tickets) && assignments == old(assignments) && mails == old(mails) && audits == old(audits)
      ensures var chk := old(ApiAssignCheck(tickets, users, actorId, id, toUserId));
        chk.Ok? ==>
          var t := old(tickets[id - 1]);
          var to := chk.value;
          r == Ok(Moved(t.assignee, to))
          && tickets == old(tickets)[id - 1 := t.(assignee := Some(to), updatedAt := now)]
          && assignments == old(assignments) + [Assignment(id, Some(actorId), to, reason, now)]
          && mails == old(mails) + AssignmentMail(users[to - 1], t.code, reason)
          && audits == old(audits) + [AssignRow(users, id, Some(actorId), t.assignee, to, reason, now)]
    {
      var chk := ApiAssignCheck(tickets, users, actorId, id, toUserId);
      if chk.Fail? {
        return Fail(chk.status, chk.detail);
      }
      var to := chk.value;
      var t := tickets[id - 1];
      assert TicketRefs(users, t);
      SaveTicket(id, t.(assignee := Some(to)), None, false, now);
      assert mails == old(mails) && audits == old(audits);
      AddAssignment(id, Some(actorId), to, reason, now);
      Record(AssignRow(users, id, Some(actorId), t.assignee, to, reason, now));
      r := Ok(Moved(t.assignee, to));
    }

    /** `transition`: after the checks, the ticket enters the status (the
        hook's fallback row skipped), the optional comment is stored as sent,
        and one STATUS row records the edge. */
    method ApiTransition(id: int, actorId: UserId, next: Json, comment: string, internal: Json, now: int)
      returns (r: Outcome<Status>)
      requires Valid() && ValidId(users, actorId)
      modifies this`tickets, this`comments, this`mails, this`audits
      ensures Valid()
      ensures var chk := old(ApiTransitionCheck(tickets, users[actorId - 1], actorId, id, next));
        chk.Fail? ==>
          r == chk && tickets == old(tickets) && comments == old(comments) && mails == old(mails) && audits == old(audits)
      ensures var chk := old(ApiTransitionCheck(tickets, users[actorId - 1], actorId, id, next));
        chk.Ok? ==>
          var t := old(tickets[id - 1]);
          var s := chk.value;
          var saved := Entered(t, s, now).(updatedAt := now);
          var requester := users[t.requester - 1];
          var hp := comment != "";
          var cid := if hp then Some(|old(comments)| + 1) else None;
          r == Ok(s)
          && tickets == old(tickets)[id - 1 := saved]
          && comments == old(comments) + (if hp then [TicketComment(id, actorId, comment, Truthy(internal), now)] else [])
          && mails == old(mails) + NoticeMail(TicketSaved(false, Some(t.status), s, true).notice, requester, t.code, saved)
                      + (if hp then CommentMail(requester, t.code, users[actorId - 1].username, comment, Truthy(internal))
                         else [])
          && audits == old(audits) + [AuditLog(id, Some(actorId), StatusChange,
                                               StatusMeta(t.status, s, hp, Truthy(internal), cid,
                                                          if hp then Take(comment, 120) else ""), now)]
    {
      var chk := ApiTransitionCheck(tickets, users[actorId - 1], actorId, id, next);
      if chk.Fail? {
        return chk;
      }
      EnterStatus(id, actorId, chk.value, comment, Truthy(internal), now);
      r := Ok(chk.value);
    }

    /** A comment POST: the trimmed body, public unless a staff member asked
        for an internal one, its hook's mail and a COMMENT row. */
    method ApiComment(id: int, actorId: UserId, body: Option<string>, internalRequested: bool, now: int)
      returns (r: Outcome<TicketComment>)
      requires Valid() && ValidId(users, actorId)
      modifies this`comments, this`mails, this`audits
      ensures Valid()
      ensures var chk := old(ApiCommentCheck(tickets, users[actorId - 1], actorId, id, body));
        chk.Fail? ==>
          r == Fail(chk.status, chk.detail) && comments == old(comments) && mails == old(mails) && audits == old(audits)
      ensures var chk := old(ApiCommentCheck(tickets, users[actorId - 1], actorId, id, body));
        chk.Ok? ==>
          var t := tickets[id - 1];
          var internal := internalRequested && IsStaff(users[actorId - 1]);
          var c := TicketComment(id, actorId, chk.value, internal, now);
          r == Ok(c)
          && comments == old(comments) + [c]
          && mails == old(mails) + CommentMail(users[t.requester - 1], t.code, users[actorId - 1].username, chk.value, internal)
          && audits == old(audits) + [AuditLog(id, Some(actorId), Comment,
                                               ApiCommentMeta(internal, |old(comments)| + 1, Take(chk.value, 120)), now)]
    {
      var actor := users[actorId - 1];
      var chk := ApiCommentCheck(tickets, actor, actorId, id, body);
      if chk.Fail? {
        return Fail(chk.status, chk.detail);
      }
      var internal := internalRequested && IsStaff(actor);
      var cid := AddComment(id, actorId, chk.value, internal, now);
      Record(AuditLog(id, Some(actorId), Comment, ApiCommentMeta(internal, cid, Take(chk.value, 120)), now));
      r := Ok(TicketComment(id, actorId, chk.value, internal, now));
    }

    /** A comment GET: the ticket's comments, internal ones only for staff. */
    function ApiComments(id: int, actorId: UserId): (r: Outcome<seq<TicketComment>>)
      reads this
      requires ValidId(users, actorId)
      ensures r.Ok? <==> SeesId(tickets, users[actorId - 1], actorId, id)
      ensures r.Ok? ==> forall c :: c in r.value <==>
        c in comments && c.ticket == id && (IsStaff(users[actorId - 1]) || !c.isInternal)
    {
      if !SeesId(tickets, users[actorId - 1], actorId, id) then Fail(404, NOT_FOUND)
      else Ok(VisibleComments(comments, id, users[actorId - 1]))
    }

    /** An attachment GET: the ticket's attachments, newest first. */
    function ApiFiles(id: int, actorId: UserId): (r: Outcome<seq<TicketAttachment>>)
      reads this
      requires ValidId(users, actorId)
      ensures r.Ok? <==> ApiFilesCheck(tickets, users[actorId - 1], actorId, id).Ok?
      ensures r.Ok? ==> forall a :: a in r.value <==> a in attachments && a.ticket == id
    {
      match ApiFilesCheck(tickets, users[actorId - 1], actorId, id)
      case Fail(code, detail) => Fail(code, detail)
      case Ok(_) => Ok(NewestFiles(attachments, id))
    }

    /** An attachment POST: the validated file is stored under `folder`
        (the `upload_to` directory) as `stored`, the name the storage makes of
        the uploaded one, and an ATTACH row names it. */
    method ApiUpload(id: int, actorId: UserId, file: Option<Upload>, stored: string, folder: string, now: int)
      returns (r: Outcome<TicketAttachment>)
      requires Valid() && ValidId(users, actorId) && (file.Some? ==> '/' !in stored)
      modifies this`attachments, this`audits
      ensures Valid()
      ensures var chk := old(ApiUploadCheck(tickets, users[actorId - 1], actorId, id, file));
        chk.Fail? ==> r == Fail(chk.status, chk.detail) && attachments == old(attachments) && audits == old(audits)
      ensures var chk := old(ApiUploadCheck(tickets, users[actorId - 1], actorId, id, file));
        chk.Ok? ==>
          var f := chk.value;
          var a := TicketAttachment(id, actorId, folder + "/" + stored, f.contentType, f.size, now);
          r == Ok(a)
          && attachments == old(attachments) + [a]
          && audits == old(audits) + [AuditLog(id, Some(actorId), Attach, AttachMeta(stored, f.size, f.contentType), now)]
    {
      var chk := ApiUploadCheck(tickets, users[actorId - 1], actorId, id, file);
      if chk.Fail? {
        return Fail(chk.status, chk.detail);
      }
      var f := chk.value;
      var a := TicketAttachment(id, actorId, folder + "/" + stored, f.contentType, f.size, now);
      attachments := attachments + [a];
      AfterLastSlashOfPath(folder, stored);
      var name := AfterLastSlash(a.fileName);
      assert name == stored;
      Record(AuditLog(id, Some(actorId), Attach, AttachMeta(name, a.size, a.contentType), now));
      r := Ok(a);
    }

    // ------------------------------------------------------------- the UI

    /** `ticket_create`: the insert with the form's assignee, if any; a
        chosen assignee gets a history row and an ASSIGN row by the creator,
        otherwise the rules may assign (with no author); the creator and the
        final assignee are notified. No CREATE row is written. */
    method UiCreate(form: Ticket, actorId: UserId, assignee: Option<UserId>, hex: string, now: int) returns (id: nat)
      requires Valid() && ValidId(users, actorId) && (assignee.Some? ==> ValidId(users, assignee.value))
      modifies this`tickets, this`assignments, this`mails, this`audits, this`notifications
      ensures Valid()
      ensures id == |old(tickets)| + 1
      ensures var row := Inserted(Fresh(form, actorId, assignee), id, now);
        var target := if assignee.Some? then None else AutoTarget(rules, row);
        var final := if assignee.Some? then assignee else target;
        tickets == old(tickets) + [row.(assignee := final)]
        && assignments == old(assignments)
             + (if assignee.Some? then [Assignment(id, Some(actorId), assignee.value, "", now)]
                else if target.Some? then [Assignment(id, None, target.value, "auto-assign", now)] else [])
        && mails == old(mails) + CreatedMailAsWritten(users[actorId - 1], hex, row)
             + (if final.Some? then AssignmentMail(users[final.value - 1], row.code, if assignee.Some? then "" else "auto-assign")
                else [])
        && audits == old(audits)
             + (if assignee.Some? then [AssignRow(users, id, Some(actorId), None, assignee.value, "", now)]
                else if target.Some? then [AssignRow(users, id, None, None, target.value, "auto-assign", now)] else [])
        && notifications == old(notifications) + CreateNotices(row.code, id, actorId, final, now)
    {
      var draft := Fresh(form, actorId, assignee);
      var inserted := InsertTicket(draft, hex, now);
      id := inserted.value;
      var row := Inserted(draft, id, now);
      assert draft.requester == actorId && row.code == NatToString(id) && InsertCode(draft.code, hex) == TemporaryCode(hex);
      assert mails == old(mails) + CreatedMailAsWritten(users[actorId - 1], hex, row);
      assert tickets == old(tickets) + [row];
      assert tickets[id - 1] == row;
      ghost var final := if assignee.Some? then assignee else AutoTarget(rules, row);
      AssignCreated(id, actorId, assignee, now);
      ReplaceLast(old(tickets), row, row.(assignee := final));
    }

    /** The assignment step of `ticket_create` for the just-inserted ticket
        `id`: a chosen assignee gets a history row and an ASSIGN row by the
        creator; otherwise the rules may assign, with no author. Then the
        creation notifications. */
    method AssignCreated(id: nat, actorId: UserId, assignee: Option<UserId>, now: int)
      requires Valid() && 1 <= id <= |tickets| && ValidId(users, actorId)
      requires tickets[id - 1].assignee == assignee && tickets[id - 1].updatedAt == now
      modifies this`tickets, this`assignments, this`mails, this`audits, this`notifications
      ensures Valid()
      ensures var t := old(tickets[id - 1]);
        var target := if assignee.Some? then None else AutoTarget(rules, t);
        var final := if assignee.Some? then assignee else target;
        tickets == old(tickets)[id - 1 := t.(assignee := final)]
        && assignments == old(assignments)
             + (if assignee.Some? then [Assignment(id, Some(actorId), assignee.value, "", now)]
                else if target.Some? then [Assignment(id, None, target.value, "auto-assign", now)] else [])
        && mails == old(mails)
             + (if final.Some? then AssignmentMail(users[final.value - 1], t.code, if assignee.Some? then "" else "auto-assign")
                else [])
        && audits == old(audits)
             + (if assignee.Some? then [AssignRow(users, id, Some(actorId), None, assignee.value, "", now)]
                else if target.Some? then [AssignRow(users, id, None, None, target.value, "auto-assign", now)] else [])
        && notifications == old(notifications) + CreateNotices(t.code, id, actorId, final, now)
    {
      var t := tickets[id - 1];
      if assignee.Some? {
        assert TicketRefs(users, t);
        assert t.(assignee := assignee) == t;
        AddAssignment(id, Some(actorId), assignee.value, "", now);
        Record(AssignRow(users, id, Some(actorId), None, assignee.value, "", now));
      } else {
        var applied := ApplyAutoAssign(id, None, now);
        assert t.(assignee := None) == t;
      }
      notifications := notifications + CreateNotices(t.code, id, actorId, tickets[id - 1].assignee, now);
    }

    /** `ticket_assign`: after the checks, the ticket moves to the
        technician, retitled when a new non-blank title was sent by someone
        who may rename; a history row, an ASSIGN row with both titles, and
        notifications to the technician and the requester. */
    method UiAssign(id: int, actorId: UserId, toUserId: Option<string>, reason: string, newTitle: string, now: int)
      returns (r: Outcome<string>)
      requires Valid() && ValidId(users, actorId)
      modifies this`tickets, this`assignments, this`mails, this`audits, this`notifications
      ensures Valid()
      ensures var chk := old(UiAssignCheck(tickets, users, groups, actorId, id, toUserId));
        chk.Fail? ==>
          r == Fail(chk.status, chk.detail)
          && tickets == old(tickets) && assignments == old(assignments) && mails == old(mails) && audits == old(audits)
          && notifications == old(notifications)
      ensures var chk := old(UiAssignCheck(tickets, users, groups, actorId, id, toUserId));
        chk.Ok? ==>
          r == Ok(AssignedFlash(users[chk.value - 1].username,
                                Retitles(users[actorId - 1], actorId, toUserId, newTitle, old(tickets[id - 1].title))))
          && (tickets, assignments, mails, audits, notifications)
             == old(AfterAssign(id, actorId, chk.value, toUserId, reason, newTitle, now))
    {
      var chk := UiAssignCheck(tickets, users, groups, actorId, id, toUserId);
      if chk.Fail? {
        return Fail(chk.status, chk.detail);
      }
      var to := chk.value;
      ghost var title := tickets[id - 1].title;
      var changed := Reassign(id, actorId, to, toUserId, reason, newTitle, now);
      r := Ok(AssignedFlash(users[to - 1].username, changed));
      assert changed == Retitles(users[actorId - 1], actorId, toUserId, newTitle, title);
    }

    /** The tables after an accepted `ticket_assign`, computed from the
        current ones: the ticket moves to `to`, retitled exactly when
        `Retitles` holds, with a history row, an ASSIGN row carrying both
        titles, and notifications to the technician and the requester. Given
        in the order tickets, assignments, mails, audits, notifications. */
    function AfterAssign(id: nat, actorId: UserId, to: UserId, toUserId: Option<string>, reason: string,
                         newTitle: string, now: int)
      : (seq<Ticket>, seq<Assignment>, seq<Mail>, seq<AuditLog>, seq<Notification>)
      reads this
      requires 1 <= id <= |tickets| && ValidId(users, actorId) && ValidId(users, to)
      requires tickets[id - 1].assignee.Some? ==> ValidId(users, tickets[id - 1].assignee.value)
    {
      var t := tickets[id - 1];
      var rs := Strip(reason);
      var changed := Retitles(users[actorId - 1], actorId, toUserId, newTitle, t.title);
      var title := if changed then Strip(newTitle) else t.title;
      (tickets[id - 1 := t.(assignee := Some(to), title := title, updatedAt := now)],
       assignments + [Assignment(id, Some(actorId), to, rs, now)],
       mails + AssignmentMail(users[to - 1], t.code, rs),
       audits + [AuditLog(id, Some(actorId), Assign,
                          TitledAssignMeta(t.assignee, PrevName(users, t.assignee), to, users[to - 1].username, rs,
                                           changed, t.title, title), now)],
       notifications + AssignNotices(t.code, id, to, users[to - 1].username, t.requester, now))
    }

    /** The effect of `ticket_assign` once its checks pass; whether the title
        changed is returned for the flash message. */
    method Reassign(id: nat, actorId: UserId, to: UserId, toUserId: Option<string>, reason: string, newTitle: string,
                    now: int)
      returns (changed: bool)
      requires Valid() && 1 <= id <= |tickets| && ValidId(users, actorId) && ValidId(users, to)
      modifies this`tickets, this`assignments, this`mails, this`audits, this`notifications
      ensures Valid()
      ensures changed == Retitles(users[actorId - 1], actorId, toUserId, newTitle, old(tickets[id - 1].title))
      ensures (tickets, assignments, mails, audits, notifications)
              == old(AfterAssign(id, actorId, to, toUserId, reason, newTitle, now))
    {
      var t := tickets[id - 1];
      var actor := users[actorId - 1];
      var rs := Strip(reason);
      var nt := Strip(newTitle);
      changed := Retitles(actor, actorId, toUserId, newTitle, t.title);
      var title := if changed then nt else t.title;
      assert TicketRefs(users, t);
      SaveTicket(id, t.(assignee := Some(to), title := title), None, false, now);
      assert mails == old(mails) && audits == old(audits);
      assert tickets[id - 1].code == t.code;
      AddAssignment(id, Some(actorId), to, rs, now);
      ghost var m1 := mails;
      var row := AuditLog(id, Some(actorId), Assign,
                          TitledAssignMeta(t.assignee, PrevName(users, t.assignee), to, users[to - 1].username, rs, changed,
                                           t.title, title), now);
      Record(row);
      assert mails == m1;
      notifications := notifications + AssignNotices(t.code, id, to, users[to - 1].username, t.requester, now);
    }

    /** `ticket_transition`: after the checks, the ticket enters the status
        (fallback row skipped), a non-blank stripped comment is stored, one
        STATUS row records the edge, and the requester and the assignee are
        notified. */
    method UiTransition(id: int, actorId: UserId, next: Option<string>, comment: string, internalOn: bool, now: int)
      returns (r: Outcome<string>)
      requires Valid() && ValidId(users, actorId)
      modifies this`tickets, this`comments, this`mails, this`audits, this`notifications
      ensures Valid()
      ensures var chk := old(UiTransitionCheck(tickets, users[actorId - 1], actorId, id, next));
        chk.Fail? ==>
          r == Fail(chk.status, chk.detail)
          && tickets == old(tickets) && comments == old(comments) && mails == old(mails) && audits == old(audits)
          && notifications == old(notifications)
      ensures var chk := old(UiTransitionCheck(tickets, users[actorId - 1], actorId, id, next));
        chk.Ok? ==>
          var t := old(tickets[id - 1]);
          var s := chk.value;
          var body := Strip(comment);
          var hp := body != "";
          var saved := Entered(t, s, now).(updatedAt := now);
          var requester := users[t.requester - 1];
          var cid := if hp then Some(|old(comments)| + 1) else None;
          r == Ok(TransitionFlash(s))
          && tickets == old(tickets)[id - 1 := saved]
          && comments == old(comments) + (if hp then [TicketComment(id, actorId, body, internalOn, now)] else [])
          && mails == old(mails) + NoticeMail(TicketSaved(false, Some(t.status), s, true).notice, requester, t.code, saved)
                      + (if hp then CommentMail(requester, t.code, users[actorId - 1].username, body, internalOn) else [])
          && audits == old(audits) + [AuditLog(id, Some(actorId), StatusChange,
                                               StatusMeta(t.status, s, hp, internalOn, cid,
                                                          if hp then Take(body, 120) else ""), now)]
          && notifications == old(notifications) + StatusNotices(saved, id, now)
    {
      var chk := UiTransitionCheck(tickets, users[actorId - 1], actorId, id, next);
      if chk.Fail? {
        return Fail(chk.status, chk.detail);
      }
      EnterStatus(id, actorId, chk.value, Strip(comment), internalOn, now);
      notifications := notifications + StatusNotices(tickets[id - 1], id, now);
      r := Ok(TransitionFlash(chk.value));
    }

    /** The writes of `add_comment` once its checks pass: the comment, the
        attachment when a file was sent, and one COMMENT row. */
    method SaveUiComment(id: nat, actorId: UserId, body: string, internal: bool, file: Option<Upload>, stored: string,
                         folder: string, now: int)
      requires Valid() && 1 <= id <= |tickets| && ValidId(users, actorId)
      requires HasFile(file) ==> '/' !in stored
      modifies this`comments, this`attachments, this`mails, this`audits
      ensures Valid()
      ensures var t := tickets[id - 1];
        var atts := if HasFile(file)
                    then [TicketAttachment(id, actorId, folder + "/" + stored, file.value.contentType,
                                           file.value.size, now)]
                    else [];
        var fname := if HasFile(file) then Some(stored) else None;
        comments == old(comments) + [TicketComment(id, actorId, body, internal, now)]
        && attachments == old(attachments) + atts
        && mails == old(mails) + CommentMail(users[t.requester - 1], t.code, users[actorId - 1].username, body, internal)
        && audits == old(audits) + [AuditLog(id, Some(actorId), Comment,
                                             CommentMeta(internal, |old(comments)| + 1, HasFile(file), fname,
                                                         Take(body, 120)), now)]
    {
      var cid := AddComment(id, actorId, body, internal, now);
      var fname := AttachSent(id, actorId, file, stored, folder, now);
      Record(AuditLog(id, Some(actorId), Comment, CommentMeta(internal, cid, HasFile(file), fname, Take(body, 120)), now));
    }

    /** `add_comment`: after the checks, the stripped comment (public for
        non-staff), the attachment when a file was sent (stored as `stored`),
        one COMMENT row, and the comments the actor may see. */
    method UiAddComment(id: int, actorId: UserId, body: string, internalOn: bool, file: Option<Upload>, stored: string,
                        folder: string, now: int) returns (r: Outcome<seq<TicketComment>>)
      requires Valid() && ValidId(users, actorId) && (HasFile(file) ==> '/' !in stored)
      modifies this`comments, this`attachments, this`mails, this`audits
      ensures Valid()
      ensures var chk := old(UiCommentCheck(tickets, users[actorId - 1], actorId, id, body, file));
        chk.Fail? ==>
          r == Fail(chk.status, chk.detail)
          && comments == old(comments) && attachments == old(attachments) && mails == old(mails) && audits == old(audits)
      ensures var chk := old(UiCommentCheck(tickets, users[actorId - 1], actorId, id, body, file));
        chk.Ok? ==>
          var t := tickets[id - 1];
          var actor := users[actorId - 1];
          var internal := internalOn && IsStaff(actor);
          var c := TicketComment(id, actorId, chk.value, internal, now);
          var atts := if HasFile(file)
                      then [TicketAttachment(id, actorId, folder + "/" + stored, file.value.contentType,
                                             file.value.size, now)]
                      else [];
          var fname := if HasFile(file) then Some(stored) else None;
          r == Ok(VisibleComments(old(comments) + [c], id, actor))
          && comments == old(comments) + [c]
          && attachments == old(attachments) + atts
          && mails == old(mails) + CommentMail(users[t.requester - 1], t.code, actor.username, chk.value, internal)
          && audits == old(audits) + [AuditLog(id, Some(actorId), Comment,
                                               CommentMeta(internal, |old(comments)| + 1, HasFile(file), fname,
                                                           Take(chk.value, 120)), now)]
    {
      var actor := users[actorId - 1];
      var chk := UiCommentCheck(tickets, actor, actorId, id, body, file);
      if chk.Fail? {
        return Fail(chk.status, chk.detail);
      }
      SaveUiComment(id, actorId, chk.value, internalOn && IsStaff(actor), file, stored, folder, now);
      r := Ok(VisibleComments(comments, id, actor));
    }

    /** `audit_partial`: the activity feed of the ticket's newest 50 rows,
        for anyone who may open the ticket. */
    method AuditPartial(id: int, actorId: UserId) returns (r: Outcome<seq<Entry>>)
      requires ValidId(users, actorId)
      ensures !(1 <= id <= |tickets|) ==> r == Fail(404, "")
      ensures 1 <= id <= |tickets| && !CanOpen(tickets[id - 1], users[actorId - 1], actorId) ==> r == Fail(403, "Sin autorización")
      ensures 1 <= id <= |tickets| && CanOpen(tickets[id - 1], users[actorId - 1], actorId) ==> r == Ok(FeedOf(audits, id, users))
    {
      if !(1 <= id <= |tickets|) {
        return Fail(404, "");
      }
      if !CanOpen(tickets[id - 1], users[actorId - 1], actorId) {
        return Fail(403, "Sin autorización");
      }
      var entries := RenderFeed(Latest(audits, id), users);
      r := Ok(entries);
    }
  }
}
