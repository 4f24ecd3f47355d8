/** The records of tickets/models.py: the ticket with its four statuses and
    its SLA helpers, the append-only history records, the seven audit action
    kinds, and the auto-assignment rules with their (category, area)
    uniqueness constraint. Times are integer seconds. */
module Models {
  import opened Wrappers
  import opened Strings
  import opened Meta
  import opened Roles

  // ---------------------------------------------------------------- status

  datatype Status = Open | InProgress | Resolved | Closed

  /** The stored code of a status. */
  function Code(s: Status): string {
    match s
    case Open => "OPEN"
    case InProgress => "IN_PROGRESS"
    case Resolved => "RESOLVED"
    case Closed => "CLOSED"
  }

  /** The display label of a status (`STATUS_CHOICES`). */
  function Label(s: Status): string {
    match s
    case Open => "Abierto"
    case InProgress => "En Progreso"
    case Resolved => "Resuelto"
    case Closed => "Cerrado"
  }

  /** Membership in `dict(STATUS_CHOICES)`: the status a code names, if any. */
  function ParseStatus(code: string): (r: Option<Status>)
    ensures r.Some? ==> Code(r.value) == code
    ensures r.None? ==> forall s: Status :: Code(s) != code
  {
    if code == "OPEN" then Some(Open)
    else if code == "IN_PROGRESS" then Some(InProgress)
    else if code == "RESOLVED" then Some(Resolved)
    else if code == "CLOSED" then Some(Closed)
    else None
  }

  /** Every status code parses back to its status, so exactly four codes are
      statuses. */
  lemma ParseStatusOfCode(s: Status)
    ensures ParseStatus(Code(s)) == Some(s)
  {
  }

  /** `status_map.get(value)` over a metadata value. */
  function LabelOfCode(v: Json): (r: Option<string>)
    ensures r.Some? <==> v.JStr? && ParseStatus(v.s).Some?
    ensures r.Some? ==> r.value == Label(ParseStatus(v.s).value) && r.value != ""
  {
    match v
    case JStr(code) => (match ParseStatus(code) case Some(s) => Some(Label(s)) case None => None)
    case _ => None
  }

  /** The edge table shared by the API, the UI and the API's documentation. */
  function Successors(s: Status): (r: set<Status>)
    ensures s !in r
    ensures r == {} <==> s == Closed
    ensures Open in r ==> s == InProgress
    ensures Closed in r ==> s == Resolved
  {
    match s
    case Open => {InProgress}
    case InProgress => {Resolved, Open}
    case Resolved => {Closed, InProgress}
    case Closed => {}
  }

  /** The full 4 x 4 table: an edge exists exactly for the five pairs listed. */
  lemma EdgeTable(a: Status, b: Status)
    ensures b in Successors(a) <==>
      (a, b) in {(Open, InProgress), (InProgress, Resolved), (InProgress, Open),
                 (Resolved, Closed), (Resolved, InProgress)}
  {
  }

  /** OPEN and IN_PROGRESS: the statuses the SLA logic watches. */
  predicate OpenLike(s: Status) { s == Open || s == InProgress }

  datatype Kind = Incident | Request

  // ---------------------------------------------------------------- ticket

  /** A ticket row. `slaHours` is the `sla_hours` of the ticket's priority. */
  datatype Ticket = Ticket(
    code: string,
    title: string,
    description: string,
    kind: Kind,
    requester: UserId,
    category: nat,
    priority: nat,
    slaHours: nat,
    area: Option<nat>,
    status: Status,
    assignee: Option<UserId>,
    createdAt: int,
    updatedAt: int,
    resolvedAt: Option<int>,
    closedAt: Option<int>)

  /** The prefix of the temporary code a new ticket is inserted with. */
  const TMP_PREFIX: string := "_TMP-"

  /** The unique placeholder code of a ticket being inserted without a code. */
  function TemporaryCode(hex: string): (c: string)
    ensures |c| > 0 && c[0] == '_' && !IsDigits(c)
  {
    TMP_PREFIX + hex
  }

  /** `sla_hours_value`: the priority's SLA hours, or 72 when they are 0. */
  function SlaHoursValue(slaHours: nat): (h: nat)
    ensures h > 0
    ensures slaHours > 0 ==> h == slaHours
    ensures slaHours == 0 ==> h == 72
  {
    if slaHours == 0 then 72 else slaHours
  }

  /** `due_at`: creation time plus the SLA hours, in seconds. */
  function DueAt(t: Ticket): int {
    t.createdAt + SlaHoursValue(t.slaHours) * 3600
  }

  /** `remaining_hours` at time `now`: negative exactly once the due time
      has passed, and the hours between `now` and the due time. */
  function RemainingHours(t: Ticket, now: int): (h: real)
    ensures h < 0.0 <==> now > DueAt(t)
    ensures h == 0.0 <==> now == DueAt(t)
    ensures h * 3600.0 == (DueAt(t) - now) as real
  {
    (DueAt(t) - now) as real / 3600.0
  }

  /** `is_overdue`: still open and past the due time. */
  function IsOverdue(t: Ticket, now: int): (b: bool)
    ensures b <==> OpenLike(t.status) && now > t.createdAt + SlaHoursValue(t.slaHours) * 3600
  {
    OpenLike(t.status) && RemainingHours(t, now) < 0.0
  }

  /** `is_warning`: still open, not yet due, and within the last fifth of the
      SLA time (720 seconds per SLA hour). */
  function IsWarning(t: Ticket, now: int): (b: bool)
    ensures b <==> (OpenLike(t.status)
                    && DueAt(t) - 720 * SlaHoursValue(t.slaHours) <= now <= DueAt(t))
  {
    OpenLike(t.status) && 0.0 <= RemainingHours(t, now) <= 0.2 * SlaHoursValue(t.slaHours) as real
  }

  /** Overdue and warning never hold together, and neither holds for a
      resolved or closed ticket. */
  lemma SlaFlagsExclusive(t: Ticket, now: int)
    ensures !(IsOverdue(t, now) && IsWarning(t, now))
    ensures !OpenLike(t.status) ==> !IsOverdue(t, now) && !IsWarning(t, now)
    ensures OpenLike(t.status) && now <= DueAt(t) - 720 * SlaHoursValue(t.slaHours) ==>
      !IsOverdue(t, now) && (IsWarning(t, now) <==> now == DueAt(t) - 720 * SlaHoursValue(t.slaHours))
  {
  }

  // -------------------------------------------------------------- history

  /** The seven audit action kinds. */
  datatype Action = Create | Assign | StatusChange | Comment | Attach | SlaWarn | SlaBreach

  function ActionCode(a: Action): string {
    match a
    case Create => "CREATE"
    case Assign => "ASSIGN"
    case StatusChange => "STATUS"
    case Comment => "COMMENT"
    case Attach => "ATTACH"
    case SlaWarn => "SLA_WARN"
    case SlaBreach => "SLA_BREACH"
  }

  function ParseAction(code: string): (r: Option<Action>)
    ensures r.Some? ==> ActionCode(r.value) == code
    ensures r.None? ==> forall a: Action :: ActionCode(a) != code
  {
    if code == "CREATE" then Some(Create)
    else if code == "ASSIGN" then Some(Assign)
    else if code == "STATUS" then Some(StatusChange)
    else if code == "COMMENT" then Some(Comment)
    else if code == "ATTACH" then Some(Attach)
    else if code == "SLA_WARN" then Some(SlaWarn)
    else if code == "SLA_BREACH" then Some(SlaBreach)
    else None
  }

  /** The seven codes are distinct and each parses back to its kind. */
  lemma ActionCodesDistinct(a: Action, b: Action)
    ensures ParseAction(ActionCode(a)) == Some(a)
    ensures ActionCode(a) == ActionCode(b) ==> a == b
  {
  }

  /** An audit row; `actor` is None for system actions such as the SLA sweep. */
  datatype AuditLog = AuditLog(ticket: nat, actor: Option<UserId>, action: Action,
                               meta: Payload, createdAt: int)

  /** A row of the global event log derived from an audit row. */
  datatype EventLog = EventLog(actor: Option<UserId>, model: string, objId: nat,
                               action: string, message: string, createdAt: int)

  datatype Assignment = Assignment(ticket: nat, fromUser: Option<UserId>, toUser: UserId,
                                   reason: string, createdAt: int)

  datatype TicketComment = TicketComment(ticket: nat, author: UserId, body: string,
                                         isInternal: bool, createdAt: int)

  datatype TicketAttachment = TicketAttachment(ticket: nat, uploadedBy: UserId, fileName: string,
                                               contentType: string, size: int, uploadedAt: int)

  datatype Notification = Notification(user: UserId, message: string, url: string,
                                       isRead: bool, createdAt: int)

  /** An e-mail the core asks to send; delivery is not modelled. */
  datatype Mail = Mail(to: seq<string>, subject: string, body: string)

  /** `reverse("ticket_detail", args=[pk])`. */
  function TicketLink(id: nat): string { "/tickets/" + NatToString(id) + "/" }

  /** How many audit rows of kind `a` ticket `id` has. */
  function CountLogs(logs: seq<AuditLog>, id: nat, a: Action): (n: nat)
    ensures n <= |logs|
  {
    if logs == [] then 0
    else CountLogs(logs[..|logs| - 1], id, a)
         + (if logs[|logs| - 1].ticket == id && logs[|logs| - 1].action == a then 1 else 0)
  }

  /** `_has_log(t, action)`. */
  predicate HasLog(logs: seq<AuditLog>, id: nat, a: Action) { CountLogs(logs, id, a) > 0 }

  lemma {:induction false} CountLogsAppend(logs: seq<AuditLog>, l: AuditLog, id: nat, a: Action)
    ensures CountLogs(logs + [l], id, a)
            == CountLogs(logs, id, a) + (if l.ticket == id && l.action == a then 1 else 0)
  {
    assert (logs + [l])[..|logs + [l]| - 1] == logs;
  }

  /** `_has_log` finds a row exactly when one exists. */
  lemma {:induction false} HasLogExists(logs: seq<AuditLog>, id: nat, a: Action)
    ensures HasLog(logs, id, a) <==> exists i :: 0 <= i < |logs| && logs[i].ticket == id && logs[i].action == a
  {
    if logs != [] {
      var init := logs[..|logs| - 1];
      HasLogExists(init, id, a);
      if HasLog(init, id, a) {
        var i :| 0 <= i < |init| && init[i].ticket == id && init[i].action == a;
        assert logs[i] == init[i];
      }
      if exists i :: 0 <= i < |logs| && logs[i].ticket == id && logs[i].action == a {
        var i :| 0 <= i < |logs| && logs[i].ticket == id && logs[i].action == a;
        if i < |init| { assert init[i] == logs[i]; }
      }
    }
  }

  // ------------------------------------------------------ auto-assignment

  /** `AutoAssignRule`: a category and/or an area mapped to a technician. */
  datatype Rule = Rule(category: Option<nat>, area: Option<nat>, tech: UserId, isActive: bool)

  /** At most one rule per (category, area) pair, a missing value counting as a value. */
  predicate RulesUnique(rules: seq<Rule>) {
    forall i, j :: 0 <= i < j < |rules| ==>
      (rules[i].category, rules[i].area) != (rules[j].category, rules[j].area)
  }

  /** The constraint as SQLite evaluates `UniqueConstraint(fields=["category",
      "area"])`: NULLs are distinct, so only rows with both fields set clash. */
  predicate SqlAdmits(rules: seq<Rule>, r: Rule) {
    forall i :: 0 <= i < |rules| ==>
      !(r.category.Some? && r.area.Some? && rules[i].category == r.category && rules[i].area == r.area)
  }

  /** The constraint as intended: no other rule has the same pair. */
  predicate Admits(rules: seq<Rule>, r: Rule) {
    forall i :: 0 <= i < |rules| ==> (rules[i].category, rules[i].area) != (r.category, r.area)
  }

  /** As written, two rules for the same category and no area are both admitted. */
  lemma SqlAdmitsDuplicateNullArea(tech1: UserId, tech2: UserId)
    ensures SqlAdmits([Rule(Some(1), None, tech1, true)], Rule(Some(1), None, tech2, true))
    ensures !RulesUnique([Rule(Some(1), None, tech1, true), Rule(Some(1), None, tech2, true)])
  {
    var rs := [Rule(Some(1), None, tech1, true), Rule(Some(1), None, tech2, true)];
    assert (rs[0].category, rs[0].area) == (rs[1].category, rs[1].area);
  }

  /** The intended constraint is stricter than SQLite's: whatever it admits,
      SQLite admits; the converse fails exactly for a rule missing a field. */
  lemma AdmitsImpliesSqlAdmits(rules: seq<Rule>, r: Rule)
    ensures Admits(rules, r) ==> SqlAdmits(rules, r)
    ensures r.category.Some? && r.area.Some? ==> (SqlAdmits(rules, r) <==> Admits(rules, r))
  {
  }

  /** The intended constraint keeps the rule table unique when a rule is added. */
  lemma {:induction false} AdmitsKeepsUnique(rules: seq<Rule>, r: Rule)
    requires RulesUnique(rules) && Admits(rules, r)
    ensures RulesUnique(rules + [r])
  {
    var rs := rules + [r];
    forall i, j | 0 <= i < j < |rs| ensures (rs[i].category, rs[i].area) != (rs[j].category, rs[j].area) {
      if j < |rules| {
        assert rs[i] == rules[i] && rs[j] == rules[j];
      } else {
        assert rs[j] == r && rs[i] == rules[i];
      }
    }
  }

  /** The first active rule satisfying `p`, looked up in primary-key order
      (`.filter(...).first()`). */
  function FirstActive(rules: seq<Rule>, p: Rule -> bool): (r: Option<nat>)
    ensures r.Some? ==> r.value < |rules| && rules[r.value].isActive && p(rules[r.value])
    ensures r.Some? ==> forall j :: 0 <= j < r.value ==> !(rules[j].isActive && p(rules[j]))
    ensures r.None? ==> forall j :: 0 <= j < |rules| ==> !(rules[j].isActive && p(rules[j]))
  {
    if rules == [] then None
    else if rules[0].isActive && p(rules[0]) then Some(0)
    else match FirstActive(rules[1..], p)
      case None => None
      case Some(k) => Some(k + 1)
  }

  /** `filter(category=c, area=a)`: equality with a missing value means IS NULL. */
  predicate ExactMatch(r: Rule, category: nat, area: Option<nat>) {
    r.category == Some(category) && r.area == area
  }

  predicate CategoryMatch(r: Rule, category: nat) { r.category == Some(category) && r.area.None? }

  predicate AreaMatch(r: Rule, area: Option<nat>) { r.category.None? && r.area == area }

  predicate AnyMatch(r: Rule, category: nat, area: Option<nat>) {
    ExactMatch(r, category, area) || CategoryMatch(r, category) || AreaMatch(r, area)
  }

  /** The rule lookup of `apply_auto_assign`: exact match first, then category
      only, then area only; the index of the chosen rule. */
  function MatchRule(rules: seq<Rule>, category: nat, area: Option<nat>): (r: Option<nat>)
    ensures r.Some? ==> r.value < |rules| && rules[r.value].isActive
                        && AnyMatch(rules[r.value], category, area)
    ensures r.None? <==> forall j :: 0 <= j < |rules| ==>
                           !(rules[j].isActive && AnyMatch(rules[j], category, area))
    ensures (exists j :: 0 <= j < |rules| && rules[j].isActive && ExactMatch(rules[j], category, area))
            ==> r.Some? && ExactMatch(rules[r.value], category, area)
    ensures r.Some? && !ExactMatch(rules[r.value], category, area) && !CategoryMatch(rules[r.value], category)
            ==> forall j :: 0 <= j < |rules| && rules[j].isActive ==>
                  !ExactMatch(rules[j], category, area) && !CategoryMatch(rules[j], category)
  {
    var exact := FirstActive(rules, (x: Rule) => ExactMatch(x, category, area));
    if exact.Some? then exact
    else
      var byCategory := FirstActive(rules, (x: Rule) => CategoryMatch(x, category));
      if byCategory.Some? then byCategory
      else FirstActive(rules, (x: Rule) => AreaMatch(x, area))
  }

  /** A rule with neither category nor area is picked only for tickets without
      an area, and only when no rule names the ticket's category. */
  lemma DefaultRuleOnlyWithoutArea(rules: seq<Rule>, category: nat, area: Option<nat>)
    requires MatchRule(rules, category, area).Some?
    requires var k := MatchRule(rules, category, area).value;
             rules[k].category.None? && rules[k].area.None?
    ensures area.None?
  {
  }

  /** For a ticket that has an area, a category-only rule beats an area-only
      rule wherever they sit in the table. */
  lemma CategoryBeatsArea(rules: seq<Rule>, category: nat, area: nat, i: nat, j: nat)
    requires i < |rules| && j < |rules|
    requires rules[i] == Rule(Some(category), None, rules[i].tech, true)
    requires rules[j] == Rule(None, Some(area), rules[j].tech, true)
    requires forall k :: 0 <= k < |rules| ==> !(rules[k].isActive && ExactMatch(rules[k], category, Some(area)))
    ensures MatchRule(rules, category, Some(area)).Some?
    ensures CategoryMatch(rules[MatchRule(rules, category, Some(area)).value], category)
  {
  }
}
