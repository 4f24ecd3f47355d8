/** The decisions of the SLA sweep (tickets/services.py `run_sla_check`) for
    one ticket, the rows it writes, and who is told: the recipient sets of
    `_email_warn` / `_email_breach` and the notifications of
    `_create_notifications`. */
module Sla {
  import opened Wrappers
  import opened Strings
  import opened Meta
  import opened Roles
  import opened Models
  import opened Payloads

  /** What the sweep does with one scanned ticket. */
  datatype Decision = Skip | BreachResolved(resolvedAt: int) | BreachOverdue | Warn

  predicate IsBreach(d: Decision) { d.BreachResolved? || d == BreachOverdue }

  /** Hours since creation, as a real number. */
  function ElapsedHours(t: Ticket, now: int): real {
    (now - t.createdAt) as real / 3600.0
  }

  /** `int(x // 3600)`: whole hours, rounded down also for negative `x`. */
  function HoursFloor(x: int): (h: int)
    ensures h * 3600 <= x < h * 3600 + 3600
  {
    x / 3600
  }

  /** The sweep's decision for a scanned ticket, given whether it already has
      a BREACH row and a WARN row:
      - a ticket with a resolution time is breached once if it was resolved
        after its due time, and never warned;
      - an unresolved ticket past its due time and not yet breached is
        breached, and not warned in the same run;
      - otherwise it is warned once when the warning share of its SLA has
        elapsed. An already breached ticket therefore falls through to the
        warning test. */
  function Decide(t: Ticket, hasBreach: bool, hasWarn: bool, now: int, ratio: real): (d: Decision)
    ensures d.BreachResolved? <==> t.resolvedAt.Some? && t.resolvedAt.value > DueAt(t) && !hasBreach
    ensures d.BreachResolved? ==> d.resolvedAt == t.resolvedAt.value
    ensures d == BreachOverdue <==> t.resolvedAt.None? && now >= DueAt(t) && !hasBreach
    ensures d == Warn <==> t.resolvedAt.None? && !(now >= DueAt(t) && !hasBreach) && !hasWarn
                           && ElapsedHours(t, now) >= SlaHoursValue(t.slaHours) as real * ratio
  {
    var sla := SlaHoursValue(t.slaHours);
    if t.resolvedAt.Some? then
      (if t.resolvedAt.value > DueAt(t) && !hasBreach then BreachResolved(t.resolvedAt.value) else Skip)
    else if ElapsedHours(t, now) >= sla as real && !hasBreach then BreachOverdue
    else if ElapsedHours(t, now) >= sla as real * ratio && !hasWarn then Warn
    else Skip
  }

  /** The audit row a non-skip decision writes for ticket `id`: no actor, the
      due time, and the resolution time or the whole hours past due or left. */
  function SlaRow(id: nat, t: Ticket, d: Decision, now: int): (l: AuditLog)
    requires d != Skip
    ensures l.ticket == id && l.actor.None? && l.createdAt == now
    ensures l.action == (if d == Warn then SlaWarn else SlaBreach)
  {
    match d
    case BreachResolved(at) => AuditLog(id, None, SlaBreach, BreachResolvedMeta(DueAt(t), at), now)
    case BreachOverdue => AuditLog(id, None, SlaBreach, BreachOverdueMeta(DueAt(t), HoursFloor(now - DueAt(t))), now)
    case Warn => AuditLog(id, None, SlaWarn, WarnMeta(DueAt(t), HoursFloor(DueAt(t) - now)), now)
  }

  // ------------------------------------------------------------ recipients

  predicate Active(users: seq<User>, id: int) { ValidId(users, id) && users[id - 1].isActive }

  /** Member of TECNICO or ADMINISTRADOR and active (the `role_users` query). */
  predicate IsRoleUser(u: User) { u.isActive && (ROLE_TECH in u.groups || ROLE_ADMIN in u.groups) }

  /** The ids of the role users among the first `n` users, ascending. */
  function RoleUserIdsUpTo(users: seq<User>, n: nat): (ids: seq<UserId>)
    requires n <= |users|
    ensures forall id :: id in ids <==> 1 <= id <= n && IsRoleUser(users[id - 1])
    ensures forall a, b :: 0 <= a < b < |ids| ==> ids[a] < ids[b]
    ensures forall k :: 0 <= k < |ids| ==> 1 <= ids[k] <= n
  {
    if n == 0 then []
    else RoleUserIdsUpTo(users, n - 1) + (if IsRoleUser(users[n - 1]) then [n] else [])
  }

  function RoleUserIds(users: seq<User>): seq<UserId> { RoleUserIdsUpTo(users, |users|) }

  /** The recipients of a warning (`breach` false) or a breach: the active
      role users, the active assignee and, for a breach only, the active
      requester. */
  function RecipientSet(users: seq<User>, roleIds: seq<UserId>, t: Ticket, breach: bool): (r: set<UserId>)
    ensures forall id :: id in r ==> Active(users, id)
    ensures forall id :: id in r <==>
      Active(users, id)
      && (id in roleIds || t.assignee == Some(id) || (breach && id == t.requester))
  {
    (set id | id in roleIds && Active(users, id))
    + (if t.assignee.Some? && Active(users, t.assignee.value) then {t.assignee.value} else {})
    + (if breach && Active(users, t.requester) then {t.requester} else {})
  }

  /** `_email_warn` / `_email_breach`: the recipient set built with `.add`
      and then filtered to active users. */
  method CollectRecipients(users: seq<User>, roleIds: seq<UserId>, t: Ticket, breach: bool)
    returns (r: set<UserId>)
    ensures r == RecipientSet(users, roleIds, t, breach)
  {
    var pending: set<UserId> := {};
    var i := 0;
    while i < |roleIds|
      invariant 0 <= i <= |roleIds|
      invariant pending == set k | 0 <= k < i :: roleIds[k]
    {
      pending := pending + {roleIds[i]};
      i := i + 1;
    }
    if t.assignee.Some? && Active(users, t.assignee.value) {
      pending := pending + {t.assignee.value};
    }
    if breach && Active(users, t.requester) {
      pending := pending + {t.requester};
    }
    r := set id | id in pending && Active(users, id);
  }

  /** A warning never reaches the requester as such: only when the requester
      is also a role user or the assignee. */
  lemma WarningSkipsRequester(users: seq<User>, roleIds: seq<UserId>, t: Ticket)
    requires t.requester in RecipientSet(users, roleIds, t, false)
    ensures t.requester in roleIds || t.assignee == Some(t.requester)
  {
  }

  /** A breach reaches everyone a warning reaches, and the active requester. */
  lemma BreachWidensWarning(users: seq<User>, roleIds: seq<UserId>, t: Ticket)
    ensures RecipientSet(users, roleIds, t, false) <= RecipientSet(users, roleIds, t, true)
    ensures Active(users, t.requester) ==> t.requester in RecipientSet(users, roleIds, t, true)
  {
  }

  /** The recipients among ids 1..n in ascending order, the order in which the
      model creates their notifications. */
  function InIdOrder(r: set<UserId>, n: nat): (s: seq<UserId>)
    ensures forall id :: id in s <==> id in r && 1 <= id <= n
    ensures forall a, b :: 0 <= a < b < |s| ==> s[a] < s[b]
    ensures forall k :: 0 <= k < |s| ==> 1 <= s[k] <= n
  {
    if n == 0 then [] else InIdOrder(r, n - 1) + (if n in r then [n] else [])
  }

  /** Every recipient appears exactly once. */
  lemma {:induction false} InIdOrderSize(r: set<UserId>, n: nat)
    requires forall id :: id in r ==> 1 <= id <= n
    ensures |InIdOrder(r, n)| == |r|
  {
    if n > 0 {
      var r' := r - {n};
      InIdOrderSize(r', n - 1);
      InIdOrderRestrict(r, r', n - 1);
    }
  }

  lemma InIdOrderRestrict(r: set<UserId>, r': set<UserId>, n: nat)
    requires forall id :: 1 <= id <= n ==> (id in r <==> id in r')
    ensures InIdOrder(r, n) == InIdOrder(r', n)
  {
    if n > 0 {
      InIdOrderRestrict(r, r', n - 1);
    }
  }

  /** The message of the notification a decision sends. */
  function NoticeText(d: Decision, code: string): string {
    if d == Warn then "El ticket " + code + " está por vencer su SLA."
    else "El ticket " + code + " ha vencido su SLA."
  }

  function MailSubject(d: Decision, code: string): string {
    if d == Warn then "[" + code + "] SLA por vencer" else "[" + code + "] SLA VENCIDO"
  }

  function MailBody(d: Decision, code: string, title: string): string {
    if d == Warn then "El ticket " + code + " (" + title + ") está por vencer su SLA."
    else "El ticket " + code + " (" + title + ") ha vencido su SLA."
  }

  /** One notification per recipient id, in the given order. */
  function NoticesFor(ids: seq<UserId>, message: string, url: string, now: int): (ns: seq<Notification>)
    ensures |ns| == |ids|
    ensures forall k :: 0 <= k < |ids| ==> ns[k] == Notification(ids[k], message, url, false, now)
  {
    if ids == [] then [] else NoticesFor(ids[..|ids| - 1], message, url, now)
                              + [Notification(ids[|ids| - 1], message, url, false, now)]
  }

  /** The non-empty e-mail addresses of the given users, in order. */
  function EmailsOf(users: seq<User>, ids: seq<UserId>): (es: seq<string>)
    requires forall k :: 0 <= k < |ids| ==> ValidId(users, ids[k])
    ensures forall e :: e in es ==> e != ""
    ensures |es| <= |ids|
    ensures forall k :: 0 <= k < |ids| && ValidId(users, ids[k]) && users[ids[k] - 1].email != "" ==> users[ids[k] - 1].email in es
  {
    if ids == [] then []
    else
      assert ValidId(users, ids[|ids| - 1]);
      var e := users[ids[|ids| - 1] - 1].email;
      var init := ids[..|ids| - 1];
      assert forall k :: 0 <= k < |init| ==> init[k] == ids[k];
      EmailsOf(users, init) + (if e != "" then [e] else [])
  }

  /** The ordered recipients of decision `d` for ticket `t`. */
  function RecipientOrder(users: seq<User>, roleIds: seq<UserId>, t: Ticket, d: Decision): (ids: seq<UserId>)
    ensures forall k :: 0 <= k < |ids| ==> ValidId(users, ids[k])
  {
    InIdOrder(RecipientSet(users, roleIds, t, IsBreach(d)), |users|)
  }

  /** The notifications a decision creates: none for a skip. */
  function SlaNotices(users: seq<User>, roleIds: seq<UserId>, id: nat, t: Ticket, d: Decision, now: int)
    : seq<Notification>
  {
    if d == Skip then []
    else NoticesFor(RecipientOrder(users, roleIds, t, d), NoticeText(d, t.code), TicketLink(id), now)
  }

  /** The e-mail a decision asks for: none for a skip or when no recipient has an address. */
  function SlaMails(users: seq<User>, roleIds: seq<UserId>, t: Ticket, d: Decision): seq<Mail> {
    if d == Skip then []
    else
      var emails := EmailsOf(users, RecipientOrder(users, roleIds, t, d));
      if emails == [] then [] else [Mail(emails, MailSubject(d, t.code), MailBody(d, t.code, t.title))]
  }

  /** The users of a sequence of notifications, in order. */
  function NoticeUsers(ns: seq<Notification>): (us: seq<UserId>)
    ensures |us| == |ns| && forall k :: 0 <= k < |ns| ==> us[k] == ns[k].user
  {
    if ns == [] then [] else NoticeUsers(ns[..|ns| - 1]) + [ns[|ns| - 1].user]
  }

  /** Exactly one notification per recipient, and only recipients: the
      notified users are the recipients, each once. */
  lemma OneNoticePerRecipient(users: seq<User>, roleIds: seq<UserId>, id: nat, t: Ticket, d: Decision, now: int)
    requires d != Skip
    ensures var us := NoticeUsers(SlaNotices(users, roleIds, id, t, d, now));
      var r := RecipientSet(users, roleIds, t, IsBreach(d));
      |us| == |r|
      && (forall u :: u in r <==> u in us)
      && (forall a, b :: 0 <= a < b < |us| ==> us[a] != us[b])
  {
    var r := RecipientSet(users, roleIds, t, IsBreach(d));
    var ids := InIdOrder(r, |users|);
    var us := NoticeUsers(SlaNotices(users, roleIds, id, t, d, now));
    assert us == ids;
    assert forall u :: u in r ==> 1 <= u <= |users|;
    InIdOrderSize(r, |users|);
  }

  // ------------------------------------------------------------ properties

  /** As written, a ticket breached without a prior warning is warned by the
      next run: the breach branch no longer fires once the BREACH row exists,
      and the warning test follows it. */
  lemma WarnAfterBreach()
    ensures var t := Ticket("1", "t", "", Incident, 1, 1, 1, 24, None, Open, None, 0, 0, None, None);
      Decide(t, false, false, 25 * 3600, 0.8) == BreachOverdue
      && Decide(t, true, false, 25 * 3600, 0.8) == Warn
      && Decide(t, true, true, 25 * 3600, 0.8) == Skip
  {
  }

  /** The 24-hour example: warned at hour 20 with the default ratio, breached
      at hour 25 without a second warning, and nothing more at hour 26. */
  lemma TwentyFourHourScenario()
    ensures var t := Ticket("1", "t", "", Incident, 1, 1, 1, 24, None, InProgress, None, 0, 0, None, None);
      Decide(t, false, false, 20 * 3600, 0.8) == Warn
      && Decide(t, false, true, 25 * 3600, 0.8) == BreachOverdue
      && Decide(t, true, true, 26 * 3600, 0.8) == Skip
  {
  }

  /** A ticket resolved late and later reopened is breached once through its
      stale resolution time, and never warned. */
  lemma ReopenedAfterLateResolution(t: Ticket, now: int, ratio: real, hasWarn: bool)
    requires t.resolvedAt.Some? && t.resolvedAt.value > DueAt(t)
    ensures Decide(t, false, hasWarn, now, ratio) == BreachResolved(t.resolvedAt.value)
    ensures Decide(t, true, hasWarn, now, ratio) == Skip
  {
  }

  // ------------------------------------------------------------- the sweep

  /** The decision for the ticket at index `i` (id i + 1) against the audit
      rows `logs` present when the sweep starts; tickets that are not OPEN or
      IN_PROGRESS are not scanned. */
  function SweepDecision(ts: seq<Ticket>, logs: seq<AuditLog>, i: nat, now: int, ratio: real): (d: Decision)
    requires i < |ts|
    ensures !OpenLike(ts[i].status) ==> d == Skip
    ensures OpenLike(ts[i].status) ==>
      d == Decide(ts[i], HasLog(logs, i + 1, SlaBreach), HasLog(logs, i + 1, SlaWarn), now, ratio)
  {
    if OpenLike(ts[i].status)
    then Decide(ts[i], HasLog(logs, i + 1, SlaBreach), HasLog(logs, i + 1, SlaWarn), now, ratio)
    else Skip
  }

  /** The kind of row a non-skip decision writes. */
  function RowAction(d: Decision): Action { if d == Warn then SlaWarn else SlaBreach }

  /** The decisions of a sweep, one per ticket in id order. */
  function SweepDecisions(ts: seq<Ticket>, logs: seq<AuditLog>, now: int, ratio: real): (ds: seq<Decision>)
    ensures |ds| == |ts|
    ensures forall i :: 0 <= i < |ts| ==> ds[i] == SweepDecision(ts, logs, i, now, ratio)
  {
    seq(|ts|, i requires 0 <= i < |ts| => SweepDecision(ts, logs, i, now, ratio))
  }

  /** The audit rows written for the first `n` of the decisions `ds`, in
      ticket order: one per non-skip decision. */
  function SweepRows(ts: seq<Ticket>, ds: seq<Decision>, n: nat, now: int): (rows: seq<AuditLog>)
    requires |ds| == |ts| && n <= |ts|
    ensures |rows| <= n
  {
    if n == 0 then []
    else
      var prev := SweepRows(ts, ds, n - 1, now);
      if ds[n - 1] == Skip then prev else prev + [SlaRow(n, ts[n - 1], ds[n - 1], now)]
  }

  /** The notifications created for the first `n` decisions. */
  function SweepNotices(users: seq<User>, roleIds: seq<UserId>, ts: seq<Ticket>, ds: seq<Decision>,
                        n: nat, now: int): seq<Notification>
    requires |ds| == |ts| && n <= |ts|
  {
    if n == 0 then []
    else SweepNotices(users, roleIds, ts, ds, n - 1, now) + SlaNotices(users, roleIds, n, ts[n - 1], ds[n - 1], now)
  }

  /** The mails asked for by the first `n` decisions. */
  function SweepMails(users: seq<User>, roleIds: seq<UserId>, ts: seq<Ticket>, ds: seq<Decision>, n: nat)
    : seq<Mail>
    requires |ds| == |ts| && n <= |ts|
  {
    if n == 0 then [] else SweepMails(users, roleIds, ts, ds, n - 1) + SlaMails(users, roleIds, ts[n - 1], ds[n - 1])
  }

  /** The `{"warnings": N, "breaches": M}` result. */
  datatype Counts = Counts(warnings: nat, breaches: nat)

  /** The counters after one more decision: `warned += 1` or `breached += 1`. */
  function Tally(c: Counts, d: Decision): Counts {
    if d == Skip then c
    else if d == Warn then c.(warnings := c.warnings + 1)
    else c.(breaches := c.breaches + 1)
  }

  /** The counts of the first `n` decisions. */
  function SweepCounts(ds: seq<Decision>, n: nat): Counts
    requires n <= |ds|
  {
    if n == 0 then Counts(0, 0) else Tally(SweepCounts(ds, n - 1), ds[n - 1])
  }

  /** How many rows of kind `a` a sequence of rows holds, over all tickets. */
  function ActionTotal(rows: seq<AuditLog>, a: Action): (n: nat)
    ensures n <= |rows|
  {
    if rows == [] then 0
    else ActionTotal(rows[..|rows| - 1], a) + (if rows[|rows| - 1].action == a then 1 else 0)
  }

  lemma ActionTotalPush(rows: seq<AuditLog>, l: AuditLog, a: Action)
    ensures ActionTotal(rows + [l], a) == ActionTotal(rows, a) + (if l.action == a then 1 else 0)
  {
    assert (rows + [l])[..|rows + [l]| - 1] == rows;
  }

  lemma {:induction false} CountLogsConcat(a: seq<AuditLog>, b: seq<AuditLog>, id: nat, act: Action)
    ensures CountLogs(a + b, id, act) == CountLogs(a, id, act) + CountLogs(b, id, act)
    decreases |b|
  {
    if b == [] {
      assert a + b == a;
    } else {
      var init := b[..|b| - 1];
      CountLogsConcat(a, init, id, act);
      assert (a + b)[..|a + b| - 1] == a + init;
      assert (a + b)[|a + b| - 1] == b[|b| - 1];
    }
  }

  // ------------------------------------------------------------ properties

  lemma CountLogsSingle(l: AuditLog, id: nat, a: Action)
    ensures CountLogs([l], id, a) == if l.ticket == id && l.action == a then 1 else 0
  {
    assert [l][..0] == [];
  }

  /** The result counts exactly the rows written: warnings are the SLA_WARN
      rows and breaches the SLA_BREACH rows. */
  lemma {:induction false} CountsMatchRows(ts: seq<Ticket>, ds: seq<Decision>, n: nat, now: int)
    requires |ds| == |ts| && n <= |ts|
    ensures var rows := SweepRows(ts, ds, n, now);
      SweepCounts(ds, n) == Counts(ActionTotal(rows, SlaWarn), ActionTotal(rows, SlaBreach))
  {
    if n > 0 {
      CountsMatchRows(ts, ds, n - 1, now);
      var prev := SweepRows(ts, ds, n - 1, now);
      if ds[n - 1] != Skip {
        var l := SlaRow(n, ts[n - 1], ds[n - 1], now);
        ActionTotalPush(prev, l, SlaWarn);
        ActionTotalPush(prev, l, SlaBreach);
      }
    }
  }

  /** Every row of `rows` comes from a non-skip decision of its ticket and
      has the kind that decision names. */
  predicate Decided(ds: seq<Decision>, rows: seq<AuditLog>) {
    forall k :: 0 <= k < |rows| ==>
      1 <= rows[k].ticket <= |ds| && ds[rows[k].ticket - 1] != Skip
      && rows[k].action == RowAction(ds[rows[k].ticket - 1])
  }

  lemma {:induction false} SweepRowsAreDecided(ts: seq<Ticket>, ds: seq<Decision>, n: nat, now: int)
    requires |ds| == |ts| && n <= |ts|
    ensures Decided(ds, SweepRows(ts, ds, n, now))
  {
    if n > 0 {
      SweepRowsAreDecided(ts, ds, n - 1, now);
      var prev := SweepRows(ts, ds, n - 1, now);
      if ds[n - 1] != Skip {
        var l := SlaRow(n, ts[n - 1], ds[n - 1], now);
        var rows := prev + [l];
        assert SweepRows(ts, ds, n, now) == rows;
        forall k | 0 <= k < |rows|
          ensures 1 <= rows[k].ticket <= |ds| && ds[rows[k].ticket - 1] != Skip
                  && rows[k].action == RowAction(ds[rows[k].ticket - 1])
        {
          if k < |prev| { assert rows[k] == prev[k]; } else { assert rows[k] == l; }
        }
      }
    }
  }

  /** Only OPEN or IN_PROGRESS tickets get rows. */
  lemma SweepScansOpenLike(ts: seq<Ticket>, logs: seq<AuditLog>, now: int, ratio: real)
    ensures var rows := SweepRows(ts, SweepDecisions(ts, logs, now, ratio), |ts|, now);
      forall k :: 0 <= k < |rows| ==> 1 <= rows[k].ticket <= |ts| && OpenLike(ts[rows[k].ticket - 1].status)
  {
    SweepRowsAreDecided(ts, SweepDecisions(ts, logs, now, ratio), |ts|, now);
  }

  /** The rows of ticket `id` and kind `a` grow by one exactly at ticket `id`
      when its decision writes a row of that kind. */
  lemma SweepRowsStep(ts: seq<Ticket>, ds: seq<Decision>, n: nat, now: int, id: nat, a: Action)
    requires |ds| == |ts| && 0 < n <= |ts|
    ensures CountLogs(SweepRows(ts, ds, n, now), id, a)
            == CountLogs(SweepRows(ts, ds, n - 1, now), id, a)
               + (if n == id && ds[n - 1] != Skip && a == RowAction(ds[n - 1]) then 1 else 0)
  {
    var prev := SweepRows(ts, ds, n - 1, now);
    if ds[n - 1] != Skip {
      var l := SlaRow(n, ts[n - 1], ds[n - 1], now);
      assert SweepRows(ts, ds, n, now) == prev + [l];
      CountLogsAppend(prev, l, id, a);
    }
  }

  /** Ticket `id` gets at most one row from a sweep, of the kind its decision names. */
  lemma {:induction false} SweepRowsOfTicket(ts: seq<Ticket>, ds: seq<Decision>, n: nat, now: int, id: nat, a: Action)
    requires |ds| == |ts| && n <= |ts|
    ensures CountLogs(SweepRows(ts, ds, n, now), id, a)
            == if 1 <= id <= n && ds[id - 1] != Skip && a == RowAction(ds[id - 1]) then 1 else 0
  {
    if n > 0 {
      SweepRowsOfTicket(ts, ds, n - 1, now, id, a);
      SweepRowsStep(ts, ds, n, now, id, a);
    }
  }

  /** At most one warning and one breach per ticket: when the rows present
      hold at most one of each, so do they together with a sweep's rows. */
  lemma SweepAtMostOnce(ts: seq<Ticket>, logs: seq<AuditLog>, now: int, ratio: real, id: nat)
    requires CountLogs(logs, id, SlaWarn) <= 1 && CountLogs(logs, id, SlaBreach) <= 1
    ensures var all := logs + SweepRows(ts, SweepDecisions(ts, logs, now, ratio), |ts|, now);
      CountLogs(all, id, SlaWarn) <= 1 && CountLogs(all, id, SlaBreach) <= 1
  {
    var ds := SweepDecisions(ts, logs, now, ratio);
    var rows := SweepRows(ts, ds, |ts|, now);
    CountLogsConcat(logs, rows, id, SlaWarn);
    CountLogsConcat(logs, rows, id, SlaBreach);
    SweepRowsOfTicket(ts, ds, |ts|, now, id, SlaWarn);
    SweepRowsOfTicket(ts, ds, |ts|, now, id, SlaBreach);
  }

  /** A second sweep at the same instant writes no breach: every breach the
      first one could write is now guarded. It can still write warnings, for
      tickets the first sweep breached without a prior warning. */
  lemma SecondSweepNoBreach(ts: seq<Ticket>, logs: seq<AuditLog>, now: int, ratio: real)
    ensures var after := logs + SweepRows(ts, SweepDecisions(ts, logs, now, ratio), |ts|, now);
      var rows := SweepRows(ts, SweepDecisions(ts, after, now, ratio), |ts|, now);
      forall k :: 0 <= k < |rows| ==> rows[k].action == SlaWarn
  {
    var after := logs + SweepRows(ts, SweepDecisions(ts, logs, now, ratio), |ts|, now);
    var ds2 := SweepDecisions(ts, after, now, ratio);
    forall i | 0 <= i < |ts| ensures !IsBreach(ds2[i]) {
      SecondDecisionNoBreach(ts, logs, now, ratio, i);
    }
    SweepRowsAreDecided(ts, ds2, |ts|, now);
  }

  /** While the sweep runs, `_has_log` for the ticket at index `i` sees only
      the rows present at the start: the rows already written belong to
      earlier tickets. */
  lemma SweepPrefixHidesOthers(ts: seq<Ticket>, ds: seq<Decision>, logs: seq<AuditLog>, i: nat, now: int, a: Action)
    requires |ds| == |ts| && i < |ts|
    ensures HasLog(logs + SweepRows(ts, ds, i, now), i + 1, a) == HasLog(logs, i + 1, a)
  {
    CountLogsConcat(logs, SweepRows(ts, ds, i, now), i + 1, a);
    SweepRowsOfTicket(ts, ds, i, now, i + 1, a);
  }

  /** After a sweep, no ticket's decision at the same instant is a breach. */
  lemma SecondDecisionNoBreach(ts: seq<Ticket>, logs: seq<AuditLog>, now: int, ratio: real, i: nat)
    requires i < |ts|
    ensures var after := logs + SweepRows(ts, SweepDecisions(ts, logs, now, ratio), |ts|, now);
      !IsBreach(SweepDecision(ts, after, i, now, ratio))
  {
    var ds := SweepDecisions(ts, logs, now, ratio);
    var rows := SweepRows(ts, ds, |ts|, now);
    CountLogsConcat(logs, rows, i + 1, SlaBreach);
    SweepRowsOfTicket(ts, ds, |ts|, now, i + 1, SlaBreach);
  }
}
