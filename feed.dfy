/** The per-ticket activity feed (tickets/views.py `audit_partial`): the 50
    newest audit rows of a ticket, each rendered from its metadata into a
    description, notes and an optional quoted comment. */
module Feed {
  import opened Wrappers
  import opened Strings
  import opened Meta
  import opened Roles
  import opened Models
  import opened Events

  /** How many rows the feed shows. */
  const FEED_LIMIT: nat := 50

  datatype Entry = Entry(action: string, actionLabel: string, actor: string, createdAt: int,
                         description: string, notes: seq<string>, comment: string,
                         commentIsInternal: bool)

  /** `action_labels`. */
  function ActionLabel(a: Action): string {
    match a
    case Create => "Creación"
    case Assign => "Asignación"
    case StatusChange => "Estado"
    case Comment => "Comentario"
    case Attach => "Adjunto"
    case SlaWarn => "Alerta SLA"
    case SlaBreach => "SLA vencido"
  }

  // ------------------------------------------------------------ selection

  /** The audit rows of ticket `id`, oldest first. */
  function TicketRows(logs: seq<AuditLog>, id: nat): (r: seq<AuditLog>)
    ensures |r| <= |logs|
    ensures forall l :: l in r ==> l in logs && l.ticket == id
    ensures forall i :: 0 <= i < |logs| && logs[i].ticket == id ==> logs[i] in r
  {
    if logs == [] then []
    else
      var init := TicketRows(logs[..|logs| - 1], id);
      var l := logs[|logs| - 1];
      assert forall i :: 0 <= i < |logs| - 1 ==> logs[i] == logs[..|logs| - 1][i];
      if l.ticket == id then init + [l] else init
  }

  /** A new audit row extends its own ticket's rows at the end and leaves
      every other ticket's rows unchanged. */
  lemma TicketRowsAppend(logs: seq<AuditLog>, l: AuditLog, id: nat)
    ensures TicketRows(logs + [l], id) == TicketRows(logs, id) + (if l.ticket == id then [l] else [])
  {
    assert (logs + [l])[..|logs|] == logs;
  }

  /** `idx` lists, in increasing order, the positions in `logs` of the rows
      in `rows`, and every position of a row of ticket `id` is listed. */
  predicate IsRowIndex(logs: seq<AuditLog>, id: nat, idx: seq<int>, rows: seq<AuditLog>) {
    |idx| == |rows|
    && (forall k :: 0 <= k < |idx| ==> 0 <= idx[k] < |logs| && rows[k] == logs[idx[k]] && logs[idx[k]].ticket == id)
    && (forall k, k2 :: 0 <= k < k2 < |idx| ==> idx[k] < idx[k2])
    && (forall i :: 0 <= i < |logs| && logs[i].ticket == id ==> i in idx)
  }

  /** One more stored row extends a row index by its own position when it
      belongs to the ticket. */
  lemma RowIndexStep(init: seq<AuditLog>, l: AuditLog, id: nat, idx0: seq<int>)
    requires IsRowIndex(init, id, idx0, TicketRows(init, id))
    ensures IsRowIndex(init + [l], id, idx0 + (if l.ticket == id then [|init|] else []), TicketRows(init + [l], id))
  {
    TicketRowsAppend(init, l, id);
    RowIndexStepRows(init, l, id, idx0, TicketRows(init, id));
    RowIndexStepCovers(init, l, id, idx0);
  }

  lemma RowIndexStepRows(init: seq<AuditLog>, l: AuditLog, id: nat, idx0: seq<int>, rows0: seq<AuditLog>)
    requires |idx0| == |rows0|
    requires forall k :: 0 <= k < |idx0| ==> 0 <= idx0[k] < |init| && rows0[k] == init[idx0[k]] && init[idx0[k]].ticket == id
    ensures var logs := init + [l];
      var idx := idx0 + (if l.ticket == id then [|init|] else []);
      var rows := rows0 + (if l.ticket == id then [l] else []);
      forall k :: 0 <= k < |idx| ==> 0 <= idx[k] < |logs| && rows[k] == logs[idx[k]] && logs[idx[k]].ticket == id
  {
    var logs := init + [l];
    var idx := idx0 + (if l.ticket == id then [|init|] else []);
    var rows := rows0 + (if l.ticket == id then [l] else []);
    forall k | 0 <= k < |idx| ensures 0 <= idx[k] < |logs| && rows[k] == logs[idx[k]] && logs[idx[k]].ticket == id {
      if k < |idx0| {
        assert idx[k] == idx0[k] && rows[k] == rows0[k] && logs[idx0[k]] == init[idx0[k]];
      }
    }
  }

  lemma RowIndexStepCovers(init: seq<AuditLog>, l: AuditLog, id: nat, idx0: seq<int>)
    requires forall i :: 0 <= i < |init| && init[i].ticket == id ==> i in idx0
    ensures var logs := init + [l];
      var idx := idx0 + (if l.ticket == id then [|init|] else []);
      forall i :: 0 <= i < |logs| && logs[i].ticket == id ==> i in idx
  {
    var logs := init + [l];
    var idx := idx0 + (if l.ticket == id then [|init|] else []);
    forall i | 0 <= i < |logs| && logs[i].ticket == id ensures i in idx {
      if i < |init| {
        assert init[i] == logs[i];
        assert i in idx0;
      } else {
        assert idx[|idx| - 1] == i;
      }
    }
  }

  /** The ticket's rows are exactly the stored rows of that ticket, each once,
      in the order they were stored. */
  lemma {:induction false} TicketRowsInOrder(logs: seq<AuditLog>, id: nat)
    ensures exists idx :: IsRowIndex(logs, id, idx, TicketRows(logs, id))
  {
    if logs == [] {
      var none: seq<int> := [];
      assert IsRowIndex(logs, id, none, TicketRows(logs, id));
    } else {
      var init := logs[..|logs| - 1];
      assert logs == init + [logs[|logs| - 1]];
      TicketRowsInOrder(init, id);
      var idx0 :| IsRowIndex(init, id, idx0, TicketRows(init, id));
      var l := logs[|logs| - 1];
      RowIndexStep(init, l, id, idx0);
      assert IsRowIndex(logs, id, idx0 + (if l.ticket == id then [|init|] else []), TicketRows(logs, id));
    }
  }

  /** `order_by("-created_at")[:50]`: the newest rows first, at most 50. */
  function Latest(logs: seq<AuditLog>, id: nat): (r: seq<AuditLog>)
    ensures var rows := TicketRows(logs, id);
      |r| == (if |rows| < FEED_LIMIT then |rows| else FEED_LIMIT)
      && forall k :: 0 <= k < |r| ==> r[k] == rows[|rows| - 1 - k]
  {
    var rows := TicketRows(logs, id);
    var n := if |rows| < FEED_LIMIT then |rows| else FEED_LIMIT;
    seq(n, k requires 0 <= k < n => rows[|rows| - 1 - k])
  }

  /** The stamps never decrease from one row to the next, as when every row
      is stamped by a clock that does not go backwards. */
  predicate StampsAscending(logs: seq<AuditLog>) {
    forall i, j :: 0 <= i < j < |logs| ==> logs[i].createdAt <= logs[j].createdAt
  }

  /** With ascending stamps, a ticket's rows are ascending too. */
  lemma RowsAscending(logs: seq<AuditLog>, id: nat)
    requires StampsAscending(logs)
    ensures StampsAscending(TicketRows(logs, id))
  {
    TicketRowsInOrder(logs, id);
    var rows := TicketRows(logs, id);
    var idx :| IsRowIndex(logs, id, idx, rows);
    forall a, b | 0 <= a < b < |rows|
      ensures rows[a].createdAt <= rows[b].createdAt
    {
      assert idx[a] < idx[b];
    }
  }

  /** With ascending stamps, `order_by("-created_at")` and `Latest` agree:
      the feed runs from newest to oldest. */
  lemma LatestNewestFirst(logs: seq<AuditLog>, id: nat)
    requires StampsAscending(logs)
    ensures var r := Latest(logs, id);
      forall k, k2 :: 0 <= k < k2 < |r| ==> r[k].createdAt >= r[k2].createdAt
  {
    var rows := TicketRows(logs, id);
    var r := Latest(logs, id);
    RowsAscending(logs, id);
    forall k, k2 | 0 <= k < k2 < |r|
      ensures r[k].createdAt >= r[k2].createdAt
    {
      var a, b := |rows| - 1 - k2, |rows| - 1 - k;
      assert r[k] == rows[b] && r[k2] == rows[a];
      assert rows[a].createdAt <= rows[b].createdAt;
    }
  }

  /** With ascending stamps, the `[:50]` cut keeps the newest rows: every row
      of the ticket left out is no newer than any row shown. */
  lemma LatestKeepsNewest(logs: seq<AuditLog>, id: nat)
    requires StampsAscending(logs)
    ensures var r := Latest(logs, id);
      forall i, k :: 0 <= i < |logs| && logs[i].ticket == id && logs[i] !in r && 0 <= k < |r|
                     ==> logs[i].createdAt <= r[k].createdAt
  {
    var rows := TicketRows(logs, id);
    var r := Latest(logs, id);
    RowsAscending(logs, id);
    assert |r| <= |rows| && forall j :: 0 <= j < |r| ==> r[j] == rows[|rows| - 1 - j];
    forall i, k | 0 <= i < |logs| && logs[i].ticket == id && logs[i] !in r && 0 <= k < |r|
      ensures logs[i].createdAt <= r[k].createdAt
    {
      assert logs[i] in rows;
      var m :| 0 <= m < |rows| && rows[m] == logs[i];
      LatestTail(rows, r, m);
      LeftOutIsOlder(rows, r, m, k);
    }
  }

  /** The last `|r|` rows are all in `r`, so a left-out row lies before them. */
  lemma LatestTail(rows: seq<AuditLog>, r: seq<AuditLog>, m: int)
    requires |r| <= |rows| && forall j :: 0 <= j < |r| ==> r[j] == rows[|rows| - 1 - j]
    ensures |rows| - |r| <= m < |rows| ==> rows[m] in r
  {
    if |rows| - |r| <= m < |rows| {
      assert r[|rows| - 1 - m] == rows[m];
    }
  }

  /** The step of LatestKeepsNewest for one row `rows[m]` before the kept tail. */
  lemma LeftOutIsOlder(rows: seq<AuditLog>, r: seq<AuditLog>, m: int, k: int)
    requires StampsAscending(rows)
    requires |r| <= |rows| && forall j :: 0 <= j < |r| ==> r[j] == rows[|rows| - 1 - j]
    requires 0 <= m < |rows| - |r| && 0 <= k < |r|
    ensures rows[m].createdAt <= r[k].createdAt
  {
    assert r[k] == rows[|rows| - 1 - k];
  }

  // ------------------------------------------------------------ rendering

  /** The ids a row's "from" and "to" values name, as the first loop of the
      view collects them. */
  function MentionedIds(m: Payload): (ids: set<int>)
    ensures forall key :: key in {"from", "to"} && AsUserId(Get(m, key)).Some? ==> AsUserId(Get(m, key)).value in ids
  {
    (match AsUserId(Get(m, "from")) case Some(i) => {i} case None => {})
    + (match AsUserId(Get(m, "to")) case Some(i) => {i} case None => {})
  }

  /** The description, notes, comment text and comment flag of one row. */
  function Render(a: Action, m: Payload, names: map<int, string>): (string, seq<string>, string, bool) {
    match a
    case Create => ("Ticket creado.", [], "", false)
    case Assign =>
      var reason := Strip(Text(m, "reason"));
      var titleFrom := Strip(Text(m, "title_from"));
      var titleTo := Strip(Text(m, "title_to"));
      var reasonNote := if reason != "" then ["Motivo: " + reason] else [];
      var titleNote := if Truthy(Get(m, "title_changed"))
                       then ["Título: '" + (if titleFrom != "" then titleFrom else "—") + "' → '"
                             + (if titleTo != "" then titleTo else "—") + "'"]
                       else [];
      (AssignHead(m, names), reasonNote + titleNote, "", false)
    case StatusChange =>
      var description := "Estado cambiado de " + StatusLabel(m, "from", "from_label") + " a "
                         + StatusLabel(m, "to", "to_label") + ".";
      var preview := Strip(Text(m, "body_preview"));
      if Truthy(Get(m, "with_comment")) && preview != "" then
        (description, [], preview, Truthy(Get(m, "internal")))
      else if Truthy(Get(m, "with_comment")) then
        (description, ["Incluyó un comentario adicional."], "", false)
      else (description, [], "", false)
    case Comment =>
      var notes := if Truthy(Get(m, "with_attachment"))
                   then ["Adjunto: " + ShowOr(Get(m, "filename"), "archivo adjunto")] else [];
      ("Comentario " + Scope(m) + ".", notes, Strip(Text(m, "body_preview")), false)
    case Attach => ("Archivo adjunto agregado.", [], "", false)
    case SlaWarn =>
      var notes := if Get(m, "remaining_h") != JNull then ["Horas restantes: " + Show(Get(m, "remaining_h"))] else [];
      ("Advertencia SLA: el ticket está próximo a vencer.", notes, "", false)
    case SlaBreach =>
      var notes := if Get(m, "overdue_h") != JNull then ["Horas de retraso: " + Show(Get(m, "overdue_h"))] else [];
      ("El SLA del ticket fue incumplido.", notes, "", false)
  }

  /** `getattr(log.actor, "username", "(sistema)")`. */
  function FeedActor(actor: Option<UserId>, users: seq<User>): string {
    match actor
    case None => "(sistema)"
    case Some(id) => if ValidId(users, id) then UsernameOf(users, id) else "(sistema)"
  }

  /** The entry of one row, looking names up in `names`. */
  function EntryOf(log: AuditLog, names: map<int, string>, users: seq<User>): (e: Entry)
    ensures e.action == ActionCode(log.action) && e.actionLabel == ActionLabel(log.action)
    ensures e.createdAt == log.createdAt
    ensures log.action != StatusChange ==> !e.commentIsInternal
  {
    var r := Render(log.action, log.meta, names);
    Entry(ActionCode(log.action), ActionLabel(log.action), FeedActor(log.actor, users), log.createdAt,
          r.0, r.1, r.2, r.3)
  }

  /** The feed as specified: every selected row rendered against the whole
      user directory. */
  function Entries(logs: seq<AuditLog>, names: map<int, string>, users: seq<User>): (es: seq<Entry>)
    ensures |es| == |logs|
    ensures forall k :: 0 <= k < |logs| ==> es[k] == EntryOf(logs[k], names, users)
  {
    seq(|logs|, k requires 0 <= k < |logs| => EntryOf(logs[k], names, users))
  }

  /** The ticket's feed. */
  function FeedOf(logs: seq<AuditLog>, id: nat, users: seq<User>): seq<Entry> {
    Entries(Latest(logs, id), Usernames(users), users)
  }

  // --------------------------------------------------------- the view loop

  /** Two name maps agree on the ids a row mentions. */
  predicate AgreeOn(ids: set<int>, a: map<int, string>, b: map<int, string>) {
    forall i :: i in ids ==> (i in a <==> i in b) && (i in a ==> a[i] == b[i])
  }

  lemma UsernameFromMetaAgrees(m: Payload, keyId: string, keyName: string, a: map<int, string>, b: map<int, string>)
    requires AsUserId(Get(m, keyId)).Some? ==> AgreeOn({AsUserId(Get(m, keyId)).value}, a, b)
    ensures UsernameFromMeta(m, keyId, keyName, a) == UsernameFromMeta(m, keyId, keyName, b)
  {
    if AsUserId(Get(m, keyId)).Some? {
      var i := AsUserId(Get(m, keyId)).value;
      assert i in {i};
    }
  }

  /** Rendering a row only consults the names of the ids the row mentions. */
  lemma EntryNamesAgree(log: AuditLog, a: map<int, string>, b: map<int, string>, users: seq<User>)
    requires AgreeOn(MentionedIds(log.meta), a, b)
    ensures EntryOf(log, a, users) == EntryOf(log, b, users)
  {
    var m := log.meta;
    if log.action == Assign {
      if AsUserId(Get(m, "from")).Some? {
        var i := AsUserId(Get(m, "from")).value;
        assert i in MentionedIds(m);
        forall j | j in {i} ensures (j in a <==> j in b) && (j in a ==> a[j] == b[j]) {
          assert j in MentionedIds(m);
        }
      }
      if AsUserId(Get(m, "to")).Some? {
        var i := AsUserId(Get(m, "to")).value;
        assert i in MentionedIds(m);
        forall j | j in {i} ensures (j in a <==> j in b) && (j in a ==> a[j] == b[j]) {
          assert j in MentionedIds(m);
        }
      }
      UsernameFromMetaAgrees(m, "from", "from_username", a, b);
      UsernameFromMetaAgrees(m, "to", "to_username", a, b);
    }
  }

  /** The first loop of the view: the ids the rows mention. */
  method CollectIds(logs: seq<AuditLog>) returns (userIds: set<int>)
    ensures forall k :: 0 <= k < |logs| ==> MentionedIds(logs[k].meta) <= userIds
  {
    userIds := {};
    var i := 0;
    while i < |logs|
      invariant 0 <= i <= |logs|
      invariant forall k :: 0 <= k < i ==> MentionedIds(logs[k].meta) <= userIds
    {
      userIds := userIds + MentionedIds(logs[i].meta);
      i := i + 1;
    }
  }

  /** Rendering rows only consults the names of the ids they mention. */
  lemma EntriesNamesAgree(logs: seq<AuditLog>, a: map<int, string>, b: map<int, string>, users: seq<User>)
    requires forall k :: 0 <= k < |logs| ==> AgreeOn(MentionedIds(logs[k].meta), a, b)
    ensures Entries(logs, a, users) == Entries(logs, b, users)
  {
    forall k | 0 <= k < |logs| ensures Entries(logs, a, users)[k] == Entries(logs, b, users)[k] {
      EntryNamesAgree(logs[k], a, b, users);
    }
  }

  lemma EntriesPush(logs: seq<AuditLog>, i: nat, names: map<int, string>, users: seq<User>)
    requires i < |logs|
    ensures Entries(logs[..i + 1], names, users) == Entries(logs[..i], names, users) + [EntryOf(logs[i], names, users)]
  {
    var l := Entries(logs[..i + 1], names, users);
    var r := Entries(logs[..i], names, users) + [EntryOf(logs[i], names, users)];
    forall k | 0 <= k < i + 1 ensures l[k] == r[k] {
      assert logs[..i + 1][k] == logs[k];
      if k < i { assert logs[..i][k] == logs[k]; }
    }
  }

  /** The second loop of the view: each row rendered with the loaded names
      `userMap`, which agree with the directory on every id a row mentions. */
  method RenderRows(logs: seq<AuditLog>, userMap: map<int, string>, users: seq<User>) returns (entries: seq<Entry>)
    requires forall k :: 0 <= k < |logs| ==> AgreeOn(MentionedIds(logs[k].meta), userMap, Usernames(users))
    ensures entries == Entries(logs, Usernames(users), users)
  {
    entries := [];
    var i := 0;
    while i < |logs|
      invariant 0 <= i <= |logs|
      invariant entries == Entries(logs[..i], userMap, users)
    {
      EntriesPush(logs, i, userMap, users);
      entries := entries + [EntryOf(logs[i], userMap, users)];
      i := i + 1;
    }
    assert logs[..i] == logs;
    EntriesNamesAgree(logs, userMap, Usernames(users), users);
  }

  /** The rendering loops of the view over the selected rows `logs`: collect
      the mentioned ids, load their usernames, render each row. The result is
      the specified feed over the whole directory. */
  method RenderFeed(logs: seq<AuditLog>, users: seq<User>) returns (entries: seq<Entry>)
    ensures entries == Entries(logs, Usernames(users), users)
  {
    var userIds := CollectIds(logs);
    var directory := Usernames(users);
    var userMap := map id | id in userIds && id in directory :: directory[id];
    forall k | 0 <= k < |logs| ensures AgreeOn(MentionedIds(logs[k].meta), userMap, directory) {
      assert MentionedIds(logs[k].meta) <= userIds;
    }
    entries := RenderRows(logs, userMap, users);
  }

  // ----------------------------------------------------------- properties

  /** The feed holds at most 50 entries, and exactly 50 for a ticket with
      50 rows or more. */
  lemma FeedIsAtMostFifty(logs: seq<AuditLog>, id: nat, users: seq<User>)
    ensures |FeedOf(logs, id, users)| <= FEED_LIMIT
    ensures |TicketRows(logs, id)| >= FEED_LIMIT ==> |FeedOf(logs, id, users)| == FEED_LIMIT
    ensures |TicketRows(logs, id)| < FEED_LIMIT ==> |FeedOf(logs, id, users)| == |TicketRows(logs, id)|
  {
    assert |FeedOf(logs, id, users)| == |Latest(logs, id)|;
  }

  /** An assignment row reads as a re-assignment exactly when a previous,
      different assignee was recorded, as in the event log. */
  lemma FeedAssignDescription(log: AuditLog, users: seq<User>)
    requires log.action == Assign
    ensures var d := EntryOf(log, Usernames(users), users).description;
      d == AssignHead(log.meta, Usernames(users))
      && (IsReassign(log.meta) ==> d[..|"Reasignado de "|] == "Reasignado de ")
      && (!IsReassign(log.meta) ==> d[..|"Asignado a "|] == "Asignado a ")
  {
  }

  /** A status row as the producers write it reads "Estado cambiado de A a B."
      and quotes a non-blank comment with its visibility; a blank comment
      becomes a note. */
  lemma FeedStatusEntry(from: Status, to: Status, withComment: bool, internal: bool,
                        commentId: Option<nat>, preview: string, names: map<int, string>)
    ensures var r := Render(StatusChange, Payloads.StatusMeta(from, to, withComment, internal, commentId, preview), names);
      var p := Strip(preview);
      r.0 == "Estado cambiado de " + Label(from) + " a " + Label(to) + "."
      && (withComment && p != "" ==> r.2 == p && r.3 == internal && r.1 == [])
      && (withComment && p == "" ==> r.1 == ["Incluyó un comentario adicional."] && r.2 == "")
      && (!withComment ==> r.1 == [] && r.2 == "" && !r.3)
  {
    var m := Payloads.StatusMeta(from, to, withComment, internal, commentId, preview);
    assert StatusLabel(m, "from", "from_label") == Label(from);
    assert StatusLabel(m, "to", "to_label") == Label(to);
    assert Text(m, "body_preview") == preview;
  }

  /** A row without an actor is shown as the system's. */
  lemma SystemRowsShowSystem(log: AuditLog, names: map<int, string>, users: seq<User>)
    requires log.actor.None?
    ensures EntryOf(log, names, users).actor == "(sistema)"
  {
  }
}
