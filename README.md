# Helpdesk ticket lifecycle — a Dafny model

This project models the ticket lifecycle engine of the `mvp-tickets` Django
helpdesk and proves properties of it. It covers the following parts.

- **Role predicates.** The role predicates of `accounts/roles.py`.
- **The ticket record** (`tickets/models.py`):
  - its four statuses and its sequential code;
  - its SLA helpers (`due_at`, `remaining_hours`, `is_overdue`, `is_warning`);
  - the seven audit action kinds;
  - the auto-assignment rules with their (category, area) uniqueness constraint.
- **Mutating operations.** Every operation of the REST API (`tickets/api.py`) and of the HTML views (`tickets/views.py`) that changes a ticket:
  - creation, assignment, status transition, comments and attachments;
  - their rejection paths and the notifications they create.
- **The signal hooks** (`tickets/signals.py`):
  - the status stashed before a save;
  - the fallback STATUS audit;
  - the requester, assignee and comment e-mails;
  - the global event derived from every audit row.
- **The SLA sweep** `run_sla_check` of `tickets/services.py`, its recipient sets, and rule-driven auto-assignment.
- **The activity feed** that `audit_partial` renders from audit metadata.
- **The upload validator** `validate_upload`.

## How the model is built

**Modules and sample values**

- The modules follow the program. `Roles`, `Models`, `Validators`, `Access`, `Hooks`, `Events`, `Feed`, `Sla` and `Store` each hold one part of the system.
- `Strings`, `Meta` and `Payloads` hold the Python string operations, the JSON metadata values and the exact metadata dictionaries each producer writes.

**The database: the `Store` class**

- The database is one object, `Store.Store`:
  - the users and the existing groups are constants;
  - tickets, comments, attachments, assignments, audit rows, notifications, e-mails and rules are `seq` fields.
- Every mutating operation is a method with a `modifies` frame naming only the fields it writes.
- Each method states the whole new state of those fields: exactly what is appended or replaced.
- Each method keeps the invariant `Valid()`:
  - ticket codes are the ids in decimal;
  - every reference resolves;
  - every audit row names an existing ticket;
  - each ticket has at most one SLA warning row and one SLA breach row;
  - every rule names an existing technician.

**Identifiers, time and outside effects**

- Ids are positions: ticket `id` is `tickets[id - 1]` and user `id` is `users[id - 1]`. A row's primary key is its position in its table.
- Time is an integer number of seconds, passed in as `now`. It is never read from a clock.
- `warn_ratio` is a Dafny `real`.
- E-mails are recorded as `Mail` intents, appended in the order the hooks schedule them. Under autocommit `transaction.on_commit` runs its callback at once.

**Events and permission checks**

- The `EventLog` table is not stored. `Store.Store.EventRows` derives it from the audit rows, because the `post_save` hook on `AuditLog` writes exactly one event per new audit row and nothing else writes it.
- Each request handler's rejection logic is a pure function, such as `Store.ApiAssignCheck` or `Store.UiTransitionCheck`. It returns the HTTP status and message of the first failing check, or the validated input.
  - The method performing the request states two things. On `Fail` nothing changes. On `Ok` the state changes as described.
  - A redirect with an error message is status 302.

## Model

| member | source | states |
|---|---|---|
| Roles.LookupStable | mvp-tickets/tickets/views.py:703-707 | creating a user leaves every earlier `User.objects.get(id=…)` answer unchanged, finds the new user under the next id, and still finds nothing out of range |
| Roles.UsernamesAgreeWithLookup | mvp-tickets/tickets/views.py:1115-1118 | the id-to-username directory has a key exactly where the lookup finds a user, and maps it to that user's name |
| Roles.UsernamesGrow | mvp-tickets/tickets/views.py:1115-1118 | creating a user adds exactly one directory entry, the new id with its name |
| Roles.RolesIndependent | mvp-tickets/accounts/roles.py:9-21 | examples: one user can be admin, technician and requester at once; a superuser without groups is admin but not technician; each predicate holds without the others |
| Models.ParseStatus | mvp-tickets/tickets/models.py:18-29 | a code names a status exactly when it is one of the four codes OPEN, IN_PROGRESS, RESOLVED, CLOSED |
| Models.ParseStatusOfCode | mvp-tickets/tickets/models.py:18-29 | every status code parses back to its status |
| Models.LabelOfCode | mvp-tickets/tickets/views.py:1103 | `status_map.get(value)` yields a non-empty label exactly for a string holding one of the four codes |
| Models.Successors | mvp-tickets/tickets/views.py:74-79 | no status succeeds itself; CLOSED alone has no successor; only IN_PROGRESS leads back to OPEN and only RESOLVED leads to CLOSED |
| Models.EdgeTable | mvp-tickets/tickets/api.py:173-178 | an edge exists for exactly the five pairs OPEN→IN_PROGRESS, IN_PROGRESS→RESOLVED, IN_PROGRESS→OPEN, RESOLVED→CLOSED, RESOLVED→IN_PROGRESS |
| Models.TemporaryCode | mvp-tickets/tickets/models.py:98-100 | the placeholder code starts with `_` and is not a decimal number, so it can never collide with a final code |
| Models.SlaHoursValue | mvp-tickets/tickets/models.py:112-119 | the SLA hours are the priority's hours, or 72 when those are zero; always positive |
| Models.RemainingHours | mvp-tickets/tickets/models.py:129-133 | the remaining hours are the seconds to the due time over 3600: negative exactly when the due time has passed, zero exactly at it |
| Models.IsOverdue | mvp-tickets/tickets/models.py:121-140 | overdue holds exactly when the ticket is OPEN or IN_PROGRESS and `now` is past `created_at + sla_hours·3600` |
| Models.IsWarning | mvp-tickets/tickets/models.py:128-150 | warning holds exactly when the ticket is OPEN or IN_PROGRESS and `now` lies in the last fifth of the SLA window, both ends included |
| Models.SlaFlagsExclusive | mvp-tickets/tickets/models.py:135-150 | overdue and warning never hold together; neither holds for RESOLVED or CLOSED; before the last fifth neither holds except at its first instant |
| Models.ParseAction | mvp-tickets/tickets/models.py:236-244 | an action code names a kind exactly when it is one of the seven codes |
| Models.ActionCodesDistinct | mvp-tickets/tickets/models.py:236-244 | the seven action codes are distinct and each parses back to its kind |
| Models.HasLogExists | mvp-tickets/tickets/services.py:14-15 | `_has_log` holds exactly when some audit row of the ticket has that action |
| Models.SqlAdmitsDuplicateNullArea | mvp-tickets/tickets/models.py:300-303 | as SQLite evaluates the constraint, a second rule with the same category and no area is admitted, breaking uniqueness |
| Models.AdmitsKeepsUnique | mvp-tickets/tickets/models.py:300-303 | adding a rule the intended constraint admits keeps the table unique per (category, area) |
| Models.AdmitsImpliesSqlAdmits | mvp-tickets/tickets/models.py:300-303 | every rule the intended constraint admits SQLite admits too, and the two agree on rules with both a category and an area |
| Models.FirstActive | mvp-tickets/tickets/services.py:133-136 | `.filter(...).first()` returns the lowest-keyed active rule satisfying the filter, or nothing when there is none |
| Models.MatchRule | mvp-tickets/tickets/services.py:132-138 | the chosen rule is active and matches; no rule is chosen exactly when no active rule matches; an exact (category, area) rule wins whenever one exists; an area-only rule is chosen only when no exact or category-only rule exists |
| Models.DefaultRuleOnlyWithoutArea | mvp-tickets/tickets/services.py:134-136 | a rule with neither category nor area is chosen only for tickets without an area |
| Models.CategoryBeatsArea | mvp-tickets/tickets/services.py:134-136 | without an exact rule, an active category-only rule beats any area-only rule wherever they sit in the table |
| Validators.PathName | mvp-tickets/tickets/validators.py:22 | `Path(name).name` contains no `/` and is never "." |
| Validators.PathNameIsIdentity | mvp-tickets/tickets/validators.py:22-23 | a name equals its basename exactly when it has no `/` and is not "." |
| Validators.SuffixIsTail | mvp-tickets/tickets/validators.py:28 | a non-empty suffix is a dot followed by a dot-free tail of the name |
| Validators.Validate | mvp-tickets/tickets/validators.py:17-34 | accepted exactly when the name is plain, the size is at most 20 MiB, the lower-cased suffix is one of the seven extensions and the content type is empty or allowed; each rejection is the first failing check in the order name, size, extension, content type |
| Validators.TraversalRejected | mvp-tickets/tickets/validators.py:22-23 | example: "../../evil.txt" is rejected as an invalid name whatever its size and type |
| Validators.PlainTextAccepted | mvp-tickets/tickets/validators.py:25-34 | example: "ok.txt" with text/plain or an empty type is accepted at any size up to the limit |
| Validators.SizeLimitInclusive | mvp-tickets/tickets/validators.py:12-26 | example: exactly 20·1024·1024 bytes is accepted, one byte more is rejected as too large |
| Validators.UpperCaseExtensionAccepted | mvp-tickets/tickets/validators.py:28-30 | example: the extension is compared lower-cased, so "SCAN.PDF" is accepted |
| Access.VisibleIds | mvp-tickets/tickets/api.py:71-83 | an admin sees every ticket, a technician exactly the tickets assigned to them, anyone else exactly the tickets they requested |
| Access.AllowedTransitionsFor | mvp-tickets/tickets/views.py:72-82 | the allowed targets are the edge-table successors when the user is admin or the assigned technician, and none otherwise; the list is non-empty exactly when the user may transition and the ticket is not CLOSED |
| Access.NoTransitionWithoutRole | mvp-tickets/tickets/views.py:80-82 | a non-staff user, a non-admin not assigned to the ticket, and anyone on a CLOSED ticket get no transition |
| Access.VisibleComments | mvp-tickets/tickets/views.py:103-108 | a viewer is shown exactly the ticket's comments that are public, or all of them when the viewer is staff |
| Hooks.StashReadsLastSave | mvp-tickets/tickets/signals.py:19-27 | the stashed previous status is the status of the row's last save once the row is stored, and inserting another row leaves it unchanged |
| Hooks.TicketSaved | mvp-tickets/tickets/signals.py:30-104 | creation schedules the creation mail and no audit; an unchanged status does nothing; a status change writes the fallback STATUS audit exactly when the skip flag is off, and mails the requester exactly when entering RESOLVED or CLOSED |
| Hooks.MailToAddressIsClean | mvp-tickets/tickets/signals.py:14-15 | a mail goes to a single non-empty address with no surrounding whitespace, and stripping the stored address first changes nothing |
| Hooks.CreatedMail | mvp-tickets/tickets/signals.py:39-48 | the creation mail goes out exactly when the requester has an address, once, to that address, with the subject naming the code it is given |
| Hooks.AssignmentMail | mvp-tickets/tickets/signals.py:108-126 | the assignment mail goes out exactly when the assignee has an address, once, to that address, with "[code] Nuevo ticket asignado" as subject |
| Hooks.NoticeMail | mvp-tickets/tickets/signals.py:39-84 | a save schedules at most one requester mail, and one exactly when there is a notice and the requester has an address |
| Hooks.CommentMail | mvp-tickets/tickets/signals.py:129-148 | a comment mails the requester exactly when it is public and the requester has an address |
| Hooks.UnchangedSaveIsSilent | mvp-tickets/tickets/signals.py:73-79 | a save with an unchanged status writes no audit and mails nobody; creation never writes a STATUS audit |
| Hooks.ResolvingMailsOnce | mvp-tickets/tickets/signals.py:81-84 | entering RESOLVED or CLOSED mails the requester exactly once, whatever the skip flag, when the address is non-empty |
| Hooks.CreatedMailShowsTemporaryCode | mvp-tickets/tickets/signals.py:39-48 | as written, the creation mail's subject carries the `_TMP-…` placeholder and never the ticket's final code |
| Hooks.CreatedMailNamesTicket | mvp-tickets/tickets/models.py:104-108 | as intended, the creation mail's subject carries the final code, which reads back as the ticket's id |
| Events.UsernameFromMeta | mvp-tickets/tickets/signals.py:169-183 | the recorded username when truthy; otherwise the name of a truthy recorded id that reads as an existing user; otherwise "Sin asignar": for a missing id, an unknown one, or one that reads as no integer |
| Events.StatusLabel | mvp-tickets/tickets/signals.py:212-215 | a status label is never empty: the recorded label, the code's label, or "Sin estado" |
| Events.Message | mvp-tickets/tickets/signals.py:155-166 | an action code outside the seven kinds renders ""; a known code renders its kind's message |
| Events.Derive | mvp-tickets/tickets/signals.py:238-244 | an event has the audit row's actor and action code, model "ticket", the row's ticket as object id and its time |
| Events.DeriveAll | mvp-tickets/tickets/signals.py:151-154 | exactly one event per audit row, in the same order |
| Events.StatusMessageOfMeta | mvp-tickets/tickets/signals.py:211-221 | a STATUS row as the producers write it renders "Estado: A → B." with both labels, plus the scoped comment note exactly when a non-blank comment was attached |
| Events.StatusMessageWithoutLabels | mvp-tickets/tickets/signals.py:212-216 | with no labels and no known codes both sides read "Sin estado" |
| Events.AssignHeadOfMeta | mvp-tickets/tickets/signals.py:196-202 | an ASSIGN row reads "Reasignado de X a Y." exactly when a previous, different assignee was recorded, and "Asignado a Y." otherwise |
| Events.AssignMessageOfMeta | mvp-tickets/tickets/signals.py:196-205 | the ASSIGN message is the headline followed by " Motivo: r." exactly for a non-blank reason |
| Events.AssignTitleNote | mvp-tickets/tickets/signals.py:206-210 | a retitling assignment appends "Título: 'old' → 'new'." with both stripped titles |
| Events.AttachMessageOfMeta | mvp-tickets/tickets/signals.py:222-228 | an ATTACH row names only the last path component of its file |
| Events.SlaMessagesOfMeta | mvp-tickets/tickets/signals.py:229-236 | SLA rows carry their `remaining_h` / `overdue_h` hour counts into the message; a late-resolution breach without `overdue_h` keeps the default text |
| Events.CommentMessageOfMeta | mvp-tickets/tickets/signals.py:185-195 | a COMMENT row quotes its stripped preview with its scope, and a file adds its name |
| Feed.TicketRows | mvp-tickets/tickets/views.py:1090-1091 | the ticket's audit rows are stored rows of that ticket, and every stored row of it is among them |
| Feed.TicketRowsAppend | mvp-tickets/tickets/views.py:1090-1091 | a new audit row extends its own ticket's rows at the end and leaves every other ticket's rows unchanged |
| Feed.TicketRowsInOrder | mvp-tickets/tickets/views.py:1090-1091 | the ticket's rows are the stored rows of that ticket, each exactly once, in increasing key order |
| Feed.Latest | mvp-tickets/tickets/views.py:1089-1092 | the feed takes the ticket's rows newest first, at most 50 of them |
| Feed.RowsAscending | mvp-tickets/tickets/views.py:1089-1091 | when stamps never decrease along the table, they never decrease along one ticket's rows either |
| Feed.LatestNewestFirst | mvp-tickets/tickets/views.py:1089-1092 | with such stamps, the feed is in non-increasing `created_at` order, as `order_by("-created_at")` gives |
| Feed.LatestKeepsNewest | mvp-tickets/tickets/views.py:1089-1092 | with such stamps, every row of the ticket left out of the feed is no newer than any row in it, as the slice `[:50]` of that order keeps |
| Feed.MentionedIds | mvp-tickets/tickets/views.py:1105-1113 | the ids collected from a row include every integer or digit-string `from` / `to` value |
| Feed.EntryOf | mvp-tickets/tickets/views.py:1188-1199 | an entry carries the row's action code, its label and its time; only a STATUS row can mark its comment internal |
| Feed.Entries | mvp-tickets/tickets/views.py:1130-1199 | one entry per selected row, in the same order |
| Feed.EntryNamesAgree | mvp-tickets/tickets/views.py:1115-1128 | a row renders the same with any name map that agrees on the ids it mentions |
| Feed.CollectIds | mvp-tickets/tickets/views.py:1105-1113 | the loop collects every id each row mentions |
| Feed.RenderRows | mvp-tickets/tickets/views.py:1130-1199 | the entry loop over a map restricted to the mentioned ids produces the entries for the full user directory |
| Feed.RenderFeed | mvp-tickets/tickets/views.py:1105-1199 | collecting ids, building the restricted user map and rendering gives the entries for the full directory |
| Feed.FeedIsAtMostFifty | mvp-tickets/tickets/views.py:1089-1092 | the feed has exactly min(50, number of the ticket's rows) entries |
| Feed.FeedAssignDescription | mvp-tickets/tickets/views.py:1141-1147 | an ASSIGN entry reads "Reasignado de …" exactly when `from` is truthy and differs from `to`, else "Asignado a …" |
| Feed.FeedStatusEntry | mvp-tickets/tickets/views.py:1155-1165 | a STATUS entry reads "Estado cambiado de A a B." and shows the preview with its scope, or the "Incluyó un comentario adicional." note for a blank one |
| Feed.SystemRowsShowSystem | mvp-tickets/tickets/views.py:1192 | a row without an actor shows "(sistema)" |
| Sla.HoursFloor | mvp-tickets/tickets/services.py:62 | whole hours of a duration, rounded down as `int(x // 3600)` does, also for negative durations |
| Sla.Decide | mvp-tickets/tickets/services.py:43-73 | a resolved ticket is breached exactly when resolved after the due time with no breach row; an unresolved one exactly when the due time has passed with no breach row; otherwise warned exactly when elapsed ≥ ratio·SLA hours with no warning row |
| Sla.SlaRow | mvp-tickets/tickets/services.py:52-71 | an SLA row has no actor, belongs to the ticket, and is SLA_WARN for a warning and SLA_BREACH for a breach |
| Sla.RoleUserIdsUpTo | mvp-tickets/tickets/services.py:34-40 | the role users are exactly the active members of TECNICO or ADMINISTRADOR, in ascending id order |
| Sla.EmailsOf | mvp-tickets/tickets/services.py:89-90 | the address list holds only non-empty addresses of the recipients, and every recipient's non-empty address |
| Sla.RecipientSet | mvp-tickets/tickets/services.py:85-131 | the recipients are exactly the active users among the role users, the assignee and, for a breach, the requester |
| Sla.CollectRecipients | mvp-tickets/tickets/services.py:86-114 | the set built with `.add` and the active filter is the recipient set |
| Sla.WarningSkipsRequester | mvp-tickets/tickets/services.py:85-89 | the requester receives a warning only as a role user or as the assignee |
| Sla.BreachWidensWarning | mvp-tickets/tickets/services.py:108-114 | the breach recipients include every warning recipient and the active requester |
| Sla.InIdOrder | mvp-tickets/tickets/services.py:80 | the recipients listed once each, in ascending id order |
| Sla.NoticesFor | mvp-tickets/tickets/services.py:78-82 | one unread notification per recipient, with the message and the ticket link |
| Sla.OneNoticePerRecipient | mvp-tickets/tickets/services.py:100-105 | an SLA emission creates exactly one notification per recipient, with no duplicates |
| Sla.WarnAfterBreach | mvp-tickets/tickets/services.py:59-73 | a ticket breached without a prior warning is warned on the next run, and then never again |
| Sla.TwentyFourHourScenario | mvp-tickets/tickets/services.py:59-73 | example: a 24-hour ticket is warned at 20 h, breached at 25 h, and left alone at 26 h |
| Sla.ReopenedAfterLateResolution | mvp-tickets/tickets/services.py:49-56 | a ticket resolved after its due time is breached once, never warned in that run, and skipped once the breach exists |
| Sla.SweepDecision | mvp-tickets/tickets/services.py:27-30 | only OPEN and IN_PROGRESS tickets are decided; any other ticket is skipped |
| Sla.SweepDecisions | mvp-tickets/tickets/services.py:42 | one decision per ticket, in id order, each judged against the audit rows as they were when the sweep started |
| Sla.CountsMatchRows | mvp-tickets/tickets/services.py:55-75 | the returned counts equal the number of SLA_WARN and SLA_BREACH rows the sweep writes |
| Sla.SweepRowsAreDecided | mvp-tickets/tickets/services.py:50-71 | every row the sweep writes belongs to a ticket with a non-skip decision and has that decision's action |
| Sla.SweepScansOpenLike | mvp-tickets/tickets/services.py:27-30 | every row the sweep writes belongs to an OPEN or IN_PROGRESS ticket |
| Sla.SweepRowsOfTicket | mvp-tickets/tickets/services.py:42-73 | a sweep writes at most one row per ticket: one of the decided action, none otherwise |
| Sla.SweepAtMostOnce | mvp-tickets/tickets/services.py:50-68 | after any number of non-dry runs each ticket has at most one SLA_WARN and at most one SLA_BREACH row |
| Sla.SecondSweepNoBreach | mvp-tickets/tickets/services.py:50-65 | a second run at the same time writes no breach rows, only warnings |
| Sla.SecondDecisionNoBreach | mvp-tickets/tickets/services.py:50-65 | after a run, no ticket is decided a breach again |
| Sla.SweepPrefixHidesOthers | mvp-tickets/tickets/services.py:14-15 | rows the sweep wrote for earlier tickets do not change `_has_log` for the current one |
| Store.CodesUnique | mvp-tickets/tickets/models.py:104-108 | with `code = str(pk)` no two tickets share a code |
| Store.TemporaryCodeIsFree | mvp-tickets/tickets/models.py:98-100 | the temporary code never collides with a stored code |
| Store.Inserted | mvp-tickets/tickets/models.py:95-108 | an inserted ticket's code is its id in decimal and both of its timestamps are the insertion time; nothing else changes |
| Store.AutoTarget | mvp-tickets/tickets/services.py:137-141 | auto-assignment applies exactly when a rule matches and its technician is not already the assignee, and then targets that technician |
| Store.FallbackRows | mvp-tickets/tickets/signals.py:86-104 | the hook writes at most one STATUS row, exactly when its decision says so, with `_status_changed_by` as actor |
| Store.Entered | mvp-tickets/tickets/api.py:193-197 | entering a status stamps `resolved_at` / `closed_at` with now on every entry into RESOLVED / CLOSED, and changes nothing else |
| Store.StampsNeverCleared | mvp-tickets/tickets/views.py:791-795 | corollary of Store.Entered: a transition never clears `resolved_at` or `closed_at` |
| Store.JsonStatus | mvp-tickets/tickets/api.py:180-181 | a posted value names a status exactly when it is a string holding one of the four codes |
| Store.ApiAssignCheck | mvp-tickets/tickets/api.py:117-133 | accepted exactly when the ticket is visible, `to_user_id` is truthy and `int()` reads it as an existing user, and the actor is admin or a technician targeting themself; 404 for an invisible ticket or an unknown id, 400 for a missing id, 500 exactly when `int()` refuses the value |
| Store.JsonUserId | mvp-tickets/tickets/api.py:127-130 | the id `get(id=...)` looks up: an integer as itself, `true`/`false` as 1/0, a string as `int()` reads it (so " 5" and "+5" name user 5), nothing for null |
| Store.JsonUserIdExtendsAsUserId | mvp-tickets/tickets/api.py:127-130 | every id the metadata reader accepts is looked up as the same user |
| Store.ApiTransitionCheck | mvp-tickets/tickets/api.py:166-187 | accepted exactly when the ticket is visible, the status is one of the four, the edge is in the table and the actor is admin or the assigned technician; 403 exactly when only the actor check fails |
| Store.ApiCommentCheck | mvp-tickets/tickets/api.py:229-246 | accepted exactly when the ticket is visible and the stripped body is non-empty |
| Store.ApiFilesCheck | mvp-tickets/tickets/api.py:274-284 | attachments are reachable exactly when the ticket is visible and the attachment rule holds |
| Store.ApiUploadCheck | mvp-tickets/tickets/api.py:291-300 | an upload is accepted exactly when attachments are reachable, a file is sent and the validator accepts it; a validator rejection is a 400 with its message |
| Store.NewestFiles | mvp-tickets/tickets/api.py:287-289 | the listing holds exactly the ticket's attachments |
| Store.PostedId | mvp-tickets/tickets/views.py:703-707 | `int()` of the posted id: a digit string reads as its decimal value |
| Store.PostedIdOfNatToString | mvp-tickets/tickets/views.py:703-707 | the decimal text of an id, bare or with a `+` sign, reads back as that id |
| Store.PostedIdSigned | mvp-tickets/tickets/views.py:703-707 | a digit string after one `+` or `-` sign reads as its value, negated for `-`, so a minus-signed id names no user |
| Store.PostedIdIgnoresSpace | mvp-tickets/tickets/views.py:703-707 | whitespace around the posted id does not change what it reads as |
| Strings.IntValue | mvp-tickets/tickets/views.py:703-707 | `int()` accepts one optional sign before digits with single underscores between them, reads a digit string as its value, and is negative only with a `-` |
| Strings.IntValueSigned | mvp-tickets/tickets/views.py:703-707 | a signed digit string reads as the digits' value, negated for `-` |
| Store.UiTargetCheck | mvp-tickets/tickets/views.py:703-719 | a text that reads as no integer is a server error; an id that is not an active user redirects with "Técnico no válido."; an accepted target is the posted id and an active user, and an admin's is accepted only when the TECNICO group exists and the target belongs to it |
| Store.UiAssignCheck | mvp-tickets/tickets/views.py:688-718 | only admin or technician may assign (403 otherwise); an accepted target is an existing active user |
| Store.UiAssignTargets | mvp-tickets/tickets/views.py:694-718 | a non-admin technician's accepted target is themself; an admin's accepted target is an active member of TECNICO |
| Store.RenameFollowsRole | mvp-tickets/tickets/views.py:725 | after the technician override, whoever may assign may also rename |
| Store.ApiAssignTargets | mvp-tickets/tickets/api.py:132-133 | a non-admin's accepted API target is themself, and only if they are a technician; anyone else is rejected |
| Store.PostedStatus | mvp-tickets/tickets/views.py:778-782 | a posted value names a status exactly when it is one of the four codes |
| Store.UiTransitionCheck | mvp-tickets/tickets/views.py:771-786 | accepted exactly when the posted status is in the allowed list; Forbidden exactly when that list is empty, CLOSED tickets included |
| Store.TransitionChecksAgree | mvp-tickets/tickets/views.py:774-786 | the UI and the API accept the same transitions to the same status, for tickets the API shows |
| Store.AttachmentForbiddenUnreachable | mvp-tickets/tickets/api.py:274-284 | the API attachment check only ever fails with 404: every ticket the API shows passes the attachment rule |
| Store.StatusNotices | mvp-tickets/tickets/views.py:822-826 | a UI transition notifies the requester, and then the assignee when there is one, with the same message and link |
| Store.UiCommentCheck | mvp-tickets/tickets/views.py:620-642 | accepted exactly when the user may open the ticket, the stripped body is non-empty, and a sent file is allowed and valid |
| Store.Fresh | mvp-tickets/tickets/views.py:488-492 | a new ticket from the form is OPEN, has the actor as requester and the chosen assignee, no timestamps, and the form's fields |
| Store.CreateNotices | mvp-tickets/tickets/views.py:519-522 | creation notifies the creator, and then the final assignee when there is one |
| Store.AssignNotices | mvp-tickets/tickets/views.py:756-758 | a UI assignment notifies the technician and then the requester |
| Store.Store.EventRows | mvp-tickets/tickets/signals.py:151-244 | the event table has one event per audit row, each with that row's ticket and actor |
| Store.Store.constructor | mvp-tickets/tickets/models.py:292-303 | an empty database whose rules name existing technicians is valid, whatever the rules' (category, area) pairs |
| Store.Store.Record | mvp-tickets/tickets/models.py:234-263 | appending one audit row for a stored ticket keeps the invariant, given `_has_log` was false for an SLA row |
| Store.Store.AddAssignment | mvp-tickets/tickets/signals.py:107-126 | an assignment record is appended, and the new assignee is mailed |
| Store.Store.AddComment | mvp-tickets/tickets/signals.py:129-148 | a comment is appended with the next id, and the requester is mailed for a public one |
| Store.Store.AddOptionalComment | mvp-tickets/tickets/api.py:200-204 | a comment is created and mailed only when the text is non-empty |
| Store.Store.AttachSent | mvp-tickets/tickets/views.py:649-664 | an attachment is stored only when a file was sent, under the folder with the name the storage chose, and that name is what the COMMENT row records |
| Store.Store.InsertTicket | mvp-tickets/tickets/models.py:95-108 | an insert fails and changes nothing exactly when a given code is already taken; otherwise the ticket is appended with its id as code, and the creation mail names the code the row was inserted under: the given one, or `_TMP-<hex>` |
| Store.InsertCode | mvp-tickets/tickets/models.py:98-100 | the code a row is inserted under is never empty: the given code, or the placeholder, which is no decimal number |
| Store.Store.SaveTicket | mvp-tickets/tickets/signals.py:19-104 | a save replaces the row, mails as the post-save hook decides and appends the fallback STATUS row exactly when the hook writes one |
| Store.Store.ApplyAutoAssign | mvp-tickets/tickets/services.py:132-160 | returns True exactly when a rule applies; False changes nothing; True sets the assignee and appends exactly one "auto-assign" record from the actor and one ASSIGN row with the previous assignee |
| Store.Store.EnterStatus | mvp-tickets/tickets/api.py:189-218 | a transition sets the status and stamps, adds the comment only when one is given, and appends exactly one STATUS row with the labels, the comment flag and a 120-character preview |
| Store.Store.AddRule | mvp-tickets/tickets/models.py:300-303 | a rule is added exactly when SQLite's evaluation of the constraint admits it, so always when it lacks a category or an area; otherwise nothing changes |
| Store.Store.NotifySla | mvp-tickets/tickets/services.py:85-131 | an SLA emission appends one notification per recipient and one mail to the recipients that have an address |
| Store.Store.RunSlaCheck | mvp-tickets/tickets/services.py:17-75 | the returned counts are those of the sweep's decisions; a dry run changes nothing, so repeated dry runs return the same counts; otherwise exactly the decided SLA rows, notifications and mails are appended |
| Store.Store.SweepLoop | mvp-tickets/tickets/services.py:32-73 | the loop over all tickets ends with the counts of all decisions and with every ticket's rows, notifications and mails appended, or nothing written in a dry run |
| Store.Store.SweepStep | mvp-tickets/tickets/services.py:42-73 | one loop iteration extends the counts and the written rows, notifications and mails by this ticket's decision |
| Store.Store.SweepTicket | mvp-tickets/tickets/services.py:49-73 | one ticket's emission writes its row and notifies only outside a dry run, and nothing for a skip |
| Store.Store.EmitSla | mvp-tickets/tickets/services.py:51-72 | an emission appends the ticket's SLA row, then the mail and the notifications of its recipients, and keeps the at-most-once invariant |
| Store.Store.DecideTicket | mvp-tickets/tickets/services.py:43-68 | the decision taken against the growing audit table equals the one against the table at the sweep's start, and a non-skip decision finds no row of its kind |
| Store.Store.ApiCreate | mvp-tickets/tickets/api.py:86-105 | creation appends an OPEN ticket and one CREATE row with the category and priority ids, mails the requester with the `_TMP-<hex>` code, then applies auto-assignment with the actor |
| Store.Store.LogCreated | mvp-tickets/tickets/api.py:89-102 | the CREATE row is followed by the auto-assignment records exactly when a rule applies |
| Store.Store.ApiAssign | mvp-tickets/tickets/api.py:110-152 | a rejection returns the check's status and writes nothing; success sets the assignee, appends one record from the actor and one ASSIGN row with previous and new ids and names, and returns both ids |
| Store.Store.ApiTransition | mvp-tickets/tickets/api.py:156-220 | a rejection writes nothing; success enters the status with one STATUS row and the comment only when given |
| Store.Store.ApiComment | mvp-tickets/tickets/api.py:224-260 | a rejection writes nothing; a non-staff author's comment is forced public; one COMMENT row with a 120-character preview is appended |
| Store.Store.ApiComments | mvp-tickets/tickets/api.py:229-237 | the listing of a visible ticket holds exactly its comments, internal ones only for staff |
| Store.Store.ApiFiles | mvp-tickets/tickets/api.py:274-289 | the listing holds exactly the ticket's attachments when the check passes |
| Store.Store.ApiUpload | mvp-tickets/tickets/api.py:291-324 | a rejection writes nothing; success appends the attachment under the storage's chosen name and one ATTACH row with that name, the size and the type |
| Store.Store.UiCreate | mvp-tickets/tickets/views.py:480-525 | the requester is mailed with the `_TMP-<hex>` code; with a chosen assignee, one record and one ASSIGN row with no previous assignee; without one, auto-assignment without an actor; then the creator and the final assignee are notified |
| Store.Store.AssignCreated | mvp-tickets/tickets/views.py:495-522 | the manual or automatic assignment after the insert, followed by the creation notifications |
| Store.Store.UiAssign | mvp-tickets/tickets/views.py:686-764 | a rejection writes nothing; success retitles only when the actor may rename and the new title is non-empty and different, appends one record and one ASSIGN row with the title change, and notifies the technician and the requester |
| Store.Store.Reassign | mvp-tickets/tickets/views.py:725-758 | the writes of an accepted UI assignment: the title changes exactly when the actor may rename and the stripped new title is non-empty and different, and the ASSIGN row records both titles |
| Store.Store.UiTransition | mvp-tickets/tickets/views.py:769-829 | a rejection writes nothing; success enters the status with one STATUS row, the comment only when given, and notifies the requester and the assignee |
| Store.Store.SaveUiComment | mvp-tickets/tickets/views.py:644-678 | one comment, the sent attachment under the storage's chosen name, and one COMMENT row with that name and a 120-character preview |
| Store.Store.UiAddComment | mvp-tickets/tickets/views.py:619-681 | a rejection writes nothing; a requester's comment is forced public; success returns the comments the viewer may see |
| Store.Store.AuditPartial | mvp-tickets/tickets/views.py:1082-1205 | 403 exactly when the user may not open the ticket; otherwise the rendered feed of the 50 newest rows |
| Strings.NatToString | mvp-tickets/tickets/models.py:105 | `str(pk)` is a digit string |
| Strings.DigitsValueOfNatToString | mvp-tickets/tickets/models.py:105 | `str(pk)` reads back as `pk` |
| Strings.StripBounds | mvp-tickets/tickets/views.py:625 | `strip()` never lengthens, leaves no whitespace at either end, and is empty exactly for an all-whitespace text |
| Strings.StripIdempotent | mvp-tickets/tickets/views.py:625 | stripping twice is stripping once |
| Strings.Take | mvp-tickets/tickets/views.py:676 | `body[:120]` is the first min(120, length) characters |
| Strings.AfterLastSlashOfPath | mvp-tickets/tickets/views.py:662 | `rsplit("/", 1)[-1]` of "dir/name" is the name |
| Meta.AsUserId | mvp-tickets/tickets/views.py:1109-1113 | an id is read back from an integer or a digit string and from nothing else |

## Left out

- **Outside effects.**
  - `send_mail` and `transaction.on_commit` are recorded as `Mail` intents, with no delivery semantics. They are appended in the order the hooks schedule them.
  - `fail_silently` is moot.
- **Time and floats.**
  - `timezone.now()` is the `now` parameter.
  - Datetimes are integer seconds.
  - `isoformat` strings in SLA metadata are integers.
  - `elapsed_h` and `remaining_hours` are exact reals rather than floats.
- **The database layer.**
  - ORM querysets, HTTP response bodies and templates, forms, serializers, pagination, exports and reports are not modelled.
  - DRF's `get_object` is modelled as the visibility filter answering 404.
- **Concurrency.** Every operation is atomic and sequential. SQLite locking is not modelled.
- Store.Store.ApiCreate, Store.Store.UiCreate: an exception raised inside `apply_auto_assign` is swallowed in the source. In the model auto-assignment cannot fail, so that path does not exist.
- Store.Store.InsertTicket: the real codes come from `uuid4` and the database's primary key sequence.
  - The uuid is a parameter `hex`.
  - The key is the position, so keys are never reused.
- Sla.InIdOrder: `_email_warn` / `_email_breach` iterate a Python `set`, whose order is unspecified. The model sends notifications and the mail's address list in ascending user id.
- Store.Store.ApiFiles, Store.NewestFiles: the attachment listing's `-uploaded_at` order is not stated. Only its contents are stated.
- Store.Store.ApiComments, Access.VisibleComments: the `created_at` order of the comment listings is not stated. Only their contents are stated.
- Store.Store.RunSlaCheck: the counts of repeated dry runs are equal because the state is unchanged. This is not restated as a separate lemma.
- Access.CanUploadAttachments, Access.CanOpen, Access.CanTransition, Access.ApiMayAssign and the role predicates are definitions. Their properties are stated by the members that use them.
- Further definitions, whose properties are stated by the lemmas and members named beside them:
  - Roles.Lookup and Roles.Usernames, by Roles.LookupStable, Roles.UsernamesAgreeWithLookup and Roles.UsernamesGrow;
  - Hooks.StashedStatus, by Hooks.StashReadsLastSave and Hooks.TicketSaved;
  - Hooks.MailTo, by Hooks.MailToAddressIsClean, Hooks.CreatedMail, Hooks.AssignmentMail and Hooks.CommentMail;
  - Hooks.CreatedMailAsWritten, the as-written half of a finding, by Hooks.CreatedMailShowsTemporaryCode;
  - Events.MessageOf, by Events.Message and the `…MessageOfMeta` lemmas;
  - Feed.Render, by Feed.RenderRows and Feed.RenderFeed;
  - Sla.MailSubject, Sla.MailBody and Sla.NoticeText, by Sla.NoticesFor and Store.Store.NotifySla;
  - Strings.Strip, by Strings.StripBounds and Strings.StripIdempotent;
  - Store.CanRename, by Store.RenameFollowsRole;
  - Store.AssignTarget, by Store.UiAssignTargets and Store.ApiAssignTargets;
  - Store.PrevName, by Store.Store.ApiAssign, whose ASSIGN row it fills.
  - Store.Retitles and Store.Store.AfterAssign, by Store.Store.UiAssign and Store.Store.Reassign, whose accepted writes they describe.
- Strings.IsSpace: whitespace is the characters Python's `str.isspace()` accepts, listed by code point; no Unicode database is consulted.
- Strings.IsDigits: only the ASCII digits 0-9 count. Python's `isdigit()` also accepts other Unicode digits such as "²" or "٣"; the model treats those strings as non-numeric.
- Strings.LowerChar: only ASCII letters are lower-cased. Python's `lower()` also lower-cases non-ASCII letters, and a few of them, such as the Kelvin sign U+212A, become ASCII letters. The model leaves every non-ASCII character unchanged.
- Strings.IntValue, Store.PostedId: `int()` also reads non-ASCII decimal digits; the model reads ASCII digits only and answers None for any other text.
- Events.UsernameFromMeta: `User.objects.get(id=…)` converts the recorded id with `int()`, so a `True` id reads as user 1 and a non-numeric text raises ValueError. The model answers "Sin asignar" for any id that is neither an integer nor a digit string; every producer writes an integer or null there.
- Store.Store.AttachSent, Store.Store.ApiUpload, Store.Store.SaveUiComment, Store.Store.UiAddComment: the name the storage stores a file under (`get_valid_name`, then `get_available_name`, which renames on a clash) is the parameter `stored`. The model does not compute it; it requires only that it has no `/`, as the storage guarantees.
- `is_requester` is Roles.IsRequester, with no contract of its own.
- The API body values are typed narrowly:
  - `reason` and `comment` are strings;
  - `internal` is a JSON value read with Python truthiness;
  - `to_user_id` is a JSON null, boolean, integer or string, read as `int()` reads it; JSON floats, lists and objects are not modelled.
- `Decimal` or other non-JSON metadata values are not modelled.
- Feed.Latest, Store.Store.AuditPartial: `order_by("-created_at")` is modelled as the reverse of insertion order. The two agree when rows are stamped by a clock that does not go backwards; the stamps are microsecond timestamps, so ties are not modelled. The Store takes `now` as a parameter and does not require it to be monotone. Feed.LatestNewestFirst and Feed.LatestKeepsNewest prove the `created_at` order of the feed under `Feed.StampsAscending`, that is, for a table whose stamps never decrease.
- The API `assignments` history listing, `ticket_detail`, `discussion_partial` and the `check_sla` command are not modelled. They are read-only pages or thin wrappers over what is modelled.
- RBAC setup (`init_rbac`, migrations) is not modelled. Group membership is a set of group names on each user.
- Payloads: the `…MetaReads` lemmas only spell out what each producer's metadata dictionary contains. Verifying them needs no proof.

## Findings

| source | as written | input that shows it | evidently intended | confidence | as-written member | corrected member |
|---|---|---|---|---|---|---|
| mvp-tickets/tickets/models.py:300-303 | `UniqueConstraint(fields=["category", "area"])` over nullable columns; SQLite treats NULLs as distinct, so rows with a missing area never clash | two active rules (category 1, no area) for two technicians are both admitted | at most one rule per (category, area) pair, a missing value counting as a value | not executed; follows from SQLite's NULL semantics for unique indexes | Models.SqlAdmitsDuplicateNullArea, whose evaluation Store.Store.AddRule applies | Models.AdmitsKeepsUnique, with Models.AdmitsImpliesSqlAdmits |
| mvp-tickets/tickets/signals.py:39-48 | the creation mail's subject uses `instance.code` inside `post_save`, which runs during `super().save()` while the code is still `_TMP-<hex>`; with no atomic block `on_commit` runs at once | any ticket created without a code whose requester has an e-mail address: subject "[_TMP-3fa…] Ticket creado" | the subject names the ticket's final code `str(pk)` | not executed; depends on the project running without `ATOMIC_REQUESTS` | Hooks.CreatedMailShowsTemporaryCode, the mail Store.Store.ApiCreate and Store.Store.UiCreate send | Hooks.CreatedMailNamesTicket |

`run_sla_check` can emit SLA_WARN for a ticket that was already breached without a warning (Sla.WarnAfterBreach). The code does exactly this because the breach branch `continue`s only when it fires. It is modelled as code behaviour, not as a finding.
