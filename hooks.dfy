/** The Ticket, TicketAssignment and TicketComment hooks of tickets/signals.py:
    the status stashed before a save, what the ticket `post_save` hook does
    (which requester mail, whether it writes the fallback STATUS audit), and
    the mails the three hooks compose. */
module Hooks {
  import opened Wrappers
  import opened Strings
  import opened Roles
  import opened Models

  /** `_stash_old_status`: the stored status of an existing row, None for a
      row being inserted (`pk` None) or one that is no longer stored. */
  function StashedStatus(tickets: seq<Ticket>, pk: Option<nat>): (s: Option<Status>)
    ensures pk.None? ==> s.None?
    ensures pk.Some? && 1 <= pk.value <= |tickets| ==> s == Some(tickets[pk.value - 1].status)
    ensures pk.Some? && !(1 <= pk.value <= |tickets|) ==> s.None?
  {
    match pk
    case None => None
    case Some(id) => if 1 <= id <= |tickets| then Some(tickets[id - 1].status) else None
  }

  /** The status a save stores is the one the next save of that row stashes,
      whether the row was appended or replaced. */
  lemma StashReadsLastSave(tickets: seq<Ticket>, t: Ticket, id: nat)
    ensures StashedStatus(tickets + [t], Some(|tickets| + 1)) == Some(t.status)
    ensures 1 <= id <= |tickets| ==> StashedStatus(tickets[id - 1 := t], Some(id)) == Some(t.status)
    ensures 1 <= id <= |tickets| ==> StashedStatus(tickets + [t], Some(id)) == StashedStatus(tickets, Some(id))
  {
    if 1 <= id <= |tickets| {
      assert (tickets + [t])[id - 1] == tickets[id - 1];
    }
  }

  /** Which requester mail a ticket save schedules. */
  datatype Notice = NoNotice | NotifyCreated | NotifyResolved | NotifyClosed

  /** What `on_ticket_created_or_updated` does after a save. */
  datatype HookEffect = HookEffect(notice: Notice, audit: bool)

  /** The hook's decision for a save that `created` the row or moved it from
      the stashed status `stashed` to `status`, with the skip flag `skip`. */
  function TicketSaved(created: bool, stashed: Option<Status>, status: Status, skip: bool): (e: HookEffect)
    ensures created ==> e == HookEffect(NotifyCreated, false)
    ensures !created && stashed == Some(status) ==> e == HookEffect(NoNotice, false)
    ensures e.audit <==> !created && stashed != Some(status) && !skip
    ensures e.notice == NotifyResolved <==> !created && stashed != Some(status) && status == Resolved
    ensures e.notice == NotifyClosed <==> !created && stashed != Some(status) && status == Closed
    ensures e.notice == NotifyCreated <==> created
  {
    if created then HookEffect(NotifyCreated, false)
    else if stashed == Some(status) then HookEffect(NoNotice, false)
    else
      var n := if status == Resolved then NotifyResolved else if status == Closed then NotifyClosed else NoNotice;
      HookEffect(n, !skip)
  }

  /** `_email_of`: the stripped address. */
  function EmailOf(u: User): string { Strip(u.email) }

  /** A mail to one user, sent only when the stripped address is non-empty. */
  function MailTo(u: User, subject: string, body: string): (ms: seq<Mail>)
    ensures |ms| <= 1
    ensures ms != [] <==> EmailOf(u) != ""
    ensures ms != [] ==> ms[0] == Mail([EmailOf(u)], subject, body)
  {
    if EmailOf(u) != "" then [Mail([EmailOf(u)], subject, body)] else []
  }

  /** A mail's single recipient is a non-empty address with nothing left to
      strip, and stripping the stored address first changes no mail. */
  lemma MailToAddressIsClean(u: User, subject: string, body: string)
    ensures var ms := MailTo(u, subject, body);
      ms != [] ==> |ms[0].to| == 1 && ms[0].to[0] != "" && Strip(ms[0].to[0]) == ms[0].to[0]
    ensures MailTo(u.(email := Strip(u.email)), subject, body) == MailTo(u, subject, body)
  {
    StripIdempotent(u.email);
  }

  /** The subject and body of `_notify_created` for a ticket whose code reads `code`. */
  function CreatedSubject(code: string): string { "[" + code + "] Ticket creado" }

  function CreatedMail(requester: User, code: string, t: Ticket): (ms: seq<Mail>)
    ensures |ms| <= 1
    ensures ms != [] <==> EmailOf(requester) != ""
    ensures ms != [] ==> ms[0].to == [EmailOf(requester)] && ms[0].subject == CreatedSubject(code)
  {
    MailTo(requester, CreatedSubject(code),
           "Se creó tu ticket:\n\nTítulo: " + t.title + "\nEstado: " + Code(t.status))
  }

  /** The requester mail of a save's notice; `code` is the ticket's code. */
  function NoticeMail(n: Notice, requester: User, code: string, t: Ticket): (ms: seq<Mail>)
    ensures n == NoNotice ==> ms == []
    ensures |ms| <= 1
    ensures ms != [] <==> n != NoNotice && EmailOf(requester) != ""
  {
    match n
    case NoNotice => []
    case NotifyCreated => CreatedMail(requester, code, t)
    case NotifyResolved =>
      MailTo(requester, "[" + code + "] Ticket resuelto", "Tu ticket fue marcado como RESUELTO. Por favor valida.")
    case NotifyClosed => MailTo(requester, "[" + code + "] Ticket cerrado", "Tu ticket ha sido CERRADO. ¡Gracias!")
  }

  /** `on_assignment`: the mail to the new assignee; an empty reason reads "-". */
  function AssignmentMail(to: User, code: string, reason: string): (ms: seq<Mail>)
    ensures |ms| <= 1
    ensures ms != [] <==> EmailOf(to) != ""
    ensures ms != [] ==> ms[0].to == [EmailOf(to)] && ms[0].subject == "[" + code + "] Nuevo ticket asignado"
  {
    MailTo(to, "[" + code + "] Nuevo ticket asignado",
           "Se te asignó el ticket " + code + "\nMotivo: " + (if reason != "" then reason else "-"))
  }

  /** `on_public_comment`: the mail to the requester, for public comments only. */
  function CommentMail(requester: User, code: string, author: string, body: string, internal: bool): (ms: seq<Mail>)
    ensures |ms| <= 1
    ensures ms != [] <==> !internal && EmailOf(requester) != ""
    ensures ms != [] ==> ms[0].to == [EmailOf(requester)]
  {
    if internal then [] else MailTo(requester, "[" + code + "] Nuevo comentario", author + " comentó:\n\n" + body)
  }

  // ----------------------------------------------------------- properties

  /** A saved ticket whose status did not change writes nothing and mails
      nobody; creation never writes a STATUS audit. */
  lemma UnchangedSaveIsSilent(requester: User, code: string, t: Ticket, skip: bool)
    ensures var e := TicketSaved(false, Some(t.status), t.status, skip);
      !e.audit && NoticeMail(e.notice, requester, code, t) == []
    ensures !TicketSaved(true, None, t.status, skip).audit
  {
  }

  /** Entering RESOLVED or CLOSED mails the requester exactly once when the
      address is non-empty, whatever the skip flag says. */
  lemma ResolvingMailsOnce(requester: User, code: string, t: Ticket, stashed: Status, skip: bool)
    requires stashed != t.status && (t.status == Resolved || t.status == Closed)
    requires EmailOf(requester) != ""
    ensures var ms := NoticeMail(TicketSaved(false, Some(stashed), t.status, skip).notice, requester, code, t);
      |ms| == 1 && ms[0].to == [EmailOf(requester)]
  {
  }

  /** The creation mail as composed by the hook: its `instance.code` is still
      the temporary code, because the code is rewritten only after the insert
      returns and no transaction defers the callback. */
  function CreatedMailAsWritten(requester: User, hex: string, t: Ticket): seq<Mail> {
    CreatedMail(requester, TemporaryCode(hex), t)
  }

  /** As written, the subject reads "[_TMP-…] Ticket creado" and never names
      the ticket's final code. */
  lemma CreatedMailShowsTemporaryCode(requester: User, hex: string, id: nat, t: Ticket)
    requires EmailOf(requester) != ""
    ensures var ms := CreatedMailAsWritten(requester, hex, t);
      |ms| == 1 && ms[0].subject[1] == '_'
      && ms[0].subject != CreatedSubject(NatToString(id))
  {
    var s := CreatedSubject(TemporaryCode(hex));
    var c := NatToString(id);
    assert s[1] == TemporaryCode(hex)[0] == '_';
    assert CreatedSubject(c)[1] == c[0];
    assert IsDigit(c[0]);
  }

  /** As intended, the subject carries the final code, which reads back as the
      ticket's id. */
  lemma CreatedMailNamesTicket(requester: User, id: nat, t: Ticket)
    requires EmailOf(requester) != ""
    ensures var ms := CreatedMail(requester, NatToString(id), t);
      |ms| == 1 && ms[0].subject == CreatedSubject(NatToString(id))
      && IsDigits(NatToString(id)) && DigitsValue(NatToString(id)) == id
  {
    DigitsValueOfNatToString(id);
  }
}
