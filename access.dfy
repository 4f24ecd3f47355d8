/** Who may see and act on a ticket: the API's visibility filter
    (api.py `get_queryset`), the transition, assignment and attachment rules
    shared by the API and the UI, and which comments a viewer is shown. */
module Access {
  import opened Wrappers
  import opened Roles
  import opened Models

  /** `get_queryset`: admins see every ticket, technicians the tickets
      assigned to them, everyone else the tickets they requested. */
  predicate ApiSees(actor: User, actorId: UserId, t: Ticket) {
    if IsAdmin(actor) then true
    else if IsTech(actor) then t.assignee == Some(actorId)
    else t.requester == actorId
  }

  /** Ticket `id` exists and `actor` sees it. */
  predicate SeesId(tickets: seq<Ticket>, actor: User, actorId: UserId, id: int) {
    1 <= id <= |tickets| && ApiSees(actor, actorId, tickets[id - 1])
  }

  /** The ids of the tickets the API shows to `actor`. */
  function VisibleIds(tickets: seq<Ticket>, actor: User, actorId: UserId): (ids: set<nat>)
    ensures forall id :: id in ids ==> 1 <= id <= |tickets|
    ensures IsAdmin(actor) ==> forall id :: 1 <= id <= |tickets| ==> id in ids
    ensures !IsAdmin(actor) && IsTech(actor) ==>
      forall id :: 1 <= id <= |tickets| ==> (id in ids <==> tickets[id - 1].assignee == Some(actorId))
    ensures !IsAdmin(actor) && !IsTech(actor) ==>
      forall id :: 1 <= id <= |tickets| ==> (id in ids <==> tickets[id - 1].requester == actorId)
  {
    set id: nat | id <= |tickets| && SeesId(tickets, actor, actorId, id)
  }

  /** Admin, or the technician the ticket is assigned to. */
  predicate CanTransition(actor: User, actorId: UserId, t: Ticket) {
    IsAdmin(actor) || (IsTech(actor) && t.assignee == Some(actorId))
  }

  /** `allowed_transitions_for`: the edge-table successors when the user may
      transition, nothing otherwise. */
  function AllowedTransitionsFor(t: Ticket, actor: User, actorId: UserId): (r: set<Status>)
    ensures r <= Successors(t.status)
    ensures CanTransition(actor, actorId, t) ==> r == Successors(t.status)
    ensures r != {} <==> CanTransition(actor, actorId, t) && t.status != Closed
    ensures t.status !in r
  {
    if CanTransition(actor, actorId, t) then Successors(t.status) else {}
  }

  /** A requester can never transition; a technician only their own tickets. */
  lemma NoTransitionWithoutRole(t: Ticket, actor: User, actorId: UserId)
    ensures !IsAdmin(actor) && !IsTech(actor) ==> AllowedTransitionsFor(t, actor, actorId) == {}
    ensures !IsAdmin(actor) && t.assignee != Some(actorId) ==> AllowedTransitionsFor(t, actor, actorId) == {}
    ensures t.status == Closed ==> AllowedTransitionsFor(t, actor, actorId) == {}
  {
  }

  /** `can_upload_attachments` (and the API's attachment rule): admin, or
      technician on an unassigned ticket or one assigned to them, or the
      ticket's requester. */
  predicate CanUploadAttachments(t: Ticket, actor: User, actorId: UserId) {
    IsAdmin(actor)
    || (IsTech(actor) && (t.assignee == None || t.assignee == Some(actorId)))
    || t.requester == actorId
  }

  /** The API's assignment rule: admin, or technician assigning themself. */
  predicate ApiMayAssign(actor: User, actorId: UserId, targetId: UserId) {
    IsAdmin(actor) || (IsTech(actor) && targetId == actorId)
  }

  /** The UI's gate on the detail, comment and audit views. */
  predicate CanOpen(t: Ticket, actor: User, actorId: UserId) {
    IsAdmin(actor) || IsTech(actor) || t.requester == actorId
  }

  /** The comments of ticket `id` that `viewer` is shown, oldest first:
      internal ones only to staff. */
  function VisibleComments(comments: seq<TicketComment>, id: nat, viewer: User): (r: seq<TicketComment>)
    ensures forall c :: c in r ==> c in comments && c.ticket == id && (IsStaff(viewer) || !c.isInternal)
    ensures forall c :: c in comments && c.ticket == id && (IsStaff(viewer) || !c.isInternal) ==> c in r
    ensures |r| <= |comments|
  {
    if comments == [] then []
    else
      var rest := VisibleComments(comments[1..], id, viewer);
      var c := comments[0];
      if c.ticket == id && (IsStaff(viewer) || !c.isInternal) then [c] + rest else rest
  }
}
