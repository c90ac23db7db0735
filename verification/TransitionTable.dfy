/**
 * The ticket lifecycle as the API declares it, and how the tables of the inbound worker
 * compare with it.
 */
module TransitionTable {
  import opened InboundSync

  datatype TransitionRule = TransitionRule(requiredPermission: string, slaPause: bool, slaResume: bool,
                                           events: seq<string>)

  const UPDATE := "ticket:update"
  const CLOSE := "ticket:close"
  const STATUS_CHANGED := "ticket.status_changed"
  const RESOLVED := "ticket.resolved"

  // The entries of the table, in its order; a pair that is not a key is not allowed.
  const TRANSITION_TABLE: map<(TicketStatus, TicketStatus), TransitionRule> := map[
    (New, Open) := TransitionRule(UPDATE, false, false, [STATUS_CHANGED]),
    (New, PendingCustomer) := TransitionRule(UPDATE, true, false, [STATUS_CHANGED]),
    (New, PendingEngineering) := TransitionRule(UPDATE, true, false, [STATUS_CHANGED]),
    (New, Resolved) := TransitionRule(UPDATE, false, false, [STATUS_CHANGED, RESOLVED]),
    (Open, PendingCustomer) := TransitionRule(UPDATE, true, false, [STATUS_CHANGED]),
    (Open, PendingEngineering) := TransitionRule(UPDATE, true, false, [STATUS_CHANGED]),
    (Open, Resolved) := TransitionRule(UPDATE, false, false, [STATUS_CHANGED, RESOLVED]),
    (Open, Closed) := TransitionRule(CLOSE, false, false, [STATUS_CHANGED]),
    (PendingCustomer, Open) := TransitionRule(UPDATE, false, true, [STATUS_CHANGED]),
    (PendingCustomer, PendingEngineering) := TransitionRule(UPDATE, false, false, [STATUS_CHANGED]),
    (PendingCustomer, Resolved) := TransitionRule(UPDATE, false, false, [STATUS_CHANGED, RESOLVED]),
    (PendingCustomer, Closed) := TransitionRule(CLOSE, false, false, [STATUS_CHANGED]),
    (PendingEngineering, Open) := TransitionRule(UPDATE, false, true, [STATUS_CHANGED]),
    (PendingEngineering, PendingCustomer) := TransitionRule(UPDATE, false, false, [STATUS_CHANGED]),
    (PendingEngineering, Resolved) := TransitionRule(UPDATE, false, false, [STATUS_CHANGED, RESOLVED]),
    (PendingEngineering, Closed) := TransitionRule(CLOSE, false, false, [STATUS_CHANGED]),
    (Resolved, Open) := TransitionRule(UPDATE, false, true, [STATUS_CHANGED]),
    (Resolved, Closed) := TransitionRule(CLOSE, false, false, [STATUS_CHANGED]),
    (Closed, Open) := TransitionRule(CLOSE, false, true, [STATUS_CHANGED])]

  // The worker allows exactly the API's transitions.
  lemma AllowsTheSame(from: TicketStatus, to: TicketStatus)
    ensures Allowed(from, to) <==> (from, to) in TRANSITION_TABLE
  {
  }

  // Resumes and resolutions agree; pauses agree but for a move between the two pending
  // statuses, where only the worker pauses again.
  lemma SameSideEffects(from: TicketStatus, to: TicketStatus)
    requires (from, to) in TRANSITION_TABLE
    ensures
      var rule := TRANSITION_TABLE[(from, to)];
      (ResumesSla(from, to) <==> rule.slaResume) && (to.Resolved? <==> RESOLVED in rule.events) &&
      (PausesSla(from, to) <==> rule.slaPause || (IsPending(from) && IsPending(to)))
  {
  }
}
