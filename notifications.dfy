// A queued e-mail and its delivery state machine: pending until a send
// succeeds (sent, final) or fails (failed, one more retry counted); a
// failed e-mail can be put back in the queue.
module Notifications {
  import opened Wrappers
  import opened Text

  datatype Status = Pending | Sent | Failed

  /** What the mail server does with one delivery attempt, and the time the
      attempt is made. */
  datatype Outcome = Delivered | Refused(message: string)
  datatype Attempt = Attempt(outcome: Outcome, at: int)

  /** The delivery fields of a notification. */
  datatype Row = Row(status: Status, errorMessage: string, sentAt: Option<int>, lastAttemptAt: Option<int>, retryCount: nat)

  /** The longest error text kept. */
  const MaxErrorLength: nat := 500

  /** A freshly queued notification. */
  function NewRow(): Row
  {
    Row(Pending, "", None, None, 0)
  }

  /** The state `send` leaves: untouched when already sent; sent, stamped
      with the attempt's time, on delivery; failed, with the error cut to
      500 characters and one more retry counted, on refusal. */
  function AfterSend(r: Row, a: Attempt): Row
  {
    if r.status == Sent then r
    else match a.outcome
      case Delivered => r.(status := Sent, sentAt := Some(a.at), lastAttemptAt := Some(a.at))
      case Refused(msg) =>
        r.(status := Failed, errorMessage := Take(msg, MaxErrorLength), retryCount := r.retryCount + 1,
           lastAttemptAt := Some(a.at))
  }

  /** What `send` returns. */
  function SendReports(r: Row, a: Attempt): bool
  {
    r.status == Sent || a.outcome.Delivered?
  }

  /** The state `requeue` leaves: pending again with no error, the retry
      count kept. */
  function AfterRequeue(r: Row): Row
  {
    r.(status := Pending, errorMessage := "")
  }

  /** What every notification satisfies: a sent one carries its send time
      as its last attempt, a failed one has been tried at least once, and
      the error text is at most 500 characters. */
  predicate Consistent(r: Row)
  {
    (r.status == Sent ==> r.sentAt.Some? && r.lastAttemptAt == r.sentAt) &&
    (r.status == Failed ==> r.retryCount > 0 && r.lastAttemptAt.Some?) &&
    |r.errorMessage| <= MaxErrorLength
  }

  lemma NewRowConsistent()
    ensures Consistent(NewRow())
  {
  }

  lemma SendKeepsConsistent(r: Row, a: Attempt)
    requires Consistent(r)
    ensures Consistent(AfterSend(r, a))
  {
  }

  lemma RequeueKeepsConsistent(r: Row)
    requires Consistent(r)
    ensures Consistent(AfterRequeue(r))
  {
  }

  /** `send` reports success exactly when the notification ends up sent. */
  lemma ReportMeansSent(r: Row, a: Attempt)
    ensures SendReports(r, a) <==> AfterSend(r, a).status == Sent
  {
  }

  /** A sent notification is final: sending again changes nothing and
      reports success, whatever the server would do. */
  lemma SentIsFinal(r: Row, a: Attempt, b: Attempt)
    requires a.outcome.Delivered?
    ensures AfterSend(AfterSend(r, a), b) == AfterSend(r, a)
    ensures SendReports(AfterSend(r, a), b)
  {
  }

  /** Retries are only ever counted up: a send adds one exactly on a failed
      attempt, a requeue keeps the count. */
  lemma RetryCountMonotone(r: Row, a: Attempt)
    ensures AfterSend(r, a).retryCount == r.retryCount + (if r.status != Sent && a.outcome.Refused? then 1 else 0)
    ensures AfterRequeue(r).retryCount == r.retryCount
  {
  }

  /** A failed attempt keeps the start of the error text. */
  lemma ErrorIsPrefix(r: Row, a: Attempt)
    requires r.status != Sent && a.outcome.Refused?
    ensures var e := AfterSend(r, a).errorMessage;
      |e| <= MaxErrorLength && e == a.outcome.message[..|e|] &&
      (|a.outcome.message| <= MaxErrorLength ==> e == a.outcome.message)
  {
  }

  /** A queued e-mail. The addressing and content are fixed once queued;
      the delivery fields change as it is sent. */
  class EmailNotification {
    const toEmail: string
    const subject: string
    const body: string
    const htmlBody: string
    var status: Status
    var errorMessage: string
    var sentAt: Option<int>
    var lastAttemptAt: Option<int>
    var retryCount: nat

    function State(): Row
      reads this
    {
      Row(status, errorMessage, sentAt, lastAttemptAt, retryCount)
    }

    /** A new pending notification. */
    constructor(toEmail: string, subject: string, body: string, htmlBody: string)
      ensures this.toEmail == toEmail && this.subject == subject && this.body == body && this.htmlBody == htmlBody
      ensures State() == NewRow()
    {
      this.toEmail := toEmail;
      this.subject := subject;
      this.body := body;
      this.htmlBody := htmlBody;
      status := Pending;
      errorMessage := "";
      sentAt := None;
      lastAttemptAt := None;
      retryCount := 0;
    }

    /** `send`: the notification makes the attempt `a` unless it is
        already sent. */
    method Send(a: Attempt) returns (ok: bool)
      modifies this
      ensures State() == AfterSend(old(State()), a)
      ensures ok == SendReports(old(State()), a)
    {
      if status == Sent {
        return true;
      }
      match a.outcome
      case Refused(msg) =>
        status := Failed;
        errorMessage := Take(msg, MaxErrorLength);
        retryCount := retryCount + 1;
        lastAttemptAt := Some(a.at);
        ok := false;
      case Delivered =>
        status := Sent;
        sentAt := Some(a.at);
        lastAttemptAt := sentAt;
        ok := true;
    }

    /** `requeue`. */
    method Requeue()
      modifies this
      ensures State() == AfterRequeue(old(State()))
    {
      status := Pending;
      errorMessage := "";
    }
  }
}
