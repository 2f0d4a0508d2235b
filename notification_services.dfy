// Queueing e-mails and the batch sender that works through the queue,
// oldest first, optionally retrying failed e-mails.
module NotificationServices {
  import opened Wrappers
  import opened Notifications

  /** `queue_email`: a new pending notification; a missing HTML body is
      stored as "". */
  method QueueEmail(toEmail: string, subject: string, body: string, htmlBody: Option<string>)
    returns (n: EmailNotification)
    ensures fresh(n)
    ensures n.toEmail == toEmail && n.subject == subject && n.body == body && n.htmlBody == htmlBody.GetOr("")
    ensures n.State() == NewRow()
  {
    n := new EmailNotification(toEmail, subject, body, htmlBody.GetOr(""));
  }

  /** `send_email_now`: queue, then send at once; the answer is whether the
      server took it. */
  method SendEmailNow(toEmail: string, subject: string, body: string, htmlBody: Option<string>, a: Attempt)
    returns (n: EmailNotification, ok: bool)
    ensures fresh(n)
    ensures n.State() == AfterSend(NewRow(), a)
    ensures ok <==> a.outcome.Delivered?
  {
    n := QueueEmail(toEmail, subject, body, htmlBody);
    ok := n.Send(a);
  }

  // ---------------------------------------------------------------------
  // Which notifications a batch takes

  /** The query of `send_all_pending`: pending ones, plus failed ones when
      retrying; when retrying with a retry cap, only those (pending or
      failed) tried fewer times than the cap. */
  predicate Eligible(r: Row, retryFailed: bool, maxRetries: Option<int>)
  {
    if retryFailed then
      (r.status == Pending || r.status == Failed) &&
      (maxRetries.Some? ==> r.retryCount < maxRetries.value)
    else r.status == Pending
  }

  /** The indices below n of the eligible rows, in order. */
  function Candidates(rows: seq<Row>, n: nat, retryFailed: bool, maxRetries: Option<int>): (ix: seq<nat>)
    requires n <= |rows|
    ensures forall k :: 0 <= k < |ix| ==> ix[k] < n
    ensures forall k, l :: 0 <= k < l < |ix| ==> ix[k] < ix[l]
    ensures forall i: nat :: i in ix <==> i < n && Eligible(rows[i], retryFailed, maxRetries)
  {
    if n == 0 then []
    else
      var before := Candidates(rows, n - 1, retryFailed, maxRetries);
      if Eligible(rows[n - 1], retryFailed, maxRetries) then before + [n - 1] else before
  }

  /** Take the first `limit` (all with no limit). */
  function Truncate(ix: seq<nat>, limit: Option<nat>): (r: seq<nat>)
    ensures limit.Some? ==> |r| == if limit.value < |ix| then limit.value else |ix|
    ensures limit.None? ==> r == ix
    ensures r == ix[..|r|]
  {
    if limit.Some? && limit.value < |ix| then ix[..limit.value] else ix
  }

  /** The notifications attempted, oldest first. */
  function Picked(rows: seq<Row>, limit: Option<nat>, retryFailed: bool, maxRetries: Option<int>): seq<nat>
  {
    Truncate(Candidates(rows, |rows|, retryFailed, maxRetries), limit)
  }

  /** The batch takes eligible notifications only, oldest first, at most
      `limit` of them, all of them with no limit, and never passes over an
      eligible one for a newer one. */
  lemma PickedMeaning(rows: seq<Row>, limit: Option<nat>, retryFailed: bool, maxRetries: Option<int>)
    ensures var ix := Picked(rows, limit, retryFailed, maxRetries);
      (forall k :: 0 <= k < |ix| ==> ix[k] < |rows| && Eligible(rows[ix[k]], retryFailed, maxRetries)) &&
      (forall k, l :: 0 <= k < l < |ix| ==> ix[k] < ix[l]) &&
      (limit.Some? ==> |ix| <= limit.value) &&
      (limit.None? ==> forall i: nat :: i < |rows| && Eligible(rows[i], retryFailed, maxRetries) ==> i in ix) &&
      (forall k, i: nat :: 0 <= k < |ix| && i < ix[k] && Eligible(rows[i], retryFailed, maxRetries) ==> i in ix)
  {
    var c := Candidates(rows, |rows|, retryFailed, maxRetries);
    var ix := Picked(rows, limit, retryFailed, maxRetries);
    assert forall k :: 0 <= k < |ix| ==> ix[k] == c[k];
    forall k, i: nat | 0 <= k < |ix| && i < ix[k] && Eligible(rows[i], retryFailed, maxRetries)
      ensures i in ix
    {
      var m :| 0 <= m < |c| && c[m] == i;
      assert m < k;
      assert ix[m] == i;
    }
  }

  /** What Picked promises on its own, for the batch loop. */
  lemma PickedIncreasing(rows: seq<Row>, limit: Option<nat>, retryFailed: bool, maxRetries: Option<int>)
    ensures var ix := Picked(rows, limit, retryFailed, maxRetries);
      (forall k :: 0 <= k < |ix| ==> ix[k] < |rows| && Eligible(rows[ix[k]], retryFailed, maxRetries)) &&
      (forall k, l :: 0 <= k < l < |ix| ==> ix[k] < ix[l])
  {
    var c := Candidates(rows, |rows|, retryFailed, maxRetries);
    var ix := Picked(rows, limit, retryFailed, maxRetries);
    assert forall k :: 0 <= k < |ix| ==> ix[k] == c[k];
  }

  // ---------------------------------------------------------------------
  // What a batch does

  /** One notification of the batch: a failed one is requeued, then sent. */
  function Process(r: Row, a: Attempt): Row
  {
    AfterSend(if r.status == Failed then AfterRequeue(r) else r, a)
  }

  /** The rows after the batch: the picked ones processed, the rest as
      they were. */
  function Processed(rows: seq<Row>, picked: seq<nat>, attempts: seq<Attempt>): (after: seq<Row>)
    requires |attempts| == |rows|
    ensures |after| == |rows|
    ensures forall i :: 0 <= i < |rows| ==> after[i] == if i in picked then Process(rows[i], attempts[i]) else rows[i]
  {
    seq(|rows|, i requires 0 <= i < |rows| => if i in picked then Process(rows[i], attempts[i]) else rows[i])
  }

  /** How many of the picked attempts the server took. */
  function DeliveredCount(picked: seq<nat>, attempts: seq<Attempt>): (n: nat)
    requires forall k :: 0 <= k < |picked| ==> picked[k] < |attempts|
    ensures n <= |picked|
  {
    if picked == [] then 0
    else
      var last := picked[|picked| - 1];
      DeliveredCount(picked[..|picked| - 1], attempts) + (if attempts[last].outcome.Delivered? then 1 else 0)
  }

  /** The notifications a batch turned from unsent to sent. */
  function NewlySent(before: seq<Row>, after: seq<Row>): set<nat>
    requires |before| == |after|
  {
    set i: nat | i < |before| && before[i].status != Sent && after[i].status == Sent
  }

  /** The delivery fields of the queue's notifications, in order. */
  function States(queue: seq<EmailNotification>): (rows: seq<Row>)
    reads queue
    ensures |rows| == |queue|
    ensures forall i :: 0 <= i < |queue| ==> rows[i] == queue[i].State()
  {
    if queue == [] then [] else States(queue[..|queue| - 1]) + [queue[|queue| - 1].State()]
  }

  /** One step of the batch on one notification that is not sent yet:
      requeue it if it failed, then send it. */
  method ProcessOne(notif: EmailNotification, a: Attempt) returns (ok: bool)
    requires notif.status != Sent
    modifies notif
    ensures notif.State() == Process(old(notif.State()), a)
    ensures ok <==> a.outcome.Delivered?
  {
    if notif.status == Failed {
      notif.Requeue();
    }
    ok := notif.Send(a);
  }

  /** ProcessOne on the i-th notification of the queue, the others left
      as they are. */
  method ProcessAt(queue: seq<EmailNotification>, i: nat, a: Attempt) returns (ok: bool)
    requires i < |queue| && queue[i].status != Sent
    requires forall j, l :: 0 <= j < l < |queue| ==> queue[j] != queue[l]
    modifies queue[i]
    ensures States(queue) == old(States(queue))[i := Process(old(queue[i].State()), a)]
    ensures ok <==> a.outcome.Delivered?
  {
    ok := ProcessOne(queue[i], a);
    forall j | 0 <= j < |queue| && j != i
      ensures States(queue)[j] == old(States(queue))[j]
    {
      assert queue[j] != queue[i];
    }
  }

  /** The batch so far: the first k picked notifications processed, and the
      count of those the server took. */
  ghost predicate DoneUpTo(queue: seq<EmailNotification>, before: seq<Row>, picked: seq<nat>,
                           attempts: seq<Attempt>, k: nat, count: nat)
    reads queue
    requires |attempts| == |before| && k <= |picked| && forall m :: 0 <= m < |picked| ==> picked[m] < |before|
  {
    States(queue) == Processed(before, picked[..k], attempts) &&
    count == DeliveredCount(picked[..k], attempts)
  }

  /** The loop body of `send_all_pending`, on the k-th picked notification. */
  method BatchStep(queue: seq<EmailNotification>, ghost before: seq<Row>, picked: seq<nat>,
                   attempts: seq<Attempt>, k: nat, count: nat)
    returns (count': nat)
    requires |attempts| == |before| == |queue| && k < |picked|
    requires forall m :: 0 <= m < |picked| ==> picked[m] < |before|
    requires picked[k] !in picked[..k] && before[picked[k]].status != Sent
    requires forall j, l :: 0 <= j < l < |queue| ==> queue[j] != queue[l]
    requires DoneUpTo(queue, before, picked, attempts, k, count)
    modifies queue[picked[k]]
    ensures DoneUpTo(queue, before, picked, attempts, k + 1, count')
  {
    var i := picked[k];
    assert States(queue)[i] == before[i];
    var ok := ProcessAt(queue, i, attempts[i]);
    assert picked[..k + 1][..k] == picked[..k];
    assert picked[..k + 1] == picked[..k] + [i];
    ProcessedSnoc(before, picked, attempts, k);
    count' := if ok then count + 1 else count;
  }

  /** The k-th picked notification is a new one and not sent yet. */
  lemma PickedAt(rows: seq<Row>, limit: Option<nat>, retryFailed: bool, maxRetries: Option<int>, k: nat)
    requires k < |Picked(rows, limit, retryFailed, maxRetries)|
    ensures var ix := Picked(rows, limit, retryFailed, maxRetries);
      ix[k] < |rows| && rows[ix[k]].status != Sent && ix[k] !in ix[..k]
  {
    PickedIncreasing(rows, limit, retryFailed, maxRetries);
  }

  /** The loop of `send_all_pending` over the picked notifications. */
  method RunBatch(queue: seq<EmailNotification>, ghost before: seq<Row>, picked: seq<nat>, attempts: seq<Attempt>,
                  ghost limit: Option<nat>, ghost retryFailed: bool, ghost maxRetries: Option<int>)
    returns (sentCount: nat)
    requires |attempts| == |before| == |queue|
    requires forall i, j :: 0 <= i < j < |queue| ==> queue[i] != queue[j]
    requires picked == Picked(before, limit, retryFailed, maxRetries)
    requires States(queue) == before
    modifies queue
    ensures DoneUpTo(queue, before, picked, attempts, |picked|, sentCount)
  {
    PickedIncreasing(before, limit, retryFailed, maxRetries);
    sentCount := 0;
    assert picked[..0] == [];
    for k := 0 to |picked|
      invariant DoneUpTo(queue, before, picked, attempts, k, sentCount)
    {
      PickedAt(before, limit, retryFailed, maxRetries, k);
      sentCount := BatchStep(queue, before, picked, attempts, k, sentCount);
    }
  }

  /** `send_all_pending` over the notification table in `created_at` order.
      `attempts[i]` is what happens if the i-th notification is sent. */
  method SendAllPending(queue: seq<EmailNotification>, limit: Option<nat>, retryFailed: bool, maxRetries: Option<int>,
                        attempts: seq<Attempt>)
    returns (sentCount: nat)
    requires |attempts| == |queue|
    requires forall i, j :: 0 <= i < j < |queue| ==> queue[i] != queue[j]
    modifies queue
    ensures var picked := Picked(old(States(queue)), limit, retryFailed, maxRetries);
      States(queue) == Processed(old(States(queue)), picked, attempts) &&
      sentCount == DeliveredCount(picked, attempts)
  {
    ghost var before := States(queue);
    var picked := Picked(States(queue), limit, retryFailed, maxRetries);
    PickedIncreasing(before, limit, retryFailed, maxRetries);
    sentCount := RunBatch(queue, before, picked, attempts, limit, retryFailed, maxRetries);
    assert picked[..|picked|] == picked;
  }

  lemma ProcessedSnoc(rows: seq<Row>, picked: seq<nat>, attempts: seq<Attempt>, k: nat)
    requires |attempts| == |rows| && k < |picked| && picked[k] < |rows| && picked[k] !in picked[..k]
    ensures Processed(rows, picked[..k + 1], attempts) ==
      Processed(rows, picked[..k], attempts)[picked[k] := Process(rows[picked[k]], attempts[picked[k]])]
  {
    assert picked[..k + 1] == picked[..k] + [picked[k]];
  }

  // ---------------------------------------------------------------------
  // Properties of a batch

  /** Without retrying only pending notifications are attempted. */
  lemma OnlyPendingUnlessRetrying(rows: seq<Row>, limit: Option<nat>, maxRetries: Option<int>, k: nat)
    requires k < |Picked(rows, limit, false, maxRetries)|
    ensures rows[Picked(rows, limit, false, maxRetries)[k]].status == Pending
  {
  }

  /** There is no attempt on an e-mail already sent, and what is not
      picked is left as it was. */
  lemma UnpickedUntouched(rows: seq<Row>, limit: Option<nat>, retryFailed: bool, maxRetries: Option<int>,
                          attempts: seq<Attempt>, i: nat)
    requires |attempts| == |rows| && i < |rows|
    requires rows[i].status == Sent || i !in Picked(rows, limit, retryFailed, maxRetries)
    ensures Processed(rows, Picked(rows, limit, retryFailed, maxRetries), attempts)[i] == rows[i]
  {
  }

  /** The count returned is the number of e-mails the batch turned into
      sent ones, and at most the number attempted. */
  lemma CountIsNewlySent(rows: seq<Row>, limit: Option<nat>, retryFailed: bool, maxRetries: Option<int>,
                         attempts: seq<Attempt>)
    requires |attempts| == |rows|
    ensures var picked := Picked(rows, limit, retryFailed, maxRetries);
      DeliveredCount(picked, attempts) == |NewlySent(rows, Processed(rows, picked, attempts))| &&
      DeliveredCount(picked, attempts) <= |picked|
  {
    var picked := Picked(rows, limit, retryFailed, maxRetries);
    CountPrefix(rows, picked, attempts, retryFailed, maxRetries);
  }

  /** The picked indices are increasing and eligible, so each processed
      one is counted once. */
  lemma {:induction false} CountPrefix(rows: seq<Row>, picked: seq<nat>, attempts: seq<Attempt>,
                                       retryFailed: bool, maxRetries: Option<int>)
    requires |attempts| == |rows|
    requires forall k :: 0 <= k < |picked| ==> picked[k] < |rows| && Eligible(rows[picked[k]], retryFailed, maxRetries)
    requires forall k, l :: 0 <= k < l < |picked| ==> picked[k] < picked[l]
    ensures DeliveredCount(picked, attempts) == |NewlySent(rows, Processed(rows, picked, attempts))|
    decreases |picked|
  {
    var after := Processed(rows, picked, attempts);
    if picked == [] {
      assert NewlySent(rows, after) == {};
    } else {
      var init := picked[..|picked| - 1];
      var last := picked[|picked| - 1];
      CountPrefix(rows, init, attempts, retryFailed, maxRetries);
      var mid := Processed(rows, init, attempts);
      assert picked == init + [last];
      assert last !in init;
      NewlySentStep(rows, mid, after, last);
    }
  }

  /** Changing one unsent row changes the newly sent set by that row at
      most. */
  lemma NewlySentStep(rows: seq<Row>, mid: seq<Row>, after: seq<Row>, last: nat)
    requires |rows| == |mid| == |after| && last < |rows|
    requires forall i :: 0 <= i < |rows| && i != last ==> after[i] == mid[i]
    requires mid[last] == rows[last] && rows[last].status != Sent
    ensures NewlySent(rows, after) == NewlySent(rows, mid) + (if after[last].status == Sent then {last} else {})
    ensures last !in NewlySent(rows, mid)
  {
  }

  /** A batch keeps every notification consistent. */
  lemma BatchKeepsConsistent(rows: seq<Row>, picked: seq<nat>, attempts: seq<Attempt>)
    requires |attempts| == |rows|
    requires forall i :: 0 <= i < |rows| ==> Consistent(rows[i])
    ensures forall i :: 0 <= i < |rows| ==> Consistent(Processed(rows, picked, attempts)[i])
  {
    forall i | 0 <= i < |rows| ensures Consistent(Processed(rows, picked, attempts)[i]) {
      var r := rows[i];
      var q := if r.status == Failed then AfterRequeue(r) else r;
      RequeueKeepsConsistent(r);
      SendKeepsConsistent(q, attempts[i]);
    }
  }

  /** With a retry cap, batches never push a retry count past it: counts
      at most the cap stay at most the cap. */
  lemma RetriesStayCapped(rows: seq<Row>, limit: Option<nat>, m: int, attempts: seq<Attempt>)
    requires |attempts| == |rows|
    requires forall i :: 0 <= i < |rows| ==> rows[i].retryCount <= m
    ensures forall i :: 0 <= i < |rows| ==>
      Processed(rows, Picked(rows, limit, true, Some(m)), attempts)[i].retryCount <= m
  {
    var picked := Picked(rows, limit, true, Some(m));
    forall i | 0 <= i < |rows| && i in picked
      ensures Process(rows[i], attempts[i]).retryCount <= m
    {
      var k :| 0 <= k < |picked| && picked[k] == i;
      assert rows[i].retryCount < m;
    }
  }

  /** Retry counts never go down in a batch. */
  lemma RetriesNeverDecrease(rows: seq<Row>, picked: seq<nat>, attempts: seq<Attempt>, i: nat)
    requires |attempts| == |rows| && i < |rows|
    ensures Processed(rows, picked, attempts)[i].retryCount >= rows[i].retryCount
  {
  }
}
