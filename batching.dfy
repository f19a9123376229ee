/**
 * `queueNotificationsToSend`: the accounts are sent to the notify endpoint in consecutive
 * slices of at most MAX_ACCOUNTS_PER_REQUEST, one request at a time, with a pause of
 * WAIT_TIME after every request, the last one included. WAIT_TIME is the number handed
 * to the sleep helper; its unit is that helper's.
 */
module Batching {
  import opened Wrappers
  import opened Types
  import opened Delivery

  const MAX_ACCOUNTS_PER_REQUEST: nat := 500
  const PER_SECOND_RATE_LIMIT: nat := 2
  const WAIT_ERROR_MARGIN: real := 0.25
  /** 0.75; exactly representable as a double, so a real loses nothing. */
  const WAIT_TIME: real := 1.0 / PER_SECOND_RATE_LIMIT as real + WAIT_ERROR_MARGIN

  /** The outbound steps of the queue: a notify request, or a pause of the given amount. */
  datatype Action = Notify(request: NotifyRequest) | Sleep(amount: real)

  /** `s.slice(start, end)` for non-negative bounds: both are clamped to the length. */
  function Slice(s: seq<string>, start: nat, end: nat): seq<string>
  {
    var e := if end < |s| then end else |s|;
    var b := if start < e then start else e;
    s[b..e]
  }

  /**
   * The reference partition of `accounts`: the first MAX_ACCOUNTS_PER_REQUEST accounts, then
   * the partition of the rest.
   */
  function Chunks(accounts: seq<string>): (chunks: seq<seq<string>>)
    ensures forall k :: 0 <= k < |chunks| ==> 0 < |chunks[k]| <= MAX_ACCOUNTS_PER_REQUEST
    decreases |accounts|
  {
    if accounts == [] then []
    else if |accounts| <= MAX_ACCOUNTS_PER_REQUEST then [accounts]
    else [accounts[..MAX_ACCOUNTS_PER_REQUEST]] + Chunks(accounts[MAX_ACCOUNTS_PER_REQUEST..])
  }

  /** The chunks joined back together, in order. */
  function Concat(chunks: seq<seq<string>>): seq<string>
  {
    if chunks == [] then [] else chunks[0] + Concat(chunks[1..])
  }

  /** The actions of sending each chunk in turn, each followed by a pause. */
  function Schedule(notification: Option<Notification>, chunks: seq<seq<string>>): seq<Action>
  {
    if chunks == [] then []
    else
      Schedule(notification, chunks[..|chunks| - 1])
      + [Notify(NotifyRequest(chunks[|chunks| - 1], notification)), Sleep(WAIT_TIME)]
  }

  /** The accounts of every request in a trace, in order. */
  function SentAccounts(trace: seq<Action>): seq<string>
  {
    if trace == [] then []
    else
      SentAccounts(trace[..|trace| - 1])
      + (if trace[|trace| - 1].Notify? then trace[|trace| - 1].request.accounts else [])
  }

  /** There are ceil(L / MAX_ACCOUNTS_PER_REQUEST) chunks for L accounts. */
  lemma {:induction false} ChunkCount(accounts: seq<string>)
    ensures |Chunks(accounts)| == (|accounts| + MAX_ACCOUNTS_PER_REQUEST - 1) / MAX_ACCOUNTS_PER_REQUEST
    ensures |accounts| <= MAX_ACCOUNTS_PER_REQUEST * |Chunks(accounts)| < |accounts| + MAX_ACCOUNTS_PER_REQUEST
    decreases |accounts|
  {
    if |accounts| > MAX_ACCOUNTS_PER_REQUEST {
      ChunkCount(accounts[MAX_ACCOUNTS_PER_REQUEST..]);
    }
  }

  /** The loop's offset k * MAX_ACCOUNTS_PER_REQUEST is inside the list exactly for the chunk indices. */
  lemma ChunkOffset(accounts: seq<string>, k: nat)
    ensures k * MAX_ACCOUNTS_PER_REQUEST < |accounts| <==> k < |Chunks(accounts)|
  {
    ChunkCount(accounts);
  }

  /** Scheduling one more chunk appends its request and its pause. */
  lemma ScheduleStep(notification: Option<Notification>, chunks: seq<seq<string>>, k: nat)
    requires k < |chunks|
    ensures Schedule(notification, chunks[..k + 1])
      == Schedule(notification, chunks[..k]) + [Notify(NotifyRequest(chunks[k], notification)), Sleep(WAIT_TIME)]
  {
    assert chunks[..k + 1][..k] == chunks[..k];
  }

  /** Report j is that of the request for chunk j, ended as `respond(j)`. */
  ghost predicate DeliveredInOrder(
    deliveries: seq<DeliveryReport>, chunks: seq<seq<string>>, notification: Option<Notification>,
    respond: nat -> NotifyOutcome)
  {
    && |deliveries| <= |chunks|
    && forall j :: 0 <= j < |deliveries| ==>
      deliveries[j].request == NotifyRequest(chunks[j], notification) && Reports(respond(j), deliveries[j])
  }

  /** One more report, for the next chunk, keeps the reports in order. */
  lemma DeliveredStep(
    deliveries: seq<DeliveryReport>, chunks: seq<seq<string>>, notification: Option<Notification>,
    respond: nat -> NotifyOutcome, report: DeliveryReport)
    requires DeliveredInOrder(deliveries, chunks, notification, respond)
    requires |deliveries| < |chunks|
    requires report.request == NotifyRequest(chunks[|deliveries|], notification)
    requires Reports(respond(|deliveries|), report)
    ensures DeliveredInOrder(deliveries + [report], chunks, notification, respond)
  {
  }

  /** Dropping a prefix shifts the slice bounds. */
  lemma SliceShift(s: seq<string>, m: nat, start: nat, end: nat)
    requires m <= |s|
    ensures Slice(s[m..], start, end) == Slice(s, start + m, end + m)
  {
  }

  /** Chunk k is the slice the loop takes at offset k * MAX_ACCOUNTS_PER_REQUEST. */
  lemma {:induction false} ChunkAt(accounts: seq<string>, k: nat)
    requires k < |Chunks(accounts)|
    ensures Chunks(accounts)[k]
      == Slice(accounts, k * MAX_ACCOUNTS_PER_REQUEST, k * MAX_ACCOUNTS_PER_REQUEST + MAX_ACCOUNTS_PER_REQUEST)
    decreases |accounts|
  {
    if k > 0 {
      var rest := accounts[MAX_ACCOUNTS_PER_REQUEST..];
      ChunkAt(rest, k - 1);
      SliceShift(accounts, MAX_ACCOUNTS_PER_REQUEST,
        (k - 1) * MAX_ACCOUNTS_PER_REQUEST, (k - 1) * MAX_ACCOUNTS_PER_REQUEST + MAX_ACCOUNTS_PER_REQUEST);
    }
  }

  /** Joining the chunks in order gives back the accounts: each is sent once, in order. */
  lemma {:induction false} ChunksConcat(accounts: seq<string>)
    ensures Concat(Chunks(accounts)) == accounts
    decreases |accounts|
  {
    if |accounts| > MAX_ACCOUNTS_PER_REQUEST {
      var rest := accounts[MAX_ACCOUNTS_PER_REQUEST..];
      ChunksConcat(rest);
      assert ([accounts[..MAX_ACCOUNTS_PER_REQUEST]] + Chunks(rest))[1..] == Chunks(rest);
      assert accounts == accounts[..MAX_ACCOUNTS_PER_REQUEST] + rest;
    } else if accounts != [] {
      assert [accounts][1..] == [];
    }
  }

  /**
   * The schedule alternates: request j carries chunk j and the notification, and it is
   * followed by exactly one pause of WAIT_TIME, the last request included.
   */
  lemma {:induction false} ScheduleShape(notification: Option<Notification>, chunks: seq<seq<string>>)
    ensures |Schedule(notification, chunks)| == 2 * |chunks|
    ensures forall j :: 0 <= j < |chunks| ==>
      Schedule(notification, chunks)[2 * j] == Notify(NotifyRequest(chunks[j], notification))
      && Schedule(notification, chunks)[2 * j + 1] == Sleep(WAIT_TIME)
  {
    if chunks != [] {
      var front := chunks[..|chunks| - 1];
      ScheduleShape(notification, front);
      forall j | 0 <= j < |front| ensures front[j] == chunks[j] { }
    }
  }

  /** The requests of a schedule carry, in order, exactly the accounts of its chunks. */
  lemma {:induction false} ScheduleSendsChunks(notification: Option<Notification>, chunks: seq<seq<string>>)
    ensures SentAccounts(Schedule(notification, chunks)) == Concat(chunks)
  {
    if chunks != [] {
      var front := chunks[..|chunks| - 1];
      var last := chunks[|chunks| - 1];
      ScheduleSendsChunks(notification, front);
      var s := Schedule(notification, chunks);
      assert s[..|s| - 1] == Schedule(notification, front) + [Notify(NotifyRequest(last, notification))];
      assert s[..|s| - 1][..|s| - 2] == Schedule(notification, front);
      ConcatSnoc(front, last);
      assert chunks == front + [last];
    }
  }

  /** Joining after appending a chunk appends its accounts. */
  lemma {:induction false} ConcatSnoc(chunks: seq<seq<string>>, last: seq<string>)
    ensures Concat(chunks + [last]) == Concat(chunks) + last
  {
    if chunks == [] {
      assert ([] + [last])[1..] == [];
    } else {
      ConcatSnoc(chunks[1..], last);
      assert (chunks + [last])[1..] == chunks[1..] + [last];
    }
  }

  /** Every account is sent, exactly once and in order; no accounts means no action at all. */
  lemma ScheduleSendsAll(notification: Option<Notification>, accounts: seq<string>)
    ensures SentAccounts(Schedule(notification, Chunks(accounts))) == accounts
    ensures accounts == [] <==> Schedule(notification, Chunks(accounts)) == []
  {
    ScheduleSendsChunks(notification, Chunks(accounts));
    ChunksConcat(accounts);
    ScheduleShape(notification, Chunks(accounts));
  }

  /**
   * `queueNotificationsToSend(notification, accounts)`; the k-th notify call ends as
   * `respond(k)`. A failed call does not stop the later ones.
   */
  method QueueNotificationsToSend(
    notification: Option<Notification>, accounts: seq<string>, respond: nat -> NotifyOutcome)
    returns (trace: seq<Action>, deliveries: seq<DeliveryReport>)
    ensures trace == Schedule(notification, Chunks(accounts))
    ensures |deliveries| == |Chunks(accounts)|
    ensures DeliveredInOrder(deliveries, Chunks(accounts), notification, respond)
  {
    ghost var chunks := Chunks(accounts);
    trace, deliveries := [], [];
    var i: nat := 0;
    var k: nat := 0;
    while i < |accounts|
      invariant k <= |chunks|
      invariant i == k * MAX_ACCOUNTS_PER_REQUEST
      invariant trace == Schedule(notification, chunks[..k])
      invariant |deliveries| == k
      invariant DeliveredInOrder(deliveries, chunks, notification, respond)
    {
      ChunkOffset(accounts, k);
      ChunkAt(accounts, k);
      var report := SendNotification(notification, Slice(accounts, i, i + MAX_ACCOUNTS_PER_REQUEST), respond(k));
      ScheduleStep(notification, chunks, k);
      trace := trace + [Notify(report.request), Sleep(WAIT_TIME)];
      DeliveredStep(deliveries, chunks, notification, respond, report);
      deliveries := deliveries + [report];
      assert (k + 1) * MAX_ACCOUNTS_PER_REQUEST == k * MAX_ACCOUNTS_PER_REQUEST + MAX_ACCOUNTS_PER_REQUEST;
      i := i + MAX_ACCOUNTS_PER_REQUEST;
      k := k + 1;
    }
    ChunkOffset(accounts, k);
    assert chunks[..k] == chunks;
  }
}
