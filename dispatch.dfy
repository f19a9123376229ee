/**
 * `send`: the entry point of the WalletConnect notifier. For a "proposal/start" event it
 * fetches the directory, cross-references the space's subscribers, formats the message and
 * queues it; for any other event it does nothing.
 */
module Dispatch {
  import opened Wrappers
  import opened Types
  import opened Addresses
  import opened CrossReference
  import opened Delivery
  import opened Batching
  import opened Format

  /** The only event kind that is notified. */
  const PROPOSAL_START := "proposal/start"

  /**
   * What one call of `send` did: whether it fetched the directory and reported a failed fetch,
   * whom it resolved, the message it formatted, the queue's actions and each notify call's report.
   */
  datatype DispatchReport = DispatchReport(
    directoryFetched: bool,
    directoryCaptured: bool,
    recipients: seq<string>,
    message: Option<Notification>,
    trace: seq<Action>,
    deliveries: seq<DeliveryReport>)

  /**
   * `send(event, proposal, subscribers)` with the configured notification type, where the
   * directory fetch ends as `fetched` and the k-th notify call as `respond(k)`.
   */
  method Send(
    event: Event, proposal: Proposal, subscribers: seq<string>, notificationType: string,
    fetched: Option<seq<string>>, respond: nat -> NotifyOutcome)
    returns (report: DispatchReport)
    ensures event.event != PROPOSAL_START ==>
      !report.directoryFetched && !report.directoryCaptured && report.trace == [] && report.deliveries == []
    ensures event.event == PROPOSAL_START ==>
      && report.directoryFetched
      && (report.directoryCaptured <==> fetched.None?)
      && report.recipients == CrossReferenced(AddressPrefixMap(SubscribersFromWalletConnect(fetched)), subscribers)
      && report.message == FormatMessage(event, proposal, notificationType)
      && report.trace == Schedule(report.message, Chunks(report.recipients))
      && |report.deliveries| == |Chunks(report.recipients)|
      && DeliveredInOrder(report.deliveries, Chunks(report.recipients), report.message, respond)
    ensures SentAccounts(report.trace) == report.recipients
    ensures forall a :: a in SentAccounts(report.trace) ==>
      a in SubscribersFromWalletConnect(fetched) && LastSegment(a) != "" && LastSegment(a) in subscribers
  {
    if event.event != PROPOSAL_START {
      return DispatchReport(false, false, [], None, [], []);
    }
    var crossReferencedSubscribers, captured := CrossReferenceSubscribers(fetched, subscribers);
    var notificationMessage := FormatMessage(event, proposal, notificationType);
    var trace, deliveries := QueueNotificationsToSend(notificationMessage, crossReferencedSubscribers, respond);
    ScheduleSendsAll(notificationMessage, crossReferencedSubscribers);
    CrossReferencedSound(SubscribersFromWalletConnect(fetched), subscribers);
    report := DispatchReport(true, captured, crossReferencedSubscribers, notificationMessage, trace, deliveries);
  }

  /**
   * A proposal without a space does not stop the dispatch: every request still goes out,
   * carrying no notification.
   */
  lemma NullMessageStillQueued(
    event: Event, proposal: Proposal, notificationType: string, recipients: seq<string>)
    requires proposal.space.None?
    ensures var trace := Schedule(FormatMessage(event, proposal, notificationType), Chunks(recipients));
      && SentAccounts(trace) == recipients
      && forall i :: 0 <= i < |trace| && trace[i].Notify? ==> trace[i].request.notification.None?
  {
    var trace := Schedule(None, Chunks(recipients));
    ScheduleSendsAll(None, recipients);
    ScheduleShape(None, Chunks(recipients));
    forall i | 0 <= i < |trace| && trace[i].Notify? ensures trace[i].request.notification.None? {
      assert trace[2 * (i / 2)] == Notify(NotifyRequest(Chunks(recipients)[i / 2], None));
      if i % 2 == 1 {
        assert trace[2 * (i / 2) + 1] == Sleep(WAIT_TIME);
      }
    }
  }
}
