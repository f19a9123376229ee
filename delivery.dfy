/**
 * The delivery client `sendNotification`: one POST of `{accounts, notification}` to the
 * Notify server's notify endpoint, timed by a metric whose timer is ended in `finally`.
 * The network call and the parsing of its body are an abstract outcome.
 */
module Delivery {
  import opened Wrappers
  import opened Types

  /** The body of the notify request. */
  datatype NotifyRequest = NotifyRequest(accounts: seq<string>, notification: Option<Notification>)

  /**
   * How the notify call ends: the request throws, its body throws while being parsed as
   * JSON, or the body parses as JSON. The last case covers every HTTP status, an error
   * reply with a JSON body included: the code counts any parsed body as a success.
   */
  datatype NotifyOutcome = NetworkError | UnparsableBody | Parsed(body: string)

  /** Side effects seen by the observability collaborators: an error report or the timer's end. */
  datatype Effect = Capture | EndTimer(status: nat)

  /** What one call did: the request it sent, the value it resolved with, and its effects in order. */
  datatype DeliveryReport = DeliveryReport(
    request: NotifyRequest,
    response: Option<string>,
    effects: seq<Effect>)

  /**
   * What a call reports for an outcome: it resolves with the parsed body exactly when the body
   * parsed; an error is reported, once, exactly when it did not; the timer is ended exactly once, as
   * the last effect (every earlier effect is an error report), with status 200 when the body
   * parsed and 500 otherwise.
   */
  ghost predicate Reports(outcome: NotifyOutcome, report: DeliveryReport)
  {
    && |report.effects| == (if outcome.Parsed? then 1 else 2)
    && (report.response.Some? <==> outcome.Parsed?)
    && (outcome.Parsed? ==> report.response.value == outcome.body)
    && (Capture in report.effects <==> !outcome.Parsed?)
    && |report.effects| > 0
    && report.effects[|report.effects| - 1] == EndTimer(if outcome.Parsed? then 200 else 500)
    && (forall i :: 0 <= i < |report.effects| - 1 ==> report.effects[i] == Capture)
  }

  /** `sendNotification(notification, accounts)` when the call ends as `outcome`. */
  method SendNotification(notification: Option<Notification>, accounts: seq<string>, outcome: NotifyOutcome)
    returns (report: DeliveryReport)
    ensures report.request == NotifyRequest(accounts, notification)
    ensures Reports(outcome, report)
  {
    var body := NotifyRequest(accounts, notification);
    var effects: seq<Effect> := [];
    var success := false;
    var response: Option<string> := None;
    // try
    match outcome {
      case Parsed(notifySuccess) =>
        success := true;
        response := Some(notifySuccess);
      case _ =>
        // catch
        effects := effects + [Capture];
    }
    // finally
    effects := effects + [EndTimer(if success then 200 else 500)];
    report := DeliveryReport(body, response, effects);
  }
}
