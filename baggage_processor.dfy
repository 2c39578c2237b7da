/** The passenger service's consumer of baggage-state-change events: each
    event becomes one notification filed for the event's passenger. */
module BaggageProcessor {
  import opened Results
  import opened Notifications
  import Decimal

  /** `BaggageStateChange`: the baggage, its owner, and the new state's name. */
  datatype BaggageStateChange = BaggageStateChange(baggageId: int, passengerId: int, newStatus: string)

  /** `"Baggage state changed to " + newStatus + " for baggage " + baggageId` */
  function BaggageMessage(change: BaggageStateChange): string {
    "Baggage state changed to " + change.newStatus + " for baggage " + Decimal.IntToString(change.baggageId)
  }

  /** The notification built for an event: its passenger and message, no email. */
  function BaggageNotification(change: BaggageStateChange): Notification {
    Notification(change.passengerId, None, BaggageMessage(change))
  }

  /** A number rendered after the last space of a string can be read back:
      it and the text before the space are determined by the whole. */
  lemma {:induction false} TrailingNumber(x: string, a: int, y: string, b: int)
    requires x + " " + Decimal.IntToString(a) == y + " " + Decimal.IntToString(b)
    ensures a == b && x == y
  {
    var d, e := Decimal.IntToString(a), Decimal.IntToString(b);
    var w := x + " " + d;
    assert w == y + " " + e;
    assert w[|w| - |d| - 1] == ' ';
    assert w[|w| - |e| - 1] == ' ';
    assert |d| == |e|;
    assert d == w[|w| - |d|..] == e;
    Decimal.IntToStringInjective(a, b);
    assert x == w[..|x|] == y;
  }

  /** The message names both the new state and the baggage: two events with
      the same message agree on both. */
  lemma BaggageMessageInjective(c1: BaggageStateChange, c2: BaggageStateChange)
    ensures BaggageMessage(c1) == BaggageMessage(c2) ==>
              c1.newStatus == c2.newStatus && c1.baggageId == c2.baggageId
  {
    var prefix := "Baggage state changed to ";
    if BaggageMessage(c1) == BaggageMessage(c2) {
      var x1, x2 := prefix + c1.newStatus + " for baggage", prefix + c2.newStatus + " for baggage";
      assert BaggageMessage(c1) == x1 + " " + Decimal.IntToString(c1.baggageId);
      assert BaggageMessage(c2) == x2 + " " + Decimal.IntToString(c2.baggageId);
      TrailingNumber(x1, c1.baggageId, x2, c2.baggageId);
      assert c1.newStatus == x1[|prefix|..|x1| - 12] == x2[|prefix|..|x2| - 12] == c2.newStatus;
    }
  }

  /** Each passenger's notifications, in the order they were added. */
  type Inboxes = map<int, seq<Notification>>

  function InboxOf(m: Inboxes, pid: int): seq<Notification> {
    if pid in m then m[pid] else []
  }

  /** Adding `n` for passenger `pid`: appended to that passenger's
      notifications; every other passenger's are unchanged. */
  function Filed(m: Inboxes, pid: int, n: Notification): (r: Inboxes)
    ensures forall q :: InboxOf(r, q) == InboxOf(m, q) + (if q == pid then [n] else [])
  {
    m[pid := InboxOf(m, pid) + [n]]
  }

  /** There is no deduplication: the same event processed twice files its
      notification twice. */
  lemma ProcessingTwiceFilesTwice(m: Inboxes, change: BaggageStateChange)
    ensures var n := BaggageNotification(change);
            InboxOf(Filed(Filed(m, change.passengerId, n), change.passengerId, n), change.passengerId)
            == InboxOf(m, change.passengerId) + [n, n]
  {
  }

  /** The part of `PassengerService` the processor calls. Whether its
      `addNotificationForPassenger` fails is not visible here; `fault` is the
      exception it raises, if any, in which case nothing is filed. */
  class PassengerService {
    var inboxes: Inboxes

    constructor()
      ensures inboxes == map[]
    {
      inboxes := map[];
    }

    method AddNotificationForPassenger(passengerId: int, n: Notification, fault: Option<Exception>)
      returns (r: Outcome<Exception>)
      modifies this
      ensures fault == None ==> r == Pass && inboxes == Filed(old(inboxes), passengerId, n)
      ensures fault != None ==> r == Fail(fault.value) && inboxes == old(inboxes)
    {
      if fault.Some? {
        return Fail(fault.value);
      }
      inboxes := inboxes[passengerId := InboxOf(inboxes, passengerId) + [n]];
      r := Pass;
    }
  }

  class BaggageStateChangeProcessor {
    const passengerService: PassengerService

    constructor(passengerService: PassengerService)
      ensures this.passengerService == passengerService
    {
      this.passengerService := passengerService;
    }

    /** `process`: files exactly one notification, built from the event, for
        the event's passenger, and returns the passenger service's result
        unchanged, a failure included. */
    method Process(change: BaggageStateChange, fault: Option<Exception>) returns (r: Outcome<Exception>)
      modifies passengerService
      ensures fault == None ==>
                r == Pass
                && passengerService.inboxes
                   == Filed(old(passengerService.inboxes), change.passengerId, BaggageNotification(change))
      ensures fault != None ==> r == Fail(fault.value) && passengerService.inboxes == old(passengerService.inboxes)
    {
      var notification := Notification(change.passengerId, None, BaggageMessage(change));
      r := passengerService.AddNotificationForPassenger(change.passengerId, notification, fault);
    }
  }
}
