/** Passenger-side notifications: the record, the cancellation message, the
    fan-out that turns a flight's passengers into one notification each,
    and the notification store the fan-out appends to. */
module Notifications {
  import opened Results
  import Decimal

  datatype Passenger = Passenger(id: int, firstName: string, lastName: string, email: string, flightId: int)

  /** A notification as the services build it; `email` is None where the
      builder leaves the field unset. */
  datatype Notification = Notification(passengerId: int, email: Option<string>, message: string)

  /** `"Your flight " + flightId + " has been cancelled."` */
  function CancellationMessage(flightId: int): string {
    "Your flight " + Decimal.IntToString(flightId) + " has been cancelled."
  }

  /** The message names the flight: different flights, different messages. */
  lemma CancellationMessageInjective(a: int, b: int)
    ensures CancellationMessage(a) == CancellationMessage(b) ==> a == b
  {
    var prefix, suffix := "Your flight ", " has been cancelled.";
    if CancellationMessage(a) == CancellationMessage(b) {
      var sa, sb := Decimal.IntToString(a), Decimal.IntToString(b);
      assert CancellationMessage(a) == prefix + sa + suffix;
      assert CancellationMessage(b) == prefix + sb + suffix;
      assert |sa| == |sb|;
      assert sa == CancellationMessage(a)[|prefix|..|prefix| + |sa|];
      assert sb == CancellationMessage(b)[|prefix|..|prefix| + |sb|];
      Decimal.IntToStringInjective(a, b);
    }
  }

  /** The notification one passenger receives when flight `flightId` is cancelled. */
  function CancellationNotice(flightId: int, p: Passenger): Notification {
    Notification(p.id, Some(p.email), CancellationMessage(flightId))
  }

  /** The notifications a cancellation of `flightId` appends, in order, for
      the passengers `ps` in lookup order: one per passenger, the i-th
      addressed to the i-th passenger with that passenger's email. */
  function FanOut(flightId: int, ps: seq<Passenger>): (ns: seq<Notification>)
    ensures |ns| == |ps|
    ensures forall i :: 0 <= i < |ps| ==>
              ns[i].passengerId == ps[i].id && ns[i].email == Some(ps[i].email)
              && ns[i].message == CancellationMessage(flightId)
  {
    if ps == [] then [] else FanOut(flightId, ps[..|ps| - 1]) + [CancellationNotice(flightId, ps[|ps| - 1])]
  }

  /** How many of `ns` are addressed to passenger `pid`. */
  function NoticesFor(ns: seq<Notification>, pid: int): nat {
    if ns == [] then 0
    else NoticesFor(ns[..|ns| - 1], pid) + (if ns[|ns| - 1].passengerId == pid then 1 else 0)
  }

  /** How many entries of `ps` are passenger `pid`. */
  function Occurrences(ps: seq<Passenger>, pid: int): nat {
    if ps == [] then 0
    else Occurrences(ps[..|ps| - 1], pid) + (if ps[|ps| - 1].id == pid then 1 else 0)
  }

  /** A cancellation addresses each passenger exactly as often as the lookup
      returned them: once each when the lookup has no repeats, never anyone
      it did not return. */
  lemma {:induction false} FanOutAddressesEachPassenger(flightId: int, ps: seq<Passenger>, pid: int)
    ensures NoticesFor(FanOut(flightId, ps), pid) == Occurrences(ps, pid)
  {
    if ps != [] {
      var ns := FanOut(flightId, ps);
      assert ns[..|ns| - 1] == FanOut(flightId, ps[..|ps| - 1]);
      FanOutAddressesEachPassenger(flightId, ps[..|ps| - 1], pid);
    }
  }

  /** Passenger ids returned by a lookup without repeats. */
  ghost predicate DistinctIds(ps: seq<Passenger>) {
    forall i, j :: 0 <= i < j < |ps| ==> ps[i].id != ps[j].id
  }

  /** Each of distinct passengers is counted once. */
  lemma {:induction false} OccursOnce(ps: seq<Passenger>, k: nat)
    requires DistinctIds(ps) && k < |ps|
    ensures Occurrences(ps, ps[k].id) == 1
  {
    var init := ps[..|ps| - 1];
    if k < |ps| - 1 {
      assert init[k] == ps[k];
      OccursOnce(init, k);
    } else {
      OccursNever(init, ps[k].id);
    }
  }

  lemma {:induction false} OccursNever(ps: seq<Passenger>, pid: int)
    requires forall i :: 0 <= i < |ps| ==> ps[i].id != pid
    ensures Occurrences(ps, pid) == 0
  {
    if ps != [] {
      OccursNever(ps[..|ps| - 1], pid);
    }
  }

  /** With a lookup that has no repeats, every passenger on the flight gets
      exactly one notification. */
  lemma OneNoticePerPassenger(flightId: int, ps: seq<Passenger>, k: nat)
    requires DistinctIds(ps) && k < |ps|
    ensures NoticesFor(FanOut(flightId, ps), ps[k].id) == 1
  {
    FanOutAddressesEachPassenger(flightId, ps, ps[k].id);
    OccursOnce(ps, k);
  }

  /** Cancellations of two different flights never produce the same message,
      so the notifications of one cannot be mistaken for the other's. */
  lemma FanOutsDoNotMix(a: int, b: int, ps: seq<Passenger>, qs: seq<Passenger>)
    requires a != b
    ensures forall n, n' :: n in FanOut(a, ps) && n' in FanOut(b, qs) ==> n.message != n'.message
  {
    CancellationMessageInjective(a, b);
  }

  /** The notification store (`NotificationService`): an append-only ledger
      in insertion order. */
  class NotificationService {
    var notifications: seq<Notification>

    constructor()
      ensures notifications == []
    {
      notifications := [];
    }

    /** `createNotification`: appends one notification; earlier ones are untouched. */
    method CreateNotification(n: Notification)
      modifies this
      ensures notifications == old(notifications) + [n]
    {
      notifications := notifications + [n];
    }
  }
}
