// The rules of one push: which transport a device uses and what its outcome means
// for the device's registration.

module Sender {
  datatype Device = Device(id: nat, bark: bool)

  // What the gateway made of the push.
  datatype Wire = Unreachable | Refused | Accepted

  // Result together with whether an error came with it.
  datatype Outcome = Outcome(sent: bool, shouldUnregister: bool, failed: bool)

  function SendBark(wire: Wire): (o: Outcome) {
    match wire
    case Unreachable => Outcome(false, false, true)
    case Refused => Outcome(false, false, false)
    case Accepted => Outcome(true, false, false)
  }

  // With no APNs key the clients are nil: an error, but not the device's fault.
  function SendAPNS(configured: bool, wire: Wire): (o: Outcome) {
    if !configured then Outcome(false, false, true)
    else match wire
      case Unreachable => Outcome(false, true, true)
      case Refused => Outcome(false, true, false)
      case Accepted => Outcome(true, false, false)
  }

  // A device loses its registration exactly when it is an APNs device of a
  // configured backend and the push did not go through.
  function Send(configured: bool, device: Device, wire: Wire): (o: Outcome)
    ensures o.shouldUnregister <==> !device.bark && configured && !wire.Accepted?
    ensures o.sent <==> wire.Accepted? && (device.bark || configured)
    ensures o.failed <==> wire.Unreachable? || (!device.bark && !configured)
  {
    if device.bark then SendBark(wire) else SendAPNS(configured, wire)
  }
}
