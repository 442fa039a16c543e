/** The reachability verdict `ping_to_interface` derives from running the
    external `ping` utility through a WAN's interface. */
module Probe {

  /** What became of the `ping` process. */
  datatype ProbeOutcome =
    | LaunchFailed               // the process could not be started
    | Exited(success: bool)      // it ran; `success` is its exit status

  /** The WAN counts as up only when `ping` ran and exited successfully;
      every other outcome fails safe to down. */
  function IsUp(o: ProbeOutcome): (up: bool)
    ensures up <==> o == Exited(true)
    ensures o.LaunchFailed? ==> !up
  {
    match o
    case LaunchFailed => false
    case Exited(success) => if success then true else false
  }
}
