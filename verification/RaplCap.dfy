/** The command that caps a host. Models rapl/cap.go; dialling the host is left to the environment. */
module RaplCap {

  datatype Request = Request(host: string, percentage: real)

  /** The remote end of the capping command. Which hosts answer is up to the environment. */
  class Rapl {
    var reachable: set<string>
    var requests: seq<Request>

    constructor ()
      ensures requests == []
    {
      reachable, requests := {}, [];
    }

    /** Fails for a percentage out of range or an unreachable host. */
    method Cap(host: string, percentage: real) returns (err: bool)
      modifies this`requests
      ensures requests == old(requests) + [Request(host, percentage)]
      ensures err <==> !(0.0 <= percentage <= 100.0 && host in reachable)
    {
      requests := requests + [Request(host, percentage)];
      if percentage > 100.0 || percentage < 0.0 {
        return true;
      }
      err := host !in reachable;
    }
  }
}
