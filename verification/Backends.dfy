/** One upstream node: its weight, its health and its counters. */
module Backends {

  class Backend {
    const weight: nat
    var healthy: bool
    var activeConnections: nat
    var totalConnections: nat
    var failedConnections: nat

    constructor (weight: nat)
      ensures this.weight == weight && healthy
      ensures activeConnections == totalConnections == failedConnections == 0
    {
      this.weight := weight;
      healthy := true;
      activeConnections, totalConnections, failedConnections := 0, 0, 0;
    }

    method Acquire()
      modifies this`activeConnections
      ensures activeConnections == old(activeConnections) + 1
    {
      activeConnections := activeConnections + 1;
    }

    /** As one step; GuardedCounters treats the load and the subtraction as two. */
    method Release()
      modifies this`activeConnections
      ensures activeConnections == if old(activeConnections) > 0 then old(activeConnections) - 1 else 0
    {
      var current := activeConnections;
      if current > 0 {
        activeConnections := activeConnections - 1;
      }
    }

    method RecordConnectSuccess()
      modifies this`totalConnections
      ensures totalConnections == old(totalConnections) + 1
    {
      totalConnections := totalConnections + 1;
    }

    method RecordConnectFailure()
      modifies this`failedConnections
      ensures failedConnections == old(failedConnections) + 1
    {
      failedConnections := failedConnections + 1;
    }
  }
}
