/** The process-wide counters, but for the number of active sessions, which is a part of Dispatch. */
module MetricsCounters {

  class Metrics {
    var accepted: nat
    var rejected: nat
    var connectFailures: nat
    var clientToBackendBytes: nat
    var backendToClientBytes: nat

    constructor ()
      ensures accepted == rejected == connectFailures == clientToBackendBytes == backendToClientBytes == 0
    {
      accepted, rejected, connectFailures, clientToBackendBytes, backendToClientBytes := 0, 0, 0, 0, 0;
    }

    method OnAccepted()
      modifies this`accepted
      ensures accepted == old(accepted) + 1
    {
      accepted := accepted + 1;
    }

    method OnRejected()
      modifies this`rejected
      ensures rejected == old(rejected) + 1
    {
      rejected := rejected + 1;
    }

    method OnConnectFailure()
      modifies this`connectFailures
      ensures connectFailures == old(connectFailures) + 1
    {
      connectFailures := connectFailures + 1;
    }

    method AddClientToBackend(bytes: nat)
      modifies this`clientToBackendBytes
      ensures clientToBackendBytes == old(clientToBackendBytes) + bytes
    {
      clientToBackendBytes := clientToBackendBytes + bytes;
    }

    method AddBackendToClient(bytes: nat)
      modifies this`backendToClientBytes
      ensures backendToClientBytes == old(backendToClientBytes) + bytes
    {
      backendToClientBytes := backendToClientBytes + bytes;
    }
  }
}
