/** The bounded wait of `AsyncUdpPacketClient::connect` for the connection status
    to settle. */
module ConnectWait {
  import opened ClientProtocol

  const MAX_WAIT_MS: nat := 1000
  const SLEEP_MS: nat := 50
  const MAX_ITERS: nat := MAX_WAIT_MS / SLEEP_MS

  /** The first reading that is not `Connecting` is the k-th. */
  ghost predicate SettlesAt(status: nat -> Status, k: nat) {
    status(k) != Connecting && forall j :: 0 <= j < k ==> status(j) == Connecting
  }

  /** For every stream of status readings the wait ends, after at most 21
      readings and after sleeping 50 milliseconds at most 20 times, and succeeds exactly
      when the first reading other than `Connecting` comes among those 21 and is
      `Connected`. */
  method WaitUntilConnected(status: nat -> Status) returns (ok: bool, readings: nat, sleptMs: nat)
    ensures 1 <= readings <= 21
    ensures sleptMs == 50 * (if readings <= 20 then readings else 20)
    ensures SettlesAt(status, readings - 1)
         || (readings == 21 && forall j :: 0 <= j <= 20 ==> status(j) == Connecting)
    ensures ok <==> exists k: nat :: k <= 20 && SettlesAt(status, k) && status(k) == Connected
  {
    var iter := 0;
    readings, sleptMs := 0, 0;
    var connectionStatus;
    while true
      invariant iter == readings <= MAX_ITERS && sleptMs == SLEEP_MS * readings
      invariant forall j :: 0 <= j < readings ==> status(j) == Connecting
      decreases MAX_ITERS - iter
    {
      connectionStatus := status(readings);
      readings := readings + 1;
      iter := iter + 1;
      if iter - 1 >= MAX_ITERS {
        break;
      }
      sleptMs := sleptMs + SLEEP_MS;
      if connectionStatus != Connecting {
        break;
      }
    }
    ok := connectionStatus == Connected;
    if connectionStatus != Connecting {
      assert SettlesAt(status, readings - 1);
    }
  }
}
