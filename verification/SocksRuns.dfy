/** From the bytes of a SOCKS client to the address its peer dials, over whole proxy runs. */
module SocksRuns {
  import opened Bytes
  import opened WireFormats
  import opened Proxy
  import opened ProxyRuns
  import opened Socks

  /** What a SOCKS client sends and how it arrives. */
  datatype Session = Session(methods: bytes, destination: Destination, port: nat, tail: bytes, arrivals: seq<nat>)

  /** The client offers "no authentication", its request is well formed and its method list arrives in time. */
  predicate Proper(x: Session) {
    && |x.methods| < 256 && AUTH_NONE in x.methods && WellFormed(x.destination, x.port)
    && InTime(x.arrivals, 1, |x.methods|)
  }

  function ReaderOf(x: Session): Reader
    requires Proper(x)
  {
    Reader(EncodeGreeting(x.methods) + EncodeRequest(x.destination, x.port) + x.tail, x.arrivals)
  }

  function Asks(x: Session, ntop: bytes -> bytes): Address
    requires Proper(x)
  {
    Address(HostText(x.destination, ntop), x.port)
  }

  /** No read of the session is cut short by what has arrived. */
  predicate ReadInFull(x: Session) {
    AllInTime(x.arrivals, [2, |x.methods|, 4] + AddressReads(x.destination))
  }

  /** Every connection of the run is what the SOCKS handler makes of its session. */
  predicate FromSocks(steps: seq<Step>, sessions: seq<Session>, ntop: bytes -> bytes) {
    && |sessions| == |steps|
    && forall i :: 0 <= i < |steps| && steps[i].ClientConnect? ==>
         Proper(sessions[i]) && DialsExactly(HandleClient(ReaderOf(sessions[i]), ntop), steps[i].address)
  }

  /**
   * In every run, with any interleaving and any chunking of the links: the address the peer
   * dials on a channel is the one requested in the session that opened the channel if and
   * only if no read of that session was cut short.
   */
  lemma PeerDialsTheSession(steps: seq<Step>, sessions: seq<Session>, ntop: bytes -> bytes, c: nat) returns (i: nat)
    requires FromSocks(steps, sessions, ntop) && c in Run(Fixed(2), steps).net.dialled
    ensures i < |steps| && Opens(Fixed(2), steps, i, c) && Proper(sessions[i])
    ensures Run(Fixed(2), steps).net.dialled[c] == Asks(sessions[i], ntop) <==> ReadInFull(sessions[i])
  {
    i := DialledWasOpened(steps, c);
    var x := sessions[i];
    DialsWhatWasRequested(x.methods, x.destination, x.port, x.tail, x.arrivals, ntop);
  }

  /**
   * In every run: a channel that was opened for an IPv4 or IPv6 destination is dialled by a
   * text that reads back, from left to right, as the bytes of the request, or by the IPv6
   * text of those bytes, with the requested port, however the session arrived.
   */
  lemma PeerDialsTheNumbers(steps: seq<Step>, sessions: seq<Session>, ntop: bytes -> bytes, c: nat) returns (i: nat)
    requires FromSocks(steps, sessions, ntop) && c in Run(Fixed(2), steps).net.dialled
    ensures i < |steps| && Opens(Fixed(2), steps, i, c) && Proper(sessions[i])
    ensures var x, address := sessions[i], Run(Fixed(2), steps).net.dialled[c];
            !x.destination.Domain? || ReadInFull(x) ==>
              Names(address.host, x.destination, ntop) && address.port == x.port
  {
    i := DialledWasOpened(steps, c);
    var x := sessions[i];
    if !x.destination.Domain? {
      NumericNeverDialsAnother(x.methods, x.destination, x.port, x.tail, x.arrivals, ntop);
    } else {
      DialsWhatWasRequested(x.methods, x.destination, x.port, x.tail, x.arrivals, ntop);
    }
  }
}
