/** The reader (clientConn.handleRecv): decodes one packet at a time, routes PINGRESP to the
    keepalive monitor and everything else to the dispatcher, and closes both channels at the
    first decode error. */
module Reader {
  import opened Packets

  /** Each decode call yields a packet or an error (None). The reader gets through the packets
      before the first error. */
  function FirstDecodeError(rs: seq<Option<Packet>>): (n: nat)
    ensures n <= |rs|
    ensures forall j :: 0 <= j < n ==> rs[j].Some?
    ensures n < |rs| ==> rs[n].None?
    decreases |rs|
  {
    if rs == [] || rs[0].None? then 0 else 1 + FirstDecodeError(rs[1..])
  }

  /** The decoded packets handed to the dispatcher, in arrival order. */
  function Dispatched(rs: seq<Option<Packet>>): seq<Packet>
    decreases |rs|
  {
    if rs == [] then []
    else
      var last := rs[|rs| - 1];
      Dispatched(rs[..|rs| - 1]) + (if last.Some? && last.value != PingResp then [last.value] else [])
  }

  /** The signals handed to the keepalive monitor: one `1` per PINGRESP. */
  function Pings(rs: seq<Option<Packet>>): seq<int>
    decreases |rs|
  {
    if rs == [] then []
    else Pings(rs[..|rs| - 1]) + (if rs[|rs| - 1] == Some(PingResp) then [1] else [])
  }

  /** Routing the next decoded packet extends one of the two channels by one element. */
  lemma RoutedOneMore(rs: seq<Option<Packet>>, i: nat)
    requires i < |rs| && rs[i].Some?
    ensures rs[i].value == PingResp ==>
      Dispatched(rs[..i + 1]) == Dispatched(rs[..i]) && Pings(rs[..i + 1]) == Pings(rs[..i]) + [1]
    ensures rs[i].value != PingResp ==>
      Dispatched(rs[..i + 1]) == Dispatched(rs[..i]) + [rs[i].value] && Pings(rs[..i + 1]) == Pings(rs[..i])
  {
    assert rs[..i + 1][..i] == rs[..i];
  }

  /** What the reader produces: the packets for the dispatcher, the signals for the keepalive
      monitor, and whether it has closed both channels. */
  datatype Routing = Routing(netRecvC: seq<Packet>, keepaliveC: seq<int>, readerDone: bool)

  /** The reader after the decoder has yielded `rs`. */
  function Received(r: Routing, rs: seq<Option<Packet>>): Routing {
    var n := FirstDecodeError(rs);
    Routing(r.netRecvC + Dispatched(rs[..n]),
            r.keepaliveC + Pings(rs[..n]),
            if n < |rs| then true else r.readerDone)
  }

  /** Routing splits the decoded packets: every one goes to exactly one of the two channels,
      PINGRESP never reaches the dispatcher, and the dispatcher gets all others in order. */
  lemma {:induction false} RoutingPartitions(rs: seq<Option<Packet>>)
    requires forall j :: 0 <= j < |rs| ==> rs[j].Some?
    ensures |Dispatched(rs)| + |Pings(rs)| == |rs|
    ensures PingResp !in Dispatched(rs)
    ensures forall j :: 0 <= j < |Pings(rs)| ==> Pings(rs)[j] == 1
    decreases |rs|
  {
    if rs != [] {
      RoutingPartitions(rs[..|rs| - 1]);
    }
  }

  /** The reader stops at a decode error: what follows it is never routed, and both channels
      are closed. */
  lemma ReaderStopsAtError(r: Routing, rs: seq<Option<Packet>>, rest: seq<Option<Packet>>)
    requires None in rs
    ensures Received(r, rs + rest) == Received(r, rs)
    ensures Received(r, rs).readerDone
  {
    var n := FirstDecodeError(rs);
    assert (rs + rest)[n] == rs[n];
    assert FirstDecodeError(rs + rest) == n;
    assert (rs + rest)[..n] == rs[..n];
  }
}
