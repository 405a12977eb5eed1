/**
  Sending to the compute servers: cached connections, partial writes, retries, and a discovery
  loop that may close a connection at any moment, because the sender works on a copy of the rpc
  value and so holds a lock of its own. The copy is of the lock as it is at that moment: if
  discovery holds it, nobody will ever release the copy.

  An event is one operation on a connection or one pass of discovery; an event that cannot
  happen in the given state changes nothing.
 */
module PlainRpc {
  import opened MachineInts
  import opened MapOrders
  import opened Frames

  /** A connection: what has been written on it so far, and whether it is closed at this end. */
  datatype Conn = Conn(log: Bytes, closed: bool)

  /**
    Where the sender stands; left counts the attempts it may still begin, the current one included.
    Blocked, it waits for a copied lock that was held when it was copied.
   */
  datatype Pc =
    | Idle
    | Trying(payload: Bytes, addresses: seq<string>, left: nat)
    | Connected(payload: Bytes, addresses: seq<string>, left: nat, conn: nat)
    | HeaderSent(payload: Bytes, addresses: seq<string>, left: nat, conn: nat)
    | Blocked(payload: Bytes, addresses: seq<string>, left: nat)
    | Finished(payload: Bytes, addresses: seq<string>, ok: bool)

  /** An acknowledged payload: its two writes on conn returned no error. */
  datatype Ack = Ack(conn: nat, payload: Bytes)

  /** What a failed attempt left on a connection: the first sent bytes of the payload's frame. */
  datatype Cut = Cut(payload: Bytes, sent: nat)

  /**
    The last six fields are history: all acknowledgements, how many there were when the current
    delivery began, how many attempts it was given, how many of them have failed, the payloads of
    all deliveries begun, and the connections that a failed write broke off.
   */
  datatype Rpc = Rpc(
    conns: seq<Conn>,
    connectionMap: map<string, nat>,
    availableAddresses: seq<string>,
    locked: bool,
    pc: Pc,
    acks: seq<Ack>,
    acksBefore: nat,
    budget: nat,
    failed: nat,
    begun: seq<Bytes>,
    cuts: map<nat, Cut>)

  datatype Event =
    | Begin(payload: Bytes, n: nat)                        // trySend, on a snapshot of the addresses
    | Dial(ok: bool)                                       // look the connection up, or dial
    | WriteHeader(written: nat, ok: bool)
    | WritePayload(written: nat, ok: bool)
    | Lock                                                 // discovery takes its lock
    | Discover(addresses: seq<string>, known: set<string>) // a pass of discovery, under its lock
    | Unlock
    | Return                                               // the result of trySend has been seen

  const RETRIES: nat := 3

  const Init := Rpc([], map[], [], false, Idle, [], 0, 0, 0, [], map[])

  /** callCounter is incremented on a copy that starts at zero, so the index is always 1 % len. */
  function AddressOf(addresses: seq<string>): string
    requires addresses != []
  {
    addresses[1 % |addresses|]
  }

  /** How much of data Write gets out: everything, or on failure some prefix, or nothing if closed. */
  function Went(c: Conn, data: Bytes, written: nat, ok: bool): (n: nat)
    ensures n <= |data|
  {
    if c.closed then 0 else if ok || written >= |data| then |data| else written
  }

  function Write(c: Conn, data: Bytes, written: nat, ok: bool): Conn {
    c.(log := c.log + data[..Went(c, data, written, ok)])
  }

  function Close(conns: seq<Conn>, i: nat): seq<Conn>
    requires i < |conns|
  {
    conns[i := conns[i].(closed := true)]
  }

  /** An attempt ended in an error: drop the address and try again if attempts are left. */
  function FailAttempt(s: Rpc, payload: Bytes, addresses: seq<string>, left: nat): Rpc
    requires addresses != [] && left > 0
  {
    s.(connectionMap := s.connectionMap - {AddressOf(addresses)},
       failed := s.failed + 1,
       pc := if left == 1 then Finished(payload, addresses, false) else Trying(payload, addresses, left - 1))
  }

  function DialStep(s: Rpc, ok: bool): Rpc
    requires s.pc.Trying? && s.pc.addresses != [] && s.pc.left > 0
  {
    var Trying(payload, addresses, left) := s.pc;
    var address := AddressOf(addresses);
    if address in s.connectionMap then
      s.(pc := Connected(payload, addresses, left, s.connectionMap[address]))
    else if ok then
      s.(conns := s.conns + [Conn([], false)],
         connectionMap := s.connectionMap[address := |s.conns|],
         pc := Connected(payload, addresses, left, |s.conns|))
    else
      FailAttempt(s, payload, addresses, left)
  }

  /** A write on connection i failed after sent bytes of the frame: the connection is given up. */
  function BreakOff(s: Rpc, i: nat, payload: Bytes, addresses: seq<string>, left: nat, sent: nat): Rpc
    requires addresses != [] && left > 0 && i < |s.conns|
  {
    FailAttempt(s.(conns := Close(s.conns, i), cuts := s.cuts[i := Cut(payload, sent)]), payload, addresses, left)
  }

  function HeaderStep(s: Rpc, written: nat, ok: bool): Rpc
    requires s.pc.Connected? && s.pc.addresses != [] && s.pc.left > 0 && s.pc.conn < |s.conns|
  {
    var Connected(payload, addresses, left, i) := s.pc;
    var header := Header(|payload|);
    var wrote := s.(conns := s.conns[i := Write(s.conns[i], header, written, ok)]);
    if ok && !s.conns[i].closed then
      wrote.(pc := HeaderSent(payload, addresses, left, i))
    else
      BreakOff(wrote, i, payload, addresses, left, Went(s.conns[i], header, written, ok))
  }

  function PayloadStep(s: Rpc, written: nat, ok: bool): Rpc
    requires s.pc.HeaderSent? && s.pc.addresses != [] && s.pc.left > 0 && s.pc.conn < |s.conns|
  {
    var HeaderSent(payload, addresses, left, i) := s.pc;
    var wrote := s.(conns := s.conns[i := Write(s.conns[i], payload, written, ok)]);
    if ok && !s.conns[i].closed then
      wrote.(pc := Finished(payload, addresses, true), acks := s.acks + [Ack(i, payload)])
    else
      BreakOff(wrote, i, payload, addresses, left, 4 + Went(s.conns[i], payload, written, ok))
  }

  function CloseAll(conns: seq<Conn>, stale: set<nat>): seq<Conn> {
    seq(|conns|, i requires 0 <= i < |conns| => if i in stale then conns[i].(closed := true) else conns[i])
  }

  /** Discovery replaces the address list and closes, but does not remove, unknown connections. */
  function DiscoverStep(s: Rpc, addresses: seq<string>, known: set<string>): Rpc {
    var stale := set a | a in s.connectionMap && a !in known :: s.connectionMap[a];
    s.(availableAddresses := addresses, conns := CloseAll(s.conns, stale))
  }

  /** The sender's next operation is possible. */
  predicate Ready(s: Rpc) {
    match s.pc
    case Trying(_, addresses, left) => addresses != [] && left > 0
    case Connected(_, addresses, left, i) => addresses != [] && left > 0 && i < |s.conns|
    case HeaderSent(_, addresses, left, i) => addresses != [] && left > 0 && i < |s.conns|
    case _ => true
  }

  function Apply(s: Rpc, e: Event): Rpc {
    match e
    case Begin(payload, n) =>
      if !s.pc.Idle? then s
      else
        // An empty address list makes the index computation panic; the caller recovers.
        s.(pc := if n == 0 then Finished(payload, s.availableAddresses, false)
                 else if s.locked then Blocked(payload, s.availableAddresses, n)
                 else if s.availableAddresses == [] then Finished(payload, s.availableAddresses, false)
                 else Trying(payload, s.availableAddresses, n),
           acksBefore := |s.acks|, budget := n, failed := 0, begun := s.begun + [payload])
    case Dial(ok) => if s.pc.Trying? && Ready(s) then DialStep(s, ok) else s
    case WriteHeader(written, ok) => if s.pc.Connected? && Ready(s) then HeaderStep(s, written, ok) else s
    case WritePayload(written, ok) => if s.pc.HeaderSent? && Ready(s) then PayloadStep(s, written, ok) else s
    case Lock => s.(locked := true)
    case Discover(addresses, known) => if s.locked then DiscoverStep(s, addresses, known) else s
    case Unlock => s.(locked := false)
    case Return => if s.pc.Finished? then s.(pc := Idle) else s
  }

  function Run(s: Rpc, es: seq<Event>): Rpc {
    if es == [] then s else Apply(Run(s, es[..|es| - 1]), es[|es| - 1])
  }

  // ---- framing ----

  /** The payloads acknowledged on connection i, in order. */
  function AckedOn(acks: seq<Ack>, i: nat): seq<Bytes> {
    if acks == [] then []
    else
      var a := acks[|acks| - 1];
      AckedOn(acks[..|acks| - 1], i) + (if a.conn == i then [a.payload] else [])
  }

  /** What is on the connections beside acknowledged frames: broken off, or just being written. */
  function Pieces(s: Rpc): map<nat, Cut> {
    if s.pc.HeaderSent? then s.cuts[s.pc.conn := Cut(s.pc.payload, 4)] else s.cuts
  }

  function Piece(pieces: map<nat, Cut>, i: nat): Bytes {
    if i in pieces && pieces[i].sent <= |Frame(pieces[i].payload)|
    then Frame(pieces[i].payload)[..pieces[i].sent] else []
  }

  ghost predicate LogOk(s: Rpc, i: nat)
    requires i < |s.conns|
  {
    s.conns[i].log == Stream(AckedOn(s.acks, i)) + Piece(Pieces(s), i)
  }

  /** The connection the sender holds is the one the map has for its address. */
  ghost predicate HeldOk(s: Rpc) {
    && Ready(s)
    && (s.pc.Connected? || s.pc.HeaderSent? ==>
          && AddressOf(s.pc.addresses) in s.connectionMap
          && s.connectionMap[AddressOf(s.pc.addresses)] == s.pc.conn)
  }

  /** The map names different connections, none of which has been broken off. */
  ghost predicate MapOk(s: Rpc) {
    && (forall a | a in s.connectionMap :: s.connectionMap[a] < |s.conns| && s.connectionMap[a] !in s.cuts)
    && (forall a, b | a in s.connectionMap && b in s.connectionMap && a != b ::
          s.connectionMap[a] != s.connectionMap[b])
    && (forall k | k in s.acks :: k.conn < |s.conns|)
    && (forall i | i in s.cuts :: i < |s.conns| && s.cuts[i].sent <= |Frame(s.cuts[i].payload)|)
  }

  /** Nothing is sent but the payloads of deliveries that were begun. */
  ghost predicate BegunOk(s: Rpc) {
    && (!s.pc.Idle? ==> s.pc.payload in s.begun)
    && (forall k | k in s.acks :: k.payload in s.begun)
    && (forall i | i in s.cuts :: s.cuts[i].payload in s.begun)
  }

  ghost predicate FramingInv(s: Rpc) {
    && HeldOk(s) && MapOk(s) && BegunOk(s)
    && forall i | 0 <= i < |s.conns| :: LogOk(s, i)
  }

  lemma {:induction false} NothingAckedOn(acks: seq<Ack>, i: nat)
    requires forall k | k in acks :: k.conn != i
    ensures AckedOn(acks, i) == []
  {
    if acks != [] {
      NothingAckedOn(acks[..|acks| - 1], i);
    }
  }

  /** Nothing that matters to connection i's log changes. */
  lemma SameLog(s: Rpc, t: Rpc, i: nat)
    requires i < |s.conns| && i < |t.conns| && LogOk(s, i)
    requires t.conns[i].log == s.conns[i].log && AckedOn(t.acks, i) == AckedOn(s.acks, i)
    requires Piece(Pieces(t), i) == Piece(Pieces(s), i)
    ensures LogOk(t, i)
  {
  }

  lemma DialKeepsMap(s: Rpc, ok: bool)
    requires HeldOk(s) && MapOk(s) && BegunOk(s) && s.pc.Trying?
    ensures var t := DialStep(s, ok); HeldOk(t) && MapOk(t) && BegunOk(t)
  {
  }

  lemma DialKeepsFraming(s: Rpc, ok: bool)
    requires FramingInv(s) && s.pc.Trying?
    ensures FramingInv(DialStep(s, ok))
  {
    var t := DialStep(s, ok);
    DialKeepsMap(s, ok);
    forall i | 0 <= i < |s.conns| ensures LogOk(t, i) {
      SameLog(s, t, i);
    }
    NothingAckedOn(s.acks, |s.conns|);
  }

  /** A beginning of a frame: part of the header, or the header and part of the payload. */
  lemma FrameParts(payload: Bytes, n: nat)
    ensures n <= 4 ==> Frame(payload)[..n] == Header(|payload|)[..n]
    ensures n <= |payload| ==> Frame(payload)[..4 + n] == Header(|payload|) + payload[..n]
  {
  }

  lemma HeaderKeepsLog(s: Rpc, written: nat, ok: bool)
    requires FramingInv(s) && s.pc.Connected?
    ensures LogOk(HeaderStep(s, written, ok), s.pc.conn)
  {
    var c, header := s.pc.conn, Header(|s.pc.payload|);
    var n := Went(s.conns[c], header, written, ok);
    assert LogOk(s, c);
    FrameParts(s.pc.payload, n);
    assert Stream(AckedOn(s.acks, c)) + [] + header[..n] == Stream(AckedOn(s.acks, c)) + header[..n];
  }

  lemma HeaderKeepsMap(s: Rpc, written: nat, ok: bool)
    requires HeldOk(s) && MapOk(s) && BegunOk(s) && s.pc.Connected?
    ensures var t := HeaderStep(s, written, ok); HeldOk(t) && MapOk(t) && BegunOk(t)
  {
  }

  lemma HeaderKeepsOthers(s: Rpc, written: nat, ok: bool, i: nat)
    requires HeldOk(s) && s.pc.Connected? && i < |s.conns| && i != s.pc.conn && LogOk(s, i)
    ensures LogOk(HeaderStep(s, written, ok), i)
  {
    var t := HeaderStep(s, written, ok);
    OtherPieces(s, t, i);
    assert t.conns[i] == s.conns[i] && t.acks == s.acks;
    SameLog(s, t, i);
  }

  lemma HeaderKeepsFraming(s: Rpc, written: nat, ok: bool)
    requires FramingInv(s) && s.pc.Connected?
    ensures FramingInv(HeaderStep(s, written, ok))
  {
    var t := HeaderStep(s, written, ok);
    HeaderKeepsMap(s, written, ok);
    HeaderKeepsLog(s, written, ok);
    forall i | 0 <= i < |t.conns| && i != s.pc.conn ensures LogOk(t, i) {
      HeaderKeepsOthers(s, written, ok, i);
    }
  }

  /** The log of a connection that the header has just been written on. */
  lemma AfterHeader(s: Rpc)
    requires FramingInv(s) && s.pc.HeaderSent?
    ensures s.conns[s.pc.conn].log == Stream(AckedOn(s.acks, s.pc.conn)) + Header(|s.pc.payload|)
  {
    assert LogOk(s, s.pc.conn);
    FrameParts(s.pc.payload, 0);
    assert Header(|s.pc.payload|) + [] == Header(|s.pc.payload|);
  }

  lemma AcknowledgedLog(s: Rpc, written: nat)
    requires FramingInv(s) && s.pc.HeaderSent? && !s.conns[s.pc.conn].closed
    ensures LogOk(PayloadStep(s, written, true), s.pc.conn)
  {
    var t := PayloadStep(s, written, true);
    var c, payload := s.pc.conn, s.pc.payload;
    AfterHeader(s);
    StreamAppend(AckedOn(s.acks, c), payload);
    assert t.acks[..|t.acks| - 1] == s.acks;
    assert t.conns[c].log == Stream(AckedOn(s.acks, c)) + Frame(payload) == Stream(AckedOn(t.acks, c));
    assert c !in t.cuts;
  }

  lemma BrokenOffLog(s: Rpc, written: nat, ok: bool)
    requires FramingInv(s) && s.pc.HeaderSent? && (!ok || s.conns[s.pc.conn].closed)
    ensures LogOk(PayloadStep(s, written, ok), s.pc.conn)
  {
    var t := PayloadStep(s, written, ok);
    var c, payload := s.pc.conn, s.pc.payload;
    var n := Went(s.conns[c], payload, written, ok);
    AfterHeader(s);
    FrameParts(payload, n);
    assert t.conns[c].log == Stream(AckedOn(s.acks, c)) + (Header(|payload|) + payload[..n]);
  }

  lemma PayloadKeepsMap(s: Rpc, written: nat, ok: bool)
    requires HeldOk(s) && MapOk(s) && BegunOk(s) && s.pc.HeaderSent?
    ensures var t := PayloadStep(s, written, ok); HeldOk(t) && MapOk(t) && BegunOk(t)
  {
  }

  lemma PayloadKeepsFraming(s: Rpc, written: nat, ok: bool)
    requires FramingInv(s) && s.pc.HeaderSent?
    ensures FramingInv(PayloadStep(s, written, ok))
  {
    var t := PayloadStep(s, written, ok);
    PayloadKeepsMap(s, written, ok);
    if ok && !s.conns[s.pc.conn].closed {
      AcknowledgedLog(s, written);
    } else {
      BrokenOffLog(s, written, ok);
    }
    forall i | 0 <= i < |t.conns| && i != s.pc.conn ensures LogOk(t, i) {
      PayloadKeepsOthers(s, written, ok, i);
    }
  }

  lemma AckedElsewhere(acks: seq<Ack>, a: Ack, i: nat)
    requires a.conn != i
    ensures AckedOn(acks + [a], i) == AckedOn(acks, i)
  {
    assert (acks + [a])[..|acks|] == acks;
  }

  /** What the payload's write does to anything but its own connection. */
  lemma PayloadElsewhere(s: Rpc, written: nat, ok: bool, i: nat)
    requires HeldOk(s) && s.pc.HeaderSent? && i < |s.conns| && i != s.pc.conn
    ensures var t := PayloadStep(s, written, ok);
            && |t.conns| == |s.conns| && t.conns[i] == s.conns[i] && !t.pc.HeaderSent?
            && (i in t.cuts <==> i in s.cuts) && (i in s.cuts ==> t.cuts[i] == s.cuts[i])
            && (t.acks == s.acks || t.acks == s.acks + [Ack(s.pc.conn, s.pc.payload)])
  {
  }

  lemma PayloadKeepsOthers(s: Rpc, written: nat, ok: bool, i: nat)
    requires HeldOk(s) && s.pc.HeaderSent? && i < |s.conns| && i != s.pc.conn && LogOk(s, i)
    ensures LogOk(PayloadStep(s, written, ok), i)
  {
    var t := PayloadStep(s, written, ok);
    PayloadElsewhere(s, written, ok, i);
    AckedElsewhere(s.acks, Ack(s.pc.conn, s.pc.payload), i);
    OtherPieces(s, t, i);
    SameLog(s, t, i);
  }

  /** What is broken off, or begun, elsewhere is no piece on connection i. */
  lemma OtherPieces(s: Rpc, t: Rpc, i: nat)
    requires i in t.cuts <==> i in s.cuts
    requires i in s.cuts ==> t.cuts[i] == s.cuts[i]
    requires (s.pc.HeaderSent? ==> s.pc.conn != i) && (t.pc.HeaderSent? ==> t.pc.conn != i)
    ensures Piece(Pieces(t), i) == Piece(Pieces(s), i)
  {
  }

  lemma OtherKeepsFraming(s: Rpc, e: Event)
    requires FramingInv(s) && (e.Begin? || e.Discover? || e.Return? || e.Lock? || e.Unlock?)
    ensures FramingInv(Apply(s, e))
  {
    var t := Apply(s, e);
    forall i | 0 <= i < |t.conns| ensures LogOk(t, i) {
      SameLog(s, t, i);
    }
  }

  lemma StepKeepsFraming(s: Rpc, e: Event)
    requires FramingInv(s)
    ensures FramingInv(Apply(s, e))
  {
    match e {
      case Dial(ok) => if s.pc.Trying? { DialKeepsFraming(s, ok); }
      case WriteHeader(written, ok) => if s.pc.Connected? { HeaderKeepsFraming(s, written, ok); }
      case WritePayload(written, ok) => if s.pc.HeaderSent? { PayloadKeepsFraming(s, written, ok); }
      case _ => OtherKeepsFraming(s, e);
    }
  }

  lemma {:induction false} RunKeepsFraming(es: seq<Event>)
    ensures FramingInv(Run(Init, es))
  {
    if es != [] {
      RunKeepsFraming(es[..|es| - 1]);
      StepKeepsFraming(Run(Init, es[..|es| - 1]), es[|es| - 1]);
    }
  }

  /** The piece is a whole frame, so the receiver takes it for a message. */
  predicate Complete(pieces: map<nat, Cut>, i: nat) {
    i in pieces && pieces[i].sent == |Frame(pieces[i].payload)|
  }

  /** Everything that was written on connection i has a length that fits the header. */
  ghost predicate LengthsFit(s: Rpc, i: nat) {
    && (forall p | p in AckedOn(s.acks, i) :: |p| < TWO_32)
    && (i in Pieces(s) ==> |Pieces(s)[i].payload| < TWO_32)
  }

  /** What the receiver of connection i gets. */
  lemma LogIsFramed(s: Rpc, i: nat)
    requires FramingInv(s) && i < |s.conns| && LengthsFit(s, i)
    ensures Parse(s.conns[i].log) ==
            if Complete(Pieces(s), i) then Parsed(AckedOn(s.acks, i) + [Pieces(s)[i].payload], [])
            else Parsed(AckedOn(s.acks, i), Piece(Pieces(s), i))
  {
    var whole, piece := AckedOn(s.acks, i), Piece(Pieces(s), i);
    assert LogOk(s, i);
    ParseStream(whole, piece);
    if i in Pieces(s) {
      var c := Pieces(s)[i];
      if Complete(Pieces(s), i) {
        assert piece == Frame(c.payload);
        FrameSurvivesIffItFits(c.payload);
      } else {
        CutFrameIsNoMessage(c.payload, c.sent);
        assert whole + [] == whole;
      }
    } else {
      assert Parse([]) == Parsed([], []) && whole + [] == whole;
    }
  }

  lemma {:induction false} AckedIsBegun(acks: seq<Ack>, i: nat, begun: seq<Bytes>)
    requires forall k | k in acks :: k.payload in begun
    ensures forall p | p in AckedOn(acks, i) :: p in begun
  {
    if acks != [] {
      AckedIsBegun(acks[..|acks| - 1], i, begun);
    }
  }

  /**
    In every run the bytes on a connection are exactly the frames acknowledged on it and at most
    one piece: the beginning of the frame of one payload whose delivery was begun, left by a failed
    write or by a header just written. A connection in the map has no piece but the latter.
   */
  lemma {:induction false} FramesSurvive(es: seq<Event>, i: nat)
    requires i < |Run(Init, es).conns|
    ensures var s := Run(Init, es);
            var pieces := Pieces(s);
            && s.conns[i].log == Stream(AckedOn(s.acks, i)) + Piece(pieces, i)
            && (i in pieces ==> pieces[i].payload in s.begun && Piece(pieces, i) <= Frame(pieces[i].payload))
            && (forall p | p in AckedOn(s.acks, i) :: p in s.begun)
            && (i in s.connectionMap.Values && !(s.pc.HeaderSent? && s.pc.conn == i) ==> i !in pieces)
  {
    var s := Run(Init, es);
    RunKeepsFraming(es);
    assert LogOk(s, i);
    AckedIsBegun(s.acks, i, s.begun);
  }

  /**
    While lengths fit the header, the receiver of a connection gets exactly the payloads
    acknowledged on it, and the payload of the piece if and only if all of its frame went out.
   */
  lemma {:induction false} ReceivedOnConnection(es: seq<Event>, i: nat)
    requires i < |Run(Init, es).conns| && LengthsFit(Run(Init, es), i)
    ensures var s := Run(Init, es);
            Parse(s.conns[i].log) ==
            if Complete(Pieces(s), i) then Parsed(AckedOn(s.acks, i) + [Pieces(s)[i].payload], [])
            else Parsed(AckedOn(s.acks, i), Piece(Pieces(s), i))
  {
    RunKeepsFraming(es);
    LogIsFramed(Run(Init, es), i);
  }

  // ---- what all receivers get ----

  function Sum(xs: seq<multiset<Bytes>>, n: nat): multiset<Bytes>
    requires n <= |xs|
  {
    if n == 0 then multiset{} else Sum(xs, n - 1) + xs[n - 1]
  }

  lemma {:induction false} SumAdds(xs: seq<multiset<Bytes>>, a: seq<multiset<Bytes>>, b: seq<multiset<Bytes>>, n: nat)
    requires n <= |xs| == |a| == |b|
    requires forall i | 0 <= i < |xs| :: xs[i] == a[i] + b[i]
    ensures Sum(xs, n) == Sum(a, n) + Sum(b, n)
  {
    if n > 0 {
      SumAdds(xs, a, b, n - 1);
      Regroup(Sum(a, n - 1), Sum(b, n - 1), a[n - 1], b[n - 1]);
    }
  }

  lemma Regroup<T>(a: multiset<T>, b: multiset<T>, c: multiset<T>, d: multiset<T>)
    ensures (a + b) + (c + d) == (a + c) + (b + d)
  {
  }

  /** What the receiver of each connection gets. */
  function ReceivedOnEach(conns: seq<Conn>): seq<multiset<Bytes>> {
    seq(|conns|, i requires 0 <= i < |conns| => multiset(Parse(conns[i].log).payloads))
  }

  function AckedOnEach(acks: seq<Ack>, n: nat): seq<multiset<Bytes>> {
    seq(n, i requires 0 <= i < n => multiset(AckedOn(acks, i)))
  }

  /** The payloads whose frame went out whole without an acknowledgement, on each connection. */
  function CompletedOnEach(pieces: map<nat, Cut>, n: nat): seq<multiset<Bytes>> {
    seq(n, i requires 0 <= i < n => if Complete(pieces, i) then multiset{pieces[i].payload} else multiset{})
  }

  /** Everything received on all connections. */
  function Received(s: Rpc): multiset<Bytes> {
    Sum(ReceivedOnEach(s.conns), |s.conns|)
  }

  /** Everything whose frame went out whole without an acknowledgement. */
  function Completed(s: Rpc): multiset<Bytes> {
    Sum(CompletedOnEach(Pieces(s), |s.conns|), |s.conns|)
  }

  function Payloads(acks: seq<Ack>): seq<Bytes> {
    if acks == [] then [] else Payloads(acks[..|acks| - 1]) + [acks[|acks| - 1].payload]
  }

  /** What the last acknowledgement adds, on each connection. */
  function LastOnEach(a: Ack, n: nat): seq<multiset<Bytes>> {
    seq(n, i requires 0 <= i < n => if i == a.conn then multiset{a.payload} else multiset{})
  }

  lemma {:induction false} SumOfLast(a: Ack, size: nat, n: nat)
    requires n <= size
    ensures Sum(LastOnEach(a, size), n) == if a.conn < n then multiset{a.payload} else multiset{}
  {
    if n > 0 {
      SumOfLast(a, size, n - 1);
    }
  }

  lemma OneMoreAckedOn(acks: seq<Ack>, i: nat)
    requires acks != []
    ensures var last := acks[|acks| - 1];
            multiset(AckedOn(acks, i)) == multiset(AckedOn(acks[..|acks| - 1], i))
              + (if i == last.conn then multiset{last.payload} else multiset{})
  {
  }

  /** Adding one acknowledgement adds its payload on its connection. */
  lemma OneMoreAck(acks: seq<Ack>, n: nat)
    requires acks != [] && acks[|acks| - 1].conn < n
    ensures Sum(AckedOnEach(acks, n), n)
         == Sum(AckedOnEach(acks[..|acks| - 1], n), n) + multiset{acks[|acks| - 1].payload}
  {
    var all, front, last := AckedOnEach(acks, n), AckedOnEach(acks[..|acks| - 1], n), LastOnEach(acks[|acks| - 1], n);
    forall i | 0 <= i < n ensures all[i] == front[i] + last[i] {
      OneMoreAckedOn(acks, i);
    }
    SumAdds(all, front, last, n);
    SumOfLast(acks[|acks| - 1], n, n);
  }

  lemma {:induction false} NoAcks(size: nat, n: nat)
    requires n <= size
    ensures Sum(AckedOnEach([], size), n) == multiset{}
  {
    if n > 0 {
      NoAcks(size, n - 1);
    }
  }

  lemma {:induction false} AckedAll(acks: seq<Ack>, n: nat)
    requires forall k | k in acks :: k.conn < n
    ensures Sum(AckedOnEach(acks, n), n) == multiset(Payloads(acks))
  {
    if acks == [] {
      NoAcks(n, n);
    } else {
      AckedAll(acks[..|acks| - 1], n);
      OneMoreAck(acks, n);
    }
  }

  /**
    In every run, what all receivers together get is each acknowledged payload once, and beyond
    that exactly the payloads of writes that failed after the whole frame had gone out.
   */
  lemma {:induction false} ReceivedExactly(es: seq<Event>)
    requires forall p | p in Run(Init, es).begun :: |p| < TWO_32
    ensures var s := Run(Init, es);
            Received(s) == multiset(Payloads(s.acks)) + Completed(s)
  {
    RunKeepsFraming(es);
    ReceivedIn(Run(Init, es));
  }

  lemma ReceivedIn(s: Rpc)
    requires FramingInv(s) && forall p | p in s.begun :: |p| < TWO_32
    ensures Received(s) == multiset(Payloads(s.acks)) + Completed(s)
  {
    var n := |s.conns|;
    var got, acked, completed := ReceivedOnEach(s.conns), AckedOnEach(s.acks, n), CompletedOnEach(Pieces(s), n);
    forall i | 0 <= i < n ensures got[i] == acked[i] + completed[i] {
      ReceivedOn(s, i);
    }
    SumAdds(got, acked, completed, n);
    AckedAll(s.acks, n);
  }

  lemma ReceivedOn(s: Rpc, i: nat)
    requires FramingInv(s) && i < |s.conns| && forall p | p in s.begun :: |p| < TWO_32
    ensures ReceivedOnEach(s.conns)[i] == AckedOnEach(s.acks, |s.conns|)[i] + CompletedOnEach(Pieces(s), |s.conns|)[i]
  {
    AckedIsBegun(s.acks, i, s.begun);
    LogIsFramed(s, i);
  }

  // ---- retries ----

  ghost predicate TrialInv(s: Rpc) {
    match s.pc
    case Idle => true
    case Finished(payload, addresses, ok) =>
      if ok then
        && s.failed < s.budget
        && |s.acks| == s.acksBefore + 1
        && addresses != [] && AddressOf(addresses) in s.connectionMap
        && s.acks[s.acksBefore] == Ack(s.connectionMap[AddressOf(addresses)], payload)
      else
        && |s.acks| == s.acksBefore
        && (if addresses == [] then s.failed == 0 else s.failed == s.budget)
        && (addresses != [] && s.budget > 0 ==> AddressOf(addresses) !in s.connectionMap)
    case _ => |s.acks| == s.acksBefore && s.failed + s.pc.left == s.budget
  }

  lemma StepKeepsTrial(s: Rpc, e: Event)
    requires HeldOk(s) && TrialInv(s)
    ensures TrialInv(Apply(s, e))
  {
  }

  lemma {:induction false} RunKeepsTrial(es: seq<Event>)
    ensures TrialInv(Run(Init, es))
  {
    if es != [] {
      RunKeepsTrial(es[..|es| - 1]);
      RunKeepsFraming(es[..|es| - 1]);
      StepKeepsTrial(Run(Init, es[..|es| - 1]), es[|es| - 1]);
    }
  }

  /**
    When trySend has returned, under any interference: it failed at most budget times; true means
    that exactly one payload was acknowledged since it began, its own, on the connection the map
    still holds for the address; false means nothing was acknowledged and the address that was
    tried has no connection in the map.
   */
  lemma RetryOutcome(es: seq<Event>)
    requires Run(Init, es).pc.Finished?
    ensures var s := Run(Init, es);
            var Finished(payload, addresses, ok) := s.pc;
            && s.failed <= s.budget
            && (ok ==>
                  && addresses != [] && AddressOf(addresses) in s.connectionMap && s.failed < s.budget
                  && |s.acks| == s.acksBefore + 1
                  && s.acks[s.acksBefore] == Ack(s.connectionMap[AddressOf(addresses)], payload))
            && (!ok ==> |s.acks| == s.acksBefore)
            && (!ok && addresses != [] && s.budget > 0 ==>
                  s.failed == s.budget && AddressOf(addresses) !in s.connectionMap)
  {
    RunKeepsTrial(es);
  }

  // ---- connections ----

  /** Every open connection is in the map, and every connection broken off is closed. */
  ghost predicate NoLeaks(s: Rpc) {
    && (forall i | 0 <= i < |s.conns| && !s.conns[i].closed :: i in s.connectionMap.Values)
    && (forall i | i in s.cuts && i < |s.conns| :: s.conns[i].closed)
  }

  lemma DialKeepsNoLeaks(s: Rpc, ok: bool)
    requires NoLeaks(s) && s.pc.Trying? && Ready(s) && MapOk(s)
    ensures NoLeaks(DialStep(s, ok))
  {
    var t := DialStep(s, ok);
    var address := AddressOf(s.pc.addresses);
    forall i | 0 <= i < |t.conns| && !t.conns[i].closed ensures i in t.connectionMap.Values {
      if i < |s.conns| {
        var a :| a in s.connectionMap && s.connectionMap[a] == i;
        assert a in t.connectionMap && t.connectionMap[a] == i;
      } else {
        assert t.connectionMap[address] == i;
      }
    }
  }

  /** Giving up connection i, which the map has for the address, leaves no connection open without an entry. */
  lemma BreakOffKeepsNoLeaks(s: Rpc, i: nat, payload: Bytes, addresses: seq<string>, left: nat, sent: nat)
    requires NoLeaks(s) && addresses != [] && left > 0 && i < |s.conns|
    requires AddressOf(addresses) in s.connectionMap && s.connectionMap[AddressOf(addresses)] == i
    ensures NoLeaks(BreakOff(s, i, payload, addresses, left, sent))
  {
    var t := BreakOff(s, i, payload, addresses, left, sent);
    forall j | 0 <= j < |t.conns| && !t.conns[j].closed ensures j in t.connectionMap.Values {
      var a :| a in s.connectionMap && s.connectionMap[a] == j;
      assert a in t.connectionMap && t.connectionMap[a] == j;
    }
  }

  lemma WriteKeepsNoLeaks(s: Rpc, e: Event)
    requires NoLeaks(s) && HeldOk(s) && ((s.pc.Connected? && e.WriteHeader?) || (s.pc.HeaderSent? && e.WritePayload?))
    ensures NoLeaks(Apply(s, e))
  {
    var i := s.pc.conn;
    var data := if e.WriteHeader? then Header(|s.pc.payload|) else s.pc.payload;
    var wrote := s.(conns := s.conns[i := Write(s.conns[i], data, e.written, e.ok)]);
    assert NoLeaks(wrote);
    var sent := (if e.WriteHeader? then 0 else 4) + Went(s.conns[i], data, e.written, e.ok);
    BreakOffKeepsNoLeaks(wrote, i, s.pc.payload, s.pc.addresses, s.pc.left, sent);
  }

  lemma StepKeepsNoLeaks(s: Rpc, e: Event)
    requires NoLeaks(s) && FramingInv(s)
    ensures NoLeaks(Apply(s, e))
  {
    match e {
      case Dial(ok) => if s.pc.Trying? { DialKeepsNoLeaks(s, ok); }
      case WriteHeader(_, _) => if s.pc.Connected? { WriteKeepsNoLeaks(s, e); }
      case WritePayload(_, _) => if s.pc.HeaderSent? { WriteKeepsNoLeaks(s, e); }
      case _ =>
    }
  }

  /**
    In every run each connection that is open can be reused, since the map has it for some address,
    and each connection that a failed write broke off is closed.
   */
  lemma {:induction false} OpenConnectionsAreInTheMap(es: seq<Event>)
    ensures NoLeaks(Run(Init, es))
  {
    if es != [] {
      RunKeepsFraming(es[..|es| - 1]);
      OpenConnectionsAreInTheMap(es[..|es| - 1]);
      StepKeepsNoLeaks(Run(Init, es[..|es| - 1]), es[|es| - 1]);
    }
  }

  /**
    A delivery to an address with an open connection goes out on that connection, whatever a dial
    would give: no connection is made, the map stays, and the frame is acknowledged there. The
    address is the one at index 1 modulo the number of addresses.
   */
  lemma CachedConnectionIsReused(s: Rpc, p: Bytes, n: nat, d: bool)
    requires FramingInv(s) && s.pc.Idle? && !s.locked && n > 0 && s.availableAddresses != []
    requires var a := s.availableAddresses[1 % |s.availableAddresses|];
             a in s.connectionMap && !s.conns[s.connectionMap[a]].closed
    ensures var a := s.availableAddresses[1 % |s.availableAddresses|];
            var c := s.connectionMap[a];
            var t := Apply(Apply(Apply(Apply(s, Begin(p, n)), Dial(d)), WriteHeader(0, true)), WritePayload(0, true));
            && t.conns == s.conns[c := s.conns[c].(log := s.conns[c].log + Frame(p))]
            && t.connectionMap == s.connectionMap && t.acks == s.acks + [Ack(c, p)]
            && t.pc == Finished(p, s.availableAddresses, true) && t.failed == 0
  {
    var a := s.availableAddresses[1 % |s.availableAddresses|];
    var c := s.connectionMap[a];
    var u := Apply(Apply(s, Begin(p, n)), Dial(d));
    assert u.pc == Connected(p, s.availableAddresses, n, c) && u.conns == s.conns;
    AppendBoth(s.conns[c].log, Header(|p|), p);
  }

  lemma AppendBoth(log: Bytes, header: Bytes, p: Bytes)
    ensures (log + header[..|header|]) + p[..|p|] == log + (header + p)
  {
  }

  /** Without a connection for the address one is dialled, and kept; if that fails the attempt has failed. */
  lemma MissingConnectionIsDialled(s: Rpc, p: Bytes, n: nat, d: bool)
    requires s.pc.Idle? && !s.locked && n > 0 && s.availableAddresses != []
    requires s.availableAddresses[1 % |s.availableAddresses|] !in s.connectionMap
    ensures var a := s.availableAddresses[1 % |s.availableAddresses|];
            var t := Apply(Apply(s, Begin(p, n)), Dial(d));
            if d then
              && t.conns == s.conns + [Conn([], false)] && t.connectionMap == s.connectionMap[a := |s.conns|]
              && t.pc == Connected(p, s.availableAddresses, n, |s.conns|)
            else
              && t.conns == s.conns && t.connectionMap == s.connectionMap && t.failed == 1
              && t.pc == if n == 1 then Finished(p, s.availableAddresses, false)
                         else Trying(p, s.availableAddresses, n - 1)
  {
  }

  /**
    Under its lock a pass of discovery takes the new addresses over and closes exactly the
    connections that the map has for an address that is not known; the map keeps them.
   */
  lemma DiscoveryClosesTheUnknown(s: Rpc, addresses: seq<string>, known: set<string>, i: nat)
    requires s.locked && i < |s.conns|
    ensures var t := Apply(s, Discover(addresses, known));
            var unknown := exists a :: a in s.connectionMap && a !in known && s.connectionMap[a] == i;
            && t.availableAddresses == addresses && t.connectionMap == s.connectionMap && |t.conns| == |s.conns|
            && t.conns[i] == (if unknown then s.conns[i].(closed := true) else s.conns[i])
            && t.pc == s.pc && t.acks == s.acks
  {
  }

  /** A failed write on an open connection may leave any part of the data, from nothing to all of it. */
  lemma WriteLeavesAnyPrefix(s: Rpc, written: nat)
    requires FramingInv(s) && s.pc.HeaderSent? && !s.conns[s.pc.conn].closed && written <= |s.pc.payload|
    ensures var t := PayloadStep(s, written, false);
            t.conns[s.pc.conn] == Conn(s.conns[s.pc.conn].log + s.pc.payload[..written], true)
  {
  }

  // ---- the copied lock ----

  lemma {:induction false} BlockedStays(s: Rpc, more: seq<Event>)
    requires s.pc.Blocked?
    ensures Run(s, more).pc == s.pc
  {
    if more != [] {
      BlockedStays(s, more[..|more| - 1]);
    }
  }

  lemma {:induction false} RunSplit(s: Rpc, es: seq<Event>, fs: seq<Event>)
    ensures Run(s, es + fs) == Run(Run(s, es), fs)
  {
    if fs == [] {
      assert es + fs == es;
    } else {
      RunSplit(s, es, fs[..|fs| - 1]);
      assert (es + fs)[..|es + fs| - 1] == es + fs[..|fs| - 1];
    }
  }

  /** The next attempt can fail, at the dial or, on a cached connection, at the first write. */
  lemma AttemptCanFail(s: Rpc)
    requires FramingInv(s) && s.pc.Trying?
    ensures var t := Apply(Apply(s, Dial(false)), WriteHeader(0, false));
            && FramingInv(t)
            && t.pc == if s.pc.left == 1 then Finished(s.pc.payload, s.pc.addresses, false)
                       else Trying(s.pc.payload, s.pc.addresses, s.pc.left - 1)
  {
    StepKeepsFraming(s, Dial(false));
    StepKeepsFraming(Apply(s, Dial(false)), WriteHeader(0, false));
  }

  /** A delivery that is trying can come to an end. */
  lemma {:induction false} TryingCanEnd(s: Rpc) returns (more: seq<Event>)
    requires FramingInv(s) && s.pc.Trying?
    ensures Run(s, more).pc.Finished? && forall e | e in more :: e.Dial? || e.WriteHeader?
    decreases s.pc.left
  {
    var once := [] + [Dial(false)] + [WriteHeader(0, false)];
    RunBack(s, [], Dial(false));
    RunBack(s, [] + [Dial(false)], WriteHeader(0, false));
    AttemptCanFail(s);
    more := once;
    if s.pc.left > 1 {
      var rest := TryingCanEnd(Run(s, once));
      more := once + rest;
      RunSplit(s, once, rest);
    }
  }

  /** In no continuation does the delivery return. */
  ghost predicate NeverReturns(s: Rpc) {
    forall more :: !Run(s, more).pc.Finished?
  }

  /**
    A delivery with attempts to make never returns, in any continuation, if and only if discovery
    held its lock when the delivery began.
   */
  lemma {:induction false} DeliveryBlocksIff(es: seq<Event>, payload: Bytes, n: nat)
    requires Run(Init, es).pc.Idle? && n > 0
    ensures NeverReturns(Apply(Run(Init, es), Begin(payload, n))) <==> Run(Init, es).locked
  {
    var s := Run(Init, es);
    var t := Apply(s, Begin(payload, n));
    if s.locked {
      forall more ensures !Run(t, more).pc.Finished? {
        BlockedStays(t, more);
      }
    } else if t.pc.Trying? {
      RunKeepsFraming(es);
      StepKeepsFraming(s, Begin(payload, n));
      var more := TryingCanEnd(t);
    } else {
      assert Run(t, []).pc.Finished?;
    }
  }

  // ---- what a failed attempt may already have delivered ----

  /**
    When the payload write fails on an open connection, the receiver nevertheless gets the
    payload exactly if all its bytes went out; the sender will then send it again.
   */
  lemma {:induction false} FailedWriteDeliversIffComplete(s: Rpc, written: nat)
    requires FramingInv(s) && s.pc.HeaderSent? && !s.conns[s.pc.conn].closed && LengthsFit(s, s.pc.conn)
    ensures var t := PayloadStep(s, written, false);
            && t.acks == s.acks
            && Parse(t.conns[s.pc.conn].log).payloads ==
               AckedOn(s.acks, s.pc.conn) + (if written >= |s.pc.payload| then [s.pc.payload] else [])
  {
    PayloadKeepsFraming(s, written, false);
    LogIsFramed(PayloadStep(s, written, false), s.pc.conn);
  }

  /** k attempts that each get the whole frame out and then fail. */
  function Failures(p: Bytes, k: nat): seq<Event> {
    if k == 0 then []
    else Failures(p, k - 1) + [Dial(true), WriteHeader(0, true), WritePayload(|p|, false)]
  }

  function FailedCuts(p: Bytes, k: nat): (cuts: map<nat, Cut>)
    ensures forall i: nat :: i in cuts <==> i < k
    ensures forall i | i in cuts :: cuts[i] == Cut(p, |Frame(p)|)
  {
    if k == 0 then map[] else FailedCuts(p, k - 1)[k - 1 := Cut(p, |Frame(p)|)]
  }

  /** The one delivery of p to address a, with n attempts of which k have failed like that. */
  function AfterFailures(a: string, p: Bytes, n: nat, k: nat): Rpc
    requires k <= n
  {
    Rpc(seq(k, i => Conn(Frame(p), true)), map[], [a], false,
        if k == n then Finished(p, [a], false) else Trying(p, [a], n - k),
        [], 0, n, k, [p], FailedCuts(p, k))
  }

  lemma OneFailure(a: string, p: Bytes, n: nat, k: nat)
    requires k < n
    ensures var s := AfterFailures(a, p, n, k);
            Apply(Apply(Apply(s, Dial(true)), WriteHeader(0, true)), WritePayload(|p|, false))
            == AfterFailures(a, p, n, k + 1)
  {
    var s := AfterFailures(a, p, n, k);
    var u := Apply(Apply(s, Dial(true)), WriteHeader(0, true));
    assert [] + Header(|p|)[..4] == Header(|p|);
    assert u.conns == s.conns + [Conn(Header(|p|), false)] && u.connectionMap == map[a := k];
    assert u.pc == HeaderSent(p, [a], n - k, k);
    var t := Apply(u, WritePayload(|p|, false));
    assert Header(|p|) + p[..|p|] == Frame(p);
    assert t.conns == s.conns + [Conn(Frame(p), true)];
    assert t.connectionMap == map[];
  }

  /** Discovery finds the address a, and a delivery of p begins. */
  function Start(a: string, p: Bytes, n: nat): seq<Event> {
    [Lock, Discover([a], {a}), Unlock, Begin(p, n)]
  }

  lemma {:induction false} RunStart(a: string, p: Bytes, n: nat)
    requires 0 < n
    ensures Run(Init, Start(a, p, n)) == AfterFailures(a, p, n, 0)
  {
    assert Start(a, p, n) == ([] + [Lock, Discover([a], {a}), Unlock]) + [Begin(p, n)];
    RunThree(Init, [], Lock, Discover([a], {a}), Unlock);
    RunBack(Init, [] + [Lock, Discover([a], {a}), Unlock], Begin(p, n));
    assert DiscoverStep(Init.(locked := true), [a], {a}).conns == [];
  }

  lemma {:induction false} RunFailures(a: string, p: Bytes, n: nat, k: nat)
    requires 0 < n && k <= n
    ensures Run(Init, Start(a, p, n) + Failures(p, k)) == AfterFailures(a, p, n, k)
  {
    var start := Start(a, p, n);
    if k == 0 {
      RunStart(a, p, n);
      assert start + Failures(p, 0) == start;
    } else {
      RunFailures(a, p, n, k - 1);
      assert start + Failures(p, k)
          == (start + Failures(p, k - 1)) + [Dial(true), WriteHeader(0, true), WritePayload(|p|, false)];
      FailOnceMore(a, p, n, k - 1, start + Failures(p, k - 1));
    }
  }

  lemma {:induction false} FailOnceMore(a: string, p: Bytes, n: nat, k: nat, es: seq<Event>)
    requires k < n && Run(Init, es) == AfterFailures(a, p, n, k)
    ensures Run(Init, es + [Dial(true), WriteHeader(0, true), WritePayload(|p|, false)])
         == AfterFailures(a, p, n, k + 1)
  {
    RunThree(Init, es, Dial(true), WriteHeader(0, true), WritePayload(|p|, false));
    OneFailure(a, p, n, k);
  }

  lemma {:induction false} RunThree(s: Rpc, es: seq<Event>, e: Event, f: Event, g: Event)
    ensures Run(s, es + [e, f, g]) == Apply(Apply(Apply(Run(s, es), e), f), g)
  {
    assert es + [e, f, g] == es + [e] + [f] + [g];
    RunBack(s, es, e);
    RunBack(s, es + [e], f);
    RunBack(s, es + [e] + [f], g);
  }

  lemma {:induction false} CompletedByFailures(p: Bytes, k: nat, size: nat, j: nat)
    requires j <= size && j <= k
    ensures Sum(CompletedOnEach(FailedCuts(p, k), size), j)[p] == j
  {
    if j > 0 {
      CompletedByFailures(p, k, size, j - 1);
    }
  }

  /** A delivery that is given up after n attempts may have been received n times over. */
  lemma {:induction false} LostButReceived(a: string, p: Bytes, n: nat)
    requires 0 < n && |p| < TWO_32
    ensures var s := Run(Init, Start(a, p, n) + Failures(p, n));
            && s.pc == Finished(p, [a], false) && s.acks == [] && s.begun == [p]
            && Received(s)[p] == n
  {
    RunFailures(a, p, n, n);
    ReceivedExactly(Start(a, p, n) + Failures(p, n));
    CompletedByFailures(p, n, n, n);
  }

  /** k such failures, and then a success. */
  function FailuresThenSuccess(a: string, p: Bytes, n: nat, k: nat): seq<Event> {
    Start(a, p, n) + Failures(p, k) + [Dial(true), WriteHeader(0, true), WritePayload(0, true)]
  }

  lemma {:induction false} RunSuccess(a: string, p: Bytes, n: nat, k: nat)
    requires k < n
    ensures var s := Run(Init, FailuresThenSuccess(a, p, n, k));
            && s.pc == Finished(p, [a], true) && s.acks == [Ack(k, p)] && s.begun == [p]
            && s.cuts == FailedCuts(p, k) && |s.conns| == k + 1
  {
    var es := Start(a, p, n) + Failures(p, k);
    RunFailures(a, p, n, k);
    RunThree(Init, es, Dial(true), WriteHeader(0, true), WritePayload(0, true));
    SuccessAfter(a, p, n, k);
  }

  /** A delivery that succeeds after k such failures is received k + 1 times. */
  lemma {:induction false} ReceivedAgain(a: string, p: Bytes, n: nat, k: nat)
    requires k < n && |p| < TWO_32
    ensures var s := Run(Init, FailuresThenSuccess(a, p, n, k));
            && s.pc == Finished(p, [a], true) && s.acks == [Ack(k, p)] && s.begun == [p]
            && Received(s)[p] == k + 1
  {
    RunSuccess(a, p, n, k);
    ReceivedExactly(FailuresThenSuccess(a, p, n, k));
    LastNotCompleted(p, k);
    OnePayload(Ack(k, p));
  }

  lemma OnePayload(a: Ack)
    ensures Payloads([a]) == [a.payload]
  {
    assert [a][..0] == [];
  }

  lemma LastNotCompleted(p: Bytes, k: nat)
    ensures Sum(CompletedOnEach(FailedCuts(p, k), k + 1), k + 1)[p] == k
  {
    CompletedByFailures(p, k, k + 1, k);
  }

  lemma SuccessAfter(a: string, p: Bytes, n: nat, k: nat)
    requires k < n
    ensures var s := AfterFailures(a, p, n, k);
            var t := Apply(Apply(Apply(s, Dial(true)), WriteHeader(0, true)), WritePayload(0, true));
            && t.pc == Finished(p, [a], true) && t.acks == [Ack(k, p)] && t.begun == [p]
            && t.cuts == s.cuts && |t.conns| == k + 1
  {
    var s := AfterFailures(a, p, n, k);
    var u := Apply(Apply(s, Dial(true)), WriteHeader(0, true));
    assert u.pc == HeaderSent(p, [a], n - k, k);
  }

  // ---- the sender itself ----

  /** How the network treats one attempt. */
  datatype Fortune = Fortune(dialOk: bool, headerWritten: nat, headerOk: bool, payloadWritten: nat, payloadOk: bool)

  function Attempt(s: Rpc, f: Fortune): Rpc {
    Apply(Apply(Apply(s, Dial(f.dialOk)), WriteHeader(f.headerWritten, f.headerOk)),
          WritePayload(f.payloadWritten, f.payloadOk))
  }

  /** The attempts of one delivery, one after the other; there are none after a success. */
  function Attempts(s: Rpc, fortunes: seq<Fortune>): Rpc {
    if fortunes == [] then s else Attempt(Attempts(s, fortunes[..|fortunes| - 1]), fortunes[|fortunes| - 1])
  }

  lemma RunBack(s: Rpc, es: seq<Event>, e: Event)
    ensures Run(s, es + [e]) == Apply(Run(s, es), e)
  {
    assert (es + [e])[..|es|] == es;
  }

  /** Attempts without interference are a run. */
  lemma {:induction false} AttemptsAreARun(s: Rpc, es: seq<Event>, fortunes: seq<Fortune>)
    returns (longer: seq<Event>)
    ensures Run(s, longer) == Attempts(Run(s, es), fortunes)
  {
    if fortunes == [] {
      longer := es;
    } else {
      var f := fortunes[|fortunes| - 1];
      longer := AttemptsAreARun(s, es, fortunes[..|fortunes| - 1]);
      RunBack(s, longer, Dial(f.dialOk));
      longer := longer + [Dial(f.dialOk)];
      RunBack(s, longer, WriteHeader(f.headerWritten, f.headerOk));
      longer := longer + [WriteHeader(f.headerWritten, f.headerOk)];
      RunBack(s, longer, WritePayload(f.payloadWritten, f.payloadOk));
      longer := longer + [WritePayload(f.payloadWritten, f.payloadOk)];
    }
  }

  lemma AttemptsNext(s: Rpc, fortunes: seq<Fortune>, k: nat)
    requires k < |fortunes|
    ensures Attempts(s, fortunes[..k + 1]) == Attempt(Attempts(s, fortunes[..k]), fortunes[k])
  {
    assert fortunes[..k + 1][..k] == fortunes[..k];
  }

  lemma {:induction false} StaysFinished(s: Rpc, fortunes: seq<Fortune>, k: nat)
    requires k <= |fortunes| && Attempts(s, fortunes[..k]).pc.Finished?
    ensures Attempts(s, fortunes) == Attempts(s, fortunes[..k])
  {
    if k < |fortunes| {
      var front := fortunes[..|fortunes| - 1];
      assert front[..k] == fortunes[..k];
      StaysFinished(s, front, k);
    } else {
      assert fortunes[..k] == fortunes;
    }
  }

  /** The first success decides. */
  lemma {:induction false} AttemptSucceeded(s: Rpc, fortunes: seq<Fortune>, k: nat, t: Rpc)
    requires k < |fortunes| && t == Attempt(Attempts(s, fortunes[..k]), fortunes[k]) && t.pc.Finished?
    ensures Attempts(s, fortunes) == t
  {
    AttemptsNext(s, fortunes, k);
    StaysFinished(s, fortunes, k + 1);
  }

  ghost predicate Reachable(s: Rpc) {
    exists es :: Run(Init, es) == s
  }

  /** A delivery without interference leads from a reachable state to a reachable one. */
  lemma {:induction false} DeliveryIsReachable(s: Rpc, payload: Bytes, n: nat, fortunes: seq<Fortune>)
    requires Reachable(s)
    ensures Reachable(Attempts(Apply(s, Begin(payload, n)), fortunes))
  {
    var es :| Run(Init, es) == s;
    RunBack(Init, es, Begin(payload, n));
    var longer := AttemptsAreARun(Init, es + [Begin(payload, n)], fortunes);
  }

  /** A whole pass of discovery, with its lock taken and released. */
  function Discovered(s: Rpc, addresses: seq<string>, known: set<string>): Rpc {
    Apply(Apply(Apply(s, Lock), Discover(addresses, known)), Unlock)
  }

  /** A pass of discovery leads from a reachable state to a reachable one. */
  lemma {:induction false} DiscoveryIsReachable(s: Rpc, addresses: seq<string>, known: set<string>)
    requires Reachable(s)
    ensures Reachable(Discovered(s, addresses, known))
  {
    var es :| Run(Init, es) == s;
    RunThree(Init, es, Lock, Discover(addresses, known), Unlock);
  }

  /** The sender's fields. Its methods work on a copy of availableAddresses but share the map. */
  class RpcClient {
    var conns: seq<Conn>
    var connectionMap: map<string, nat>
    var availableAddresses: seq<string>
    ghost var acks: seq<Ack>
    ghost var acksBefore: nat
    ghost var budget: nat
    ghost var failed: nat
    ghost var begun: seq<Bytes>
    ghost var cuts: map<nat, Cut>

    constructor ()
      ensures Valid() && State(Idle) == Init
    {
      conns, connectionMap, availableAddresses := [], map[], [];
      acks, acksBefore, budget, failed, begun, cuts := [], 0, 0, 0, [], map[];
    }

    ghost function State(pc: Pc): Rpc
      reads this
    {
      Rpc(conns, connectionMap, availableAddresses, false, pc, acks, acksBefore, budget, failed, begun, cuts)
    }

    ghost predicate Valid()
      reads this
    {
      forall a | a in connectionMap :: connectionMap[a] < |conns|
    }

    /** What the sender does after an attempt that failed with left attempts to go. */
    ghost function AfterFailure(bytes: Bytes, addresses: seq<string>, left: nat): Pc
      requires left > 0
    {
      if left == 1 then Finished(bytes, addresses, false) else Trying(bytes, addresses, left - 1)
    }

    /** Looks the connection up, or dials. */
    method Connect(bytes: Bytes, addresses: seq<string>, dialOk: bool, ghost left: nat) returns (conn: nat, err: bool)
      requires Valid() && addresses != [] && left > 0
      modifies this
      ensures Valid() && availableAddresses == old(availableAddresses)
      ensures !err ==> conn < |conns|
      ensures State(if err then AfterFailure(bytes, addresses, left) else Connected(bytes, addresses, left, conn))
              == Apply(old(State(Trying(bytes, addresses, left))), Dial(dialOk))
    {
      var address := AddressOf(addresses);
      if address in connectionMap {
        return connectionMap[address], false;
      }
      connectionMap := connectionMap - {address};
      if !dialOk {
        connectionMap := connectionMap - {address};
        failed := failed + 1;
        return 0, true;
      }
      conn, err := |conns|, false;
      conns := conns + [Conn([], false)];
      connectionMap := connectionMap[address := conn];
    }

    /**
      Writes data on connection i, after the first before bytes of the payload's frame; on an error
      the connection is closed and its address dropped.
     */
    method WriteOrDiscard(address: string, i: nat, data: Bytes, written: nat, netOk: bool,
                          ghost payload: Bytes, ghost before: nat) returns (err: bool)
      requires Valid() && i < |conns|
      modifies this`conns, this`connectionMap, this`failed, this`cuts
      ensures Valid()
      ensures err <==> !netOk || old(conns)[i].closed
      ensures var wrote := old(conns)[i := Write(old(conns)[i], data, written, netOk)];
              if err then
                && conns == Close(wrote, i) && connectionMap == old(connectionMap) - {address}
                && failed == old(failed) + 1
                && cuts == old(cuts)[i := Cut(payload, before + Went(old(conns)[i], data, written, netOk))]
              else
                && conns == wrote && connectionMap == old(connectionMap)
                && failed == old(failed) && cuts == old(cuts)
    {
      err := !netOk || conns[i].closed;
      ghost var went := Went(conns[i], data, written, netOk);
      conns := conns[i := Write(conns[i], data, written, netOk)];
      if err {
        conns := conns[i := conns[i].(closed := true)];
        connectionMap := connectionMap - {address};
        failed := failed + 1;
        cuts := cuts[i := Cut(payload, before + went)];
      }
    }

    /** Writes the length, then the payload, on the connection held for the address. */
    method WriteFrame(bytes: Bytes, addresses: seq<string>, conn: nat, f: Fortune, ghost left: nat)
      returns (err: bool)
      requires Valid() && addresses != [] && left > 0 && conn < |conns|
      modifies this
      ensures Valid() && availableAddresses == old(availableAddresses)
      ensures State(if err then AfterFailure(bytes, addresses, left) else Finished(bytes, addresses, true))
              == Apply(Apply(old(State(Connected(bytes, addresses, left, conn))),
                             WriteHeader(f.headerWritten, f.headerOk)),
                       WritePayload(f.payloadWritten, f.payloadOk))
    {
      var address := AddressOf(addresses);
      err := WriteOrDiscard(address, conn, Header(|bytes|), f.headerWritten, f.headerOk, bytes, 0);
      if err {
        return;
      }
      err := WriteOrDiscard(address, conn, bytes, f.payloadWritten, f.payloadOk, bytes, 4);
      if !err {
        acks := acks + [Ack(conn, bytes)];
      }
    }

    /** One attempt: look up or dial, then write the frame. */
    method Send(bytes: Bytes, addresses: seq<string>, f: Fortune, ghost left: nat) returns (err: bool)
      requires Valid() && addresses != [] && left > 0
      modifies this
      ensures Valid() && availableAddresses == old(availableAddresses)
      ensures State(if err then AfterFailure(bytes, addresses, left) else Finished(bytes, addresses, true))
              == Attempt(old(State(Trying(bytes, addresses, left))), f)
    {
      var conn;
      conn, err := Connect(bytes, addresses, f.dialOk, left);
      if !err {
        err := WriteFrame(bytes, addresses, conn, f, left);
      }
    }

    /** Where the sender stands with n attempts left. */
    ghost function WithLeft(bytes: Bytes, addresses: seq<string>, n: nat): Pc {
      if n == 0 then Finished(bytes, addresses, false) else Trying(bytes, addresses, n)
    }

    /** One attempt after the other, until one succeeds. */
    method AttemptAll(bytes: Bytes, addresses: seq<string>, fortunes: seq<Fortune>) returns (ok: bool)
      requires Valid() && addresses != []
      modifies this
      ensures Valid() && availableAddresses == old(availableAddresses)
      ensures State(Finished(bytes, addresses, ok))
              == Attempts(old(State(WithLeft(bytes, addresses, |fortunes|))), fortunes)
    {
      var n := |fortunes|;
      ghost var start := State(WithLeft(bytes, addresses, n));
      for k := 0 to n
        invariant Valid() && availableAddresses == old(availableAddresses)
        invariant State(WithLeft(bytes, addresses, n - k)) == Attempts(start, fortunes[..k])
      {
        AttemptsNext(start, fortunes, k);
        ghost var attempted := Attempt(Attempts(start, fortunes[..k]), fortunes[k]);
        var err := Send(bytes, addresses, fortunes[k], n - k);
        if !err {
          assert State(Finished(bytes, addresses, true)) == attempted;
          AttemptSucceeded(start, fortunes, k, attempted);
          return true;
        }
      }
      assert fortunes[..n] == fortunes;
      return false;
    }

    /** Up to n attempts on the addresses known when it was called; there must be one. */
    method TrySend(bytes: Bytes, n: nat, fortunes: seq<Fortune>) returns (ok: bool)
      requires Valid() && availableAddresses != [] && |fortunes| == n
      modifies this
      ensures Valid()
      ensures State(Finished(bytes, availableAddresses, ok))
              == Attempts(Apply(old(State(Idle)), Begin(bytes, n)), fortunes)
      ensures old(Reachable(State(Idle))) ==>
                Reachable(Attempts(Apply(old(State(Idle)), Begin(bytes, n)), fortunes))
    {
      if Reachable(State(Idle)) {
        DeliveryIsReachable(State(Idle), bytes, n, fortunes);
      }
      acksBefore, budget, failed, begun := |acks|, n, 0, begun + [bytes];
      ok := AttemptAll(bytes, availableAddresses, fortunes);
    }

    /** Closes the connections of the addresses in order that are not known; the map keeps them. */
    method CloseUnknown(known: set<string>, order: seq<string>)
      requires Valid() && forall a | a in order :: a in connectionMap
      modifies this`conns
      ensures conns == CloseAll(old(conns), Stale(order, known))
    {
      ghost var before := conns;
      for i := 0 to |order|
        invariant conns == CloseAll(before, Stale(order[..i], known))
      {
        var address := order[i];
        assert order[..i + 1] == order[..i] + [address];
        assert Stale(order[..i + 1], known)
            == Stale(order[..i], known) + (if address in known then {} else {connectionMap[address]});
        if address !in known {
          var c := connectionMap[address];
          conns := conns[c := conns[c].(closed := true)];
        }
      }
      assert order[..|order|] == order;
    }

    /** The connections of those among the addresses that are not known. */
    ghost function Stale(addresses: seq<string>, known: set<string>): set<nat>
      reads this`connectionMap
    {
      set a | a in addresses && a in connectionMap && a !in known :: connectionMap[a]
    }

    /** A pass of discovery; order is that of the iteration over the map. */
    method Discover(addresses: seq<string>, known: set<string>, order: seq<string>)
      requires Valid() && Enumerates(order, connectionMap.Keys)
      modifies this`conns, this`availableAddresses
      ensures Valid()
      ensures State(Idle) == Discovered(old(State(Idle)), addresses, known)
      ensures old(Reachable(State(Idle))) ==> Reachable(Discovered(old(State(Idle)), addresses, known))
    {
      if Reachable(State(Idle)) {
        DiscoveryIsReachable(State(Idle), addresses, known);
      }
      availableAddresses := addresses;
      CloseUnknown(known, order);
      assert Stale(order, known) == set a | a in connectionMap && a !in known :: connectionMap[a];
    }
  }
}
