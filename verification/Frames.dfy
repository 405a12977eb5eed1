/** The length-prefixed frames on a connection to a compute server, and the receiver's view. */
module Frames {
  import opened MachineInts

  /** The low 32 bits of the length, big-endian. */
  function Header(length: nat): (h: Bytes)
    ensures |h| == 4
  {
    [length / 0x100_0000 % 0x100, length / 0x1_0000 % 0x100, length / 0x100 % 0x100, length % 0x100]
  }

  function HeaderValue(h: Bytes): nat
    requires |h| == 4
  {
    h[0] as int * 0x100_0000 + h[1] as int * 0x1_0000 + h[2] as int * 0x100 + h[3] as int
  }

  lemma HeaderHoldsLength(length: nat)
    ensures HeaderValue(Header(length)) == length % TWO_32
  {
    var a := length / 0x100;
    var b := a / 0x100;
    var c := b / 0x100;
    ShiftTwice(length, 0x100);
    ShiftTwice(length, 0x1_0000);
    assert length == 0x100 * a + length % 0x100 && a == 0x100 * b + a % 0x100;
    assert b == 0x100 * c + b % 0x100 && c == 0x100 * (c / 0x100) + c % 0x100;
    LowBits(length, c / 0x100, HeaderValue(Header(length)));
  }

  /** The most significant byte of the length comes first. */
  lemma HeaderIsBigEndian(a: byte, b: byte, c: byte, d: byte)
    ensures Header(a as int * 0x100_0000 + b as int * 0x1_0000 + c as int * 0x100 + d as int) == [a, b, c, d]
  {
    var ab := a as int * 0x100 + b as int;
    var abc := ab * 0x100 + c as int;
    var length := abc * 0x100 + d as int;
    assert length / 0x100 == abc && length % 0x100 == d as int;
    assert abc / 0x100 == ab && abc % 0x100 == c as int;
    assert ab / 0x100 == a as int && ab % 0x100 == b as int;
    ShiftTwice(length, 0x100);
    ShiftTwice(length, 0x1_0000);
  }

  lemma ShiftTwice(x: nat, d: nat)
    requires d == 0x100 || d == 0x1_0000
    ensures x / (d * 0x100) == x / d / 0x100
  {
    var q := x / d / 0x100;
    assert x / d == 0x100 * q + x / d % 0x100;
  }

  lemma LowBits(x: nat, high: nat, low: nat)
    requires x == TWO_32 * high + low && low < TWO_32
    ensures x % TWO_32 == low
  {
  }

  function Frame(payload: Bytes): Bytes {
    Header(|payload|) + payload
  }

  function Stream(payloads: seq<Bytes>): Bytes {
    if payloads == [] then [] else Frame(payloads[0]) + Stream(payloads[1..])
  }

  datatype Parsed = Parsed(payloads: seq<Bytes>, rest: Bytes)

  /** Cuts off whole frames while there are any. */
  function Parse(bytes: Bytes): Parsed
    decreases |bytes|
  {
    if |bytes| < 4 then Parsed([], bytes)
    else
      var n := HeaderValue(bytes[..4]);
      if |bytes| < 4 + n then Parsed([], bytes)
      else
        var p := Parse(bytes[4 + n..]);
        Parsed([bytes[4..4 + n]] + p.payloads, p.rest)
  }

  lemma ParseFrame(payload: Bytes, more: Bytes)
    requires |payload| < TWO_32
    ensures Parse(Frame(payload) + more) == Parsed([payload] + Parse(more).payloads, Parse(more).rest)
  {
    var bytes := Frame(payload) + more;
    HeaderFits(|payload|);
    assert bytes[..4] == Header(|payload|);
    assert bytes[4..4 + |payload|] == payload;
    assert bytes[4 + |payload|..] == more;
    ParseOne(bytes, |payload|);
  }

  lemma HeaderFits(length: nat)
    requires length < TWO_32
    ensures HeaderValue(Header(length)) == length
  {
    HeaderHoldsLength(length);
  }

  lemma ParseOne(bytes: Bytes, n: nat)
    requires |bytes| >= 4 + n && HeaderValue(bytes[..4]) == n
    ensures Parse(bytes) == Parsed([bytes[4..4 + n]] + Parse(bytes[4 + n..]).payloads, Parse(bytes[4 + n..]).rest)
  {
  }

  /** The receiver of whole frames gets exactly their payloads back, each shorter than 2^32 bytes. */
  lemma {:induction false} ParseStream(payloads: seq<Bytes>, more: Bytes)
    requires forall p | p in payloads :: |p| < TWO_32
    ensures Parse(Stream(payloads) + more) == Parsed(payloads + Parse(more).payloads, Parse(more).rest)
  {
    if payloads == [] {
      assert Stream(payloads) + more == more;
    } else {
      var first, others := payloads[0], payloads[1..];
      ParseStream(others, more);
      StreamFront(payloads, more);
      ParseFrame(first, Stream(others) + more);
      ConsAppend(payloads, Parse(more).payloads);
    }
  }

  lemma ConsAppend<T>(xs: seq<T>, ys: seq<T>)
    requires xs != []
    ensures [xs[0]] + (xs[1..] + ys) == xs + ys
  {
  }

  lemma StreamFront(payloads: seq<Bytes>, more: Bytes)
    requires payloads != []
    ensures Stream(payloads) + more == Frame(payloads[0]) + (Stream(payloads[1..]) + more)
  {
  }

  /** One frame comes back as its payload exactly when the length fits the header. */
  lemma FrameSurvivesIffItFits(payload: Bytes)
    ensures Parse(Frame(payload)) == Parsed([payload], []) <==> |payload| < TWO_32
  {
    if |payload| < TWO_32 {
      ParseFrame(payload, []);
      assert Frame(payload) + [] == Frame(payload);
    } else {
      HeaderHoldsLength(|payload|);
      assert Frame(payload)[..4] == Header(|payload|);
    }
  }

  lemma {:induction false} StreamAppend(payloads: seq<Bytes>, payload: Bytes)
    ensures Stream(payloads + [payload]) == Stream(payloads) + Frame(payload)
  {
    if payloads == [] {
      assert Stream([payload]) == Frame(payload) + Stream([]);
    } else {
      StreamAppend(payloads[1..], payload);
      assert (payloads + [payload])[1..] == payloads[1..] + [payload];
    }
  }

  /** A frame that was cut short stays incomplete: the receiver never takes it for a message. */
  lemma CutFrameIsNoMessage(payload: Bytes, n: nat)
    requires |payload| < TWO_32 && n < |Frame(payload)|
    ensures Parse(Frame(payload)[..n]) == Parsed([], Frame(payload)[..n])
  {
    var cut := Frame(payload)[..n];
    if n >= 4 {
      HeaderHoldsLength(|payload|);
      assert cut[..4] == Header(|payload|);
    }
  }
}
