/**
 * A response body that ends its span once: at the end of the body, on an error, or when dropped.
 */
module TelemetryBody {
  import Wrappers

  const U64_MAX: nat := 0xFFFF_FFFF_FFFF_FFFF

  function SaturatingAdd(a: nat, b: nat): nat {
    if a + b <= U64_MAX then a + b else U64_MAX
  }

  /** One poll of the inner body; `last` is is_end_stream() after a frame. */
  datatype Poll = Pending | Data(length: nat, last: bool) | Trailers(last: bool) | Broken | EndOfBody

  datatype Outcome = Ok | Error | Cancelled

  /** A call of Span::finish, with the byte count attached just before it. */
  datatype Finish = Finish(outcome: Outcome, bytes: nat)

  datatype Body = Body(holdsSpan: bool, bytes: nat, status: nat, finishes: seq<Finish>)

  function StatusOutcome(status: nat): Outcome {
    if status >= 500 then Error else Ok
  }

  function Ends(p: Poll): bool {
    p.EndOfBody? || p.Broken? || ((p.Data? || p.Trailers?) && p.last)
  }

  function FinishWith(b: Body, o: Outcome): Body {
    if b.holdsSpan then b.(holdsSpan := false, finishes := b.finishes + [Finish(o, b.bytes)]) else b
  }

  function New(status: nat, empty: bool): Body {
    var b := Body(true, 0, status, []);
    if empty then FinishWith(b, StatusOutcome(status)) else b
  }

  function Polled(b: Body, p: Poll): Body {
    var counted := if p.Data? then b.(bytes := SaturatingAdd(b.bytes, p.length)) else b;
    if Ends(p) then FinishWith(counted, if p.Broken? then Error else StatusOutcome(b.status)) else counted
  }

  function Dropped(b: Body): Body {
    FinishWith(b, Cancelled)
  }

  /** The wrapper itself. */
  class TrackedBody {
    var holdsSpan: bool
    var bytes: nat
    const status: nat
    var finishes: seq<Finish>

    function View(): Body
      reads this
    {
      Body(holdsSpan, bytes, status, finishes)
    }

    constructor (status: nat, empty: bool)
      ensures View() == New(status, empty)
    {
      this.status := status;
      holdsSpan, bytes, finishes := true, 0, [];
      new;
      if empty {
        End(StatusOutcome(status));
      }
    }

    method End(o: Outcome)
      modifies this
      ensures View() == FinishWith(old(View()), o)
    {
      if holdsSpan {
        holdsSpan := false;
        finishes := finishes + [Finish(o, bytes)];
      }
    }

    method PollFrame(p: Poll)
      modifies this
      ensures View() == Polled(old(View()), p)
    {
      match p {
        case Pending =>
        case Data(length, last) =>
          bytes := SaturatingAdd(bytes, length);
          if last {
            End(StatusOutcome(status));
          }
        case Trailers(last) =>
          if last {
            End(StatusOutcome(status));
          }
        case Broken => End(Error);
        case EndOfBody => End(StatusOutcome(status));
      }
    }

    method Drop()
      modifies this
      ensures View() == Dropped(old(View()))
    {
      End(Cancelled);
    }
  }

  function PolledAll(b: Body, ps: seq<Poll>): Body
    decreases |ps|
  {
    if ps == [] then b else PolledAll(Polled(b, ps[0]), ps[1..])
  }

  /** The frames up to and including the first one that ends the body. */
  function UntilEnd(ps: seq<Poll>): seq<Poll> {
    if ps == [] then [] else if Ends(ps[0]) then [ps[0]] else [ps[0]] + UntilEnd(ps[1..])
  }

  function BytesIn(ps: seq<Poll>): nat {
    if ps == [] then 0 else (if ps[0].Data? then ps[0].length else 0) + BytesIn(ps[1..])
  }

  lemma {:induction false} FinishedStays(b: Body, ps: seq<Poll>)
    requires !b.holdsSpan
    ensures !PolledAll(b, ps).holdsSpan && PolledAll(b, ps).finishes == b.finishes
    decreases |ps|
  {
    if ps != [] {
      FinishedStays(Polled(b, ps[0]), ps[1..]);
    }
  }

  lemma {:induction false} OpenBodyEndsOnce(b: Body, ps: seq<Poll>)
    requires b.holdsSpan && b.bytes <= U64_MAX && b.finishes == []
    ensures var last := UntilEnd(ps);
      Dropped(PolledAll(b, ps)).finishes
      == [Finish(if last == [] || !Ends(last[|last| - 1]) then Cancelled
                 else if last[|last| - 1].Broken? then Error else StatusOutcome(b.status),
                 Wrappers.Min(b.bytes + BytesIn(last), U64_MAX))]
    decreases |ps|
  {
    if ps != [] {
      var next := Polled(b, ps[0]);
      if Ends(ps[0]) {
        assert UntilEnd(ps) == [ps[0]];
        assert BytesIn([ps[0]]) == (if ps[0].Data? then ps[0].length else 0) + BytesIn([]);
        FinishedStays(next, ps[1..]);
      } else {
        OpenBodyEndsOnce(next, ps[1..]);
        assert UntilEnd(ps)[1..] == UntilEnd(ps[1..]);
      }
    }
  }

  /**
   * Whatever the polls and whenever the body is dropped, the span is finished exactly once: with the
   * outcome of the first frame that ended the body, or as cancelled if none did, and with the number
   * of bytes seen until then.
   */
  lemma BodyEndsOnce(status: nat, empty: bool, ps: seq<Poll>)
    ensures var last := if empty then [] else UntilEnd(ps);
      Dropped(PolledAll(New(status, empty), ps)).finishes
      == [Finish(if empty then (if status >= 500 then Error else Ok)
                 else if last == [] || !Ends(last[|last| - 1]) then Cancelled
                 else if last[|last| - 1].Broken? then Error else (if status >= 500 then Error else Ok),
                 Wrappers.Min(BytesIn(last), U64_MAX))]
  {
    if empty {
      FinishedStays(New(status, empty), ps);
    } else {
      OpenBodyEndsOnce(New(status, empty), ps);
    }
  }
}
