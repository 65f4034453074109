/**
 * The wake-up pipe between the worker threads and the UI loop. A worker
 * writes one UiRequest byte per event; the UI loop reads what is pending
 * (at most 256 bytes at a time), ORs the bytes into one request and acts
 * on each of its bits in turn.
 */
module WakeUp {
  import opened MailTypes

  /** The most bytes one wake-up reads from the pipe. */
  const PipeReadMax: nat := 256

  /** The request the UI acts on: the bytes read, OR-ed together. */
  function OrFold(buf: seq<bv8>): bv8
  {
    if |buf| == 0 then UiRequestNone else OrFold(buf[..|buf| - 1]) | buf[|buf| - 1]
  }

  /** A byte carries a bit of the mask. */
  predicate Carries(b: bv8, mask: bv8)
  {
    b & mask != 0
  }

  /** A bit of the mask is set in an OR exactly when it is set in one side. */
  lemma OrMasked(a: bv8, b: bv8, mask: bv8)
    ensures Carries(a | b, mask) <==> Carries(a, mask) || Carries(b, mask)
  {
    assert (a | b) & mask == (a & mask) | (b & mask);
  }

  /** The folded request has a bit of a mask set exactly when some byte read has one. */
  lemma {:induction false} OrFoldBits(buf: seq<bv8>, mask: bv8)
    ensures Carries(OrFold(buf), mask) <==> exists i :: 0 <= i < |buf| && Carries(buf[i], mask)
  {
    if |buf| > 0 {
      var init := buf[..|buf| - 1];
      OrFoldBits(init, mask);
      OrMasked(OrFold(init), buf[|buf| - 1], mask);
      assert forall i :: 0 <= i < |init| ==> buf[i] == init[i];
    }
  }

  /**
   * The three request kinds are distinct single bits, so folding loses no
   * kind: each kind is in the folded request exactly when a byte carrying
   * it was read, whatever else was read with it.
   */
  lemma NoKindLost(buf: seq<bv8>)
    requires forall i :: 0 <= i < |buf| ==>
      buf[i] in {UiRequestDrawAll, UiRequestDrawError, UiRequestHandleConnected}
    ensures OrFold(buf) & UiRequestDrawAll != 0 <==> UiRequestDrawAll in buf
    ensures OrFold(buf) & UiRequestDrawError != 0 <==> UiRequestDrawError in buf
    ensures OrFold(buf) & UiRequestHandleConnected != 0 <==> UiRequestHandleConnected in buf
  {
    OrFoldBits(buf, UiRequestDrawAll);
    OrFoldBits(buf, UiRequestDrawError);
    OrFoldBits(buf, UiRequestHandleConnected);
  }

  /**
   * One wake-up of the UI loop: read what is pending, up to 256 bytes, and
   * fold it. What is not read stays in the pipe for the next wake-up.
   */
  method ReadRequests(pending: seq<bv8>) returns (request: bv8, left: seq<bv8>)
    ensures var n := if |pending| < PipeReadMax then |pending| else PipeReadMax;
      request == OrFold(pending[..n]) && left == pending[n..]
  {
    var len := |pending|;
    if len > PipeReadMax {
      len := PipeReadMax;
    }
    var buf := pending[..len];
    request := UiRequestNone;
    var i := 0;
    while i < len
      invariant 0 <= i <= len
      invariant request == OrFold(buf[..i])
    {
      assert buf[..i + 1][..i] == buf[..i];
      request := request | buf[i];
      i := i + 1;
    }
    assert buf[..i] == buf;
    left := pending[len..];
  }

  /** What Ui::PerformUiRequest does for a request, in the order it does it. */
  datatype Effects<E> = Effects(drawAll: bool, shownErrors: seq<E>, errorsLeft: seq<E>, handleConnected: bool)

  /** Ui::PerformUiRequest as written: the DrawError bit shows the front of the SMTP error queue only. */
  function PerformAsWritten<E>(request: bv8, errors: seq<E>): (r: Effects<E>)
    ensures r.shownErrors + r.errorsLeft == errors
    ensures |r.shownErrors| <= 1
  {
    var shown := if request & UiRequestDrawError != 0 && |errors| > 0 then errors[..1] else [];
    assert shown + errors[|shown|..] == errors;
    Effects(request & UiRequestDrawAll != 0, shown, errors[|shown|..], request & UiRequestHandleConnected != 0)
  }

  /**
   * Two send failures reported before the UI wakes up write two DrawError
   * bytes and queue two results; the fold turns the two bytes into one bit,
   * and the second result stays queued with no request left to show it.
   */
  lemma SecondErrorStranded<E>(e1: E, e2: E)
    ensures var request := OrFold([UiRequestDrawError, UiRequestDrawError]);
      PerformAsWritten(request, [e1, e2]).shownErrors == [e1]
      && PerformAsWritten(request, [e1, e2]).errorsLeft == [e2]
  {
    assert [UiRequestDrawError, UiRequestDrawError][..1] == [UiRequestDrawError];
  }

  /** The dispatch with the DrawError bit showing every queued error, one wake-up being able to stand for several. */
  function Perform<E>(request: bv8, errors: seq<E>): (r: Effects<E>)
    ensures r.shownErrors + r.errorsLeft == errors
  {
    var shown := if request & UiRequestDrawError != 0 then errors else [];
    Effects(request & UiRequestDrawAll != 0, shown, errors[|shown|..], request & UiRequestHandleConnected != 0)
  }

  /**
   * Every queued error is shown, in queue order, by the wake-up that reads
   * any DrawError byte, and each kind of request read is acted on once.
   */
  lemma EveryErrorShown<E>(buf: seq<bv8>, errors: seq<E>)
    requires UiRequestDrawError in buf
    ensures Perform(OrFold(buf), errors).shownErrors == errors
    ensures Perform(OrFold(buf), errors).errorsLeft == []
    ensures Perform(OrFold(buf), errors).drawAll <==> exists i :: 0 <= i < |buf| && buf[i] & UiRequestDrawAll != 0
    ensures Perform(OrFold(buf), errors).handleConnected <==> exists i :: 0 <= i < |buf| && buf[i] & UiRequestHandleConnected != 0
  {
    var i :| 0 <= i < |buf| && buf[i] == UiRequestDrawError;
    OrFoldBits(buf, UiRequestDrawError);
    OrFoldBits(buf, UiRequestDrawAll);
    OrFoldBits(buf, UiRequestHandleConnected);
  }
}
