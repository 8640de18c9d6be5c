/** The connection writer: messages sent in windows, each opened by a flow-control message
    that grants a number of messages and bytes. */
module FlowControl {
  import opened Basics

  /** A grant, and the size of the acknowledgement that is written for it. */
  datatype Flow = Flow(messages: int, bytes: int, ack: nat)

  /** The sizes of the messages sent under one grant. */
  datatype Window = Window(flow: Flow, sent: seq<nat>)

  function Sum(xs: seq<nat>): nat
  {
    if xs == [] then 0 else Sum(xs[..|xs| - 1]) + xs[|xs| - 1]
  }

  lemma SumAppend(xs: seq<nat>, x: nat)
    ensures Sum(xs + [x]) == Sum(xs) + x
  {
  }

  /** Messages counted against the grant: the acknowledgement is one of them. */
  function Messages(w: Window): nat
  {
    1 + |w.sent|
  }

  function Bytes(w: Window): nat
  {
    w.flow.ack + Sum(w.sent)
  }

  predicate Open(w: Window)
  {
    Messages(w) < w.flow.messages && Bytes(w) < w.flow.bytes
  }

  /** Every message was sent while the window was open. */
  predicate Granted(w: Window)
  {
    forall i :: 0 <= i < |w.sent| ==> Open(Window(w.flow, w.sent[..i]))
  }

  lemma GrantedAppend(w: Window, n: nat)
    requires Granted(w) && Open(w)
    ensures Granted(w.(sent := w.sent + [n]))
  {
    var v := w.(sent := w.sent + [n]);
    forall i | 0 <= i < |v.sent|
      ensures Open(Window(v.flow, v.sent[..i]))
    {
      if i < |w.sent| {
        assert v.sent[..i] == w.sent[..i];
      } else {
        assert v.sent[..i] == w.sent;
      }
    }
  }

  function SentIn(ws: seq<Window>): seq<nat>
  {
    if ws == [] then [] else SentIn(ws[..|ws| - 1]) + ws[|ws| - 1].sent
  }

  lemma SentInLast(ws: seq<Window>, w: Window)
    ensures SentIn(ws + [w]) == SentIn(ws) + w.sent
  {
  }

  /** A granted window counts at most the granted messages, or one when none were granted, and
      exceeds the granted bytes by less than its acknowledgement or its last message. */
  lemma WindowBounds(w: Window)
    requires Granted(w)
    ensures 1 + |w.sent| <= (if w.flow.messages > 1 then w.flow.messages else 1)
    ensures w.sent != [] ==> w.flow.ack + Sum(w.sent) < w.flow.bytes + w.sent[|w.sent| - 1]
  {
  }

  /** Send what the window still allows, in order. */
  method SendWindow(flow: Flow, writeCh: seq<nat>) returns (w: Window, rest: seq<nat>)
    ensures w.flow == flow && Granted(w) && w.sent + rest == writeCh
    ensures Open(w) ==> rest == []
    ensures rest != [] ==> 1 + |w.sent| >= flow.messages || flow.ack + Sum(w.sent) >= flow.bytes
  {
    var msgsSentThisWindow: nat, bytesSentThisWindow: nat := 1, flow.ack;
    w, rest := Window(flow, []), writeCh;
    while msgsSentThisWindow < flow.messages && bytesSentThisWindow < flow.bytes
      invariant w.flow == flow && Granted(w) && w.sent + rest == writeCh
      invariant msgsSentThisWindow == Messages(w) && bytesSentThisWindow == Bytes(w)
      decreases |rest|
    {
      if rest == [] {
        return;
      }
      GrantedAppend(w, rest[0]);
      SumAppend(w.sent, rest[0]);
      assert w.sent + rest == w.sent + [rest[0]] + rest[1..];
      msgsSentThisWindow, bytesSentThisWindow := msgsSentThisWindow + 1, bytesSentThisWindow + rest[0];
      w, rest := w.(sent := w.sent + [rest[0]]), rest[1..];
    }
  }

  lemma Regrouped<T>(a: seq<T>, b: seq<T>, c: seq<T>)
    ensures a + (b + c) == (a + b) + c
  {
  }

  /** The writer until it has nothing more to read. The first messages go out freely, before
      flow control is switched on (unlimited: it never is); the others one window per grant
      received. Nothing is lost, repeated or reordered; each window keeps to its grant; and while
      messages are waiting, a window is left only when its grant is used up. */
  method WriteLoop(unlimited: bool, early: nat, flowChannel: seq<Flow>, writeCh: seq<nat>)
    returns (free: seq<nat>, windows: seq<Window>, rest: seq<nat>)
    ensures free + SentIn(windows) + rest == writeCh
    ensures unlimited ==> free == writeCh
    ensures |free| < early ==> free == writeCh
    ensures !unlimited ==> |free| <= early
    ensures |windows| <= |flowChannel|
    ensures forall i :: 0 <= i < |windows| ==> windows[i].flow == flowChannel[i] && Granted(windows[i])
    ensures forall i :: 0 <= i < |windows| - 1 ==> !Open(windows[i])
    ensures rest != [] ==> |windows| == |flowChannel| && forall i :: 0 <= i < |windows| ==> !Open(windows[i])
  {
    hide Granted;
    hide Open;
    hide Sum;
    free, windows, rest := [], [], writeCh;
    while rest != [] && (unlimited || |free| < early)
      invariant free + rest == writeCh && (!unlimited ==> |free| <= early)
      decreases |rest|
    {
      Regrouped(free, [rest[0]], rest[1..]);
      assert [rest[0]] + rest[1..] == rest;
      free, rest := free + [rest[0]], rest[1..];
    }
    if unlimited || |free| < early {
      return;
    }
    ghost var controlled := rest;
    while |windows| < |flowChannel|
      invariant |windows| <= |flowChannel| && SentIn(windows) + rest == controlled
      invariant forall i :: 0 <= i < |windows| ==>
                  windows[i].flow == flowChannel[i] && Granted(windows[i]) && !Open(windows[i])
      decreases |flowChannel| - |windows|
    {
      var w, after := SendWindow(flowChannel[|windows|], rest);
      SentInLast(windows, w);
      Regrouped(SentIn(windows), w.sent, after);
      windows, rest := windows + [w], after;
      // An open window with nothing to send waits for the next message, not for the next grant.
      if Open(w) {
        break;
      }
    }
    Regrouped(free, SentIn(windows), rest);
  }
}
