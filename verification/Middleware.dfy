/** middleware.py: the cap on request bodies, as the message-driven machine that stands around the application. */
module Middleware {
  import opened Prelude

  type Byte = bv8

  datatype Inbound = HttpRequest(body: seq<Byte>, more: bool) | Disconnect

  datatype Outbound = Start(status: int) | Body(data: seq<Byte>, more: bool)

  datatype TooLarge = TooLarge(limit: nat)

  // A header with what int() makes of its value.
  datatype Header = Header(name: string, number: Option<int>)

  const REQUEST_ENTITY_TOO_LARGE := 413

  // The error envelope's text is left out.
  const REFUSAL: seq<Outbound> := [Start(REQUEST_ENTITY_TOO_LARGE), Body([], false)]

  /** The first Content-Length header decides, even by being unreadable. */
  function DeclaredLength(headers: seq<Header>): Option<int> {
    if headers == [] then None
    else if headers[0].name == "content-length" then headers[0].number
    else DeclaredLength(headers[1..])
  }

  /** A length is declared exactly by the first header of that name, when its value reads as a number. */
  lemma {:induction false} FirstHeaderDecides(headers: seq<Header>, n: int)
    ensures DeclaredLength(headers) == Some(n) <==>
              exists i :: 0 <= i < |headers| && headers[i] == Header("content-length", Some(n))
                          && forall k | 0 <= k < i :: headers[k].name != "content-length"
  {
    if headers != [] {
      FirstHeaderDecides(headers[1..], n);
      assert forall i | 1 <= i < |headers| :: headers[i] == headers[1..][i - 1];
      if headers[0].name != "content-length" && DeclaredLength(headers) == Some(n) {
        var i :| 0 <= i < |headers[1..]| && headers[1..][i] == Header("content-length", Some(n))
                 && forall k | 0 <= k < i :: headers[1..][k].name != "content-length";
        assert headers[i + 1] == Header("content-length", Some(n));
      }
    }
  }

  // ---------------------------------------------------------------- the machine on values

  /** The guard's own variables, what the application was given, and what the client was sent. */
  datatype Guard = Guard(received: nat, overflowed: bool, replaced: bool, handed: seq<Inbound>, wire: seq<Outbound>)

  const FRESH := Guard(0, false, false, [], [])

  function Pull(max: nat, g: Guard, m: Inbound): Guard {
    if m.HttpRequest? then
      var total := g.received + |m.body|;
      if total > max then g.(received := total, overflowed := true)
      else g.(received := total, handed := g.handed + [m])
    else g.(handed := g.handed + [m])
  }

  function Push(g: Guard, m: Outbound): Guard {
    if g.replaced then g
    else if g.overflowed && m.Start? && m.status != REQUEST_ENTITY_TOO_LARGE then
      g.(replaced := true, wire := g.wire + REFUSAL)
    else g.(wire := g.wire + [m])
  }

  // ---------------------------------------------------------------- the machine in place

  class BodySizeLimit {
    const maxBytes: nat
    var received: nat
    var overflowed: bool
    var replaced: bool
    var handed: seq<Inbound>
    var wire: seq<Outbound>

    ghost function State(): Guard
      reads this
    {
      Guard(received, overflowed, replaced, handed, wire)
    }

    constructor (maxBytes: nat)
      ensures this.maxBytes == maxBytes && State() == FRESH
    {
      this.maxBytes := maxBytes;
      received, overflowed, replaced, handed, wire := 0, false, false, [], [];
    }

    /** Refuses on the declared length alone, before anything is read; otherwise starts afresh. */
    method Open(headers: seq<Header>) returns (refused: bool)
      modifies this
      ensures refused <==> DeclaredLength(headers).Some? && DeclaredLength(headers).value > maxBytes
      ensures State() == if refused then FRESH.(wire := REFUSAL) else FRESH
    {
      received, overflowed, replaced, handed, wire := 0, false, false, [], [];
      var declared := DeclaredLength(headers);
      refused := declared.Some? && declared.value > maxBytes;
      if refused {
        wire := REFUSAL;
      }
    }

    method LimitedReceive(message: Inbound) returns (r: Result<Inbound, TooLarge>)
      modifies this
      ensures State() == Pull(maxBytes, old(State()), message)
      ensures r == if message.HttpRequest? && old(received) + |message.body| > maxBytes then Err(TooLarge(maxBytes))
                   else Ok(message)
      ensures handed == if r.Ok? then old(handed) + [message] else old(handed)
    {
      if message.HttpRequest? {
        received := received + |message.body|;
        if received > maxBytes {
          overflowed := true;
          return Err(TooLarge(maxBytes));
        }
      }
      handed := handed + [message];
      r := Ok(message);
    }

    method GuardedSend(message: Outbound)
      modifies this
      ensures State() == Push(old(State()), message)
    {
      if replaced {
        return;
      }
      if overflowed && message.Start? && message.status != REQUEST_ENTITY_TOO_LARGE {
        replaced := true;
        wire := wire + REFUSAL;
        return;
      }
      wire := wire + [message];
    }
  }

  // ---------------------------------------------------------------- whole requests

  /** What an application does, in order: it asks for the message that arrives next, or sends one. */
  datatype Action = Receives(arriving: Inbound) | Sends(message: Outbound)

  function Act(max: nat, g: Guard, a: Action): Guard {
    match a
    case Receives(m) => Pull(max, g, m)
    case Sends(m) => Push(g, m)
  }

  function Run(max: nat, g: Guard, script: seq<Action>): Guard
    decreases |script|
  {
    if script == [] then g else Run(max, Act(max, g, script[0]), script[1..])
  }

  function Arrived(script: seq<Action>): seq<Inbound> {
    if script == [] then []
    else if script[0].Receives? then [script[0].arriving] + Arrived(script[1..])
    else Arrived(script[1..])
  }

  function Answered(script: seq<Action>): seq<Outbound> {
    if script == [] then []
    else if script[0].Sends? then [script[0].message] + Answered(script[1..])
    else Answered(script[1..])
  }

  function Bytes(messages: seq<Inbound>): nat {
    if messages == [] then 0 else (if messages[0].HttpRequest? then |messages[0].body| else 0) + Bytes(messages[1..])
  }

  lemma {:induction false} BytesAppend(a: seq<Inbound>, m: Inbound)
    ensures Bytes(a + [m]) == Bytes(a) + if m.HttpRequest? then |m.body| else 0
  {
    if a == [] {
      assert a + [m] == [m];
    } else {
      assert (a + [m])[1..] == a[1..] + [m];
      BytesAppend(a[1..], m);
    }
  }

  lemma ScriptUnfolds(script: seq<Action>)
    requires script != []
    ensures Bytes(Arrived(script)) == Bytes(Arrived(script[1..]))
            + if script[0].Receives? && script[0].arriving.HttpRequest? then |script[0].arriving.body| else 0
  {
    if script[0].Receives? {
      assert Arrived(script)[1..] == Arrived(script[1..]);
    }
  }

  predicate Capped(max: nat, g: Guard) {
    && Bytes(g.handed) <= max
    && (g.overflowed <==> g.received > max)
    && (!g.overflowed ==> Bytes(g.handed) == g.received && !g.replaced)
  }

  lemma ActKeepsCap(max: nat, g: Guard, a: Action)
    requires Capped(max, g)
    ensures Capped(max, Act(max, g, a))
  {
    if a.Receives? { BytesAppend(g.handed, a.arriving); }
  }

  lemma {:induction false} RunKeepsCap(max: nat, g: Guard, script: seq<Action>)
    requires Capped(max, g)
    ensures var end := Run(max, g, script);
            Capped(max, end) && end.received == g.received + Bytes(Arrived(script))
    decreases |script|
  {
    if script != [] {
      ActKeepsCap(max, g, script[0]);
      RunKeepsCap(max, Act(max, g, script[0]), script[1..]);
      ScriptUnfolds(script);
    }
  }

  /**
   * Whatever the application does and however the body is chunked, it is never handed more than the limit, and the cap
   * trips exactly on a body over it.
   */
  lemma NeverMoreThanTheLimit(max: nat, script: seq<Action>)
    ensures var end := Run(max, FRESH, script);
            Bytes(end.handed) <= max && (end.overflowed <==> Bytes(Arrived(script)) > max)
  {
    RunKeepsCap(max, FRESH, script);
  }

  lemma ActWithinTheLimit(max: nat, g: Guard, a: Action)
    requires Capped(max, g) && !g.overflowed
    requires a.Receives? && a.arriving.HttpRequest? ==> g.received + |a.arriving.body| <= max
    ensures var h := Act(max, g, a);
            && Capped(max, h) && !h.overflowed
            && h.received == g.received + (if a.Receives? && a.arriving.HttpRequest? then |a.arriving.body| else 0)
            && h.handed == g.handed + (if a.Receives? then [a.arriving] else [])
            && h.wire == g.wire + (if a.Sends? then [a.message] else [])
  {
    ActKeepsCap(max, g, a);
  }

  /** A body within the limit makes the guard invisible in both directions. */
  lemma {:induction false} WithinTheLimitNothingChanges(max: nat, g: Guard, script: seq<Action>)
    requires Capped(max, g) && g.received + Bytes(Arrived(script)) <= max
    ensures var end := Run(max, g, script);
            end.handed == g.handed + Arrived(script) && end.wire == g.wire + Answered(script)
    decreases |script|
  {
    if script != [] {
      ScriptUnfolds(script);
      ActWithinTheLimit(max, g, script[0]);
      WithinTheLimitNothingChanges(max, Act(max, g, script[0]), script[1..]);
    }
  }

  /**
   * The application's answer as the client sees it once the cap was crossed: cut at the first other status, and refused
   * there.
   */
  function Guarded(answer: seq<Outbound>): seq<Outbound> {
    if answer == [] then []
    else if answer[0].Start? && answer[0].status != REQUEST_ENTITY_TOO_LARGE then REFUSAL
    else [answer[0]] + Guarded(answer[1..])
  }

  lemma {:induction false} ReplacedIsTheEnd(max: nat, g: Guard, script: seq<Action>)
    requires g.replaced
    ensures Run(max, g, script).wire == g.wire
    decreases |script|
  {
    if script != [] { ReplacedIsTheEnd(max, Act(max, g, script[0]), script[1..]); }
  }

  lemma {:induction false} AfterOverflow(max: nat, g: Guard, script: seq<Action>)
    requires g.overflowed && !g.replaced
    ensures Run(max, g, script).wire == g.wire + Guarded(Answered(script))
    decreases |script|
  {
    if script != [] {
      var h := Act(max, g, script[0]);
      if script[0].Receives? {
        AfterOverflow(max, h, script[1..]);
      } else {
        if h.replaced {
          ReplacedIsTheEnd(max, h, script[1..]);
        } else {
          AfterOverflow(max, h, script[1..]);
        }
      }
    }
  }

  function Disconnects(messages: seq<Inbound>): seq<Inbound> {
    if messages == [] then []
    else if messages[0].Disconnect? then [messages[0]] + Disconnects(messages[1..])
    else Disconnects(messages[1..])
  }

  /** Once the cap is crossed no further request message is handed on, and every disconnect still is. */
  lemma {:induction false} OnlyDisconnectsPassTheCap(max: nat, g: Guard, script: seq<Action>)
    requires g.received > max
    ensures Run(max, g, script).handed == g.handed + Disconnects(Arrived(script))
    decreases |script|
  {
    if script != [] {
      OnlyDisconnectsPassTheCap(max, Act(max, g, script[0]), script[1..]);
    }
  }

  lemma {:induction false} RunSplits(max: nat, g: Guard, a: seq<Action>, b: seq<Action>)
    ensures Run(max, g, a + b) == Run(max, Run(max, g, a), b)
    decreases |a|
  {
    if a == [] {
      assert a + b == b;
    } else {
      assert (a + b)[1..] == a[1..] + b;
      RunSplits(max, Act(max, g, a[0]), a[1..], b);
    }
  }

  /**
   * The whole conversation: everything sent before the cap is crossed goes out as it is, everything after it guarded.
   */
  lemma WireOfEveryRun(max: nat, before: seq<Action>, over: Inbound, after: seq<Action>)
    requires over.HttpRequest?
    requires Bytes(Arrived(before)) <= max < Bytes(Arrived(before)) + |over.body|
    ensures Run(max, FRESH, before + ([Receives(over)] + after)).wire == Answered(before) + Guarded(Answered(after))
  {
    var g := Run(max, FRESH, before);
    RunKeepsCap(max, FRESH, before);
    WithinTheLimitNothingChanges(max, FRESH, before);
    RunSplits(max, FRESH, before, [Receives(over)] + after);
    assert ([Receives(over)] + after)[1..] == after;
    AfterOverflow(max, Pull(max, g, over), after);
  }

  /** Every run over the limit has that form: there is one message that crosses the cap. */
  lemma {:induction false} CapIsCrossedOnce(max: nat, script: seq<Action>, sofar: nat) returns (k: nat)
    requires sofar <= max < sofar + Bytes(Arrived(script))
    ensures k < |script| && script[k].Receives? && script[k].arriving.HttpRequest?
    ensures sofar + Bytes(Arrived(script[..k])) <= max < sofar + Bytes(Arrived(script[..k])) + |script[k].arriving.body|
    decreases |script|
  {
    var first := if script[0].Receives? && script[0].arriving.HttpRequest? then |script[0].arriving.body| else 0;
    ScriptUnfolds(script);
    if sofar + first > max {
      k := 0;
      assert script[..0] == [];
    } else {
      k := CapIsCrossedOnce(max, script[1..], sofar + first);
      assert script[..k + 1][1..] == script[1..][..k];
      ScriptUnfolds(script[..k + 1]);
      k := k + 1;
    }
  }

  lemma {:induction false} GuardedAnswers(answer: seq<Outbound>)
    ensures forall i | 0 <= i < |Guarded(answer)| && Guarded(answer)[i].Start? ::
            Guarded(answer)[i].status == 413
    ensures (forall i | 0 <= i < |answer| && answer[i].Start? :: answer[i].status == 413)
            <==> Guarded(answer) == answer
  {
    if answer != [] {
      GuardedAnswers(answer[1..]);
      assert answer == [answer[0]] + answer[1..];
    }
  }

  /**
   * An application that has not begun to answer when the cap is crossed gets one answer out, and its
   * status is 413: its own if it gives that one, and otherwise the refusal with nothing after it.
   */
  lemma CutOffBodyIsAnsweredAsOne(max: nat, before: seq<Action>, over: Inbound, after: seq<Action>, status: int)
    requires over.HttpRequest? && Bytes(Arrived(before)) <= max < Bytes(Arrived(before)) + |over.body|
    requires Answered(before) == [] && Answered(after) != [] && Answered(after)[0] == Start(status)
    ensures var wire := Run(max, FRESH, before + ([Receives(over)] + after)).wire;
            && wire != [] && wire[0] == Start(413)
            && (status != 413 ==> wire == REFUSAL)
            && (forall i | 0 <= i < |wire| && wire[i].Start? :: wire[i].status == 413)
  {
    WireOfEveryRun(max, before, over, after);
    GuardedAnswers(Answered(after));
    assert [] + Guarded(Answered(after)) == Guarded(Answered(after));
  }
}
