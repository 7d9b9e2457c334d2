/** Event handlers and commands as the outcomes their calls settle to, and the
    aggregation `emitForAll` performs over the handlers of one event. */
module Events {
  import opened Wrappers
  import opened Values
  import Strings

  /** A JavaScript Error; its message is what callers observe. */
  datatype Error = Error(message: string)

  /** A handler function, known by a name, and the outcome of calling it: the value
      it returns or its promise resolves with, or the error it throws or rejects with. */
  datatype Handler = Handler(name: string, outcome: Result<Value, Error>)

  /** One call the instance made on behalf of its caller, in the order made. */
  datatype Invocation =
    | HandlerRan(event: string, name: string)
    | CommandRan(command: string, name: string)
    | MiddlewareRan(middleware: string, options: Option<Value>)

  /** The calls `emitForAll(event)` makes: every handler, in registration order. */
  function Starts(event: string, handlers: seq<Handler>): (calls: seq<Invocation>)
    ensures |calls| == |handlers|
    ensures forall i :: 0 <= i < |handlers| ==> calls[i] == HandlerRan(event, handlers[i].name)
  {
    seq(|handlers|, i requires 0 <= i < |handlers| => HandlerRan(event, handlers[i].name))
  }

  /** The settled outcome of `Promise.all` over the handlers' outcomes, collected in
      registration order: all their values, or the first failing handler's error. */
  function Settle(handlers: seq<Handler>): (r: Result<seq<Value>, Error>)
    ensures r.Success? ==> |r.value| == |handlers|
  {
    if handlers == [] then Success([])
    else
      match handlers[0].outcome
      case Failure(e) => Failure(e)
      case Success(v) =>
        match Settle(handlers[1..])
        case Success(vs) => Success([v] + vs)
        case Failure(e) => Failure(e)
  }

  /** The error of calling a command that was never registered. */
  function NotRegistered(name: string): (e: Error)
    ensures Strings.Contains(e.message, "was not registered")
    ensures Strings.Contains(e.message, name)
  {
    var message := "A command with the name \"" + name + "\" was not registered";
    assert message == ("A command with the name \"" + name + "\" ") + "was not registered" + "";
    assert message == "A command with the name \"" + name + "\" was not registered";
    Strings.ContainsMiddle("A command with the name \"" + name + "\" ", "was not registered", "");
    Strings.ContainsMiddle("A command with the name \"", name, "\" was not registered");
    Error(message)
  }

  /** Settling one more handler, as the loop of `emitForAll` does. */
  lemma {:induction false} SettleSnoc(handlers: seq<Handler>, h: Handler)
    ensures Settle(handlers + [h]) ==
      match Settle(handlers)
      case Failure(e) => Failure(e)
      case Success(vs) =>
        match h.outcome
        case Success(v) => Success(vs + [v])
        case Failure(e) => Failure(e)
    decreases |handlers|
  {
    if handlers == [] {
      assert [] + [h] == [h];
      assert [h][1..] == [];
      if h.outcome.Success? {
        assert [h.outcome.value] + [] == [] + [h.outcome.value];
      }
    } else {
      var all := handlers + [h];
      assert all[0] == handlers[0];
      assert all[1..] == handlers[1..] + [h];
      SettleSnoc(handlers[1..], h);
      match handlers[0].outcome
      case Failure(e) =>
      case Success(v) =>
        match Settle(handlers[1..])
        case Failure(e) =>
        case Success(vs) =>
          if h.outcome.Success? {
            assert [v] + (vs + [h.outcome.value]) == ([v] + vs) + [h.outcome.value];
          }
    }
  }

  /** The emission succeeds exactly when every handler succeeds, and then yields
      each handler's value at that handler's registration position. */
  lemma {:induction false} SettleSucceeds(handlers: seq<Handler>)
    ensures Settle(handlers).Success? <==> forall i :: 0 <= i < |handlers| ==> handlers[i].outcome.Success?
    ensures Settle(handlers).Success? ==>
      |Settle(handlers).value| == |handlers| &&
      forall i :: 0 <= i < |handlers| ==> Settle(handlers).value[i] == handlers[i].outcome.value
    decreases |handlers|
  {
    if handlers != [] {
      SettleSucceeds(handlers[1..]);
      assert forall i :: 1 <= i < |handlers| ==> handlers[i] == handlers[1..][i - 1];
    }
  }

  /** A failed emission carries the error of the first handler, by registration
      order, that failed, unchanged. */
  lemma {:induction false} SettleFails(handlers: seq<Handler>)
    requires Settle(handlers).Failure?
    ensures exists i :: (0 <= i < |handlers| && handlers[i].outcome == Failure(Settle(handlers).error) &&
                         forall j :: 0 <= j < i ==> handlers[j].outcome.Success?)
    decreases |handlers|
  {
    if handlers[0].outcome.Failure? {
      assert handlers[0].outcome == Failure(Settle(handlers).error);
    } else {
      SettleFails(handlers[1..]);
      var i :| 0 <= i < |handlers[1..]| && handlers[1..][i].outcome == Failure(Settle(handlers[1..]).error) &&
        (forall j :: 0 <= j < i ==> handlers[1..][j].outcome.Success?);
      assert handlers[i + 1] == handlers[1..][i];
      assert forall j :: 1 <= j < i + 1 ==> handlers[j] == handlers[1..][j - 1];
    }
  }
}
