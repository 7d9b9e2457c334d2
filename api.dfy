/** A Neutrino instance: its options object, its event handlers, its commands, and
    the calls it has made to handlers, commands and middleware, in order. */
module Api {
  import opened Wrappers
  import opened Values
  import opened Events
  import Options
  import Paths

  class Neutrino {
    const options: Options.Store
    /** The handlers of each event, in registration order. */
    var listeners: map<string, seq<Handler>>
    /** The handler of each command name. */
    var commands: map<string, Handler>
    /** Every handler, command and middleware call made so far. */
    var invoked: seq<Invocation>

    /** `Neutrino(opts)`, created in the working directory `cwd`. */
    constructor (cwd: string, opts: map<string, Value>)
      requires Paths.IsAbsolute(cwd) && Options.WellFormed(opts)
      ensures fresh(options) && options.Built(cwd, opts)
      ensures listeners == map[] && commands == map[] && invoked == []
    {
      options := new Options.Store(cwd, opts);
      listeners := map[];
      commands := map[];
      invoked := [];
    }

    /** The handlers registered for an event, in registration order. */
    function Listeners(event: string): seq<Handler>
      reads this`listeners
    {
      if event in listeners then listeners[event] else []
    }

    /** `on(event, handler)`: appends the handler to the event's list. */
    method On(event: string, handler: Handler)
      modifies this`listeners
      ensures listeners == old(listeners)[event := old(Listeners(event)) + [handler]]
      ensures Listeners(event) == old(Listeners(event)) + [handler]
      ensures forall other :: other != event ==> Listeners(other) == old(Listeners(other))
    {
      listeners := listeners[event := Listeners(event) + [handler]];
    }

    /** `emitForAll(event)`: calls every handler of the event, in registration order,
        then settles: the values in that order, or the first failing handler's error. */
    method EmitForAll(event: string) returns (r: Result<seq<Value>, Error>)
      modifies this`invoked
      ensures r == Settle(Listeners(event))
      ensures invoked == old(invoked) + Starts(event, Listeners(event))
    {
      var handlers := Listeners(event);
      var values: seq<Value> := [];
      var failure: Option<Error> := None;
      var i := 0;
      while i < |handlers|
        invariant 0 <= i <= |handlers|
        invariant invoked == old(invoked) + Starts(event, handlers[..i])
        invariant failure.None? ==> Settle(handlers[..i]) == Success(values)
        invariant failure.Some? ==> Settle(handlers[..i]) == Failure(failure.value)
      {
        SettleSnoc(handlers[..i], handlers[i]);
        assert handlers[..i + 1] == handlers[..i] + [handlers[i]];
        invoked := invoked + [HandlerRan(event, handlers[i].name)];
        match handlers[i].outcome {
          case Success(v) =>
            if failure.None? {
              values := values + [v];
            }
          case Failure(e) =>
            if failure.None? {
              failure := Some(e);
            }
        }
        i := i + 1;
      }
      assert handlers[..i] == handlers;
      r := if failure.Some? then Failure(failure.value) else Success(values);
    }

    /** `register(name, handler)`: a later registration replaces an earlier one. */
    method Register(name: string, handler: Handler)
      modifies this`commands
      ensures commands == old(commands)[name := handler]
    {
      commands := commands[name := handler];
    }

    /** `call(name)`: the command's own outcome, or, for a name never registered,
        a "was not registered" error without calling anything. */
    method Call(name: string) returns (r: Result<Value, Error>)
      modifies this`invoked
      ensures name !in commands ==> r == Failure(NotRegistered(name)) && invoked == old(invoked)
      ensures name in commands ==>
        r == commands[name].outcome && invoked == old(invoked) + [CommandRan(name, commands[name].name)]
    {
      if name !in commands {
        return Failure(NotRegistered(name));
      }
      invoked := invoked + [CommandRan(name, commands[name].name)];
      r := commands[name].outcome;
    }

    /** `run(name).promise()`: emits `pre<name>`, calls the command, emits `<name>`,
        each stage only after the previous one succeeded; it settles to the command's
        value, or to the first failure met, unchanged. */
    method Run(name: string) returns (r: Result<Value, Error>)
      modifies this`invoked
      ensures var pre := Settle(Listeners("pre" + name));
        && (pre.Failure? ==> r == Failure(pre.error))
        && (pre.Success? && name !in commands ==> r == Failure(NotRegistered(name)))
        && (pre.Success? && name in commands && commands[name].outcome.Failure? ==> r == commands[name].outcome)
        && (pre.Success? && name in commands && commands[name].outcome.Success? ==>
              r == match Settle(Listeners(name))
                   case Success(_) => commands[name].outcome
                   case Failure(e) => Failure(e))
      ensures name !in commands ==> r.Failure?
      ensures var pre := Settle(Listeners("pre" + name));
        invoked == old(invoked) + Starts("pre" + name, Listeners("pre" + name)) +
          (if pre.Success? && name in commands then
             [CommandRan(name, commands[name].name)] +
             (if commands[name].outcome.Success? then Starts(name, Listeners(name)) else [])
           else [])
    {
      var pre := EmitForAll("pre" + name);
      if pre.Failure? {
        return Failure(pre.error);
      }
      r := Call(name);
      if r.Failure? {
        return;
      }
      var post := EmitForAll(name);
      if post.Failure? {
        r := Failure(post.error);
      }
    }

    /** `use(middleware, opts)`: calls the middleware at once with this instance and
        `opts`, which is absent when not given. */
    method Use(middleware: string, opts: Option<Value>)
      modifies this`invoked
      ensures invoked == old(invoked) + [MiddlewareRan(middleware, opts)]
    {
      invoked := invoked + [MiddlewareRan(middleware, opts)];
    }
  }
}
