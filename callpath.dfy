/**
  The call-path accumulator (`batchingProxy`, demo/wwsw.js:171-239). A proxy keeps
  one mutable list `callPath`. Reading an ordinary property appends its name and
  returns the same proxy; the terminal traps (apply, construct, reading `then`, set)
  hand one request record to the proxy's callback. `Step` is the transition function
  of this state machine; the class `BatchingProxy` holds the mutable path and is
  proved against it.
*/
module CallPath {
  import opened JsValues
  import opened Protocol

  /** What a trap gives back to the code that touched the proxy. */
  datatype TrapResult =
    | SameProxy                              // `return proxy`: the chain goes on
    | ThenableOfProxy                        // `{then: () => proxy}`: awaiting an empty chain
    | IteratorOfProxy                        // `() => proxy`, for `Symbol.asyncIterator`
    | Sent(request: Request)                 // the callback ran with `request`; its promise is returned
    | BoundFunction(savedPath: seq<string>)  // `(...args) => cb(...)`, for a path ending in "bind"

  /** The interceptions of the proxy, one per trap branch. */
  datatype Trap =
    | GetTrap(name: string)
    | AsyncIteratorTrap
    | ApplyTrap(args: seq<Value>)
    | ConstructTrap(args: seq<Value>)
    | SetTrap(property: string, value: Value)

  datatype Transition = Transition(path: seq<string>, result: TrapResult)

  /** The reserved segment that asks for a locally bound remote function (demo/wwsw.js:189-191). */
  const BindSegment := "bind"

  predicate EndsInBind(path: seq<string>)
  {
    |path| > 0 && path[|path| - 1] == BindSegment
  }

  /** `path.slice(0, -1)`. */
  function DropLast(path: seq<string>): (r: seq<string>)
    ensures path != [] ==> path == r + [path[|path| - 1]]
    ensures path == [] ==> r == []
  {
    if path == [] then [] else path[..|path| - 1]
  }

  /** One trap on a proxy whose accumulated path is `path`. */
  function Step(path: seq<string>, t: Trap): Transition
  {
    match t
    case GetTrap(name) =>
      if name == "then" && |path| == 0 then Transition(path, ThenableOfProxy)
      else if name == "then" then Transition([], Sent(GetRequest(path)))
      else Transition(path + [name], SameProxy)
    case AsyncIteratorTrap => Transition(path, IteratorOfProxy)
    case ApplyTrap(args) =>
      if EndsInBind(path) then Transition([], BoundFunction(path))
      else Transition([], Sent(ApplyRequest(path, args)))
    case ConstructTrap(args) => Transition([], Sent(ConstructRequest(path, args)))
    case SetTrap(property, value) => Transition(path, Sent(SetRequest(path, property, value)))
  }

  /** A later call of the function returned for a "bind" path (demo/wwsw.js:194-198). */
  function CallBound(savedPath: seq<string>, args: seq<Value>): Request
  {
    ApplyRequest(DropLast(savedPath), args)
  }

  /** The requests a trap result stands for. */
  function Emitted(r: TrapResult): seq<Request>
  {
    if r.Sent? then [r.request] else []
  }

  datatype Trace = Trace(path: seq<string>, requests: seq<Request>)

  /** A sequence of traps on one proxy: the final path and every request, in order. */
  function Run(path: seq<string>, ts: seq<Trap>): Trace
    decreases ts
  {
    if ts == [] then Trace(path, [])
    else
      var t := Step(path, ts[0]);
      var rest := Run(t.path, ts[1..]);
      Trace(rest.path, Emitted(t.result) + rest.requests)
  }

  /** The traps of the property reads `p.n0.n1...`. */
  function Reads(names: seq<string>): (ts: seq<Trap>)
    ensures |ts| == |names|
    ensures forall i :: 0 <= i < |names| ==> ts[i] == GetTrap(names[i])
  {
    if names == [] then [] else [GetTrap(names[0])] + Reads(names[1..])
  }

  /** Running two trap sequences one after the other. */
  lemma {:induction false} RunAppend(path: seq<string>, a: seq<Trap>, b: seq<Trap>)
    ensures Run(path, a + b) ==
      var ra := Run(path, a);
      var rb := Run(ra.path, b);
      Trace(rb.path, ra.requests + rb.requests)
    decreases a
  {
    if a == [] {
      assert a + b == b;
    } else {
      assert (a + b)[1..] == a[1..] + b;
      RunAppend(Step(path, a[0]).path, a[1..], b);
    }
  }

  /**
    Property reads accumulate: reading names none of which is `then` appends them to
    the path, in order, and sends nothing.
  */
  lemma {:induction false} ReadsAccumulate(path: seq<string>, names: seq<string>)
    requires "then" !in names
    ensures Run(path, Reads(names)) == Trace(path + names, [])
    decreases names
  {
    if names == [] {
      assert path + names == path;
    } else {
      var ts := Reads(names);
      assert names[0] in names && ts[0] == GetTrap(names[0]);
      assert Step(path, ts[0]) == Transition(path + [names[0]], SameProxy);
      assert ts[1..] == Reads(names[1..]);
      assert "then" !in names[1..] by {
        forall k | 0 <= k < |names[1..]| ensures names[1..][k] != "then" {
          assert names[1..][k] == names[k + 1];
        }
      }
      assert (path + [names[0]]) + names[1..] == path + names;
      ReadsAccumulate(path + [names[0]], names[1..]);
    }
  }

  /**
    `p.a.b.c(args)`: one APPLY with exactly the read names and the arguments, and the
    path is empty again afterwards (unless the last name is "bind").
  */
  lemma ChainApply(names: seq<string>, args: seq<Value>)
    requires "then" !in names && !EndsInBind(names)
    ensures Run([], Reads(names) + [ApplyTrap(args)]) == Trace([], [ApplyRequest(names, args)])
  {
    RunAppend([], Reads(names), [ApplyTrap(args)]);
    ReadsAccumulate([], names);
    assert [] + names == names;
  }

  /** `new p.a.b(args)`: one CONSTRUCT with exactly the read names, then an empty path. */
  lemma ChainConstruct(names: seq<string>, args: seq<Value>)
    requires "then" !in names
    ensures Run([], Reads(names) + [ConstructTrap(args)]) == Trace([], [ConstructRequest(names, args)])
  {
    RunAppend([], Reads(names), [ConstructTrap(args)]);
    ReadsAccumulate([], names);
    assert [] + names == names;
  }

  /**
    `await p.a.b`: reading `then` on a non-empty path sends one GET with that path
    and empties it; on an empty path it sends nothing and the path stays empty.
  */
  lemma ChainGet(names: seq<string>)
    requires "then" !in names
    ensures names != [] ==> Run([], Reads(names) + [GetTrap("then")]) == Trace([], [GetRequest(names)])
    ensures names == [] ==> Run([], Reads(names) + [GetTrap("then")]) == Trace([], [])
    ensures names == [] ==> Step([], GetTrap("then")).result == ThenableOfProxy
  {
    RunAppend([], Reads(names), [GetTrap("then")]);
    ReadsAccumulate([], names);
    assert [] + names == names;
  }

  /**
    Two chains issued one after the other do not share segments: each request
    carries only its own chain's names.
  */
  lemma SequentialChainsIndependent(names1: seq<string>, args1: seq<Value>, names2: seq<string>, args2: seq<Value>)
    requires "then" !in names1 && !EndsInBind(names1)
    requires "then" !in names2 && !EndsInBind(names2)
    ensures Run([], Reads(names1) + [ApplyTrap(args1)] + Reads(names2) + [ApplyTrap(args2)]) ==
      Trace([], [ApplyRequest(names1, args1), ApplyRequest(names2, args2)])
  {
    var c1 := Reads(names1) + [ApplyTrap(args1)];
    var c2 := Reads(names2) + [ApplyTrap(args2)];
    assert Reads(names1) + [ApplyTrap(args1)] + Reads(names2) + [ApplyTrap(args2)] == c1 + c2;
    RunAppend([], c1, c2);
    ChainApply(names1, args1);
    ChainApply(names2, args2);
  }

  /**
    `p.a.x = v` sends SET with path ["a"], property "x" and value `v`, and leaves the
    path as it was: the names read before the assignment are also the start of the
    next chain's path.
  */
  lemma SetKeepsPathForNextChain(prefix: seq<string>, property: string, v: Value, names: seq<string>, args: seq<Value>)
    requires "then" !in prefix && "then" !in names && !EndsInBind(prefix + names)
    ensures Run([], Reads(prefix) + [SetTrap(property, v)] + Reads(names) + [ApplyTrap(args)]) ==
      Trace([], [SetRequest(prefix, property, v), ApplyRequest(prefix + names, args)])
  {
    var a := Reads(prefix) + [SetTrap(property, v)];
    var b := Reads(names) + [ApplyTrap(args)];
    assert Reads(prefix) + [SetTrap(property, v)] + Reads(names) + [ApplyTrap(args)] == a + b;
    SetAfterReads(prefix, property, v);
    assert Run([], a) == Trace(prefix, [SetRequest(prefix, property, v)]);
    ApplyAfterReads(prefix, names, args);
    assert Run(prefix, b) == Trace([], [ApplyRequest(prefix + names, args)]);
    RunAppend([], a, b);
  }

  lemma SetAfterReads(prefix: seq<string>, property: string, v: Value)
    requires "then" !in prefix
    ensures Run([], Reads(prefix) + [SetTrap(property, v)]) == Trace(prefix, [SetRequest(prefix, property, v)])
  {
    RunAppend([], Reads(prefix), [SetTrap(property, v)]);
    ReadsAccumulate([], prefix);
    assert [] + prefix == prefix;
  }

  lemma ApplyAfterReads(prefix: seq<string>, names: seq<string>, args: seq<Value>)
    requires "then" !in names && !EndsInBind(prefix + names)
    ensures Run(prefix, Reads(names) + [ApplyTrap(args)]) == Trace([], [ApplyRequest(prefix + names, args)])
  {
    RunAppend(prefix, Reads(names), [ApplyTrap(args)]);
    ReadsAccumulate(prefix, names);
  }

  /**
    `p.a.b.bind(x)` sends nothing, empties the path and returns a function; every
    later call of it sends APPLY on ["a", "b"] with that call's arguments.
  */
  lemma BindDefersApply(names: seq<string>, bindArgs: seq<Value>, laterArgs: seq<Value>)
    requires "then" !in names
    ensures Run([], Reads(names + [BindSegment])) == Trace(names + [BindSegment], [])
    ensures Step(names + [BindSegment], ApplyTrap(bindArgs)) == Transition([], BoundFunction(names + [BindSegment]))
    ensures CallBound(names + [BindSegment], laterArgs) == ApplyRequest(names, laterArgs)
  {
    ReadsAccumulate([], names + [BindSegment]);
    assert [] + (names + [BindSegment]) == names + [BindSegment];
  }

  /** Every terminal trap except `set` leaves the path empty. */
  lemma TerminalTrapsReset(path: seq<string>, t: Trap)
    requires t.ApplyTrap? || t.ConstructTrap? || t == GetTrap("then")
    ensures Step(path, t).path == []
    ensures |Emitted(Step(path, t).result)| <= 1
  {
  }

  /** The proxy object of `batchingProxy`: the closure variable `callPath` is its one field. */
  class BatchingProxy {
    var callPath: seq<string>

    constructor ()
      ensures callPath == []
    {
      callPath := [];
    }

    /** The `get` trap for a string property (demo/wwsw.js:208-229). */
    method Get(name: string) returns (r: TrapResult)
      modifies this
      ensures Transition(callPath, r) == Step(old(callPath), GetTrap(name))
    {
      if name == "then" {
        r := Then();
      } else {
        callPath := callPath + [name];
        r := SameProxy;
      }
    }

    /** The `get` trap for `then`, that is, awaiting the chain (demo/wwsw.js:209-210, 217-223). */
    method Then() returns (r: TrapResult)
      modifies this
      ensures Transition(callPath, r) == Step(old(callPath), GetTrap("then"))
    {
      if |callPath| == 0 {
        r := ThenableOfProxy;
      } else {
        r := Sent(GetRequest(callPath));
        callPath := [];
      }
    }

    /** The `get` trap for `Symbol.asyncIterator` (demo/wwsw.js:212-216). */
    method AsyncIterator() returns (r: TrapResult)
      ensures Transition(callPath, r) == Step(callPath, AsyncIteratorTrap)
    {
      r := IteratorOfProxy;
    }

    /** The `apply` trap (demo/wwsw.js:188-207). */
    method Apply(args: seq<Value>) returns (r: TrapResult)
      modifies this
      ensures Transition(callPath, r) == Step(old(callPath), ApplyTrap(args))
    {
      if |callPath| > 0 && callPath[|callPath| - 1] == BindSegment {
        var localCallPath := callPath;
        callPath := [];
        r := BoundFunction(localCallPath);
      } else {
        r := Sent(ApplyRequest(callPath, args));
        callPath := [];
      }
    }

    /** The `construct` trap (demo/wwsw.js:179-187). */
    method Construct(args: seq<Value>) returns (r: TrapResult)
      modifies this
      ensures Transition(callPath, r) == Step(old(callPath), ConstructTrap(args))
    {
      r := Sent(ConstructRequest(callPath, args));
      callPath := [];
    }

    /** The `set` trap (demo/wwsw.js:230-237): it does not reset `callPath`. */
    method Set(property: string, value: Value) returns (r: TrapResult)
      ensures Transition(callPath, r) == Step(callPath, SetTrap(property, value))
    {
      r := Sent(SetRequest(callPath, property, value));
    }
  }
}
