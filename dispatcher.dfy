/**
  The exposing side (`expose`, demo/wwsw.js:55-109): a message handler bound to a root
  value that resolves each request's call path, performs APPLY, CONSTRUCT, GET or SET,
  and posts exactly one tagged reply carrying the request's id.

  Callables are opaque ids; what calling or constructing one gives is an oracle
  parameter (a value or a thrown error). `Respond` is the specification of one
  message; the class `Exposer` holds the mutable state and performs the steps in the
  source's order.
*/
module Dispatcher {
  import opened Wrappers
  import opened JsValues
  import opened Protocol
  import opened StructuredClone
  import Transfer
  import CallPath

  /** How a call of an opaque function ends. */
  datatype Outcome = Returns(value: Value) | Throws(error: Exception)

  /**
    What the exposed functions do: `apply(fid, receiver, args)` for a call with the
    receiver as `this`, `construct(fid, args)` for `new`.
  */
  datatype Oracle = Oracle(apply: (nat, Value, seq<Value>) -> Outcome, construct: (nat, seq<Value>) -> Outcome)

  /** Stands for the TypeError the engine throws (its text is engine-specific). */
  const TypeError := Exception(Some("TypeError"), "TypeError")

  /** `event.data.id` is truthy. */
  predicate HasId(msg: Message)
  {
    msg.id.Some? && msg.id.value != ""
  }

  /**
    `callPath.reduce((obj, propName) => obj[propName], rootObj)`: None when a segment
    is read off `undefined` or `null`.
  */
  function Resolve(root: Value, path: seq<string>): Option<Value>
    decreases path
  {
    if path == [] then Some(root)
    else
      match ReadProperty(root, path[0])
      case None => None
      case Some(o) => Resolve(o, path[1..])
  }

  /** Resolving one more segment reads it off the value the shorter path resolves to. */
  lemma {:induction false} ResolveSnoc(root: Value, path: seq<string>, name: string)
    ensures Resolve(root, path + [name]) ==
      match Resolve(root, path)
      case None => None
      case Some(o) => ReadProperty(o, name)
    decreases path
  {
    if path == [] {
      assert [] + [name] == [name];
      assert [name][1..] == [];
    } else {
      assert (path + [name])[1..] == path[1..] + [name];
      match ReadProperty(root, path[0])
      case None =>
      case Some(o) => ResolveSnoc(o, path[1..], name);
    }
  }

  /**
    `obj[property] = value` on the object `path` leads to, written back into the root
    tree; an assignment to anything but a plain object leaves the tree unchanged.
  */
  function Assign(root: Value, path: seq<string>, property: string, value: Value): Value
    decreases path
  {
    if !root.Obj? then root
    else if path == [] then root.(props := SetProp(root.props, property, value))
    else root.(props := SetProp(root.props, path[0], Assign(Lookup(root.props, path[0]), path[1..], property, value)))
  }

  /**
    After `obj[property] = value` on a plain object, reading `property` off the same
    path gives `value`, and reading any other property gives what it gave before.
  */
  lemma {:induction false} AssignThenRead(root: Value, path: seq<string>, property: string, value: Value, other: string)
    requires Resolve(root, path).Some? && Resolve(root, path).value.Obj?
    ensures Resolve(Assign(root, path, property, value), path + [property]) == Some(value)
    ensures other != property ==>
      Resolve(Assign(root, path, property, value), path + [other]) == Resolve(root, path + [other])
    decreases path
  {
    var root' := Assign(root, path, property, value);
    if path == [] {
      assert [] + [property] == [property] && [property][1..] == [];
      assert [] + [other] == [other] && [other][1..] == [];
    } else {
      assert (path + [property])[1..] == path[1..] + [property];
      assert (path + [other])[1..] == path[1..] + [other];
      var child := Lookup(root.props, path[0]);
      AssignThenRead(child, path[1..], property, value, other);
      assert ReadProperty(root', path[0]) == Some(Assign(child, path[1..], property, value));
    }
  }

  /**
    `proxyValue(obj)` on the object `path` leads to, in place: the marker is set on
    that object inside the root tree (marking a primitive changes nothing).
  */
  function MarkAt(root: Value, path: seq<string>): Value
    decreases path
  {
    if path == [] then Mark(root)
    else if !root.Obj? then root
    else root.(props := SetProp(root.props, path[0], MarkAt(Lookup(root.props, path[0]), path[1..])))
  }

  /**
    After marking in place, the same path leads to the marked object; a path that
    did not resolve still does not.
  */
  lemma {:induction false} MarkAtThenRead(root: Value, path: seq<string>)
    ensures Resolve(MarkAt(root, path), path) ==
      match Resolve(root, path)
      case None => None
      case Some(t) => Some(Mark(t))
    decreases path
  {
    if path != [] && root.Obj? {
      var child := Lookup(root.props, path[0]);
      MarkAtThenRead(child, path[1..]);
      assert ReadProperty(MarkAt(root, path), path[0]) == Some(MarkAt(child, path[1..]));
    }
  }

  /**
    Marking in place changes no property: every property of the target reads as
    before.
  */
  lemma {:induction false} MarkAtKeepsProperties(root: Value, path: seq<string>, name: string)
    ensures Resolve(MarkAt(root, path), path + [name]) == Resolve(root, path + [name])
    decreases path
  {
    if path == [] {
      assert [] + [name] == [name] && [name][1..] == [];
    } else {
      assert (path + [name])[1..] == path[1..] + [name];
      if root.Obj? {
        var child := Lookup(root.props, path[0]);
        MarkAtKeepsProperties(child, path[1..], name);
        assert ReadProperty(MarkAt(root, path), path[0]) == Some(MarkAt(child, path[1..]));
      }
    }
  }

  /**
    `obj.apply` is a function: the target's own `apply` property when it has one,
    otherwise the built-in `apply` that every function inherits.
  */
  predicate HasApply(target: Value)
  {
    if target.Obj? && HasOwn(target.props, "apply") then IsFunction(Lookup(target.props, "apply"))
    else IsFunction(target)
  }

  /**
    How `obj.apply(that, args)` ends. An own `apply` property is called as a method of
    the target, with `that` and the argument array as its two arguments; the
    built-in one calls the function with `that` as `this`; anything else is not a
    function, and calling it throws a TypeError.
  */
  function Called(target: Value, that: Value, args: seq<Value>, oracle: Oracle): Outcome
  {
    if target.Obj? && HasOwn(target.props, "apply") then
      var f := Lookup(target.props, "apply");
      if IsFunction(f) then oracle.apply(f.callable.value.fid, target, [that, Arr(args, false)])
      else Throws(TypeError)
    else if IsFunction(target) then oracle.apply(target.callable.value.fid, that, args)
    else Throws(TypeError)
  }

  /** `obj.apply(that, args)`: the result, or the target itself with the error caught. */
  function ApplyOutcome(target: Value, that: Value, args: seq<Value>, oracle: Oracle): (Value, Option<Exception>)
  {
    match Called(target, that, args, oracle)
    case Returns(v) => (v, None)
    case Throws(e) => (target, Some(e))
  }

  /**
    `iresult = new obj(...args); iresult = proxyValue(iresult)` inside the try: the
    marked instance, or `before` with the error caught.
  */
  function ConstructOutcome(target: Value, before: Value, args: seq<Value>, oracle: Oracle): (Value, Option<Exception>)
  {
    if IsConstructor(target) then
      match oracle.construct(target.callable.value.fid, args)
      case Returns(v) =>
        (match ProxyValue(v)
         case Some(m) => (m, None)
         case None => (before, Some(TypeError)))
      case Throws(e) => (before, Some(e))
    else (before, Some(TypeError))
  }

  /** What the handler has computed just before `makeInvocationResult`. */
  datatype Performed = Performed(result: Value, error: Option<Exception>, root: Value)

  /**
    The root after `proxyValue(iresult)` on an async generator target: when `iresult`
    is still the target itself, the target is marked inside the root.
  */
  function MarkedRoot(root: Value, path: seq<string>, asyncGen: bool): Value
  {
    if asyncGen then MarkAt(root, path) else root
  }

  /**
    The APPLY step on a resolved target: `proxyValue` on the result of an async
    generator function throws outside the try when that result is nullish, and marks
    the target itself in place when the call threw.
  */
  function PerformApply(root: Value, path: seq<string>, target: Value, that: Value, args: seq<Value>, oracle: Oracle): (p: Option<Performed>)
    ensures p.None? <==> IsAsyncGenerator(target) && IsNullish(ApplyOutcome(target, that, args, oracle).0)
    ensures p.Some? ==> p.value.root == root || p.value.root == MarkAt(root, path)
    ensures !IsAsyncGenerator(target) ==> p.Some? && p.value.root == root
  {
    var (v, e) := ApplyOutcome(target, that, args, oracle);
    if !IsAsyncGenerator(target) then Some(Performed(v, e, root))
    else
      match ProxyValue(v)
      case None => None
      case Some(m) => Some(Performed(m, e, MarkedRoot(root, path, e.Some?)))
  }

  /**
    Resolution and the operation of a request, or None when the handler throws
    before it can reply: a path segment read off `undefined`/`null`, a target whose
    `constructor` cannot be read (`obj.constructor.name`), an argument that cannot be unwrapped, or
    `proxyValue` on a nullish result of an async generator function.
  */
  function Perform(root: Value, request: Request, oracle: Oracle): (p: Option<Performed>)
    ensures p.Some? ==> Resolve(root, request.callPath).Some? && !ConstructorReadFaults(Resolve(root, request.callPath).value)
    ensures p.Some? && !request.SetRequest? ==> p.value.root == root || p.value.root == MarkAt(root, request.callPath)
    ensures p.Some? && !request.SetRequest? && !IsAsyncGenerator(Resolve(root, request.callPath).value) ==> p.value.root == root
  {
    var path := request.callPath;
    var that := Resolve(root, CallPath.DropLast(path));
    var target := Resolve(root, path);
    if that.None? || target.None? || ConstructorReadFaults(target.value) then None
    else
      var asyncGen := IsAsyncGenerator(target.value);
      match request
      case ApplyRequest(_, args0) =>
        (match UnwrapArguments(args0)
         case None => None
         case Some(args) => PerformApply(root, path, target.value, that.value, args, oracle))
      case ConstructRequest(_, args0) =>
        (match UnwrapArguments(args0)
         case None => None
         case Some(args) =>
           var before := if asyncGen then Mark(target.value) else target.value;
           var (v, e) := ConstructOutcome(target.value, before, args, oracle);
           Some(Performed(v, e, MarkedRoot(root, path, asyncGen))))
      case GetRequest(_) =>
        Some(Performed(if asyncGen then Mark(target.value) else target.value, None, MarkedRoot(root, path, asyncGen)))
      case SetRequest(_, property, value) =>
        Some(Performed(Bool(true), None, Assign(MarkedRoot(root, path, asyncGen), path, property, value)))
  }

  /** A path that resolves has a prefix that resolves: the receiver exists whenever the target does. */
  lemma ResolvePrefix(root: Value, path: seq<string>)
    requires Resolve(root, path).Some?
    ensures Resolve(root, CallPath.DropLast(path)).Some?
  {
    if path != [] {
      assert path == CallPath.DropLast(path) + [path[|path| - 1]];
      ResolveSnoc(root, CallPath.DropLast(path), path[|path| - 1]);
    }
  }

  /**
    The handler's steps up to `makeInvocationResult` (demo/wwsw.js:64-104), with the
    result and the caught error kept in two variables as the source does, and the
    root changed where the source changes objects inside it.
  */
  method Evaluate(root: Value, request: Request, oracle: Oracle) returns (p: Option<Performed>)
    ensures p == Perform(root, request, oracle)
  {
    var path := request.callPath;
    var resolvedThat := Resolve(root, CallPath.DropLast(path));
    var resolvedObj := Resolve(root, path);
    if resolvedThat.None? || resolvedObj.None? {
      return None;  // the reduce throws; the handler's promise rejects
    }
    var that, obj := resolvedThat.value, resolvedObj.value;
    if ConstructorReadFaults(obj) {
      return None;  // `obj.constructor.name` throws
    }
    var isAsyncGenerator := IsAsyncGenerator(obj);
    var iresult := obj;
    var iresultIsTarget := true;  // `iresult` still refers to the object inside the root
    var ierror: Option<Exception> := None;
    var newRoot := root;
    var args: seq<Value> := [];
    if request.ApplyRequest? || request.ConstructRequest? {
      var unwrapped := UnwrapArguments(request.argumentsList);
      if unwrapped.None? {
        return None;
      }
      args := unwrapped.value;
    }
    if request.ApplyRequest? {
      match Called(obj, that, args, oracle)
      case Returns(v) =>
        iresult := v;
        iresultIsTarget := false;
      case Throws(e) => ierror := Some(e);
    }
    if isAsyncGenerator {
      var marked := ProxyValue(iresult);
      if marked.None? {
        return None;  // outside any try
      }
      iresult := marked.value;
      if iresultIsTarget {
        newRoot := MarkAt(newRoot, path);
      }
    }
    if request.ConstructRequest? {
      if IsConstructor(obj) {
        match oracle.construct(obj.callable.value.fid, args)
        case Returns(v) =>
          var marked := ProxyValue(v);
          if marked.Some? {
            iresult := marked.value;
          } else {
            ierror := Some(TypeError);
          }
        case Throws(e) => ierror := Some(e);
      } else {
        ierror := Some(TypeError);
      }
    }
    if request.SetRequest? {
      newRoot := Assign(newRoot, path, request.property, request.value);
      iresult := Bool(true);
    }
    return Some(Performed(iresult, ierror, newRoot));
  }

  /** The effect of one message: the new root, the reply if any, and the sub-exposer if any. */
  datatype Handled = Handled(root: Value, reply: Option<Response>, exposure: Option<Exposure>)

  /**
    The handler on one message; `channel` is the id a new MessageChannel would get.
    The reply is posted only when `postMessage` can clone it.
  */
  function Respond(root: Value, msg: Message, oracle: Oracle, channel: nat): Handled
  {
    if !HasId(msg) then Handled(root, None, None)
    else
      match Perform(root, msg.request, oracle)
      case None => Handled(root, None, None)
      case Some(p) =>
        var r := MakeInvocationResult(p.result, p.error, channel);
        if CloneResult(r).None? then Handled(p.root, None, None)
        else
          Handled(p.root, Some(Response(msg.id.value, r)),
                  if r.ProxyResult? then Some(Exposure(channel, p.result)) else None)
  }

  /** A message without a (truthy) id gets no reply and changes nothing. */
  lemma NoIdNoReply(root: Value, msg: Message, oracle: Oracle, channel: nat)
    requires !HasId(msg)
    ensures Respond(root, msg, oracle, channel) == Handled(root, None, None)
  {
  }

  /** A reply carries the request's own id, and a PROXY reply the channel allocated for it. */
  lemma ReplyCarriesRequestId(root: Value, msg: Message, oracle: Oracle, channel: nat)
    ensures var h := Respond(root, msg, oracle, channel);
      h.reply.Some? ==> HasId(msg) && h.reply.value.id == msg.id.value
    ensures var h := Respond(root, msg, oracle, channel);
      h.exposure.Some? <==> h.reply.Some? && h.reply.value.result.ProxyResult?
    ensures var h := Respond(root, msg, oracle, channel);
      h.exposure.Some? ==> h.exposure.value.channel == channel && h.reply.value.result == ProxyResult(channel)
  {
  }

  /**
    Exactly when the handler gets as far as `makeInvocationResult`: the path resolves
    to a value whose `constructor` can be read, the arguments of APPLY and CONSTRUCT unwrap, and
    an async generator function did not return a nullish value. Path resolution is
    outside any try.
  */
  lemma PerformsExactlyWhen(root: Value, request: Request, oracle: Oracle)
    ensures Perform(root, request, oracle).Some? <==>
      var target := Resolve(root, request.callPath);
      && target.Some? && !ConstructorReadFaults(target.value)
      && (request.ApplyRequest? || request.ConstructRequest? ==> UnwrapArguments(request.argumentsList).Some?)
      && (request.ApplyRequest? && IsAsyncGenerator(target.value) ==>
            var that := Resolve(root, CallPath.DropLast(request.callPath));
            that.Some? && !IsNullish(ApplyOutcome(target.value, that.value, UnwrapArguments(request.argumentsList).value, oracle).0))
  {
    var path := request.callPath;
    var target := Resolve(root, path);
    if target.Some? && !ConstructorReadFaults(target.value) {
      ResolvePrefix(root, path);
      var that := Resolve(root, CallPath.DropLast(path)).value;
      match request
      case ApplyRequest(_, args0) =>
        if UnwrapArguments(args0).Some? {
          assert Perform(root, request, oracle) == PerformApply(root, path, target.value, that, UnwrapArguments(args0).value, oracle);
        }
      case ConstructRequest(_, args0) =>
        assert Perform(root, request, oracle).Some? == UnwrapArguments(args0).Some?;
      case GetRequest(_) =>
        assert Perform(root, request, oracle).Some?;
      case SetRequest(_, _, _) =>
        assert Perform(root, request, oracle).Some?;
    } else {
      assert Perform(root, request, oracle).None?;
    }
  }


  /**
    Exactly when a message is answered: it has an id, the handler gets as far as
    `makeInvocationResult`, and `postMessage` can clone the reply, which fails only
    for an OBJECT value that holds a function or a proxy.
  */
  lemma AnsweredExactlyWhen(root: Value, msg: Message, oracle: Oracle, channel: nat)
    ensures Respond(root, msg, oracle, channel).reply.Some? <==>
      && HasId(msg)
      && Perform(root, msg.request, oracle).Some?
      && var p := Perform(root, msg.request, oracle).value;
         var r := MakeInvocationResult(p.result, p.error, channel);
         !(r.ObjectResult? && Clone(r.obj, true).None?)
  {
  }

  /**
    APPLY on a function that is not an async generator function calls it with the
    receiver (the path minus its last segment) as `this` (unless an own `apply`
    property takes the call instead); its return value is tagged,
    and what it throws is caught into an ERROR reply. The root is unchanged. When the
    function's own `constructor` is `undefined` or `null`, reading its name throws
    before the call and nothing is posted.
  */
  lemma ApplyUsesReceiver(root: Value, id: string, path: seq<string>, args: seq<Value>, oracle: Oracle, channel: nat)
    requires id != ""
    requires Resolve(root, path).Some? && Resolve(root, path).value.Obj? && Resolve(root, path).value.callable.Some?
    requires !IsAsyncGenerator(Resolve(root, path).value)
    requires UnwrapArguments(args).Some?
    ensures Resolve(root, CallPath.DropLast(path)).Some?
    ensures var t := Resolve(root, path).value;
      var that := Resolve(root, CallPath.DropLast(path)).value;
      !HasOwn(t.props, "apply") ==>
        Called(t, that, UnwrapArguments(args).value, oracle) == oracle.apply(t.callable.value.fid, that, UnwrapArguments(args).value)
    ensures var outcome := Called(Resolve(root, path).value, Resolve(root, CallPath.DropLast(path)).value,
                                  UnwrapArguments(args).value, oracle);
      var r := if outcome.Returns? then MakeInvocationResult(outcome.value, None, channel)
               else ErrorResult(ErrorText(outcome.error));
      var h := Respond(root, Message(Some(id), ApplyRequest(path, args)), oracle, channel);
      && h.root == root
      && (ConstructorReadFaults(Resolve(root, path).value) ==> h.reply.None?)
      && (!ConstructorReadFaults(Resolve(root, path).value) ==>
            h.reply == (if CloneResult(r).Some? then Some(Response(id, r)) else None))
  {
    ResolvePrefix(root, path);
    var t := Resolve(root, path).value;
    if !ConstructorReadFaults(t) {
      var that := Resolve(root, CallPath.DropLast(path)).value;
      var a := UnwrapArguments(args).value;
      var outcome := Called(t, that, a, oracle);
      var v := if outcome.Returns? then outcome.value else t;
      var e := if outcome.Returns? then None else Some(outcome.error);
      assert ApplyOutcome(t, that, a, oracle) == (v, e);
      assert Perform(root, ApplyRequest(path, args), oracle) == Some(Performed(v, e, root));
    }
  }

  /**
    APPLY on an async generator function: what it returns is marked and sent as
    PROXY; an error is caught into ERROR, and then `iresult` is still the function
    itself, so the function inside the root is marked; a nullish return value makes
    `proxyValue` throw outside the try and nothing is posted. An object that only
    claims the name through its own `constructor` and is not callable throws the
    TypeError of `obj.apply`.
  */
  lemma ApplyAsyncGeneratorProxied(root: Value, id: string, path: seq<string>, args: seq<Value>, oracle: Oracle, channel: nat)
    requires id != ""
    requires Resolve(root, path).Some? && IsAsyncGenerator(Resolve(root, path).value)
    requires UnwrapArguments(args).Some?
    ensures Resolve(root, CallPath.DropLast(path)).Some?
    ensures var outcome := Called(Resolve(root, path).value, Resolve(root, CallPath.DropLast(path)).value,
                                  UnwrapArguments(args).value, oracle);
      var h := Respond(root, Message(Some(id), ApplyRequest(path, args)), oracle, channel);
      && (outcome.Returns? && IsObject(outcome.value) ==>
            h == Handled(root, Some(Response(id, ProxyResult(channel))), Some(Exposure(channel, Mark(outcome.value)))))
      && (outcome.Returns? && !IsObject(outcome.value) && !IsNullish(outcome.value) ==>
            h == Handled(root, Some(Response(id, ObjectResult(outcome.value))), None))
      && (outcome.Returns? && IsNullish(outcome.value) ==> h == Handled(root, None, None))
      && (outcome.Throws? ==> h == Handled(MarkAt(root, path), Some(Response(id, ErrorResult(ErrorText(outcome.error)))), None))
  {
    ResolvePrefix(root, path);
    var t := Resolve(root, path).value;
    var that := Resolve(root, CallPath.DropLast(path)).value;
    AsyncGeneratorReadable(t);
    if Called(t, that, UnwrapArguments(args).value, oracle).Returns? {
      AsyncGeneratorReturns(root, id, path, args, oracle, channel);
    } else {
      AsyncGeneratorThrows(root, id, path, args, oracle, channel);
    }
  }

  /** An APPLY whose target's constructor can be read and whose arguments unwrap is the APPLY step. */
  lemma PerformApplyUnwrapped(root: Value, path: seq<string>, args: seq<Value>, oracle: Oracle)
    requires Resolve(root, path).Some? && !ConstructorReadFaults(Resolve(root, path).value)
    requires UnwrapArguments(args).Some?
    ensures Resolve(root, CallPath.DropLast(path)).Some?
    ensures Perform(root, ApplyRequest(path, args), oracle) ==
      PerformApply(root, path, Resolve(root, path).value, Resolve(root, CallPath.DropLast(path)).value,
                   UnwrapArguments(args).value, oracle)
  {
    ResolvePrefix(root, path);
  }

  lemma AsyncGeneratorReturns(root: Value, id: string, path: seq<string>, args: seq<Value>, oracle: Oracle, channel: nat)
    requires id != ""
    requires Resolve(root, path).Some? && IsAsyncGenerator(Resolve(root, path).value)
    requires UnwrapArguments(args).Some?
    requires Resolve(root, CallPath.DropLast(path)).Some?
    requires Called(Resolve(root, path).value, Resolve(root, CallPath.DropLast(path)).value,
                    UnwrapArguments(args).value, oracle).Returns?
    ensures var v := Called(Resolve(root, path).value, Resolve(root, CallPath.DropLast(path)).value,
                            UnwrapArguments(args).value, oracle).value;
      var h := Respond(root, Message(Some(id), ApplyRequest(path, args)), oracle, channel);
      && (IsObject(v) ==> h == Handled(root, Some(Response(id, ProxyResult(channel))), Some(Exposure(channel, Mark(v)))))
      && (!IsObject(v) && !IsNullish(v) ==> h == Handled(root, Some(Response(id, ObjectResult(v))), None))
      && (IsNullish(v) ==> h == Handled(root, None, None))
  {
    var t := Resolve(root, path).value;
    var that := Resolve(root, CallPath.DropLast(path)).value;
    var a := UnwrapArguments(args).value;
    var v := Called(t, that, a, oracle).value;
    var request := ApplyRequest(path, args);
    AsyncGeneratorReadable(t);
    PerformApplyUnwrapped(root, path, args, oracle);
    assert ApplyOutcome(t, that, a, oracle) == (v, None);
    if IsNullish(v) {
      assert Perform(root, request, oracle) == None;
    } else {
      assert Perform(root, request, oracle) == Some(Performed(Mark(v), None, root));
      if IsObject(v) {
        assert MakeInvocationResult(Mark(v), None, channel) == ProxyResult(channel);
      } else {
        assert Mark(v) == v && MakeInvocationResult(v, None, channel) == ObjectResult(v);
        assert Clone(v, true) == Some(v);
      }
    }
  }

  lemma AsyncGeneratorThrows(root: Value, id: string, path: seq<string>, args: seq<Value>, oracle: Oracle, channel: nat)
    requires id != ""
    requires Resolve(root, path).Some? && IsAsyncGenerator(Resolve(root, path).value)
    requires UnwrapArguments(args).Some?
    requires Resolve(root, CallPath.DropLast(path)).Some?
    requires Called(Resolve(root, path).value, Resolve(root, CallPath.DropLast(path)).value,
                    UnwrapArguments(args).value, oracle).Throws?
    ensures var e := Called(Resolve(root, path).value, Resolve(root, CallPath.DropLast(path)).value,
                            UnwrapArguments(args).value, oracle).error;
      Respond(root, Message(Some(id), ApplyRequest(path, args)), oracle, channel) ==
      Handled(MarkAt(root, path), Some(Response(id, ErrorResult(ErrorText(e)))), None)
  {
    var t := Resolve(root, path).value;
    var that := Resolve(root, CallPath.DropLast(path)).value;
    var a := UnwrapArguments(args).value;
    var e := Called(t, that, a, oracle).error;
    var r := ErrorResult(ErrorText(e));
    AsyncGeneratorReadable(t);
    assert ApplyOutcome(t, that, a, oracle) == (t, Some(e));
    assert Perform(root, ApplyRequest(path, args), oracle) == Some(Performed(Mark(t), Some(e), MarkAt(root, path)));
    assert MakeInvocationResult(Mark(t), Some(e), channel) == r && CloneResult(r) == Some(r);
  }


  /**
    An APPLY on a target whose `obj.apply` is not a function is caught too: an ERROR
    reply, not silence, unless reading its constructor's name throws first. A target whose own
    `constructor` is named 'AsyncGeneratorFunction' is marked in place as well.
  */
  lemma ApplyNonCallableIsError(root: Value, id: string, path: seq<string>, args: seq<Value>, oracle: Oracle, channel: nat)
    requires id != ""
    requires Resolve(root, path).Some?
    requires !HasApply(Resolve(root, path).value)
    requires UnwrapArguments(args).Some?
    ensures var t := Resolve(root, path).value;
      Respond(root, Message(Some(id), ApplyRequest(path, args)), oracle, channel) ==
      if ConstructorReadFaults(t) then Handled(root, None, None)
      else Handled(MarkedRoot(root, path, IsAsyncGenerator(t)), Some(Response(id, ErrorResult(ErrorText(TypeError)))), None)
  {
    ResolvePrefix(root, path);
    var t := Resolve(root, path).value;
    if !ConstructorReadFaults(t) {
      var that := Resolve(root, CallPath.DropLast(path)).value;
      var r := ErrorResult(ErrorText(TypeError));
      PerformApplyUnwrapped(root, path, args, oracle);
      assert Called(t, that, UnwrapArguments(args).value, oracle) == Throws(TypeError);
      assert ApplyOutcome(t, that, UnwrapArguments(args).value, oracle) == (t, Some(TypeError));
      if IsAsyncGenerator(t) {
        assert Perform(root, ApplyRequest(path, args), oracle) == Some(Performed(Mark(t), Some(TypeError), MarkAt(root, path)));
      } else {
        assert Perform(root, ApplyRequest(path, args), oracle) == Some(Performed(t, Some(TypeError), root));
      }
      assert CloneResult(r) == Some(r);
    }
  }

  /**
    CONSTRUCT answers PROXY when the constructor returns an object: the marked
    instance is exposed on the new channel, never copied. An async generator
    function cannot be constructed, so there the reply is the TypeError. A target
    whose constructor is named 'AsyncGeneratorFunction' has been marked in place
    just before, and one whose own `constructor` is nullish gets no reply.
  */
  lemma ConstructIsProxied(root: Value, id: string, path: seq<string>, args: seq<Value>, oracle: Oracle, channel: nat)
    requires id != ""
    requires Resolve(root, path).Some? && Resolve(root, path).value.Obj? && Resolve(root, path).value.callable.Some?
    requires UnwrapArguments(args).Some?
    requires var o := oracle.construct(Resolve(root, path).value.callable.value.fid, UnwrapArguments(args).value);
      o.Returns? && IsObject(o.value)
    ensures var t := Resolve(root, path).value;
      var o := oracle.construct(t.callable.value.fid, UnwrapArguments(args).value);
      var h := Respond(root, Message(Some(id), ConstructRequest(path, args)), oracle, channel);
      if ConstructorReadFaults(t) then h == Handled(root, None, None)
      else if !IsConstructor(t) then
        h == Handled(MarkedRoot(root, path, IsAsyncGenerator(t)), Some(Response(id, ErrorResult(ErrorText(TypeError)))), None)
      else
        h == Handled(MarkedRoot(root, path, IsAsyncGenerator(t)), Some(Response(id, ProxyResult(channel))),
                     Some(Exposure(channel, Mark(o.value))))
  {
    var t := Resolve(root, path).value;
    if !ConstructorReadFaults(t) {
      var a := UnwrapArguments(args).value;
      var o := oracle.construct(t.callable.value.fid, a);
      var before := if IsAsyncGenerator(t) then Mark(t) else t;
      PerformConstruct(root, path, args, oracle);
      if !IsConstructor(t) {
        var r := ErrorResult(ErrorText(TypeError));
        assert ConstructOutcome(t, before, a, oracle) == (before, Some(TypeError));
        assert MakeInvocationResult(before, Some(TypeError), channel) == r && CloneResult(r) == Some(r);
      } else {
        assert ConstructOutcome(t, before, a, oracle) == (Mark(o.value), None);
        assert MakeInvocationResult(Mark(o.value), None, channel) == ProxyResult(channel);
      }
    }
  }

  /** A CONSTRUCT whose target resolves and whose arguments unwrap gets to `makeInvocationResult`. */
  lemma PerformConstruct(root: Value, path: seq<string>, args: seq<Value>, oracle: Oracle)
    requires Resolve(root, path).Some? && !ConstructorReadFaults(Resolve(root, path).value)
    requires UnwrapArguments(args).Some?
    ensures var t := Resolve(root, path).value;
      var before := if IsAsyncGenerator(t) then Mark(t) else t;
      var (v, e) := ConstructOutcome(t, before, UnwrapArguments(args).value, oracle);
      Perform(root, ConstructRequest(path, args), oracle) == Some(Performed(v, e, MarkedRoot(root, path, IsAsyncGenerator(t))))
  {
    ResolvePrefix(root, path);
  }

  /**
    A CONSTRUCT that fails is caught into an ERROR reply: a constructor that throws,
    a target that is not constructible (not callable, or an async generator
    function), or a nullish instance (on which `proxyValue` throws inside the try).
    A target whose constructor's name cannot be read gets no reply at all.
  */
  lemma ConstructErrorCaught(root: Value, id: string, path: seq<string>, args: seq<Value>, oracle: Oracle, channel: nat)
    requires id != ""
    requires Resolve(root, path).Some?
    requires UnwrapArguments(args).Some?
    ensures var t := Resolve(root, path).value;
      ConstructorReadFaults(t) ==>
        Respond(root, Message(Some(id), ConstructRequest(path, args)), oracle, channel) == Handled(root, None, None)
    ensures var t := Resolve(root, path).value;
      var h := Respond(root, Message(Some(id), ConstructRequest(path, args)), oracle, channel);
      var failure: Option<Exception> :=
        if !IsConstructor(t) then Some(TypeError)
        else
          var o := oracle.construct(t.callable.value.fid, UnwrapArguments(args).value);
          if o.Throws? then Some(o.error) else if IsNullish(o.value) then Some(TypeError) else None;
      !ConstructorReadFaults(t) && failure.Some? ==>
        h == Handled(MarkedRoot(root, path, IsAsyncGenerator(t)), Some(Response(id, ErrorResult(ErrorText(failure.value)))), None)
  {
    var t := Resolve(root, path).value;
    if !ConstructorReadFaults(t) {
      var before := if IsAsyncGenerator(t) then Mark(t) else t;
      var (v, e) := ConstructOutcome(t, before, UnwrapArguments(args).value, oracle);
      PerformConstruct(root, path, args, oracle);
      if e.Some? {
        var r := ErrorResult(ErrorText(e.value));
        assert MakeInvocationResult(v, e, channel) == r && CloneResult(r) == Some(r);
      }
    }
  }

  /**
    GET answers with the target itself. A target whose constructor is named
    'AsyncGeneratorFunction' is marked in place and sent as PROXY; anything else is
    tagged as it is, and an OBJECT value that holds a function or a proxy cannot be
    posted. A target whose constructor's name cannot be read gets no reply.
  */
  lemma GetAnswersTarget(root: Value, id: string, path: seq<string>, channel: nat, oracle: Oracle)
    requires id != ""
    requires Resolve(root, path).Some?
    ensures var t := Resolve(root, path).value;
      var h := Respond(root, Message(Some(id), GetRequest(path)), oracle, channel);
      var r := MakeInvocationResult(t, None, channel);
      if ConstructorReadFaults(t) then h == Handled(root, None, None)
      else if IsAsyncGenerator(t) then
        h == Handled(MarkAt(root, path), Some(Response(id, ProxyResult(channel))), Some(Exposure(channel, Mark(t))))
      else
        h.root == root && h.reply == (if CloneResult(r).Some? then Some(Response(id, r)) else None)
  {
    var t := Resolve(root, path).value;
    if !ConstructorReadFaults(t) {
      PerformGet(root, path, oracle);
      if IsAsyncGenerator(t) {
        assert MakeInvocationResult(Mark(t), None, channel) == ProxyResult(channel);
      }
    }
  }

  /** A GET whose target resolves gets to `makeInvocationResult` with the (marked) target. */
  lemma PerformGet(root: Value, path: seq<string>, oracle: Oracle)
    requires Resolve(root, path).Some? && !ConstructorReadFaults(Resolve(root, path).value)
    ensures var t := Resolve(root, path).value;
      Perform(root, GetRequest(path), oracle) ==
      if IsAsyncGenerator(t) then Some(Performed(Mark(t), None, MarkAt(root, path))) else Some(Performed(t, None, root))
  {
    ResolvePrefix(root, path);
  }

  /** The handler's answer to a SET whose target resolves to an object. */
  lemma SetReply(root: Value, id: string, path: seq<string>, property: string, value: Value, oracle: Oracle, channel: nat)
    requires id != ""
    requires Resolve(root, path).Some? && Resolve(root, path).value.Obj?
    ensures Respond(root, Message(Some(id), SetRequest(path, property, value)), oracle, channel) ==
      if ConstructorReadFaults(Resolve(root, path).value) then Handled(root, None, None)
      else Handled(Assign(MarkedRoot(root, path, IsAsyncGenerator(Resolve(root, path).value)), path, property, value),
                   Some(Response(id, ObjectResult(Bool(true)))), None)
  {
    if !ConstructorReadFaults(Resolve(root, path).value) {
      var r := ObjectResult(Bool(true));
      PerformSet(root, path, property, value, oracle);
      assert MakeInvocationResult(Bool(true), None, channel) == r;
      assert Clone(Bool(true), true) == Some(Bool(true)) && CloneResult(r) == Some(r);
    }
  }

  lemma PerformSet(root: Value, path: seq<string>, property: string, value: Value, oracle: Oracle)
    requires Resolve(root, path).Some? && !ConstructorReadFaults(Resolve(root, path).value)
    ensures Perform(root, SetRequest(path, property, value), oracle) ==
      Some(Performed(Bool(true), None, Assign(MarkedRoot(root, path, IsAsyncGenerator(Resolve(root, path).value)), path, property, value)))
  {
    ResolvePrefix(root, path);
  }

  /**
    SET assigns onto the target at `property` and answers `true`; afterwards the
    property reads back as the value and every other property of the target is as
    it was. A target whose own `constructor` is nullish is left alone, unanswered.
  */
  lemma SetAssignsAndAnswersTrue(root: Value, id: string, path: seq<string>, property: string, value: Value,
                                 oracle: Oracle, channel: nat, other: string)
    requires id != ""
    requires Resolve(root, path).Some? && Resolve(root, path).value.Obj?
    ensures var t := Resolve(root, path).value;
      var h := Respond(root, Message(Some(id), SetRequest(path, property, value)), oracle, channel);
      ConstructorReadFaults(t) ==> h == Handled(root, None, None)
    ensures var t := Resolve(root, path).value;
      var h := Respond(root, Message(Some(id), SetRequest(path, property, value)), oracle, channel);
      !ConstructorReadFaults(t) ==>
      && h.reply == Some(Response(id, ObjectResult(Bool(true))))
      && h.root == Assign(MarkedRoot(root, path, IsAsyncGenerator(t)), path, property, value)
      && Resolve(h.root, path + [property]) == Some(value)
      && (other != property ==> Resolve(h.root, path + [other]) == Resolve(root, path + [other]))
  {
    SetReply(root, id, path, property, value, oracle, channel);
    MarkedAssignThenRead(root, path, property, value, other);
  }

  lemma MarkedAssignThenRead(root: Value, path: seq<string>, property: string, value: Value, other: string)
    requires Resolve(root, path).Some? && Resolve(root, path).value.Obj?
    ensures var root' := Assign(MarkedRoot(root, path, IsAsyncGenerator(Resolve(root, path).value)), path, property, value);
      && Resolve(root', path + [property]) == Some(value)
      && (other != property ==> Resolve(root', path + [other]) == Resolve(root, path + [other]))
  {
    var t := Resolve(root, path).value;
    var marked := MarkedRoot(root, path, IsAsyncGenerator(t));
    if IsAsyncGenerator(t) {
      MarkAtThenRead(root, path);
      assert Resolve(marked, path) == Some(Mark(t));
      MarkAtKeepsProperties(root, path, other);
    }
    AssignThenRead(marked, path, property, value, other);
  }

  /**
    Only SET assigns into the root, also when a call throws; any other request leaves
    the root as it was, except that an async generator target may be marked in place.
  */
  lemma NonSetOnlyMarks(root: Value, msg: Message, oracle: Oracle, channel: nat)
    requires !msg.request.SetRequest?
    ensures var h := Respond(root, msg, oracle, channel);
      h.root == root || h.root == MarkAt(root, msg.request.callPath)
    ensures var t := Resolve(root, msg.request.callPath);
      t.None? || !IsAsyncGenerator(t.value) ==> Respond(root, msg, oracle, channel).root == root
  {
  }

  /** One `endpoint.postMessage(iresult, transfer)` of the exposing side. */
  datatype Reply = Reply(response: Response, transfer: seq<Value>)

  /** The exposing side bound to one endpoint. */
  class Exposer {
    var root: Value
    var nextChannel: nat
    var exposed: seq<Exposure>
    var outbox: seq<Reply>

    constructor (root: Value)
      ensures this.root == root && nextChannel == 0 && exposed == [] && outbox == []
    {
      this.root := root;
      nextChannel := 0;
      exposed := [];
      outbox := [];
    }

    /** The message handler, step by step (demo/wwsw.js:61-108). */
    method HandleMessage(msg: Message, oracle: Oracle)
      modifies this
      ensures var h := Respond(old(root), msg, oracle, old(nextChannel));
        && root == h.root
        && exposed == old(exposed) + (if h.exposure.Some? then [h.exposure.value] else [])
        && nextChannel == old(nextChannel) + (if h.exposure.Some? then 1 else 0)
        && outbox == old(outbox) + (if h.reply.Some? then [Reply(h.reply.value,
             Transfer.Transferables(Transfer.IterateAllProperties(Arr([ResponseValue(h.reply.value)], false))))] else [])
    {
      if msg.id.None? || msg.id.value == "" {
        return;
      }
      var performed := Evaluate(root, msg.request, oracle);
      if performed.None? {
        return;
      }
      root := performed.value.root;
      var iresult := performed.value.result;
      var result := MakeInvocationResult(iresult, performed.value.error, nextChannel);
      if result.ProxyResult? {
        exposed := exposed + [Exposure(nextChannel, iresult)];
        nextChannel := nextChannel + 1;
      }
      var response := Response(msg.id.value, result);
      var transfer := Transfer.TransferableProperties(Arr([ResponseValue(response)], false));
      CloneReply(response);
      if Clone(ResponseValue(response), true).None? {
        return;  // `postMessage` throws a DataCloneError
      }
      outbox := outbox + [Reply(response, transfer)];
    }
  }
}
