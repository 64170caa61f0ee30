/**
  Whole round trips through the core: a chain of property reads and a call on the
  calling side, the argument pass, the exposer's handler, and the unmarshalling of
  its reply.
*/
module EndToEnd {
  import opened Wrappers
  import opened JsValues
  import opened StructuredClone
  import opened Protocol
  import opened CallPath
  import opened Dispatcher
  import Transfer

  /**
    What the caller's awaited call gives for an outcome of the remote function, after
    the reply has been cloned: None when the reply cannot be posted, so the promise
    never settles.
  */
  function Expected(o: Outcome, channel: nat): Option<CallOutcome>
  {
    match o
    case Returns(v) =>
      if IsProxyValue(v) then Some(NewProxy(channel))
      else (match Clone(v, true)
            case None => None
            case Some(w) => Some(Resolved(w)))
    case Throws(e) => Some(Rejected(ErrorText(e)))
  }

  /**
    `await p.a.b(args)`: the chain sends one APPLY with path ["a", "b"]; the message
    arrives as its structured clone; the exposer calls the function at that path with
    `this` bound to the object at ["a"] and the arguments as copies (proxy-marked ones
    arriving as remote proxies), through the function's own `apply` property when it
    has one; the caller's promise settles with (a copy of) what
    that call returned or threw, whenever the reply can be posted. A function whose
    own `constructor` is `undefined` or `null` is never called and never answers.
  */
  lemma RemoteCallReturnsCalleeResult(root: Value, names: seq<string>, args: seq<Value>, next: nat,
                                      id: string, oracle: Oracle, channel: nat)
    requires "then" !in names && !EndsInBind(names) && id != ""
    requires Resolve(root, names).Some? && Resolve(root, names).value.Obj?
    requires Resolve(root, names).value.callable.Some? && !IsAsyncGenerator(Resolve(root, names).value)
    requires Sendable(args)
    requires forall i :: 0 <= i < |args| ==> !IsNullish(args[i])
    requires forall i :: 0 <= i < |args| && args[i].Obj? ==> Lookup(args[i].props, TransferMarker) != Str("PROXY")
    ensures Run([], Reads(names) + [ApplyTrap(args)]) == Trace([], [ApplyRequest(names, args)])
    ensures CloneRequest(ApplyRequest(names, ProxifyArguments(args, next).args)).Some?
    ensures Resolve(root, DropLast(names)).Some?
    ensures var received := CloneRequest(ApplyRequest(names, ProxifyArguments(args, next).args)).value;
      var h := Respond(root, Message(Some(id), received), oracle, channel);
      var o := Called(Resolve(root, names).value, Resolve(root, DropLast(names)).value, ReceivedCopies(args, next), oracle);
      && (!HasOwn(Resolve(root, names).value.props, "apply") ==>
            o == oracle.apply(Resolve(root, names).value.callable.value.fid,
                              Resolve(root, DropLast(names)).value, ReceivedCopies(args, next)))
      && (ConstructorReadFaults(Resolve(root, names).value) ==> h.reply.None?)
      && (!ConstructorReadFaults(Resolve(root, names).value) ==> (h.reply.Some? <==> Expected(o, channel).Some?))
      && (h.reply.Some? ==> h.reply.value.id == id && CloneResult(h.reply.value.result).Some? &&
                            Unmarshal(CloneResult(h.reply.value.result).value) == Expected(o, channel).value)
  {
    ChainApply(names, args);
    ArgumentsWireRoundTrip(args, next);
    var sentArgs := ProxifyArguments(args, next).args;
    var wireArgs := CloneElements(sentArgs, true).value;
    assert CloneRequest(ApplyRequest(names, sentArgs)) == Some(ApplyRequest(names, wireArgs));
    ApplyUsesReceiver(root, id, names, wireArgs, oracle, channel);
    var o := Called(Resolve(root, names).value, Resolve(root, DropLast(names)).value, ReceivedCopies(args, next), oracle);
    match o
    case Returns(v) => MarshalRoundTrip(v, None, channel);
    case Throws(e) =>
  }

  /**
    `p.a.x = v` followed by `await p.a.x`: the SET message can be posted exactly when
    `v` clones with no port on the (empty) transfer list; the exposer stores the copy
    and answers `true`, and the GET after the SET answers with that copy, which
    arrives unchanged. The GET finds the copy's constructor as the SET left it: when
    the copy is `undefined` or `null`, or has an own `constructor` that is, the GET
    is never answered; when that constructor is named 'AsyncGeneratorFunction', the
    stored copy is marked in place and sent as PROXY. A SET on a target whose own
    `constructor` is nullish is itself never answered and stores nothing.
  */
  lemma SetThenGetReadsBack(root: Value, path: seq<string>, property: string, v: Value,
                            id1: string, id2: string, oracle: Oracle, channel: nat)
    requires id1 != "" && id2 != ""
    requires Resolve(root, path).Some? && Resolve(root, path).value.Obj?
    ensures CloneRequest(SetRequest(path, property, v)).Some? <==> Clone(v, false).Some?
    ensures Clone(v, false).Some? ==>
      var w := Clone(v, false).value;
      var h1 := Respond(root, Message(Some(id1), SetRequest(path, property, w)), oracle, channel);
      && CloneRequest(SetRequest(path, property, v)) == Some(SetRequest(path, property, w))
      && (IsNullish(v) <==> IsNullish(w))
      && (ConstructorReadFaults(Resolve(root, path).value) ==> h1 == Handled(root, None, None))
    ensures Clone(v, false).Some? && !ConstructorReadFaults(Resolve(root, path).value) ==>
      var w := Clone(v, false).value;
      var h1 := Respond(root, Message(Some(id1), SetRequest(path, property, w)), oracle, channel);
      var h2 := Respond(h1.root, Message(Some(id2), GetRequest(path + [property])), oracle, channel);
      && h1.reply == Some(Response(id1, ObjectResult(Bool(true))))
      && (ConstructorReadFaults(w) ==> h2 == Handled(h1.root, None, None))
      && (IsAsyncGenerator(w) ==>
            h2 == Handled(MarkAt(h1.root, path + [property]), Some(Response(id2, ProxyResult(channel))),
                          Some(Exposure(channel, Mark(w)))))
      && (!ConstructorReadFaults(w) && !IsAsyncGenerator(w) ==>
            h2 == Handled(h1.root, Some(Response(id2, ObjectResult(w))), None) &&
            CloneResult(h2.reply.value.result) == Some(ObjectResult(w)))
  {
    if Clone(v, false).Some? {
      var w := Clone(v, false).value;
      CloneIdempotent(v, false);
      SetAssignsAndAnswersTrue(root, id1, path, property, w, oracle, channel, property);
      if !ConstructorReadFaults(Resolve(root, path).value) {
        var h1 := Respond(root, Message(Some(id1), SetRequest(path, property, w)), oracle, channel);
        assert Resolve(h1.root, path + [property]) == Some(w);
        GetAnswersTarget(h1.root, id2, path + [property], channel, oracle);
        if !ConstructorReadFaults(w) && !IsAsyncGenerator(w) {
          UnlistedCloneIsListedClone(w);
          assert !IsProxyValue(w);
          assert MakeInvocationResult(w, None, channel) == ObjectResult(w);
          assert CloneResult(ObjectResult(w)) == Some(ObjectResult(w));
        }
      }
    }
  }

  /**
    A SET whose value holds a MessagePort anywhere is never sent: its transfer list
    is empty, so `postMessage` throws a DataCloneError.
  */
  lemma SetWithPortThrows(path: seq<string>, property: string, v: Value, u: Value)
    requires Transfer.Reaches(v, u) && u.Port?
    ensures CloneRequest(SetRequest(path, property, v)).None?
  {
    UnlistedPortFails(v, u);
  }
}
