/**
  The wire protocol between a proxy and an exposer: request records, the id-carrying
  messages, the tagged results, and the marshalling steps on either side
  (demo/wwsw.js:27-49, 71-79, 266-294).
*/
module Protocol {
  import opened Wrappers
  import opened JsValues
  import Transfer
  import opened StructuredClone

  /** The record a proxy trap hands to its callback (demo/wwsw.js:180-236). */
  datatype Request =
    | ApplyRequest(callPath: seq<string>, argumentsList: seq<Value>)
    | ConstructRequest(callPath: seq<string>, argumentsList: seq<Value>)
    | GetRequest(callPath: seq<string>)
    | SetRequest(callPath: seq<string>, property: string, value: Value)

  /** A request as posted: a copy of the record with `id` added; `None` is a message without one. */
  datatype Message = Message(id: Option<string>, request: Request)

  /** A thrown error object: its `stack`, when it has one, and what `toString()` gives. */
  datatype Exception = Exception(stack: Option<string>, text: string)

  /** `('stack' in err) ? err.stack : err.toString()` (demo/wwsw.js:270). */
  function ErrorText(e: Exception): string
  {
    if e.stack.Some? then e.stack.value else e.text
  }

  /** The three result tags; a PROXY result names the channel whose other half was exposed. */
  datatype InvocationResult =
    | ErrorResult(error: string)
    | ProxyResult(endpoint: nat)
    | ObjectResult(obj: Value)

  /** A reply: the invocation result with the request's `id` attached. */
  datatype Response = Response(id: string, result: InvocationResult)

  /**
    `makeInvocationResult(obj, err)`: an error wins; then a proxy-marked value becomes
    PROXY on the freshly allocated `channel` (whose first half is exposed with `obj`);
    anything else is sent as OBJECT, unchanged.
  */
  function MakeInvocationResult(obj: Value, err: Option<Exception>, channel: nat): (r: InvocationResult)
    ensures r.ErrorResult? <==> err.Some?
    ensures r.ErrorResult? ==> r.error == ErrorText(err.value)
    ensures r.ProxyResult? <==> err.None? && IsProxyValue(obj)
    ensures r.ProxyResult? ==> r.endpoint == channel
    ensures r.ObjectResult? ==> r.obj == obj
  {
    if err.Some? then ErrorResult(ErrorText(err.value))
    else if IsProxyValue(obj) then ProxyResult(channel)
    else ObjectResult(obj)
  }

  /** What an awaited remote operation gives its caller. */
  datatype CallOutcome =
    | Rejected(message: string)   // `throw Error(result.error)`
    | NewProxy(channel: nat)      // `proxy(result.endpoint)`
    | Resolved(value: Value)      // `result.obj`

  /** The caller side of a result (demo/wwsw.js:43-48). */
  function Unmarshal(r: InvocationResult): (o: CallOutcome)
    ensures r.ErrorResult? ==> o == Rejected(r.error)
    ensures r.ProxyResult? ==> o == NewProxy(r.endpoint)
    ensures r.ObjectResult? ==> o == Resolved(r.obj)
  {
    match r
    case ErrorResult(text) => Rejected(text)
    case ProxyResult(c) => NewProxy(c)
    case ObjectResult(v) => Resolved(v)
  }

  /**
    Marshalling followed by unmarshalling: a thrown error reaches the caller as a
    rejection with the error's text, a proxy-marked value as a proxy on the new
    channel, and every other value unchanged.
  */
  lemma MarshalRoundTrip(obj: Value, err: Option<Exception>, channel: nat)
    ensures err.Some? ==> Unmarshal(MakeInvocationResult(obj, err, channel)) == Rejected(ErrorText(err.value))
    ensures err.None? && IsProxyValue(obj) ==> Unmarshal(MakeInvocationResult(obj, err, channel)) == NewProxy(channel)
    ensures err.None? && !IsProxyValue(obj) ==> Unmarshal(MakeInvocationResult(obj, err, channel)) == Resolved(obj)
  {
  }

  /** The reply object as posted, `{type, error|endpoint|obj, id}`, with the channel's second port. */
  function ResponseValue(r: Response): Value
  {
    match r.result
    case ErrorResult(text) => ReplyShape("ERROR", "error", Str(text), r.id)
    case ProxyResult(c) => ReplyShape("PROXY", "endpoint", Port(c, false), r.id)
    case ObjectResult(v) => ReplyShape("OBJECT", "obj", v, r.id)
  }

  /** `{type: tag, [field]: body, id}`. */
  function ReplyShape(tag: string, field: string, body: Value, id: string): Value
  {
    Obj([Prop("type", Str(tag)), Prop(field, body), Prop("id", Str(id))], None, false)
  }

  /**
    The transfer list of a reply, `transferableProperties([iresult])` (demo/wwsw.js:107):
    the sub-channel's port for PROXY, the handles inside the value for OBJECT, and
    nothing for ERROR. The tag and id strings contribute nothing.
  */
  lemma ResponseTransferables(r: Response)
    ensures Transfer.Transferables(Transfer.IterateAllProperties(Arr([ResponseValue(r)], false))) ==
      match r.result
      case ErrorResult(_) => []
      case ProxyResult(c) => [Port(c, false)]
      case ObjectResult(v) => Transfer.Transferables(Transfer.IterateAllProperties(v))
  {
    match r.result
    case ErrorResult(text) =>
      ReplyShapeTransferables("ERROR", "error", Str(text), r.id);
    case ProxyResult(c) =>
      ReplyShapeTransferables("PROXY", "endpoint", Port(c, false), r.id);
      PortTransferables(c);
    case ObjectResult(v) =>
      ReplyShapeTransferables("OBJECT", "obj", v, r.id);
  }

  /** A port is its own only transferable. */
  lemma PortTransferables(c: nat)
    ensures Transfer.Transferables(Transfer.IterateAllProperties(Port(c, false))) == [Port(c, false)]
  {
    assert Transfer.IterateAllProperties(Port(c, false)) == [Port(c, false)];
    assert [Port(c, false)][..0] == [];
  }

  /** The walk of `[{type: tag, field: body, id}]` finds the handles of `body` alone. */
  lemma ReplyShapeTransferables(tag: string, field: string, body: Value, id: string)
    ensures Transfer.Transferables(Transfer.IterateAllProperties(Arr([ReplyShape(tag, field, body, id)], false))) ==
      Transfer.Transferables(Transfer.IterateAllProperties(body))
  {
    var rv := ReplyShape(tag, field, body, id);
    var s := Transfer.IterateAllProperties(body);
    ReplyShapeWalk(tag, field, body, id);
    Transfer.TransferablesAppend([Arr([rv], false), rv], s);
    assert Transfer.Transferables([Arr([rv], false), rv]) == [];
  }

  /** The walk of `[{type: tag, field: body, id}]`: the array, the reply object, then the walk of `body`. */
  lemma ReplyShapeWalk(tag: string, field: string, body: Value, id: string)
    ensures var rv := ReplyShape(tag, field, body, id);
      Transfer.IterateAllProperties(Arr([rv], false)) == [Arr([rv], false), rv] + Transfer.IterateAllProperties(body)
  {
    var rv := ReplyShape(tag, field, body, id);
    var s := Transfer.IterateAllProperties(body);
    assert rv.props[1..] == [Prop(field, body), Prop("id", Str(id))];
    assert rv.props[1..][1..] == [Prop("id", Str(id))];
    assert Transfer.IterateValues([Prop("id", Str(id))]) == [];
    assert Transfer.IterateValues(rv.props[1..]) == s;
    assert Transfer.IterateValues(rv.props) == s;
    assert Transfer.IterateElements([rv]) == [rv] + s;
  }

  /** The secret property name that marks a proxied argument (demo/wwsw.js:20). */
  const TransferMarker := "__omg_so_secret"

  /** `{[transferMarker]: 'PROXY', endpoint: port2}` for channel `c` (demo/wwsw.js:36-39). */
  function ProxyMarker(c: nat): Value
  {
    Obj([Prop(TransferMarker, Str("PROXY")), Prop("endpoint", Port(c, false))], None, false)
  }

  /** How many arguments of `args` are proxy-marked. */
  function CountProxied(args: seq<Value>): (n: nat)
    ensures n <= |args|
  {
    if args == [] then 0
    else CountProxied(args[..|args| - 1]) + (if IsProxyValue(args[|args| - 1]) then 1 else 0)
  }

  /** `expose(arg, port1)` on the first half of channel `channel`. */
  datatype Exposure = Exposure(channel: nat, root: Value)

  datatype Proxified = Proxified(args: seq<Value>, exposed: seq<Exposure>)

  /**
    The caller's argument pass (demo/wwsw.js:29-41): every proxy-marked argument gets a
    new channel, numbered from `next` in argument order, is exposed on it, and is
    replaced by the marker object naming that channel; other arguments pass unchanged.
  */
  function ProxifyArguments(args: seq<Value>, next: nat): (r: Proxified)
    ensures |r.args| == |args| && |r.exposed| == CountProxied(args)
    ensures forall k :: 0 <= k < |r.exposed| ==> r.exposed[k].channel == next + k
  {
    if args == [] then Proxified([], [])
    else
      var p := ProxifyArguments(args[..|args| - 1], next);
      var last := args[|args| - 1];
      if IsProxyValue(last) then
        var c := next + |p.exposed|;
        Proxified(p.args + [ProxyMarker(c)], p.exposed + [Exposure(c, last)])
      else
        Proxified(p.args + [last], p.exposed)
  }

  /**
    Argument `i` after the caller's pass: unchanged when it is not proxy-marked;
    otherwise the marker for the channel of the `k`-th exposure, `k` being the number
    of proxy-marked arguments before it, and that exposure carries the argument.
  */
  lemma {:induction false} ProxifiedArgument(args: seq<Value>, next: nat, i: nat)
    requires i < |args|
    ensures var r := ProxifyArguments(args, next);
      if IsProxyValue(args[i]) then
        var k := CountProxied(args[..i]);
        k < |r.exposed| && r.args[i] == ProxyMarker(next + k) && r.exposed[k] == Exposure(next + k, args[i])
      else r.args[i] == args[i]
  {
    var init := args[..|args| - 1];
    assert args[..|init|] == init;
    if i < |init| {
      ProxifiedArgument(init, next, i);
      assert init[..i] == args[..i];
      assert init[i] == args[i];
    }
  }

  /**
    The exposer's argument pass for one argument (demo/wwsw.js:73-78):
    `arg[transferMarker] === 'PROXY' ? proxy(arg.endpoint) : arg`. Reading the marker
    on `undefined` or `null` throws, and `proxy` throws on anything but a port: both
    are None, a fault outside any try.
  */
  function UnwrapArgument(arg: Value): (r: Option<Value>)
    ensures r.None? <==>
      || IsNullish(arg)
      || (arg.Obj? && Lookup(arg.props, TransferMarker) == Str("PROXY") && !Lookup(arg.props, "endpoint").Port?)
    ensures arg.Obj? && Lookup(arg.props, TransferMarker) == Str("PROXY") && Lookup(arg.props, "endpoint").Port? ==>
      r == Some(Remote(Lookup(arg.props, "endpoint").channel))
    ensures !IsNullish(arg) && !(arg.Obj? && Lookup(arg.props, TransferMarker) == Str("PROXY")) ==> r == Some(arg)
  {
    match ReadProperty(arg, TransferMarker)
    case None => None
    case Some(tag) =>
      if tag != Str("PROXY") then Some(arg)
      else
        match ReadProperty(arg, "endpoint")
        case Some(Port(c, _)) => Some(Remote(c))
        case _ => None
  }

  /** `irequest.argumentsList.map(...)`: None as soon as one argument faults. */
  function UnwrapArguments(args: seq<Value>): (r: Option<seq<Value>>)
    ensures r.Some? <==> forall i :: 0 <= i < |args| ==> UnwrapArgument(args[i]).Some?
    ensures r.Some? ==> |r.value| == |args| && forall i :: 0 <= i < |args| ==> r.value[i] == UnwrapArgument(args[i]).value
  {
    if args == [] then Some([])
    else
      match UnwrapArgument(args[0])
      case None => None
      case Some(a) =>
        match UnwrapArguments(args[1..])
        case None => None
        case Some(rest) => Some([a] + rest)
  }

  /**
    The argument round trip: what the exposer hands the callee is the caller's argument
    list with every proxy-marked argument replaced by a remote proxy on the channel it
    was exposed on, provided no argument is nullish and none is itself a marker object.
  */
  lemma ArgumentsRoundTrip(args: seq<Value>, next: nat)
    requires forall i :: 0 <= i < |args| ==> !IsNullish(args[i])
    requires forall i :: 0 <= i < |args| && args[i].Obj? ==> Lookup(args[i].props, TransferMarker) != Str("PROXY")
    ensures UnwrapArguments(ProxifyArguments(args, next).args) == Some(Received(args, next))
  {
    var p := ProxifyArguments(args, next);
    var want := Received(args, next);
    forall i | 0 <= i < |args|
      ensures UnwrapArgument(p.args[i]) == Some(want[i])
    {
      UnwrapProxifiedAt(args, next, i);
    }
    UnwrapPointwise(p.args, want);
  }

  /**
    The arguments as the callee receives them: each proxy-marked argument a remote
    proxy on the channel allocated for it, every other argument itself.
  */
  function Received(args: seq<Value>, next: nat): (r: seq<Value>)
    ensures |r| == |args|
  {
    seq(|args|, i requires 0 <= i < |args| =>
      if IsProxyValue(args[i]) then Remote(next + CountProxied(args[..i])) else args[i])
  }

  lemma UnwrapProxifiedAt(args: seq<Value>, next: nat, i: nat)
    requires i < |args| && !IsNullish(args[i])
    requires args[i].Obj? ==> Lookup(args[i].props, TransferMarker) != Str("PROXY")
    ensures i < |ProxifyArguments(args, next).args|
    ensures UnwrapArgument(ProxifyArguments(args, next).args[i]) ==
      Some(if IsProxyValue(args[i]) then Remote(next + CountProxied(args[..i])) else args[i])
  {
    ProxifiedArgument(args, next, i);
    if IsProxyValue(args[i]) {
      UnwrapMarker(next + CountProxied(args[..i]));
    } else {
      UnwrapPlain(args[i]);
    }
  }

  /** The exposer turns the marker for channel `c` into a remote proxy on `c`. */
  lemma UnwrapMarker(c: nat)
    ensures UnwrapArgument(ProxyMarker(c)) == Some(Remote(c))
  {
    var ps := ProxyMarker(c).props;
    assert ps[0].name == TransferMarker && ps[1].name == "endpoint";
    assert TransferMarker[0] != "endpoint"[0];
    assert Lookup(ps[1..], "endpoint") == Port(c, false);
  }

  /** A non-nullish argument that is not a marker object reaches the callee unchanged. */
  lemma UnwrapPlain(a: Value)
    requires !IsNullish(a)
    requires a.Obj? ==> Lookup(a.props, TransferMarker) != Str("PROXY")
    ensures UnwrapArgument(a) == Some(a)
  {
  }

  /**
    A `null` or `undefined` argument passes the caller untouched and makes the
    exposer's argument pass fault, so such a call is never answered.
  */
  lemma NullishArgumentFaults(args: seq<Value>, i: nat, next: nat)
    requires i < |args| && IsNullish(args[i])
    ensures ProxifyArguments(args, next).args[i] == args[i]
    ensures UnwrapArguments(ProxifyArguments(args, next).args).None?
  {
    ProxifiedArgument(args, next, i);
  }

  /**
    The request as the exposer receives it; None when `postMessage` (demo/wwsw.js:165)
    cannot clone it. APPLY and CONSTRUCT travel with every handle of their arguments
    on the transfer list (line 42), GET and SET with none (line 28), so a SET value
    holding a MessagePort cannot be sent.
  */
  function CloneRequest(req: Request): (r: Option<Request>)
    ensures r.None? <==>
      || ((req.ApplyRequest? || req.ConstructRequest?) && CloneElements(req.argumentsList, true).None?)
      || (req.SetRequest? && Clone(req.value, false).None?)
    ensures r.Some? ==> r.value.callPath == req.callPath
    ensures r.Some? ==> r.value.ApplyRequest? == req.ApplyRequest? && r.value.ConstructRequest? == req.ConstructRequest?
    ensures r.Some? ==> r.value.GetRequest? == req.GetRequest? && r.value.SetRequest? == req.SetRequest?
    ensures r.Some? && (req.ApplyRequest? || req.ConstructRequest?) ==>
      r.value.argumentsList == CloneElements(req.argumentsList, true).value
    ensures r.Some? && req.SetRequest? ==>
      r.value.property == req.property && r.value.value == Clone(req.value, false).value
    ensures req.GetRequest? ==> r == Some(req)
  {
    match req
    case ApplyRequest(path, args) =>
      (match CloneElements(args, true)
       case None => None
       case Some(args') => Some(ApplyRequest(path, args')))
    case ConstructRequest(path, args) =>
      (match CloneElements(args, true)
       case None => None
       case Some(args') => Some(ConstructRequest(path, args')))
    case GetRequest(_) => Some(req)
    case SetRequest(path, property, v) =>
      (match Clone(v, false)
       case None => None
       case Some(v') => Some(SetRequest(path, property, v')))
  }

  /** A result as the caller receives it: OBJECT carries a copy of its value. */
  function CloneResult(r: InvocationResult): (c: Option<InvocationResult>)
    ensures c.None? <==> r.ObjectResult? && Clone(r.obj, true).None?
    ensures c.Some? && !r.ObjectResult? ==> c.value == r
  {
    if r.ObjectResult? then
      (match Clone(r.obj, true)
       case None => None
       case Some(v) => Some(ObjectResult(v)))
    else Some(r)
  }

  /**
    `postMessage(iresult, ...)` at demo/wwsw.js:107: the reply object clones exactly
    when its result does, and the copy is the reply of the cloned result. An ERROR or
    PROXY reply always clones; an OBJECT reply fails when its value holds a function or
    a proxy.
  */
  lemma CloneReply(r: Response)
    ensures Clone(ResponseValue(r), true) ==
      match CloneResult(r.result)
      case None => None
      case Some(c) => Some(ResponseValue(Response(r.id, c)))
  {
    match r.result
    case ErrorResult(text) =>
      assert ResponseValue(r) == ReplyShape("ERROR", "error", Str(text), r.id);
      CloneReplyShape("ERROR", "error", Str(text), r.id);
    case ProxyResult(c) =>
      assert ResponseValue(r) == ReplyShape("PROXY", "endpoint", Port(c, false), r.id);
      CloneReplyShape("PROXY", "endpoint", Port(c, false), r.id);
    case ObjectResult(v) =>
      assert ResponseValue(r) == ReplyShape("OBJECT", "obj", v, r.id);
      CloneReplyShape("OBJECT", "obj", v, r.id);
      match Clone(v, true)
      case None =>
      case Some(w) => assert ResponseValue(Response(r.id, ObjectResult(w))) == ReplyShape("OBJECT", "obj", w, r.id);
  }

  /** A reply object clones exactly when its body does, into the same shape. */
  lemma CloneReplyShape(tag: string, field: string, body: Value, id: string)
    ensures Clone(ReplyShape(tag, field, body, id), true) ==
      match Clone(body, true)
      case None => None
      case Some(b) => Some(ReplyShape(tag, field, b, id))
  {
    var idProp := Prop("id", Str(id));
    ClonePropsCons(idProp, [], true);
    assert [idProp] + [] == [idProp];
    ClonePropsCons(Prop(field, body), [idProp], true);
    ClonePropsCons(Prop("type", Str(tag)), [Prop(field, body), idProp], true);
    assert ReplyShape(tag, field, body, id).props == [Prop("type", Str(tag))] + ([Prop(field, body)] + [idProp]);
    match Clone(body, true)
    case None =>
    case Some(b) =>
      assert [Prop("type", Str(tag))] + ([Prop(field, b)] + [idProp]) == ReplyShape(tag, field, b, id).props;
  }

  /** The marker object of a proxied argument is plain data: it clones to itself. */
  lemma CloneMarker(c: nat)
    ensures Clone(ProxyMarker(c), true) == Some(ProxyMarker(c))
  {
    var m := Prop(TransferMarker, Str("PROXY"));
    var e := Prop("endpoint", Port(c, false));
    ClonePropsCons(e, [], true);
    assert [e] + [] == [e];
    ClonePropsCons(m, [e], true);
    assert ProxyMarker(c).props == [m] + [e];
  }

  /** A copied argument that was not a marker object reaches the callee as the copy. */
  lemma UnwrapClonedPlain(a: Value)
    requires !IsNullish(a) && Clone(a, true).Some?
    requires a.Obj? ==> Lookup(a.props, TransferMarker) != Str("PROXY")
    ensures UnwrapArgument(Clone(a, true).value) == Some(Clone(a, true).value)
  {
    if a.Obj? {
      CloneLookup(a.props, TransferMarker, true);
    }
  }

  /** Arguments the caller can send: every argument that is not proxy-marked clones. */
  predicate Sendable(args: seq<Value>)
  {
    forall i :: 0 <= i < |args| ==> IsProxyValue(args[i]) || Clone(args[i], true).Some?
  }

  /**
    The arguments as the callee receives them across the wire: each proxy-marked
    argument a remote proxy on the channel allocated for it, every other argument a
    structured-clone copy (nested marked values are copied, not proxied).
  */
  function ReceivedCopies(args: seq<Value>, next: nat): (r: seq<Value>)
    requires Sendable(args)
    ensures |r| == |args|
    ensures forall i :: 0 <= i < |args| && IsProxyValue(args[i]) ==> r[i].Remote?
  {
    seq(|args|, i requires 0 <= i < |args| =>
      if IsProxyValue(args[i]) then Remote(next + CountProxied(args[..i])) else Clone(args[i], true).value)
  }

  /**
    The argument round trip over the wire (demo/wwsw.js:29-41, 165, 71-79): the
    proxified list clones, and the exposer's pass turns it into the received copies.
  */
  lemma ArgumentsWireRoundTrip(args: seq<Value>, next: nat)
    requires Sendable(args)
    requires forall i :: 0 <= i < |args| ==> !IsNullish(args[i])
    requires forall i :: 0 <= i < |args| && args[i].Obj? ==> Lookup(args[i].props, TransferMarker) != Str("PROXY")
    ensures CloneElements(ProxifyArguments(args, next).args, true).Some?
    ensures UnwrapArguments(CloneElements(ProxifyArguments(args, next).args, true).value) == Some(ReceivedCopies(args, next))
  {
    var p := ProxifyArguments(args, next).args;
    var want := ReceivedCopies(args, next);
    WireArguments(args, next);
    CloneElementsPointwise(p, true);
    var cp := CloneElements(p, true).value;
    forall i | 0 <= i < |cp| ensures UnwrapArgument(cp[i]) == Some(want[i]) {
      assert cp[i] == Clone(p[i], true).value;
    }
    UnwrapPointwise(cp, want);
  }

  lemma WireArguments(args: seq<Value>, next: nat)
    requires Sendable(args)
    requires forall i :: 0 <= i < |args| ==> !IsNullish(args[i])
    requires forall i :: 0 <= i < |args| && args[i].Obj? ==> Lookup(args[i].props, TransferMarker) != Str("PROXY")
    ensures var p := ProxifyArguments(args, next).args;
      |p| == |args| &&
      forall i :: 0 <= i < |p| ==> Clone(p[i], true).Some? && UnwrapArgument(Clone(p[i], true).value) == Some(ReceivedCopies(args, next)[i])
  {
    var p := ProxifyArguments(args, next).args;
    forall i | 0 <= i < |p|
      ensures Clone(p[i], true).Some? && UnwrapArgument(Clone(p[i], true).value) == Some(ReceivedCopies(args, next)[i])
    {
      WireArgumentAt(args, next, i);
    }
  }

  lemma UnwrapPointwise(args: seq<Value>, want: seq<Value>)
    requires |args| == |want|
    requires forall i :: 0 <= i < |args| ==> UnwrapArgument(args[i]) == Some(want[i])
    ensures UnwrapArguments(args) == Some(want)
  {
    var u := UnwrapArguments(args);
    assert u.Some?;
    assert u.value == want;
  }

  /** Argument `i` over the wire: its proxified form clones and unwraps to what the callee receives. */
  lemma WireArgumentAt(args: seq<Value>, next: nat, i: nat)
    requires i < |args| && !IsNullish(args[i])
    requires IsProxyValue(args[i]) || Clone(args[i], true).Some?
    requires args[i].Obj? ==> Lookup(args[i].props, TransferMarker) != Str("PROXY")
    ensures i < |ProxifyArguments(args, next).args|
    ensures var a := ProxifyArguments(args, next).args[i];
      Clone(a, true).Some? &&
      UnwrapArgument(Clone(a, true).value) ==
        Some(if IsProxyValue(args[i]) then Remote(next + CountProxied(args[..i])) else Clone(args[i], true).value)
  {
    ProxifiedArgument(args, next, i);
    if IsProxyValue(args[i]) {
      CloneMarker(next + CountProxied(args[..i]));
      UnwrapMarker(next + CountProxied(args[..i]));
    } else {
      UnwrapClonedPlain(args[i]);
    }
  }
}
