/**
  The JavaScript values that travel through the remote-proxy core, as a finite tree.

  Objects are association lists of own enumerable properties in insertion order, so
  that `Object.values` has an order. An object may also be callable (a function,
  class or async generator function); what calling it does is left to an oracle of
  the module that performs calls. Every object kind carries the proxy marker that
  `proxyValue` plants under a symbol key (demo/wwsw.js:17, 51-54); symbol keys are
  not enumerable, so the marker never shows up among the property values.
*/
module JsValues {
  import opened Wrappers

  /** An opaque function id, and whether its `constructor.name` is 'AsyncGeneratorFunction'. */
  datatype Callable = Callable(fid: nat, asyncGenerator: bool)

  datatype Value =
    | Undefined
    | Null
    | Bool(b: bool)
    | Num(n: int)
    | Str(s: string)
    | Buffer(buffer: nat, marked: bool)   // an ArrayBuffer
    | Port(channel: nat, marked: bool)    // a MessagePort: one half of channel `channel`
    | Arr(elems: seq<Value>, marked: bool)
    | Obj(props: seq<Prop>, callable: Option<Callable>, marked: bool)
    | Remote(channel: nat)                // a local proxy for an object exposed on `channel`

  datatype Prop = Prop(name: string, val: Value)

  /** JavaScript truthiness: `undefined`, `null`, `false`, `0` and `""` are falsy. */
  predicate Truthy(v: Value)
  {
    match v
    case Undefined => false
    case Null => false
    case Bool(b) => b
    case Num(n) => n != 0
    case Str(s) => s != ""
    case _ => true
  }

  predicate IsNullish(v: Value)
  {
    v.Undefined? || v.Null?
  }

  /** Values of object type, on which a (symbol-keyed) property can be stored. */
  predicate IsObject(v: Value)
  {
    v.Buffer? || v.Port? || v.Arr? || v.Obj? || v.Remote?
  }

  /** `thing instanceof ArrayBuffer || thing instanceof MessagePort` (demo/wwsw.js:16, 240-242). */
  predicate IsTransferable(v: Value)
  {
    v.Buffer? || v.Port?
  }

  /** The value of own property `name`, or `undefined` when there is none. */
  function Lookup(ps: seq<Prop>, name: string): Value
  {
    if ps == [] then Undefined
    else if ps[0].name == name then ps[0].val
    else Lookup(ps[1..], name)
  }

  /** Names of the own properties, in insertion order. */
  function Names(ps: seq<Prop>): (r: seq<string>)
    ensures |r| == |ps|
    ensures forall i :: 0 <= i < |ps| ==> r[i] == ps[i].name
  {
    if ps == [] then [] else [ps[0].name] + Names(ps[1..])
  }

  /**
    `o[name] = v` on a plain object: an existing property keeps its place in the
    insertion order, a new one goes last.
  */
  function SetProp(ps: seq<Prop>, name: string, v: Value): (r: seq<Prop>)
    ensures Lookup(r, name) == v
    ensures forall m :: m != name ==> Lookup(r, m) == Lookup(ps, m)
    ensures Names(r) == if name in Names(ps) then Names(ps) else Names(ps) + [name]
  {
    if ps == [] then [Prop(name, v)]
    else if ps[0].name == name then [Prop(name, v)] + ps[1..]
    else [ps[0]] + SetProp(ps[1..], name, v)
  }

  /**
    `o[name]`: reading a property of `undefined` or `null` throws a TypeError (None);
    a plain object answers with its own property; any other value is taken to have
    no property of that name.
  */
  function ReadProperty(o: Value, name: string): (r: Option<Value>)
    ensures r.None? <==> IsNullish(o)
    ensures o.Obj? ==> r == Some(Lookup(o.props, name))
  {
    if IsNullish(o) then None
    else if o.Obj? then Some(Lookup(o.props, name))
    else Some(Undefined)
  }

  /**
    `isProxyValue(obj)`: `obj && obj[proxyValueSymbol]` (demo/wwsw.js:263-265). On a
    remote proxy the symbol read goes through its `get` trap, which answers with the
    proxy itself, a truthy value.
  */
  predicate IsProxyValue(v: Value)
  {
    match v
    case Buffer(_, m) => m
    case Port(_, m) => m
    case Arr(_, m) => m
    case Obj(_, _, m) => m
    case Remote(_) => true
    case _ => false
  }

  /** Sets the proxy marker on an object; a primitive is left as it is. */
  function Mark(v: Value): (r: Value)
    ensures IsObject(v) ==> IsProxyValue(r)
    ensures !IsObject(v) ==> r == v
    ensures IsObject(r) == IsObject(v) && Truthy(r) == Truthy(v)
  {
    match v
    case Buffer(b, _) => Buffer(b, true)
    case Port(c, _) => Port(c, true)
    case Arr(es, _) => Arr(es, true)
    case Obj(ps, c, _) => Obj(ps, c, true)
    case _ => v
  }

  /**
    `proxyValue(obj)` (demo/wwsw.js:51-54): `obj[proxyValueSymbol] = true; return obj`.
    The assignment throws a TypeError on `undefined` and `null` (None); on another
    primitive it is dropped silently.
  */
  function ProxyValue(v: Value): (r: Option<Value>)
    ensures r.None? <==> IsNullish(v)
    ensures r.Some? ==> (IsProxyValue(r.value) <==> IsObject(v))
  {
    if IsNullish(v) then None else Some(Mark(v))
  }

  /** `typeof v === 'function'`. */
  predicate IsFunction(v: Value)
  {
    v.Obj? && v.callable.Some?
  }

  /** `name` is an own property of the object with properties `ps`. */
  predicate HasOwn(ps: seq<Prop>, name: string)
  {
    name in Names(ps)
  }

  /**
    Reading `obj.constructor.name` (demo/wwsw.js:67) throws: `obj` is `undefined` or
    `null`, or it has an own `constructor` property that is `undefined` or `null`.
    Without an own one, the built-in constructor is read, which is never nullish.
  */
  predicate ConstructorReadFaults(v: Value)
  {
    IsNullish(v) || (v.Obj? && HasOwn(v.props, "constructor") && IsNullish(Lookup(v.props, "constructor")))
  }

  /**
    `obj.constructor.name === 'AsyncGeneratorFunction'` on a value whose read does not
    fault: an own `constructor` property decides by its own `name`; otherwise the
    built-in constructor is the kind of callable.
  */
  predicate IsAsyncGenerator(v: Value)
  {
    if v.Obj? && HasOwn(v.props, "constructor") then
      var c := Lookup(v.props, "constructor");
      c.Obj? && Lookup(c.props, "name") == Str("AsyncGeneratorFunction")
    else v.Obj? && v.callable.Some? && v.callable.value.asyncGenerator
  }

  /** A value that passes the check at line 67 has a constructor that can be read. */
  lemma AsyncGeneratorReadable(v: Value)
    requires IsAsyncGenerator(v)
    ensures !ConstructorReadFaults(v) && v.Obj?
  {
  }

  /**
    `new obj(...)` can be attempted: an async generator function has no constructor
    behaviour and `new` on it throws a TypeError; any other callable is left to the
    oracle, which may throw.
  */
  predicate IsConstructor(v: Value)
  {
    v.Obj? && v.callable.Some? && !v.callable.value.asyncGenerator
  }
}
