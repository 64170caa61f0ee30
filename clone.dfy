/**
  The structured clone that `postMessage` performs on every message (demo/wwsw.js:107
  and 165). Functions and proxies cannot be cloned: `postMessage` then throws a
  DataCloneError and posts nothing. Everything else is copied property by property.
  Symbol-keyed properties are not copied, so the `proxyValue` marker never survives a
  clone. A MessagePort cannot be copied, only transferred: it survives the clone when
  it is on the message's transfer list, and otherwise makes `postMessage` throw. An
  ArrayBuffer is transferred when listed and copied otherwise; either way the copy
  names the same buffer here.

  The core builds two kinds of transfer list: every ArrayBuffer and MessagePort of
  the message (`transferableProperties`, see `Transfer.TransferablesAreReachableHandles`)
  for APPLY, CONSTRUCT and replies, and the empty list for GET and SET
  (`transferableProperties([])`, demo/wwsw.js:28). So the clone takes one flag,
  `portsListed`: whether the ports of the value are on the transfer list.
*/
module StructuredClone {
  import opened Wrappers
  import opened JsValues
  import Transfer

  /**
    The copy the receiving side sees, or None when the value holds a function, a
    proxy, or (unless `portsListed`) a MessagePort.
  */
  function Clone(v: Value, portsListed: bool): (r: Option<Value>)
    ensures r.Some? ==> !IsProxyValue(r.value)
    ensures r.Some? ==> IsNullish(r.value) == IsNullish(v) && Truthy(r.value) == Truthy(v)
    ensures r.Some? ==> r.value.Str? == v.Str? && (v.Str? ==> r.value == v)
    ensures r.Some? ==> r.value.Obj? == v.Obj? && (r.value.Obj? ==> r.value.callable.None?)
    ensures (v.Obj? && v.callable.Some?) || v.Remote? ==> r.None?
    ensures v.Port? ==> (r.Some? <==> portsListed) && (r.Some? ==> r.value == Port(v.channel, false))
  {
    match v
    case Buffer(b, _) => Some(Buffer(b, false))
    case Port(c, _) => if portsListed then Some(Port(c, false)) else None
    case Arr(es, _) =>
      (match CloneElements(es, portsListed)
       case None => None
       case Some(es') => Some(Arr(es', false)))
    case Obj(ps, callable, _) =>
      if callable.Some? then None
      else
        (match CloneProps(ps, portsListed)
         case None => None
         case Some(ps') => Some(Obj(ps', None, false)))
    case Remote(_) => None
    case _ => Some(v)
  }

  /** The clones of array elements, one by one; None as soon as one fails. */
  function CloneElements(es: seq<Value>, portsListed: bool): (r: Option<seq<Value>>)
    ensures r.Some? ==> |r.value| == |es|
  {
    if es == [] then Some([])
    else
      match (Clone(es[0], portsListed), CloneElements(es[1..], portsListed))
      case (Some(e), Some(rest)) => Some([e] + rest)
      case _ => None
  }

  /** The clones of an object's own properties, names and order kept. */
  function CloneProps(ps: seq<Prop>, portsListed: bool): (r: Option<seq<Prop>>)
    ensures r.Some? ==> |r.value| == |ps|
  {
    if ps == [] then Some([])
    else
      match (Clone(ps[0].val, portsListed), CloneProps(ps[1..], portsListed))
      case (Some(v), Some(rest)) => Some([Prop(ps[0].name, v)] + rest)
      case _ => None
  }

  /** Cloning a clone changes nothing: what arrives can be posted on unchanged. */
  lemma {:induction false} CloneIdempotent(v: Value, portsListed: bool)
    requires Clone(v, portsListed).Some?
    ensures Clone(Clone(v, portsListed).value, portsListed) == Clone(v, portsListed)
  {
    match v
    case Arr(es, _) => CloneElementsIdempotent(es, portsListed);
    case Obj(ps, _, _) => ClonePropsIdempotent(ps, portsListed);
    case _ =>
  }

  lemma {:induction false} CloneElementsIdempotent(es: seq<Value>, portsListed: bool)
    requires CloneElements(es, portsListed).Some?
    ensures CloneElements(CloneElements(es, portsListed).value, portsListed) == CloneElements(es, portsListed)
  {
    if es != [] {
      var r := CloneElements(es, portsListed).value;
      CloneIdempotent(es[0], portsListed);
      CloneElementsIdempotent(es[1..], portsListed);
      assert r[0] == Clone(es[0], portsListed).value;
      assert r[1..] == CloneElements(es[1..], portsListed).value;
    }
  }

  lemma {:induction false} ClonePropsIdempotent(ps: seq<Prop>, portsListed: bool)
    requires CloneProps(ps, portsListed).Some?
    ensures CloneProps(CloneProps(ps, portsListed).value, portsListed) == CloneProps(ps, portsListed)
  {
    if ps != [] {
      var r := CloneProps(ps, portsListed).value;
      CloneIdempotent(ps[0].val, portsListed);
      ClonePropsIdempotent(ps[1..], portsListed);
      assert r[0] == Prop(ps[0].name, Clone(ps[0].val, portsListed).value);
      assert r[1..] == CloneProps(ps[1..], portsListed).value;
    }
  }

  /** A property of the copy is the copy of the property. */
  lemma {:induction false} CloneLookup(ps: seq<Prop>, name: string, portsListed: bool)
    requires CloneProps(ps, portsListed).Some?
    ensures Clone(Lookup(ps, name), portsListed).Some?
    ensures Lookup(CloneProps(ps, portsListed).value, name) == Clone(Lookup(ps, name), portsListed).value
  {
    if ps != [] {
      CloneLookup(ps[1..], name, portsListed);
      assert CloneProps(ps, portsListed).value[1..] == CloneProps(ps[1..], portsListed).value;
    }
  }

  /** The elements of an array clone one by one: all succeed, and each copy is in its place. */
  lemma {:induction false} CloneElementsPointwise(es: seq<Value>, portsListed: bool)
    ensures CloneElements(es, portsListed).Some? <==> forall i :: 0 <= i < |es| ==> Clone(es[i], portsListed).Some?
    ensures CloneElements(es, portsListed).Some? ==>
      forall i :: 0 <= i < |es| ==> CloneElements(es, portsListed).value[i] == Clone(es[i], portsListed).value
  {
    if es != [] {
      CloneElementsPointwise(es[1..], portsListed);
      if forall i :: 0 <= i < |es| ==> Clone(es[i], portsListed).Some? {
        forall i | 0 <= i < |es[1..]| ensures Clone(es[1..][i], portsListed).Some? {
          assert es[1..][i] == es[i + 1];
        }
      }
      if CloneElements(es, portsListed).Some? {
        forall i | 0 <= i < |es| ensures Clone(es[i], portsListed).Some? && CloneElements(es, portsListed).value[i] == Clone(es[i], portsListed).value {
          if i > 0 {
            assert es[1..][i - 1] == es[i];
          }
        }
      }
    }
  }

  /** An object's properties clone only if each of them does. */
  lemma {:induction false} ClonePropsNeedsEach(ps: seq<Prop>, i: nat, portsListed: bool)
    requires i < |ps| && Clone(ps[i].val, portsListed).None?
    ensures CloneProps(ps, portsListed).None?
  {
    if i > 0 {
      assert ps[1..][i - 1] == ps[i];
      ClonePropsNeedsEach(ps[1..], i - 1, portsListed);
    }
  }

  /** Cloning a property list with one more property in front. */
  lemma ClonePropsCons(p: Prop, rest: seq<Prop>, portsListed: bool)
    ensures CloneProps([p] + rest, portsListed) ==
      if Clone(p.val, portsListed).Some? && CloneProps(rest, portsListed).Some? then
        Some([Prop(p.name, Clone(p.val, portsListed).value)] + CloneProps(rest, portsListed).value)
      else None
  {
    assert ([p] + rest)[0] == p;
    assert ([p] + rest)[1..] == rest;
  }

  /**
    A MessagePort anywhere in a value that is sent without its ports on the transfer
    list makes the clone fail: `postMessage` throws a DataCloneError.
  */
  lemma {:induction false} UnlistedPortFails(v: Value, u: Value)
    requires Transfer.Reaches(v, u) && u.Port?
    ensures Clone(v, false).None?
    decreases v
  {
    if u != v {
      if v.Arr? {
        var i :| 0 <= i < |v.elems| && Transfer.Reaches(v.elems[i], u);
        UnlistedPortFails(v.elems[i], u);
        CloneElementsPointwise(v.elems, false);
      } else {
        var i :| 0 <= i < |v.props| && Transfer.Reaches(v.props[i].val, u);
        assert v.props[i] in v.props;
        UnlistedPortFails(v.props[i].val, u);
        if v.callable.None? {
          ClonePropsNeedsEach(v.props, i, false);
        }
      }
    }
  }

  /**
    A value that clones without its ports on the transfer list holds none, so listing
    them changes nothing: the copy is the same.
  */
  lemma {:induction false} UnlistedCloneIsListedClone(v: Value)
    requires Clone(v, false).Some?
    ensures Clone(v, true) == Clone(v, false)
  {
    match v
    case Arr(es, _) => ElementsUnlistedIsListed(es);
    case Obj(ps, _, _) => PropsUnlistedIsListed(ps);
    case _ =>
  }

  lemma {:induction false} ElementsUnlistedIsListed(es: seq<Value>)
    requires CloneElements(es, false).Some?
    ensures CloneElements(es, true) == CloneElements(es, false)
  {
    if es != [] {
      UnlistedCloneIsListedClone(es[0]);
      ElementsUnlistedIsListed(es[1..]);
    }
  }

  lemma {:induction false} PropsUnlistedIsListed(ps: seq<Prop>)
    requires CloneProps(ps, false).Some?
    ensures CloneProps(ps, true) == CloneProps(ps, false)
  {
    if ps != [] {
      UnlistedCloneIsListedClone(ps[0].val);
      PropsUnlistedIsListed(ps[1..]);
    }
  }
}
