/**
  Transferable detection (demo/wwsw.js:240-262): a pre-order walk over a value tree
  that collects the ArrayBuffers and MessagePorts the transport must move rather
  than copy. The walk has no cycle guard; values here are finite trees.
*/
module Transfer {
  import opened JsValues

  /**
    `iterateAllProperties(obj)`: nothing for a falsy value or a string; otherwise the
    value itself, then the walks of its array elements (for an array) or of
    `Object.values(obj)` (for any other object; a primitive or a handle has none).
  */
  function IterateAllProperties(v: Value): seq<Value>
  {
    if !Truthy(v) || v.Str? then []
    else
      match v
      case Arr(es, _) => [v] + IterateElements(es)
      case Obj(ps, _, _) => [v] + IterateValues(ps)
      case _ => [v]
  }

  /** The walks of a sequence of array elements, one after the other. */
  function IterateElements(es: seq<Value>): seq<Value>
  {
    if es == [] then [] else IterateAllProperties(es[0]) + IterateElements(es[1..])
  }

  /** The walks of the property values of an object, in property order. */
  function IterateValues(ps: seq<Prop>): seq<Value>
  {
    if ps == [] then [] else IterateAllProperties(ps[0].val) + IterateValues(ps[1..])
  }

  /** The transferable members of `s`, in their order in `s`. */
  function Transferables(s: seq<Value>): (r: seq<Value>)
    ensures forall x :: x in r <==> x in s && IsTransferable(x)
    ensures |r| <= |s|
  {
    if s == [] then []
    else Transferables(s[..|s| - 1]) + (if IsTransferable(s[|s| - 1]) then [s[|s| - 1]] else [])
  }

  /**
    `transferableProperties(obj)`: the loop that pushes every transferable node of the
    walk onto `r`.
  */
  method TransferableProperties(obj: Value) returns (r: seq<Value>)
    ensures r == Transferables(IterateAllProperties(obj))
  {
    var props := IterateAllProperties(obj);
    r := [];
    for i := 0 to |props|
      invariant r == Transferables(props[..i])
    {
      assert props[..i + 1][..i] == props[..i];
      if IsTransferable(props[i]) {
        r := r + [props[i]];
      }
    }
    assert props[..|props|] == props;
  }

  /** Filtering commutes with concatenation, so the order of the walk is kept. */
  lemma {:induction false} TransferablesAppend(a: seq<Value>, b: seq<Value>)
    ensures Transferables(a + b) == Transferables(a) + Transferables(b)
    decreases |b|
  {
    if b == [] {
      assert a + b == a;
    } else {
      var b' := b[..|b| - 1];
      assert (a + b)[..|a + b| - 1] == a + b';
      TransferablesAppend(a, b');
    }
  }

  /** `v` is `u`, or `u` lies below `v` among array elements or property values. */
  ghost predicate Reaches(v: Value, u: Value)
  {
    u == v
    || (v.Arr? && exists i :: 0 <= i < |v.elems| && Reaches(v.elems[i], u))
    || (v.Obj? && exists i :: 0 <= i < |v.props| && Reaches(v.props[i].val, u))
  }

  /** A node the walk yields: truthy and not a string. */
  predicate Yielded(u: Value)
  {
    Truthy(u) && !u.Str?
  }

  /**
    The walk yields exactly the reachable nodes that are truthy and not strings: a
    falsy value or a string has no children, so stopping at it loses nothing.
  */
  lemma {:induction false} WalkYieldsReachable(v: Value, u: Value)
    ensures u in IterateAllProperties(v) <==> Reaches(v, u) && Yielded(u)
  {
    if !Truthy(v) || v.Str? {
      assert Reaches(v, u) ==> u == v;
    } else {
      match v
      case Arr(es, _) =>
        ElementsYieldReachable(es, u);
      case Obj(ps, _, _) =>
        ValuesYieldReachable(ps, u);
      case _ =>
    }
  }

  lemma {:induction false} ElementsYieldReachable(es: seq<Value>, u: Value)
    ensures u in IterateElements(es) <==> Yielded(u) && exists i :: 0 <= i < |es| && Reaches(es[i], u)
  {
    if es != [] {
      WalkYieldsReachable(es[0], u);
      ElementsYieldReachable(es[1..], u);
      if exists i :: 0 <= i < |es| && Reaches(es[i], u) {
        var i :| 0 <= i < |es| && Reaches(es[i], u);
        if i > 0 {
          assert es[1..][i - 1] == es[i];
        }
      }
      if exists i :: 0 <= i < |es[1..]| && Reaches(es[1..][i], u) {
        var i :| 0 <= i < |es[1..]| && Reaches(es[1..][i], u);
        assert es[1..][i] == es[i + 1];
      }
    }
  }

  lemma {:induction false} ValuesYieldReachable(ps: seq<Prop>, u: Value)
    ensures u in IterateValues(ps) <==> Yielded(u) && exists i :: 0 <= i < |ps| && Reaches(ps[i].val, u)
  {
    if ps != [] {
      WalkYieldsReachable(ps[0].val, u);
      ValuesYieldReachable(ps[1..], u);
      if exists i :: 0 <= i < |ps| && Reaches(ps[i].val, u) {
        var i :| 0 <= i < |ps| && Reaches(ps[i].val, u);
        if i > 0 {
          assert ps[1..][i - 1] == ps[i];
        }
      }
      if exists i :: 0 <= i < |ps[1..]| && Reaches(ps[1..][i].val, u) {
        var i :| 0 <= i < |ps[1..]| && Reaches(ps[1..][i].val, u);
        assert ps[1..][i] == ps[i + 1];
      }
    }
  }

  /**
    What `transferableProperties` returns: exactly the ArrayBuffers and MessagePorts
    that occur anywhere in the value tree.
  */
  lemma TransferablesAreReachableHandles(v: Value, u: Value)
    ensures u in Transferables(IterateAllProperties(v)) <==> Reaches(v, u) && IsTransferable(u)
  {
    WalkYieldsReachable(v, u);
  }

  /** A walk starts at the walked value itself whenever it yields anything (pre-order). */
  lemma {:induction false} WalkIsPreOrder(v: Value)
    ensures IterateAllProperties(v) == [] <==> !Yielded(v)
    ensures Yielded(v) ==> IterateAllProperties(v)[0] == v
  {
  }
}
