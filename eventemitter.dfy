/**
  The in-page event emitter (src/eventemitter-2015.js): per-namespace listener sets,
  persistent ones (`on`) and one-shot ones (`once`), and `emit`, which calls every
  persistent listener and then every one-shot listener, removing each one-shot
  listener right after its call.

  A JavaScript `Set` is an insertion-ordered collection without duplicates; it is
  modelled as a duplicate-free sequence. A callback is an opaque id (functions are
  always truthy); `Option<Callback>` stands for the optional callback of `off`,
  `None` being any falsy argument. A call of a listener is recorded, not performed.
*/
module Events {
  import opened Wrappers

  type Callback = nat

  /** One `callback(data)` made by `emit`. */
  datatype Invocation<D> = Invocation(callback: Callback, data: D)

  predicate NoDuplicates(s: seq<Callback>)
  {
    forall i, j :: 0 <= i < j < |s| ==> s[i] != s[j]
  }

  /** `set.add(callback)`: appended when new, otherwise the set is unchanged. */
  function AddToSet(s: seq<Callback>, x: Callback): (r: seq<Callback>)
    ensures x in s ==> r == s
    ensures x !in s ==> r == s + [x]
    ensures NoDuplicates(s) ==> NoDuplicates(r)
    ensures forall y :: y in r <==> y in s || y == x
  {
    if x in s then s else s + [x]
  }

  /** `set.delete(callback)`: every other member, in the same order. */
  function Without(s: seq<Callback>, x: Callback): (r: seq<Callback>)
    ensures forall y :: y in r <==> y in s && y != x
    ensures |r| <= |s|
    ensures x !in s ==> r == s
  {
    if s == [] then []
    else if s[0] == x then Without(s[1..], x)
    else [s[0]] + Without(s[1..], x)
  }

  /** Deleting keeps a set duplicate-free. */
  lemma {:induction false} WithoutNoDuplicates(s: seq<Callback>, x: Callback)
    requires NoDuplicates(s)
    ensures NoDuplicates(Without(s, x))
  {
    if s != [] {
      assert NoDuplicates(s[1..]) by {
        forall i, j | 0 <= i < j < |s[1..]| ensures s[1..][i] != s[1..][j] {
          assert s[1..][i] == s[i + 1] && s[1..][j] == s[j + 1];
        }
      }
      WithoutNoDuplicates(s[1..], x);
      if s[0] != x {
        var t := Without(s[1..], x);
        assert s[0] !in t by {
          assert s[0] !in s[1..];
        }
        forall i, j | 0 <= i < j < |[s[0]] + t| ensures ([s[0]] + t)[i] != ([s[0]] + t)[j] {
          if i == 0 {
            assert ([s[0]] + t)[j] == t[j - 1];
          } else {
            assert ([s[0]] + t)[i] == t[i - 1] && ([s[0]] + t)[j] == t[j - 1];
          }
        }
      }
    }
  }

  /** Deleting the first member of a duplicate-free set leaves exactly the rest. */
  lemma WithoutHead(s: seq<Callback>)
    requires s != [] && NoDuplicates(s)
    ensures Without(s, s[0]) == s[1..]
  {
    assert s[0] !in s[1..] by {
      forall k | 0 <= k < |s[1..]| ensures s[1..][k] != s[0] {
        assert s[1..][k] == s[k + 1];
      }
    }
  }

  /** Adding then deleting a callback that was not registered restores the set. */
  lemma {:induction false} AddThenDeleteRestores(s: seq<Callback>, x: Callback)
    requires x !in s
    ensures Without(AddToSet(s, x), x) == s
    decreases s
  {
    if s == [] {
      assert [] + [x] == [x] && [x][1..] == [];
    } else {
      assert (s + [x])[1..] == s[1..] + [x];
      AddThenDeleteRestores(s[1..], x);
      assert [s[0]] + s[1..] == s;
    }
  }

  /** Adding the same callback twice is the same as adding it once. */
  lemma AddIdempotent(s: seq<Callback>, x: Callback)
    ensures AddToSet(AddToSet(s, x), x) == AddToSet(s, x)
  {
  }

  /** `map.get(namespace) || []`. */
  function Registered(m: map<string, seq<Callback>>, ns: string): seq<Callback>
  {
    if ns in m then m[ns] else []
  }

  /** The listener set of `ns` after `set.add`, creating the set when absent. */
  function Added(m: map<string, seq<Callback>>, ns: string, cb: Callback): (r: map<string, seq<Callback>>)
    ensures ns in r && cb in r[ns]
    ensures r.Keys == m.Keys + {ns}
    ensures forall other :: other in m && other != ns ==> r[other] == m[other]
  {
    m[ns := AddToSet(Registered(m, ns), cb)]
  }

  /** The calls `emit` makes on a snapshot of listeners, in their order. */
  function Calls<D>(cbs: seq<Callback>, data: D): (r: seq<Invocation<D>>)
    ensures |r| == |cbs|
    ensures forall k :: 0 <= k < |r| ==> r[k] == Invocation(cbs[k], data)
  {
    seq(|cbs|, k requires 0 <= k < |cbs| => Invocation(cbs[k], data))
  }

  lemma CallsAppend<D>(a: seq<Callback>, b: seq<Callback>, data: D)
    ensures Calls(a + b, data) == Calls(a, data) + Calls(b, data)
  {
  }

  predicate WellFormed(m: map<string, seq<Callback>>)
  {
    forall ns :: ns in m ==> NoDuplicates(m[ns])
  }

  class EventEmitter {
    var listeners: map<string, seq<Callback>>
    var onceListeners: map<string, seq<Callback>>

    /** Every namespace's listeners form a set. */
    predicate Valid()
      reads this
    {
      WellFormed(listeners) && WellFormed(onceListeners)
    }

    constructor ()
      ensures Valid()
      ensures listeners == map[] && onceListeners == map[]
    {
      listeners := map[];
      onceListeners := map[];
    }

    /** `on`: registers a persistent listener of `ns`. */
    method On(ns: string, cb: Callback)
      requires Valid()
      modifies this
      ensures Valid()
      ensures listeners == Added(old(listeners), ns, cb)
      ensures onceListeners == old(onceListeners)
    {
      var registered := if ns in listeners then listeners[ns] else [];
      if ns !in listeners {
        listeners := listeners[ns := registered];
      }
      listeners := listeners[ns := AddToSet(registered, cb)];
    }

    method AddEventListener(ns: string, cb: Callback)
      requires Valid()
      modifies this
      ensures Valid()
      ensures listeners == Added(old(listeners), ns, cb)
      ensures onceListeners == old(onceListeners)
    {
      On(ns, cb);
    }

    /**
      `off`: with a callback, deletes it from the namespace's set, and throws (with
      nothing changed) when the namespace has no set; without one, drops the whole
      namespace.
    */
    method Off(ns: string, cb: Option<Callback>) returns (threw: bool)
      requires Valid()
      modifies this
      ensures Valid()
      ensures threw <==> cb.Some? && ns !in old(listeners)
      ensures listeners ==
        if threw then old(listeners)
        else if cb.Some? then old(listeners)[ns := Without(old(listeners)[ns], cb.value)]
        else old(listeners) - {ns}
      ensures onceListeners == old(onceListeners)
    {
      if cb.Some? {
        if ns !in listeners {
          return true;  // `undefined.delete` throws
        }
        WithoutNoDuplicates(listeners[ns], cb.value);
        listeners := listeners[ns := Without(listeners[ns], cb.value)];
      } else {
        listeners := listeners - {ns};
      }
      return false;
    }

    method RemoveEventListener(ns: string, cb: Option<Callback>) returns (threw: bool)
      requires Valid()
      modifies this
      ensures Valid()
      ensures threw <==> cb.Some? && ns !in old(listeners)
      ensures listeners ==
        if threw then old(listeners)
        else if cb.Some? then old(listeners)[ns := Without(old(listeners)[ns], cb.value)]
        else old(listeners) - {ns}
      ensures onceListeners == old(onceListeners)
    {
      threw := Off(ns, cb);
    }

    /** `once`: registers a one-shot listener of `ns`. */
    method Once(ns: string, cb: Callback)
      requires Valid()
      modifies this
      ensures Valid()
      ensures onceListeners == Added(old(onceListeners), ns, cb)
      ensures listeners == old(listeners)
    {
      var registered := if ns in onceListeners then onceListeners[ns] else [];
      if ns !in onceListeners {
        onceListeners := onceListeners[ns := registered];
      }
      onceListeners := onceListeners[ns := AddToSet(registered, cb)];
    }

    /**
      `emit`: every persistent listener of `ns` in registration order, then every
      one-shot listener, each deleted from its set right after its call. The one-shot
      set stays registered, empty.
    */
    method Emit<D>(ns: string, data: D) returns (trace: seq<Invocation<D>>)
      requires Valid()
      modifies this
      ensures Valid()
      ensures trace == Calls(Registered(old(listeners), ns) + Registered(old(onceListeners), ns), data)
      ensures listeners == old(listeners)
      ensures onceListeners == if ns in old(onceListeners) then old(onceListeners)[ns := []] else old(onceListeners)
    {
      trace := [];
      var registered := if ns in listeners then listeners[ns] else [];
      for i := 0 to |registered|
        invariant trace == Calls(registered[..i], data)
      {
        assert registered[..i + 1] == registered[..i] + [registered[i]];
        trace := trace + [Invocation(registered[i], data)];
      }
      assert registered[..|registered|] == registered;
      var once := EmitOnce(ns, data);
      CallsAppend(Registered(old(listeners), ns), Registered(old(onceListeners), ns), data);
      trace := trace + once;
    }

    /** The second loop of `emit`: each one-shot listener, deleted right after its call. */
    method EmitOnce<D>(ns: string, data: D) returns (trace: seq<Invocation<D>>)
      requires Valid()
      modifies this
      ensures Valid()
      ensures trace == Calls(Registered(old(onceListeners), ns), data)
      ensures listeners == old(listeners)
      ensures onceListeners == if ns in old(onceListeners) then old(onceListeners)[ns := []] else old(onceListeners)
    {
      trace := [];
      if ns !in onceListeners {
        return;
      }
      var onceSet := onceListeners[ns];
      ghost var snapshot := onceSet;
      var i := 0;
      while onceSet != []
        invariant 0 <= i <= |snapshot| && onceSet == snapshot[i..]
        invariant onceListeners == old(onceListeners)[ns := onceSet]
        invariant NoDuplicates(onceSet)
        invariant trace == Calls(snapshot[..i], data)
        invariant listeners == old(listeners)
        decreases |onceSet|
      {
        var callback := onceSet[0];
        assert snapshot[..i + 1] == snapshot[..i] + [callback];
        trace := trace + [Invocation(callback, data)];
        WithoutHead(onceSet);
        WithoutNoDuplicates(onceSet, callback);
        onceSet := Without(onceSet, callback);
        onceListeners := onceListeners[ns := onceSet];
        i := i + 1;
      }
      assert snapshot[..i] == snapshot;
    }

    method PostMessage<D>(ns: string, data: D) returns (trace: seq<Invocation<D>>)
      requires Valid()
      modifies this
      ensures Valid()
      ensures trace == Calls(Registered(old(listeners), ns) + Registered(old(onceListeners), ns), data)
      ensures listeners == old(listeners)
      ensures onceListeners == if ns in old(onceListeners) then old(onceListeners)[ns := []] else old(onceListeners)
    {
      trace := Emit(ns, data);
    }
  }

  /**
    A one-shot listener is called by the first emit of its namespace and by no later
    one: after an emit the namespace's one-shot set is empty, so the next emit makes
    only the persistent calls.
  */
  lemma OnceCalledOnce<D>(listeners: map<string, seq<Callback>>, once: map<string, seq<Callback>>, ns: string, data: D)
    ensures var after := if ns in once then once[ns := []] else once;
      Calls(Registered(listeners, ns) + Registered(after, ns), data) == Calls(Registered(listeners, ns), data)
  {
    var after := if ns in once then once[ns := []] else once;
    assert Registered(after, ns) == [];
    assert Registered(listeners, ns) + [] == Registered(listeners, ns);
  }

  /**
    After `on(ns, cb)`, however often it was called, the next emit of `ns` calls `cb`
    exactly once among its persistent calls: a second `on` changes nothing, and the
    set holds `cb` once.
  */
  lemma {:induction false} RegisteredCalledExactlyOnce<D>(m: map<string, seq<Callback>>, ns: string, cb: Callback, data: D)
    requires WellFormed(m)
    ensures Added(Added(m, ns, cb), ns, cb) == Added(m, ns, cb)
    ensures var calls := Calls(Registered(Added(m, ns, cb), ns), data);
      |set k | 0 <= k < |calls| && calls[k] == Invocation(cb, data)| == 1
  {
    var s := Registered(Added(m, ns, cb), ns);
    AddIdempotent(Registered(m, ns), cb);
    assert NoDuplicates(s) && cb in s;
    var calls := Calls(s, data);
    var k0 :| 0 <= k0 < |s| && s[k0] == cb;
    var ks := set k | 0 <= k < |calls| && calls[k] == Invocation(cb, data);
    assert ks == {k0} by {
      forall k | 0 <= k < |calls| && k != k0 ensures calls[k] != Invocation(cb, data) {
        if k < k0 {
          assert s[k] != s[k0];
        } else {
          assert s[k0] != s[k];
        }
      }
    }
  }
}
