/**
  The correlation layer of the calling side (`pingPongMessage`, demo/wwsw.js:150-167)
  and the callback that `proxy` gives its batching proxy (demo/wwsw.js:27-49).

  One JavaScript context has one random `uid` and one global counter; every request
  it sends gets the id `${uid}-${counter++}`, registers a message handler on its
  endpoint that ignores every message whose `id` differs, and posts a copy of the
  request with the id added. A handler that sees its id detaches and resolves.
*/
module Correlation {
  import opened Wrappers
  import opened JsValues
  import opened Protocol
  import Transfer

  /** The decimal digit `d`. */
  function DigitChar(d: nat): (c: char)
    requires d < 10
    ensures '0' <= c <= '9'
  {
    "0123456789"[d]
  }

  predicate IsDigit(c: char)
  {
    '0' <= c <= '9'
  }

  /** The decimal text of `n`, as a template literal formats a non-negative integer. */
  function Decimal(n: nat): (s: string)
    ensures |s| >= 1 && (forall i :: 0 <= i < |s| ==> IsDigit(s[i]))
    ensures (|s| == 1) == (n < 10)
  {
    if n < 10 then [DigitChar(n)] else Decimal(n / 10) + [DigitChar(n % 10)]
  }

  /** Different numbers have different decimal texts. */
  lemma {:induction false} DecimalInjective(a: nat, b: nat)
    requires Decimal(a) == Decimal(b)
    ensures a == b
  {
    if a >= 10 && b >= 10 {
      var da, db := Decimal(a), Decimal(b);
      assert da[..|da| - 1] == Decimal(a / 10);
      assert db[..|db| - 1] == Decimal(b / 10);
      DecimalInjective(a / 10, b / 10);
      assert DigitChar(a % 10) == da[|da| - 1] == db[|db| - 1] == DigitChar(b % 10);
      assert "0123456789"[a % 10] == "0123456789"[b % 10];
    } else if a < 10 && b < 10 {
      assert "0123456789"[a] == "0123456789"[b];
    }
  }

  /** `${uid}-${n}` (demo/wwsw.js:155). */
  function MessageId(uid: nat, n: nat): (id: string)
    ensures id != []
  {
    Decimal(uid) + "-" + Decimal(n)
  }

  /**
    An id names its context's uid and its counter value: two ids are equal only when
    both the uids and the counters are. The '-' is not a digit, so it ends the uid.
  */
  lemma MessageIdInjective(u1: nat, n1: nat, u2: nat, n2: nat)
    requires MessageId(u1, n1) == MessageId(u2, n2)
    ensures u1 == u2 && n1 == n2
  {
    assert MessageId(u1, n1) == Decimal(u1) + ("-" + Decimal(n1));
    assert MessageId(u2, n2) == Decimal(u2) + ("-" + Decimal(n2));
    SplitAtDash(Decimal(u1), Decimal(n1), Decimal(u2), Decimal(n2));
    DecimalInjective(u1, u2);
    DecimalInjective(n1, n2);
  }

  /** `${d1}-${r1}` and `${d2}-${r2}` with digit-only `d1`, `d2` are equal only part by part. */
  lemma SplitAtDash(d1: string, r1: string, d2: string, r2: string)
    requires forall i :: 0 <= i < |d1| ==> IsDigit(d1[i])
    requires forall i :: 0 <= i < |d2| ==> IsDigit(d2[i])
    requires d1 + ("-" + r1) == d2 + ("-" + r2)
    ensures d1 == d2 && r1 == r2
  {
    var s := d1 + ("-" + r1);
    DigitRunBeforeDash(d1, r1);
    DigitRunBeforeDash(d2, r2);
    assert d1 == s[..|d1|];
    assert d2 == s[..|d2|];
    assert r1 == s[|d1| + 1..];
    assert r2 == s[|d2| + 1..];
  }

  /** The length of the run of digits that starts `s`. */
  function DigitRun(s: string): (n: nat)
    ensures n <= |s|
  {
    if s == [] || !IsDigit(s[0]) then 0 else 1 + DigitRun(s[1..])
  }

  /** In `${digits}-${rest}` the leading digit run is exactly `digits`. */
  lemma {:induction false} DigitRunBeforeDash(digits: string, rest: string)
    requires forall i :: 0 <= i < |digits| ==> IsDigit(digits[i])
    ensures DigitRun(digits + ("-" + rest)) == |digits|
    decreases |digits|
  {
    if digits != [] {
      assert (digits + ("-" + rest))[1..] == digits[1..] + ("-" + rest);
      DigitRunBeforeDash(digits[1..], rest);
    }
  }

  /** A message handler attached by `pingPongMessage`: its endpoint, its id and counter value. */
  datatype Pending = Pending(endpoint: nat, id: string, n: nat)

  /** One `endpoint.postMessage(msg, transferables)` of the calling side. */
  datatype Posted = Posted(endpoint: nat, message: Message, transfer: seq<Value>)

  /** A call resolved by a reply: its id and what the awaited promise gives. */
  datatype Settled = Settled(id: string, outcome: CallOutcome)

  /** Whether the handler `p` resolves on a message with id `id` arriving at `ep`. */
  predicate Matches(p: Pending, ep: nat, id: string)
  {
    p.endpoint == ep && p.id == id
  }

  /** The handlers that resolve on the message, in attach order. */
  function Matching(ps: seq<Pending>, ep: nat, id: string): (r: seq<Pending>)
    ensures |r| <= |ps|
  {
    if ps == [] then []
    else Matching(ps[..|ps| - 1], ep, id) + (if Matches(ps[|ps| - 1], ep, id) then [ps[|ps| - 1]] else [])
  }

  /** The handlers that ignore the message and stay attached, in attach order. */
  function Remaining(ps: seq<Pending>, ep: nat, id: string): (r: seq<Pending>)
    ensures |r| <= |ps|
  {
    if ps == [] then []
    else Remaining(ps[..|ps| - 1], ep, id) + (if Matches(ps[|ps| - 1], ep, id) then [] else [ps[|ps| - 1]])
  }

  /** Every handler of the table is keyed by the id its counter value gives, counters ascending. */
  ghost predicate WellKeyed(ps: seq<Pending>, uid: nat)
  {
    (forall i :: 0 <= i < |ps| ==> ps[i].id == MessageId(uid, ps[i].n))
    && (forall i, j :: 0 <= i < j < |ps| ==> ps[i].n < ps[j].n)
  }

  /** In a well-keyed table no two handlers wait for the same id. */
  lemma WellKeyedIdsDistinct(ps: seq<Pending>, uid: nat, i: nat, j: nat)
    requires WellKeyed(ps, uid) && i < j < |ps|
    ensures ps[i].id != ps[j].id
  {
    if ps[i].id == ps[j].id {
      MessageIdInjective(uid, ps[i].n, uid, ps[j].n);
    }
  }

  /** The handlers that stay attached are handlers of the table. */
  lemma {:induction false} RemainingSubset(ps: seq<Pending>, ep: nat, id: string)
    ensures forall p :: p in Remaining(ps, ep, id) ==> p in ps
    decreases |ps|
  {
    if ps != [] {
      var init := ps[..|ps| - 1];
      RemainingSubset(init, ep, id);
      forall p | p in Remaining(init, ep, id) ensures p in ps {
        var i :| 0 <= i < |init| && init[i] == p;
        assert ps[i] == p;
      }
    }
  }

  /** Dropping the handlers that resolved keeps the table well keyed. */
  lemma {:induction false} RemainingWellKeyed(ps: seq<Pending>, uid: nat, ep: nat, id: string)
    requires WellKeyed(ps, uid)
    ensures WellKeyed(Remaining(ps, ep, id), uid)
    decreases |ps|
  {
    if ps != [] {
      var init := ps[..|ps| - 1];
      var last := ps[|ps| - 1];
      assert WellKeyed(init, uid);
      RemainingWellKeyed(init, uid, ep, id);
      RemainingSubset(init, ep, id);
      var r := Remaining(init, ep, id);
      forall k | 0 <= k < |r|
        ensures r[k].n < last.n
      {
        assert r[k] in r;
        var i :| 0 <= i < |init| && init[i] == r[k];
      }
    }
  }

  /**
    Routing is by id alone: whatever else is pending and in whatever order replies
    come, a reply carrying the id of pending call `k`, arriving at its endpoint,
    resolves exactly that call and detaches exactly its handler.
  */
  lemma {:induction false} RoutedById(ps: seq<Pending>, uid: nat, k: nat)
    requires WellKeyed(ps, uid) && k < |ps|
    ensures Matching(ps, ps[k].endpoint, ps[k].id) == [ps[k]]
    ensures Remaining(ps, ps[k].endpoint, ps[k].id) == ps[..k] + ps[k + 1..]
    decreases |ps|
  {
    var ep, id := ps[k].endpoint, ps[k].id;
    var init := ps[..|ps| - 1];
    var last := ps[|ps| - 1];
    assert WellKeyed(init, uid);
    if k == |ps| - 1 {
      NoneMatch(init, uid, last.n, ep, id);
      assert init == ps[..k] && ps[k + 1..] == [];
    } else {
      RoutedById(init, uid, k);
      WellKeyedIdsDistinct(ps, uid, k, |ps| - 1);
      assert init[..k] == ps[..k];
      assert init[k + 1..] + [last] == ps[k + 1..];
    }
  }

  /** No handler of a table whose ids come from smaller counters waits for the id of counter `n`. */
  lemma {:induction false} NoneMatch(ps: seq<Pending>, uid: nat, n: nat, ep: nat, id: string)
    requires WellKeyed(ps, uid) && id == MessageId(uid, n)
    requires forall i :: 0 <= i < |ps| ==> ps[i].n < n
    ensures Matching(ps, ep, id) == [] && Remaining(ps, ep, id) == ps
    decreases |ps|
  {
    if ps != [] {
      var init := ps[..|ps| - 1];
      assert WellKeyed(init, uid);
      NoneMatch(init, uid, n, ep, id);
      if ps[|ps| - 1].id == id {
        MessageIdInjective(uid, ps[|ps| - 1].n, uid, n);
      }
    }
  }

  /** A reply for an id nobody waits for settles nothing and detaches nothing. */
  lemma {:induction false} UnmatchedReplyIgnored(ps: seq<Pending>, ep: nat, id: string)
    requires forall i :: 0 <= i < |ps| ==> !Matches(ps[i], ep, id)
    ensures Matching(ps, ep, id) == [] && Remaining(ps, ep, id) == ps
    decreases |ps|
  {
    if ps != [] {
      UnmatchedReplyIgnored(ps[..|ps| - 1], ep, id);
    }
  }

  /** The outcomes the matching handlers' promises settle with. */
  function SettledBy(ps: seq<Pending>, r: InvocationResult): (s: seq<Settled>)
    ensures |s| == |ps| && forall i :: 0 <= i < |ps| ==> s[i] == Settled(ps[i].id, Unmarshal(r))
  {
    if ps == [] then [] else SettledBy(ps[..|ps| - 1], r) + [Settled(ps[|ps| - 1].id, Unmarshal(r))]
  }

  /**
    The calling side of one JavaScript context: the shared counter, the handlers
    waiting for replies, the messages posted, and the channels created to expose
    proxy-marked arguments.
  */
  class Caller {
    const uid: nat
    var counter: nat
    var pending: seq<Pending>
    var posted: seq<Posted>
    ghost var postedAt: seq<nat>
    var nextChannel: nat
    var exposed: seq<Exposure>

    /**
      Every posted message carries the id of the counter value it was sent under,
      counters ascending; every pending handler waits for the id of an earlier counter
      value, and handlers are attached in counter order.
    */
    ghost predicate Valid()
      reads this
    {
      && |postedAt| == |posted|
      && (forall i :: 0 <= i < |posted| ==> posted[i].message.id == Some(MessageId(uid, postedAt[i])))
      && (forall i :: 0 <= i < |postedAt| ==> postedAt[i] < counter)
      && (forall i, j :: 0 <= i < j < |postedAt| ==> postedAt[i] < postedAt[j])
      && WellKeyed(pending, uid)
      && (forall i :: 0 <= i < |pending| ==> pending[i].n < counter)
      && (forall k :: 0 <= k < |exposed| ==> exposed[k].channel == k)
      && nextChannel == |exposed|
    }

    constructor (uid: nat)
      ensures Valid() && this.uid == uid
      ensures counter == 0 && pending == [] && posted == [] && nextChannel == 0 && exposed == []
    {
      this.uid := uid;
      counter := 0;
      pending := [];
      posted := [];
      postedAt := [];
      nextChannel := 0;
      exposed := [];
    }

    /** No message posted so far and no handler attached carries the id of the current counter. */
    lemma FreshId()
      requires Valid()
      ensures forall p :: p in pending ==> p.id != MessageId(uid, counter)
      ensures forall i :: 0 <= i < |posted| ==> posted[i].message.id != Some(MessageId(uid, counter))
    {
      var id := MessageId(uid, counter);
      forall p | p in pending
        ensures p.id != id
      {
        if p.id == id {
          MessageIdInjective(uid, p.n, uid, counter);
        }
      }
      forall i | 0 <= i < |posted|
        ensures posted[i].message.id != Some(id)
      {
        if posted[i].message.id == Some(id) {
          MessageIdInjective(uid, postedAt[i], uid, counter);
        }
      }
    }

    /**
      `pingPongMessage(endpoint, msg, transferables)`: a fresh id and a handler waiting
      for it, then the message posted with the id added. When `postMessage` cannot
      clone the message it throws inside the promise executor: the promise rejects,
      nothing is posted, and the handler stays attached. The transfer list is one of
      the two the core builds: every handle the arguments hold for APPLY and
      CONSTRUCT, and the empty list for GET and SET; whether the clone succeeds is
      judged against that list.
    */
    method PingPongMessage(endpoint: nat, request: Request, transfer: seq<Value>) returns (id: string, threw: bool)
      requires Valid()
      requires transfer == if request.ApplyRequest? || request.ConstructRequest? then
        Transfer.Transferables(Transfer.IterateAllProperties(Arr(request.argumentsList, false)))
        else []
      modifies this
      ensures Valid()
      ensures id == MessageId(uid, old(counter)) && counter == old(counter) + 1
      ensures forall p :: p in old(pending) ==> p.id != id
      ensures forall i :: 0 <= i < |old(posted)| ==> old(posted)[i].message.id != Some(id)
      ensures pending == old(pending) + [Pending(endpoint, id, old(counter))]
      ensures threw <==> CloneRequest(request).None?
      ensures posted == old(posted) + (if threw then [] else [Posted(endpoint, Message(Some(id), request), transfer)])
      ensures nextChannel == old(nextChannel) && exposed == old(exposed)
    {
      id := MessageId(uid, counter);
      FreshId();
      pending := pending + [Pending(endpoint, id, counter)];
      threw := CloneRequest(request).None?;
      if !threw {
        posted := posted + [Posted(endpoint, Message(Some(id), request), transfer)];
        postedAt := postedAt + [counter];
      }
      counter := counter + 1;
    }

    /**
      The proxy's callback up to the send (demo/wwsw.js:27-42): for APPLY and CONSTRUCT
      every proxy-marked argument is exposed on a new channel and replaced by its
      marker; the arguments' handles travel as transferables. The channels stay
      exposed also when the send throws.
    */
    method Call(endpoint: nat, request: Request) returns (id: string, threw: bool)
      requires Valid()
      modifies this
      ensures Valid()
      ensures id == MessageId(uid, old(counter)) && pending == old(pending) + [Pending(endpoint, id, old(counter))]
      ensures request.ApplyRequest? || request.ConstructRequest? ==>
        var p := ProxifyArguments(request.argumentsList, old(nextChannel));
        var sent := request.(argumentsList := p.args);
        && (threw <==> CloneRequest(sent).None?)
        && posted == old(posted) + (if threw then [] else [Posted(endpoint, Message(Some(id), sent),
                                            Transfer.Transferables(Transfer.IterateAllProperties(Arr(p.args, false))))])
        && exposed == old(exposed) + p.exposed
      ensures request.GetRequest? || request.SetRequest? ==>
        && (threw <==> CloneRequest(request).None?)
        && posted == old(posted) + (if threw then [] else [Posted(endpoint, Message(Some(id), request), [])])
        && exposed == old(exposed)
    {
      var sent := request;
      var args: seq<Value> := [];
      if request.ApplyRequest? || request.ConstructRequest? {
        var p := ProxifyArguments(request.argumentsList, nextChannel);
        args := p.args;
        sent := request.(argumentsList := args);
        exposed := exposed + p.exposed;
        nextChannel := nextChannel + |p.exposed|;
      }
      var transfer := Transfer.TransferableProperties(Arr(args, false));
      assert args == [] ==> Transfer.IterateAllProperties(Arr(args, false)) == [Arr(args, false)];
      id, threw := PingPongMessage(endpoint, sent, transfer);
    }

    /**
      A reply arriving at `endpoint`: every handler on it compares ids; those that
      match detach and resolve with the unmarshalled result, the others stay.
    */
    method Receive(endpoint: nat, reply: Response) returns (settled: seq<Settled>)
      requires Valid()
      modifies this
      ensures Valid()
      ensures pending == Remaining(old(pending), endpoint, reply.id)
      ensures settled == SettledBy(Matching(old(pending), endpoint, reply.id), reply.result)
      ensures counter == old(counter) && posted == old(posted)
      ensures nextChannel == old(nextChannel) && exposed == old(exposed)
    {
      var handlers := pending;
      var kept: seq<Pending> := [];
      var resolved: seq<Pending> := [];
      for i := 0 to |handlers|
        invariant kept == Remaining(handlers[..i], endpoint, reply.id)
        invariant resolved == Matching(handlers[..i], endpoint, reply.id)
      {
        assert handlers[..i + 1][..i] == handlers[..i];
        if handlers[i].id != reply.id || handlers[i].endpoint != endpoint {
          kept := kept + [handlers[i]];
        } else {
          resolved := resolved + [handlers[i]];
        }
      }
      assert handlers[..|handlers|] == handlers;
      KeptValid(handlers, endpoint, reply.id);
      pending := kept;
      settled := SettledBy(resolved, reply.result);
    }

    /** The handlers a reply leaves attached still satisfy the table's part of `Valid`. */
    lemma KeptValid(handlers: seq<Pending>, endpoint: nat, id: string)
      requires WellKeyed(handlers, uid) && forall i :: 0 <= i < |handlers| ==> handlers[i].n < counter
      ensures var kept := Remaining(handlers, endpoint, id);
        WellKeyed(kept, uid) && forall i :: 0 <= i < |kept| ==> kept[i].n < counter
    {
      var kept := Remaining(handlers, endpoint, id);
      RemainingWellKeyed(handlers, uid, endpoint, id);
      RemainingSubset(handlers, endpoint, id);
      forall i | 0 <= i < |kept|
        ensures kept[i].n < counter
      {
        assert kept[i] in kept;
        var j :| 0 <= j < |handlers| && handlers[j] == kept[i];
      }
    }
  }
}
