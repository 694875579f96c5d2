/** The library's event bus: per event name a global queue of handlers and
    queues scoped to an id, synchronous dispatch (id-scoped handlers first,
    then global ones), and an append-only log of every emission. */
module Events {
  import opened JsValues

  /** A queue entry: a function object known by its identity, or a value that
      is not a function (`null`, `undefined`), which dispatch skips. */
  datatype Handler = NoHandler | Fn(ref: nat)

  /** `_handlers[eventName]`: the global queue `que` and, per id, the queue `event[id].que`. */
  datatype Subscriptions = Subscriptions(que: seq<Handler>, byId: map<string, seq<Handler>>)

  const NoSubscriptions := Subscriptions([], map[])

  /** An entry of `eventsFired`. */
  datatype FiredEvent = FiredEvent(eventType: string, args: Value, id: Value)

  /** How one handler call ended; an exception is caught and dispatch goes on. */
  datatype Outcome = Returned | Threw

  /** One handler call made by a dispatch. */
  datatype Invocation = Invocation(handler: nat, args: seq<Value>, outcome: Outcome)

  /** What `on` did: stored the handler, refused an unknown event name, or
      failed with a `TypeError` because `event[id]` named the global queue. */
  datatype OnResult = Registered | UnknownEvent | TypeErrorThrown

  // ---------------------------------------------------------------------------
  // Subscriptions

  /** The property name `event[id]` uses: the id converted with `String`. */
  function IdKey(id: Value): string {
    ToString(id)
  }

  function QueueFor(s: Subscriptions, key: string): seq<Handler> {
    if key in s.byId then s.byId[key] else []
  }

  function SubscriptionsOf(handlers: map<string, Subscriptions>, eventName: string): Subscriptions {
    if eventName in handlers then handlers[eventName] else NoSubscriptions
  }

  /** The subscriptions once `on` has appended `handler`: to the queue of
      `String(id)` when the id is truthy, to the global queue otherwise. */
  function Subscribed(s: Subscriptions, handler: Handler, id: Value): Subscriptions {
    if Truthy(id) then s.(byId := s.byId[IdKey(id) := QueueFor(s, IdKey(id)) + [handler]])
    else s.(que := s.que + [handler])
  }

  // ---------------------------------------------------------------------------
  // Dispatch

  /** `args[0] || {}` */
  function Payload(args: seq<Value>): Value {
    if |args| > 0 && Truthy(args[0]) then args[0] else Obj(map[])
  }

  /** `idPaths[eventName]`, used as a property name: a missing path reads the property `"undefined"`. */
  function IdPath(idPaths: map<string, string>, eventName: string): string {
    if eventName in idPaths then idPaths[eventName] else "undefined"
  }

  /** The id a dispatch extracts: `eventPayload[idPath]`. */
  function EventId(idPaths: map<string, string>, eventName: string, args: seq<Value>): Value {
    JsValues.Get(Payload(args), IdPath(idPaths, eventName))
  }

  /** The `callbacks` list of `_dispatch`: the queue of the extracted id, when
      that id is a truthy string naming a queue (the keys are strings and
      `contains` compares with `===`), followed by the global queue. */
  function Callbacks(s: Subscriptions, key: Value): seq<Handler> {
    (if Truthy(key) && key.Str? && key.s in s.byId then s.byId[key.s] else []) + s.que
  }

  /** The calls made for one queue entry: none for a non-function. */
  function Invoke(h: Handler, args: seq<Value>, throws: nat -> bool): seq<Invocation> {
    match h
    case NoHandler => []
    case Fn(r) => [Invocation(r, args, if throws(r) then Threw else Returned)]
  }

  /** The calls `_each(callbacks, ...)` makes, in order; `throws` says which
      handlers raise an exception. */
  function Invocations(callbacks: seq<Handler>, args: seq<Value>, throws: nat -> bool): seq<Invocation>
    decreases |callbacks|
  {
    if callbacks == [] then []
    else Invocations(callbacks[..|callbacks| - 1], args, throws) + Invoke(callbacks[|callbacks| - 1], args, throws)
  }

  /** The handlers a queue delivers to, in order: its function entries. */
  function Delivered(q: seq<Handler>): seq<nat>
    decreases |q|
  {
    if q == [] then []
    else Delivered(q[..|q| - 1]) + (if q[|q| - 1].Fn? then [q[|q| - 1].ref] else [])
  }

  lemma {:induction false} DeliveredAppend(a: seq<Handler>, b: seq<Handler>)
    ensures Delivered(a + b) == Delivered(a) + Delivered(b)
    decreases |b|
  {
    if b != [] {
      assert (a + b)[..|a + b| - 1] == a + b[..|b| - 1];
      DeliveredAppend(a, b[..|b| - 1]);
    } else {
      assert a + b == a;
    }
  }

  lemma {:induction false} DeliveredContains(q: seq<Handler>, r: nat)
    ensures r in Delivered(q) <==> Fn(r) in q
    decreases |q|
  {
    if q != [] {
      DeliveredContains(q[..|q| - 1], r);
      assert q == q[..|q| - 1] + [q[|q| - 1]];
    }
  }

  /** A throwing handler does not stop the others: whatever `throws` says,
      every function entry of the list is called, in list order, each with
      all of the emitted arguments. */
  lemma {:induction false} EveryHandlerRuns(callbacks: seq<Handler>, args: seq<Value>, throws: nat -> bool)
    ensures var calls := Invocations(callbacks, args, throws);
      |calls| == |Delivered(callbacks)|
      && forall i :: 0 <= i < |calls| ==> calls[i].handler == Delivered(callbacks)[i] && calls[i].args == args
    decreases |callbacks|
  {
    if callbacks != [] {
      EveryHandlerRuns(callbacks[..|callbacks| - 1], args, throws);
    }
  }

  /** A global subscription is delivered last on every later emission, whatever the id. */
  lemma GlobalSubscriptionRunsLast(s: Subscriptions, h: nat, id: Value, key: Value)
    requires !Truthy(id)
    ensures Delivered(Callbacks(Subscribed(s, Fn(h), id), key)) == Delivered(Callbacks(s, key)) + [h]
  {
    var scoped := if Truthy(key) && key.Str? && key.s in s.byId then s.byId[key.s] else [];
    assert Callbacks(Subscribed(s, Fn(h), id), key) == Callbacks(s, key) + [Fn(h)];
    DeliveredAppend(Callbacks(s, key), [Fn(h)]);
    assert Delivered([Fn(h)]) == [h];
  }

  /** An id-scoped subscription is delivered on an emission exactly when the
      extracted id is the same non-empty string, after the other handlers of
      that id and before every global handler; other emissions are unaffected.
      A truthy id whose string form is empty (an empty array) never matches. */
  lemma ScopedSubscriptionRunsOnMatch(s: Subscriptions, h: nat, id: Value, key: Value)
    requires Truthy(id)
    ensures key == Str(IdKey(id)) && IdKey(id) != "" ==>
      Delivered(Callbacks(Subscribed(s, Fn(h), id), key))
        == Delivered(QueueFor(s, IdKey(id))) + [h] + Delivered(s.que)
    ensures key != Str(IdKey(id)) || IdKey(id) == "" ==>
      Callbacks(Subscribed(s, Fn(h), id), key) == Callbacks(s, key)
  {
    var k := IdKey(id);
    if key == Str(k) && k != "" {
      assert Callbacks(Subscribed(s, Fn(h), id), key) == QueueFor(s, k) + [Fn(h)] + s.que;
      DeliveredAppend(QueueFor(s, k) + [Fn(h)], s.que);
      DeliveredAppend(QueueFor(s, k), [Fn(h)]);
      assert Delivered([Fn(h)]) == [h];
    }
  }

  /** A handler subscribed only to ids (not to the global queue) hears an
      emission iff the extracted id is a truthy string under which it is queued. */
  lemma ScopedOnlyDelivery(s: Subscriptions, h: nat, key: Value)
    requires Fn(h) !in s.que
    ensures h in Delivered(Callbacks(s, key))
      <==> (Truthy(key) && key.Str? && key.s in s.byId && Fn(h) in s.byId[key.s])
  {
    DeliveredContains(Callbacks(s, key), h);
  }

  /** An id that is not a string is stored under its string form but never
      matches on emission, since the lookup compares with `===`. */
  lemma NumericIdNeverMatches(s: Subscriptions, h: Handler, n: int)
    requires n != 0
    ensures Callbacks(Subscribed(s, h, Num(n)), Num(n)) == s.que
  {
  }

  // ---------------------------------------------------------------------------
  // Removal: `que.forEach(_h => { if (_h === handler) que.splice(que.indexOf(_h), 1) })`

  /** `que.indexOf(h)` */
  function IndexOf(q: seq<Handler>, h: Handler): (i: nat)
    requires h in q
    ensures i < |q| && q[i] == h
    ensures forall j :: 0 <= j < i ==> q[j] != h
  {
    if q[0] == h then 0 else 1 + IndexOf(q[1..], h)
  }

  /** `que.splice(i, 1)` */
  function RemoveAt(q: seq<Handler>, i: nat): seq<Handler>
    requires i < |q|
  {
    q[..i] + q[i + 1..]
  }

  /** The rest of a `forEach` over a queue that shrinks under it: `forEach`
      fixed the bound `n` when it started and visits index `k` only while it
      is still inside the array; each visited copy of `h` is spliced out at
      `indexOf(h)`, its first remaining position. */
  function SpliceVisit(q: seq<Handler>, h: Handler, k: nat, n: nat): seq<Handler>
    decreases n - k
  {
    if k >= n then q
    else if k < |q| && q[k] == h then SpliceVisit(RemoveAt(q, IndexOf(q, h)), h, k + 1, n)
    else SpliceVisit(q, h, k + 1, n)
  }

  /** The queue `off` leaves behind. */
  function Spliced(q: seq<Handler>, h: Handler): seq<Handler> {
    SpliceVisit(q, h, 0, |q|)
  }

  /** The queue with every copy of `h` taken out: the reference for what `off` removes. */
  function Without(q: seq<Handler>, h: Handler): (r: seq<Handler>)
    ensures h !in r
  {
    if q == [] then [] else (if q[0] == h then [] else [q[0]]) + Without(q[1..], h)
  }

  /** No two copies of `h` stand next to each other. */
  predicate NoAdjacentCopies(q: seq<Handler>, h: Handler) {
    forall i :: 0 <= i < |q| - 1 && q[i] == h ==> q[i + 1] != h
  }

  lemma {:induction false} WithoutAppend(a: seq<Handler>, b: seq<Handler>, h: Handler)
    ensures Without(a + b, h) == Without(a, h) + Without(b, h)
  {
    if a == [] {
      assert a + b == b;
    } else {
      assert (a + b)[1..] == a[1..] + b;
      WithoutAppend(a[1..], b, h);
    }
  }

  lemma {:induction false} WithoutAbsent(q: seq<Handler>, h: Handler)
    requires h !in q
    ensures Without(q, h) == q
  {
    if q != [] {
      WithoutAbsent(q[1..], h);
      assert [q[0]] + q[1..] == q;
    }
  }

  lemma WithoutRemoveAt(q: seq<Handler>, i: nat, h: Handler)
    requires i < |q| && q[i] == h
    ensures Without(RemoveAt(q, i), h) == Without(q, h)
  {
    var a, b := q[..i], q[i + 1..];
    assert q == a + ([h] + b);
    WithoutAppend(a, [h] + b, h);
    assert ([h] + b)[1..] == b;
    assert Without([h] + b, h) == Without(b, h);
    WithoutAppend(a, b, h);
  }

  /** Splicing touches only copies of `h`: the other handlers keep their order. */
  lemma {:induction false} SpliceKeepsOthers(q: seq<Handler>, h: Handler, k: nat, n: nat)
    ensures Without(SpliceVisit(q, h, k, n), h) == Without(q, h)
    decreases n - k
  {
    if k < n {
      if k < |q| && q[k] == h {
        WithoutRemoveAt(q, IndexOf(q, h), h);
        SpliceKeepsOthers(RemoveAt(q, IndexOf(q, h)), h, k + 1, n);
      } else {
        SpliceKeepsOthers(q, h, k + 1, n);
      }
    }
  }

  lemma {:induction false} SpliceAbsent(q: seq<Handler>, h: Handler, k: nat, n: nat)
    requires h !in q
    ensures SpliceVisit(q, h, k, n) == q
    decreases n - k
  {
    if k < n {
      SpliceAbsent(q, h, k + 1, n);
    }
  }

  lemma {:induction false} SpliceNeverGrows(q: seq<Handler>, h: Handler, k: nat, n: nat)
    ensures |SpliceVisit(q, h, k, n)| <= |q|
    decreases n - k
  {
    if k < n {
      if k < |q| && q[k] == h {
        SpliceNeverGrows(RemoveAt(q, IndexOf(q, h)), h, k + 1, n);
      } else {
        SpliceNeverGrows(q, h, k + 1, n);
      }
    }
  }

  lemma {:induction false} SpliceRemovesFirstSeen(q: seq<Handler>, h: Handler, k: nat, n: nat, j: nat)
    requires k <= j < |q| && j < n && q[j] == h
    ensures |SpliceVisit(q, h, k, n)| < |q|
    decreases n - k
  {
    if k < |q| && q[k] == h {
      SpliceNeverGrows(RemoveAt(q, IndexOf(q, h)), h, k + 1, n);
    } else {
      SpliceRemovesFirstSeen(q, h, k + 1, n, j);
    }
  }

  /** When `h` is queued at all, `off` removes at least one copy of it. */
  lemma SpliceRemovesPresent(q: seq<Handler>, h: Handler)
    requires h in q
    ensures |Spliced(q, h)| < |q|
  {
    SpliceRemovesFirstSeen(q, h, 0, |q|, IndexOf(q, h));
  }

  lemma {:induction false} SpliceClearsSeparated(q: seq<Handler>, h: Handler, k: nat, n: nat)
    requires NoAdjacentCopies(q, h)
    requires forall j :: 0 <= j < k && j < |q| ==> q[j] != h
    requires |q| <= n
    ensures h !in SpliceVisit(q, h, k, n)
    decreases n - k
  {
    if k >= n {
      assert forall j :: 0 <= j < |q| ==> q[j] != h;
    } else if k < |q| && q[k] == h {
      assert IndexOf(q, h) == k;
      var q' := RemoveAt(q, k);
      assert forall j :: 0 <= j < k ==> q'[j] == q[j];
      assert forall j :: k <= j < |q'| ==> q'[j] == q[j + 1];
      SpliceClearsSeparated(q', h, k + 1, n);
    } else {
      SpliceClearsSeparated(q, h, k + 1, n);
    }
  }

  /** When no two copies of `h` are adjacent, `off` removes every copy and
      nothing else. */
  lemma SplicedIsWithout(q: seq<Handler>, h: Handler)
    requires NoAdjacentCopies(q, h)
    ensures Spliced(q, h) == Without(q, h)
  {
    SpliceClearsSeparated(q, h, 0, |q|);
    SpliceKeepsOthers(q, h, 0, |q|);
    WithoutAbsent(Spliced(q, h), h);
  }

  /** Two adjacent copies: the splice shifts the second onto the index just
      visited, so `forEach` never sees it and it stays subscribed. */
  lemma AdjacentCopySurvives(r: nat)
    ensures Spliced([Fn(r), Fn(r)], Fn(r)) == [Fn(r)]
  {
    var q := [Fn(r), Fn(r)];
    assert IndexOf(q, Fn(r)) == 0;
    assert RemoveAt(q, 0) == [Fn(r)];
    assert SpliceVisit([Fn(r)], Fn(r), 1, 2) == SpliceVisit([Fn(r)], Fn(r), 2, 2);
  }

  /** The subscriptions once `off(eventName, handler, id)` ran over them. */
  function Unsubscribed(s: Subscriptions, handler: Handler, id: Value): Subscriptions {
    if Truthy(id) then
      if IdKey(id) in s.byId then s.(byId := s.byId[IdKey(id) := Spliced(s.byId[IdKey(id)], handler)])
      else s
    else s.(que := Spliced(s.que, handler))
  }

  /** `off` without an id works on the global queue only: it keeps every other
      handler in order, removes at least one copy of a queued handler, removes
      all copies when none are adjacent, and changes nothing for an absent one. */
  lemma OffGlobal(s: Subscriptions, h: Handler, id: Value)
    requires !Truthy(id)
    ensures var r := Unsubscribed(s, h, id);
      r.byId == s.byId
      && Without(r.que, h) == Without(s.que, h)
      && (h in s.que ==> |r.que| < |s.que|)
      && (h !in s.que ==> r == s)
      && (NoAdjacentCopies(s.que, h) ==> r.que == Without(s.que, h))
  {
    SpliceKeepsOthers(s.que, h, 0, |s.que|);
    if h in s.que {
      SpliceRemovesPresent(s.que, h);
    } else {
      SpliceAbsent(s.que, h, 0, |s.que|);
    }
    if NoAdjacentCopies(s.que, h) {
      SplicedIsWithout(s.que, h);
    }
  }

  /** `off` with an id works on that id's queue only, with the same guarantees;
      the global queue and every other id's queue are untouched. */
  lemma OffScoped(s: Subscriptions, h: Handler, id: Value)
    requires Truthy(id)
    ensures var r := Unsubscribed(s, h, id);
      var q := QueueFor(s, IdKey(id));
      r.que == s.que
      && r.byId.Keys == s.byId.Keys
      && (forall k :: k in s.byId && k != IdKey(id) ==> r.byId[k] == s.byId[k])
      && Without(QueueFor(r, IdKey(id)), h) == Without(q, h)
      && (h in q ==> |QueueFor(r, IdKey(id))| < |q|)
      && (h !in q ==> r == s)
      && (NoAdjacentCopies(q, h) ==> QueueFor(r, IdKey(id)) == Without(q, h))
  {
    var k := IdKey(id);
    var q := QueueFor(s, k);
    SpliceKeepsOthers(q, h, 0, |q|);
    if h in q {
      SpliceRemovesPresent(q, h);
    } else {
      SpliceAbsent(q, h, 0, |q|);
      if k in s.byId {
        assert s.byId[k := q] == s.byId;
      }
    }
    if NoAdjacentCopies(q, h) {
      SplicedIsWithout(q, h);
    }
  }

  /** Removing a handler a second time is a no-op when the first removal took
      every copy (always so without adjacent copies). */
  lemma OffTwiceIsOffOnce(s: Subscriptions, h: Handler, id: Value)
    requires NoAdjacentCopies(if Truthy(id) then QueueFor(s, IdKey(id)) else s.que, h)
    ensures Unsubscribed(Unsubscribed(s, h, id), h, id) == Unsubscribed(s, h, id)
  {
    var r := Unsubscribed(s, h, id);
    if Truthy(id) {
      OffScoped(s, h, id);
      OffScoped(r, h, id);
    } else {
      OffGlobal(s, h, id);
      OffGlobal(r, h, id);
    }
  }

  /** The `forEach`/`splice` loop of `off`, run over one queue. */
  method SpliceEach(que0: seq<Handler>, handler: Handler) returns (que: seq<Handler>)
    ensures que == Spliced(que0, handler)
  {
    que := que0;
    var n := |que|;
    var k := 0;
    while k < n
      invariant k <= n
      invariant SpliceVisit(que, handler, k, n) == Spliced(que0, handler)
    {
      if k < |que| && que[k] == handler {
        que := RemoveAt(que, IndexOf(que, handler));
      }
      k := k + 1;
    }
  }

  /** `_each(callbacks, fn => fn.apply(null, args))` with each call wrapped in
      a `try`: non-functions are skipped and an exception is caught. */
  method RunCallbacks(callbacks: seq<Handler>, args: seq<Value>, throws: nat -> bool) returns (calls: seq<Invocation>)
    ensures calls == Invocations(callbacks, args, throws)
  {
    calls := [];
    var i := 0;
    while i < |callbacks|
      invariant 0 <= i <= |callbacks|
      invariant calls == Invocations(callbacks[..i], args, throws)
    {
      var fn := callbacks[i];
      if fn.Fn? {
        var outcome := if throws(fn.ref) then Threw else Returned;
        calls := calls + [Invocation(fn.ref, args, outcome)];
      }
      assert callbacks[..i + 1][..i] == callbacks[..i];
      assert Invocations(callbacks[..i + 1], args, throws)
        == Invocations(callbacks[..i], args, throws) + Invoke(callbacks[i], args, throws);
      i := i + 1;
    }
    assert callbacks[..i] == callbacks;
  }

  // ---------------------------------------------------------------------------
  // The bus

  class EventBus {
    /** `allEvents`: the recognised event names. */
    const allEvents: seq<string>
    /** `idPaths`: for some event names, the payload field that carries the id. */
    const idPaths: map<string, string>
    /** `_handlers` */
    var handlers: map<string, Subscriptions>
    /** `eventsFired` */
    var eventsFired: seq<FiredEvent>

    /** Only recognised event names have subscriptions, and no id queue sits
        under the property name `que`, which holds the global queue. */
    ghost predicate Valid()
      reads this
    {
      forall e :: e in handlers ==> e in allEvents && "que" !in handlers[e].byId
    }

    constructor (allEvents: seq<string>, idPaths: map<string, string>)
      ensures this.allEvents == allEvents && this.idPaths == idPaths
      ensures handlers == map[] && eventsFired == []
      ensures Valid()
    {
      this.allEvents := allEvents;
      this.idPaths := idPaths;
      handlers := map[];
      eventsFired := [];
    }

    /** `_checkAvailableEvent` */
    predicate CheckAvailableEvent(eventName: string) {
      eventName in allEvents
    }

    /** `on(eventName, handler, id)` */
    method On(eventName: string, handler: Handler, id: Value) returns (result: OnResult)
      requires Valid()
      modifies this`handlers
      ensures Valid()
      ensures result == UnknownEvent <==> eventName !in allEvents
      ensures result == TypeErrorThrown <==> eventName in allEvents && Truthy(id) && IdKey(id) == "que"
      ensures result == Registered ==>
        handlers == old(handlers)[eventName := Subscribed(SubscriptionsOf(old(handlers), eventName), handler, id)]
      ensures result != Registered ==> handlers == old(handlers)
    {
      if !CheckAvailableEvent(eventName) {
        // logError('Wrong event name : ...'): nothing is stored
        return UnknownEvent;
      }
      var event := if eventName in handlers then handlers[eventName] else NoSubscriptions;
      if Truthy(id) {
        var key := IdKey(id);
        if key == "que" {
          // `event[id]` is the global array, whose `.que` is undefined: `.push` throws
          return TypeErrorThrown;
        }
        var queue := if key in event.byId then event.byId[key] else [];
        event := event.(byId := event.byId[key := queue + [handler]]);
      } else {
        event := event.(que := event.que + [handler]);
      }
      handlers := handlers[eventName := event];
      result := Registered;
    }

    /** `emit(eventName, ...args)`: records the emission, then calls the id's
        handlers and the global handlers; `throws` tells which handlers raise. */
    method Emit(eventName: string, args: seq<Value>, throws: nat -> bool) returns (calls: seq<Invocation>)
      requires Valid()
      modifies this`eventsFired
      ensures Valid()
      ensures eventsFired == old(eventsFired)
        + [FiredEvent(eventName, Payload(args), EventId(idPaths, eventName, args))]
      ensures calls == Invocations(Callbacks(SubscriptionsOf(handlers, eventName), EventId(idPaths, eventName, args)), args, throws)
    {
      var eventPayload := if |args| > 0 && Truthy(args[0]) then args[0] else Obj(map[]);
      var idPath := if eventName in idPaths then idPaths[eventName] else "undefined";
      var key := JsValues.Get(eventPayload, idPath);
      var event := if eventName in handlers then handlers[eventName] else NoSubscriptions;
      var callbacks: seq<Handler> := [];

      eventsFired := eventsFired + [FiredEvent(eventName, eventPayload, key)];

      // `eventKeys` also lists "que", whose `.que` is undefined and adds nothing
      if Truthy(key) && key.Str? && key.s in event.byId {
        callbacks := callbacks + event.byId[key.s];
      }
      callbacks := callbacks + event.que;
      assert eventPayload == Payload(args) && key == EventId(idPaths, eventName, args);
      assert callbacks == Callbacks(event, key);

      calls := RunCallbacks(callbacks, args, throws);
    }

    /** `off(eventName, handler, id)` */
    method Off(eventName: string, handler: Handler, id: Value)
      requires Valid()
      modifies this`handlers
      ensures Valid()
      ensures handlers == if eventName in old(handlers)
        then old(handlers)[eventName := Unsubscribed(old(handlers)[eventName], handler, id)]
        else old(handlers)
    {
      if eventName !in handlers {
        return;
      }
      var event := handlers[eventName];
      var key := IdKey(id);
      // isEmpty(event.que) && isEmpty(event[id])
      var scopedEmpty := if key == "que" then event.que == [] else key !in event.byId;
      if event.que == [] && scopedEmpty {
        assert Spliced([], handler) == [];
        assert event.(que := []) == event;
        return;
      }
      // id && (isEmpty(event[id]) || isEmpty(event[id].que))
      if Truthy(id) && (key !in event.byId || event.byId[key] == []) {
        if key in event.byId {
          assert Spliced([], handler) == [];
          assert event.byId[key := []] == event.byId;
        }
        return;
      }
      if Truthy(id) {
        var queue := SpliceEach(event.byId[key], handler);
        event := event.(byId := event.byId[key := queue]);
      } else {
        var queue := SpliceEach(event.que, handler);
        event := event.(que := queue);
      }
      handlers := handlers[eventName := event];
    }

    /** `get()`: the subscription map itself. Only event names that `on`
        accepted occur in it, and no id queue is named `que`. */
    function Get(): (r: map<string, Subscriptions>)
      requires Valid()
      reads this
      ensures r == handlers
      ensures forall e :: e in r ==> CheckAvailableEvent(e) && "que" !in r[e].byId
    {
      handlers
    }

    /** `getEvents()`: a copy of the log, record by record. */
    method GetEvents() returns (copy: seq<FiredEvent>)
      ensures copy == eventsFired
    {
      copy := [];
      var i := 0;
      while i < |eventsFired|
        invariant 0 <= i <= |eventsFired|
        invariant copy == eventsFired[..i]
      {
        copy := copy + [eventsFired[i]];
        i := i + 1;
      }
    }
  }
}
