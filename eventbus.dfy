/**
 * A model of package eventbus: an in-process publish/subscribe registry.
 *
 * The registry maps each event name to the ordered list of listeners
 * subscribed under it. Subscribe appends a listener to one list; Post
 * builds one Event and hands it to every listener of the posted name, in
 * subscription order. Listeners are foreign closures in Go; here they are
 * opaque identifiers, and Post returns the sequence of calls it makes (the
 * dispatch trace) instead of making them.
 */
module Eventbus {

  /** A payload value. Go stores these as interface{}; the model keeps them opaque. */
  type Value

  /**
   * Go's EventData, a map[string]interface{} that may be nil: Nil is the nil
   * map (the zero value of Event.Data), Entries a map that exists.
   */
  datatype EventData = Nil | Entries(entries: map<string, Value>)

  /** The value handed to every listener of one Post. */
  datatype Event = Event(name: string, data: EventData)

  /** An EventListener, identified rather than called. */
  type ListenerId = nat

  /** One listener invocation made by Post. */
  datatype Call = Call(listener: ListenerId, event: Event)

  /** One completed Subscribe, as recorded in a bus's history. */
  datatype Subscription = Subscription(name: string, listener: ListenerId)

  /** The contents of EventBus.listeners. */
  type Registry = map<string, seq<ListenerId>>

  /** The listeners stored under name, or none when the name has no entry. */
  function ListFor(reg: Registry, name: string): seq<ListenerId>
  {
    if name in reg then reg[name] else []
  }

  /** The identifiers of the listeners called in a trace, in call order. */
  function Receivers(trace: seq<Call>): (ids: seq<ListenerId>)
    ensures |ids| == |trace|
    ensures forall i :: 0 <= i < |trace| ==> ids[i] == trace[i].listener
  {
    seq(|trace|, i requires 0 <= i < |trace| => trace[i].listener)
  }

  /**
   * Every list of 'before' is a prefix of the list of the same name in
   * 'after': no entry vanished, no listener was removed or moved.
   */
  ghost predicate Extends(before: Registry, after: Registry)
  {
    forall n :: n in before ==> n in after && before[n] <= after[n]
  }

  lemma ExtendsTransitive(a: Registry, b: Registry, c: Registry)
    requires Extends(a, b) && Extends(b, c)
    ensures Extends(a, c)
  {
    forall n | n in a
      ensures n in c && a[n] <= c[n]
    {
      assert a[n] <= b[n] && b[n] <= c[n];
    }
  }

  // ---------------------------------------------------------------------
  // Subscribe: the new registry
  // ---------------------------------------------------------------------

  /**
   * The registry after Subscribe(name, listener): the list under name is
   * the previous one (empty if the name was unseen) with the listener
   * appended; duplicates are kept; every other name is untouched.
   */
  function Subscribed(reg: Registry, name: string, listener: ListenerId): (r: Registry)
    ensures r.Keys == reg.Keys + {name}
    ensures r[name] == ListFor(reg, name) + [listener]
    ensures |r[name]| == |ListFor(reg, name)| + 1
    ensures forall n :: n != name ==> ListFor(r, n) == ListFor(reg, n)
    ensures Extends(reg, r)
  {
    reg[name := ListFor(reg, name) + [listener]]
  }

  /** The registry built by a sequence of Subscribe calls on a new bus. */
  function Replay(history: seq<Subscription>): Registry
  {
    if history == [] then map[]
    else
      var last := history[|history| - 1];
      Subscribed(Replay(history[..|history| - 1]), last.name, last.listener)
  }

  /** The listeners subscribed to name in a history, in subscription order. */
  function SubscribersOf(history: seq<Subscription>, name: string): seq<ListenerId>
  {
    if history == [] then []
    else
      var last := history[|history| - 1];
      SubscribersOf(history[..|history| - 1], name)
        + (if last.name == name then [last.listener] else [])
  }

  /**
   * A registry built by Subscribe calls holds, under each name, exactly the
   * listeners subscribed to it, in subscription order, and has an entry for
   * a name exactly when something was subscribed to it.
   */
  lemma {:induction false} ReplayLists(history: seq<Subscription>, name: string)
    ensures ListFor(Replay(history), name) == SubscribersOf(history, name)
    ensures name in Replay(history) <==> SubscribersOf(history, name) != []
  {
    if history != [] {
      ReplayLists(history[..|history| - 1], name);
    }
  }

  /** Later Subscribe calls only append: the registry only ever grows by extension. */
  lemma {:induction false} ReplayAppendOnly(history: seq<Subscription>, more: seq<Subscription>)
    ensures Extends(Replay(history), Replay(history + more))
  {
    if more == [] {
      assert history + more == history;
    } else {
      var all := history + more;
      var init := more[..|more| - 1];
      assert all[..|all| - 1] == history + init;
      ReplayAppendOnly(history, init);
      ExtendsTransitive(Replay(history), Replay(history + init), Replay(all));
    }
  }

  /**
   * A listener is stored under name once per Subscribe(name, listener) in
   * the history: no duplicate is merged and none is lost.
   */
  lemma {:induction false} OncePerSubscription(history: seq<Subscription>, name: string, listener: ListenerId)
    ensures multiset(SubscribersOf(history, name))[listener]
         == multiset(history)[Subscription(name, listener)]
  {
    if history != [] {
      var init := history[..|history| - 1];
      var last := history[|history| - 1];
      assert history == init + [last];
      OncePerSubscription(init, name, listener);
    }
  }

  // ---------------------------------------------------------------------
  // Post: the event and the dispatch trace
  // ---------------------------------------------------------------------

  /**
   * The event Post builds: it carries the posted name, and its data is the
   * payload when exactly one is passed and nil when none or several are.
   */
  function MakeEvent(name: string, data: seq<EventData>): (e: Event)
    ensures e.name == name
    ensures |data| == 1 ==> e.data == data[0]
    ensures |data| != 1 ==> e.data == Nil
  {
    Event(name, if |data| == 1 then data[0] else Nil)
  }

  /** Calling each listener of a list with the same event, front to back. */
  function Trace(list: seq<ListenerId>, e: Event): (t: seq<Call>)
    ensures |t| == |list|
  {
    if list == [] then [] else [Call(list[0], e)] + Trace(list[1..], e)
  }

  /** The k-th call of a trace goes to the k-th listener, with the shared event. */
  lemma {:induction false} TraceAt(list: seq<ListenerId>, e: Event, k: nat)
    requires k < |list|
    ensures Trace(list, e)[k] == Call(list[k], e)
  {
    if k > 0 {
      TraceAt(list[1..], e, k - 1);
    }
  }

  /** One more listener at the end of the list is one more call at the end of the trace. */
  lemma TraceSnoc(list: seq<ListenerId>, x: ListenerId, e: Event)
    ensures Trace(list + [x], e) == Trace(list, e) + [Call(x, e)]
  {
    var l, r := Trace(list + [x], e), Trace(list, e) + [Call(x, e)];
    forall k | 0 <= k < |l|
      ensures l[k] == r[k]
    {
      TraceAt(list + [x], e, k);
      if k < |list| {
        TraceAt(list, e, k);
      }
    }
  }

  /**
   * A trace calls exactly the listeners of the list, each once per
   * occurrence and in list order, and gives every one of them the same event.
   */
  lemma TraceDeliversInOrder(list: seq<ListenerId>, e: Event)
    ensures Receivers(Trace(list, e)) == list
    ensures forall k :: 0 <= k < |list| ==> Trace(list, e)[k].event == e
  {
    forall k | 0 <= k < |list|
      ensures Trace(list, e)[k] == Call(list[k], e)
    {
      TraceAt(list, e, k);
    }
  }

  /**
   * What Post(name, data...) does on a registry: nothing when name has no
   * entry, otherwise one call per stored listener, in stored order, all with
   * the one event built from name and data.
   */
  function Deliveries(reg: Registry, name: string, data: seq<EventData>): (t: seq<Call>)
    ensures name !in reg ==> t == []
    ensures name in reg ==> Receivers(t) == reg[name]
    ensures forall k :: 0 <= k < |t| ==> t[k].event == MakeEvent(name, data)
  {
    if name !in reg then []
    else
      TraceDeliversInOrder(reg[name], MakeEvent(name, data));
      Trace(reg[name], MakeEvent(name, data))
  }

  /**
   * On a bus built by a history of Subscribe calls, Post calls the
   * listeners subscribed to the posted name, in subscription order; with no
   * such subscription it calls nothing.
   */
  lemma {:induction false} PostFollowsHistory(history: seq<Subscription>, name: string, data: seq<EventData>)
    ensures Deliveries(Replay(history), name, data)
         == Trace(SubscribersOf(history, name), MakeEvent(name, data))
    ensures Receivers(Deliveries(Replay(history), name, data)) == SubscribersOf(history, name)
  {
    ReplayLists(history, name);
    TraceDeliversInOrder(SubscribersOf(history, name), MakeEvent(name, data));
  }

  /**
   * Post calls a listener once per Subscribe of that listener to the posted
   * name: exactly once per subscription, duplicates included.
   */
  lemma DeliveredOncePerSubscription(history: seq<Subscription>, name: string,
                                     data: seq<EventData>, listener: ListenerId)
    ensures multiset(Receivers(Deliveries(Replay(history), name, data)))[listener]
         == multiset(history)[Subscription(name, listener)]
  {
    PostFollowsHistory(history, name, data);
    OncePerSubscription(history, name, listener);
  }

  /** No cross-talk: a listener never subscribed to name is not called by Post(name). */
  lemma NoCrossTalk(history: seq<Subscription>, name: string,
                    data: seq<EventData>, listener: ListenerId)
    requires Subscription(name, listener) !in history
    ensures forall k :: 0 <= k < |Deliveries(Replay(history), name, data)| ==>
              Deliveries(Replay(history), name, data)[k].listener != listener
  {
    DeliveredOncePerSubscription(history, name, data, listener);
    var ids := Receivers(Deliveries(Replay(history), name, data));
    assert listener !in ids;
  }

  /** A new bus has no entries, so every Post on it is a silent no-op. */
  lemma NewBusIsSilent(name: string, data: seq<EventData>)
    ensures Replay([]) == map[]
    ensures Deliveries(Replay([]), name, data) == []
  {
  }

  // ---------------------------------------------------------------------
  // The bus itself
  // ---------------------------------------------------------------------

  /** An EventBus: the listener table, updated in place by Subscribe. */
  class EventBus {
    var listeners: Registry
    /** The Subscribe calls made on this bus so far, oldest first. */
    ghost var history: seq<Subscription>

    /** The table is exactly what the recorded Subscribe calls built. */
    ghost predicate Valid()
      reads this
    {
      listeners == Replay(history)
    }

    /** NewEventBus: a bus with an empty table. */
    constructor ()
      ensures Valid()
      ensures listeners == map[] && history == []
    {
      listeners := map[];
      history := [];
    }

    /** Appends listener to the list under name, creating the entry if needed. */
    method Subscribe(name: string, listener: ListenerId)
      requires Valid()
      modifies this
      ensures Valid()
      ensures listeners == Subscribed(old(listeners), name, listener)
      ensures Extends(old(listeners), listeners)
      ensures history == old(history) + [Subscription(name, listener)]
    {
      var list: seq<ListenerId>;
      if name in listeners {
        list := listeners[name];
      } else {
        list := [];
      }
      list := list + [listener];
      listeners := listeners[name := list];
      history := history + [Subscription(name, listener)];
      assert history[..|history| - 1] == old(history);
    }

    /**
     * Builds one event and calls every listener stored under name, in
     * order, over the list as it was when the call began; returns the calls.
     * Post changes nothing: it has no modifies clause.
     */
    method Post(name: string, data: seq<EventData>) returns (trace: seq<Call>)
      requires Valid()
      ensures trace == Deliveries(listeners, name, data)
      ensures trace == Trace(SubscribersOf(history, name), MakeEvent(name, data))
      ensures Receivers(trace) == SubscribersOf(history, name)
      ensures |trace| == |ListFor(listeners, name)|
    {
      if name !in listeners {
        trace := [];
      } else {
        var list := listeners[name];
        var event := MakeEvent(name, data);
        trace := [];
        for i := 0 to |list|
          invariant trace == Trace(list[..i], event)
        {
          TraceSnoc(list[..i], list[i], event);
          assert list[..i + 1] == list[..i] + [list[i]];
          trace := trace + [Call(list[i], event)];
        }
        assert list[..|list|] == list;
      }
      PostFollowsHistory(history, name, data);
    }
  }
}
