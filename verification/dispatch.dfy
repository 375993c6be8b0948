/** Dispatch and trigger (EventCore::__dispatchEvent and EventCore::trigger).
    A handler method is an abstract function of the handler object, the
    method name and the Event it is given; its result is what dispatch
    collects. */
module Dispatch {
  import opened Naming
  import opened EventBag
  import opened Registry

  /** The handler of class c fires: its object is stored, and the scope is
      global or is exactly the class's plugin name. */
  predicate Selected(reg: Registry, scope: string, c: string) {
    c in reg.objects && (scope == GlobalScope || scope == ExtractPluginName(c))
  }

  /** Calls the event's handler method on the object of class c with a fresh
      Event carrying the bare event name, the caller, the plugin and the
      payload. */
  function Invoke<V, R>(reg: Registry, handle: (HandlerClass, string, Event<V>) -> R, caller: V,
                        event: string, data: map<string, V>, c: string): R
    requires c in reg.objects
  {
    handle(reg.objects[c], HandlerMethodName(event), NewEvent(event, caller, ExtractPluginName(c), data))
  }

  /** The class of plugin P fires exactly when its object is stored and the
      scope is global or is P itself. */
  lemma SelectedClass(reg: Registry, scope: string, plugin: string)
    ensures Selected(reg, scope, plugin + ClassSuffix)
            <==> plugin + ClassSuffix in reg.objects && (scope == GlobalScope || scope == plugin)
  {
    PluginOfClass(plugin);
  }

  /** In a well-formed registry a fired handler is called on the object
      constructed for its own class, through the event's handler method. */
  lemma InvokeHandler<V, R>(reg: Registry, handle: (HandlerClass, string, Event<V>) -> R, caller: V,
                            event: string, data: map<string, V>, c: string)
    requires WellFormed(reg) && c in reg.objects
    ensures Invoke(reg, handle, caller, event, data, c)
            == handle(HandlerClass(c, reg.objects[c].methods), HandlerMethodName(event),
                      NewEvent(event, caller, ExtractPluginName(c), data))
  {
  }

  /** No selected class after position i shares its plugin name. */
  ghost predicate LastFor(reg: Registry, scope: string, cs: seq<string>, i: int)
    requires 0 <= i < |cs|
  {
    forall j :: i < j < |cs| && Selected(reg, scope, cs[j]) ==> ExtractPluginName(cs[j]) != ExtractPluginName(cs[i])
  }

  /** The loop over an index entry, in entry order; under a scope other
      than the global one only the scope itself can become a key. */
  function DispatchOver<V, R>(reg: Registry, handle: (HandlerClass, string, Event<V>) -> R, caller: V,
                              scope: string, event: string, data: map<string, V>, cs: seq<string>)
    : (r: map<string, R>)
    ensures forall p :: p in r ==> scope == GlobalScope || p == scope
  {
    if cs == [] then map[]
    else
      Collect(reg, handle, caller, scope, event, data,
              DispatchOver(reg, handle, caller, scope, event, data, cs[..|cs| - 1]), cs[|cs| - 1])
  }

  /** The result has one key per plugin name of a selected class. */
  lemma {:induction false} DispatchKeys<V, R>(reg: Registry, handle: (HandlerClass, string, Event<V>) -> R,
                                               caller: V, scope: string, event: string, data: map<string, V>,
                                               cs: seq<string>)
    ensures DispatchOver(reg, handle, caller, scope, event, data, cs).Keys
         == set c | c in cs && Selected(reg, scope, c) :: ExtractPluginName(c)
  {
    if cs != [] {
      var init := cs[..|cs| - 1];
      DispatchKeys(reg, handle, caller, scope, event, data, init);
      assert cs == init + [cs[|cs| - 1]];
    }
  }

  /** Last write wins: the value under a plugin name is the result of the
      last selected class with that plugin name. */
  lemma {:induction false} DispatchLastWins<V, R>(reg: Registry, handle: (HandlerClass, string, Event<V>) -> R,
                                                   caller: V, scope: string, event: string, data: map<string, V>,
                                                   cs: seq<string>, i: int)
    requires 0 <= i < |cs| && Selected(reg, scope, cs[i]) && LastFor(reg, scope, cs, i)
    ensures var r := DispatchOver(reg, handle, caller, scope, event, data, cs);
            ExtractPluginName(cs[i]) in r && r[ExtractPluginName(cs[i])] == Invoke(reg, handle, caller, event, data, cs[i])
  {
    var init := cs[..|cs| - 1];
    var c := cs[|cs| - 1];
    if i < |cs| - 1 {
      assert init[i] == cs[i];
      assert LastFor(reg, scope, init, i) by {
        forall j | i < j < |init| && Selected(reg, scope, init[j])
          ensures ExtractPluginName(init[j]) != ExtractPluginName(init[i])
        {
          assert init[j] == cs[j];
        }
      }
      DispatchLastWins(reg, handle, caller, scope, event, data, init, i);
      if Selected(reg, scope, c) {
        assert ExtractPluginName(c) != ExtractPluginName(cs[i]);
      }
    }
  }

  /** One iteration of the dispatch loop: a selected class stores its
      handler's result under its plugin name, replacing an earlier one. */
  function Collect<V, R>(reg: Registry, handle: (HandlerClass, string, Event<V>) -> R, caller: V,
                         scope: string, event: string, data: map<string, V>, prev: map<string, R>, c: string)
    : map<string, R>
  {
    if Selected(reg, scope, c) then prev[ExtractPluginName(c) := Invoke(reg, handle, caller, event, data, c)]
    else prev
  }

  /** Dispatching one bare event within a scope over the classes indexed
      under it; an event nothing is indexed under yields no results. */
  function DispatchEvent<V, R>(reg: Registry, handle: (HandlerClass, string, Event<V>) -> R, caller: V,
                               scope: string, event: string, data: map<string, V>): (r: map<string, R>)
    ensures event !in reg.index ==> r == map[]
    ensures r.Keys == set c | c in Lookup(reg.index, event) && Selected(reg, scope, c) :: ExtractPluginName(c)
  {
    DispatchKeys(reg, handle, caller, scope, event, data, Lookup(reg.index, event));
    DispatchOver(reg, handle, caller, scope, event, data, Lookup(reg.index, event))
  }

  /** Order matters only through overwriting: dispatching over a
      concatenation is the first part's result overridden by the second's. */
  lemma {:induction false} DispatchAppend<V, R>(reg: Registry, handle: (HandlerClass, string, Event<V>) -> R,
                                                 caller: V, scope: string, event: string, data: map<string, V>,
                                                 cs1: seq<string>, cs2: seq<string>)
    ensures DispatchOver(reg, handle, caller, scope, event, data, cs1 + cs2)
         == DispatchOver(reg, handle, caller, scope, event, data, cs1)
          + DispatchOver(reg, handle, caller, scope, event, data, cs2)
  {
    if cs2 == [] {
      assert cs1 + cs2 == cs1;
    } else {
      var init2 := cs2[..|cs2| - 1];
      var c := cs2[|cs2| - 1];
      var cs := cs1 + cs2;
      assert cs[..|cs| - 1] == cs1 + init2;
      assert cs[|cs| - 1] == c;
      DispatchAppend(reg, handle, caller, scope, event, data, cs1, init2);
      var m1 := DispatchOver(reg, handle, caller, scope, event, data, cs1);
      var m2 := DispatchOver(reg, handle, caller, scope, event, data, init2);
      if Selected(reg, scope, c) {
        UpdateUnion(m1, m2, ExtractPluginName(c), Invoke(reg, handle, caller, event, data, c));
      }
    }
  }

  lemma UpdateUnion<K, T>(m1: map<K, T>, m2: map<K, T>, k: K, v: T)
    ensures (m1 + m2)[k := v] == m1 + m2[k := v]
  {
  }

  /** A scoped event reaches at most the plugin the scope names. */
  lemma ScopedDispatch<V, R>(reg: Registry, handle: (HandlerClass, string, Event<V>) -> R, caller: V,
                             scope: string, event: string, data: map<string, V>)
    requires scope != GlobalScope
    ensures DispatchEvent(reg, handle, caller, scope, event, data).Keys <= {scope}
  {
  }

  /** In the global scope of a well-formed registry every class indexed
      under the event contributes its plugin name. */
  lemma GlobalDispatch<V, R>(reg: Registry, handle: (HandlerClass, string, Event<V>) -> R, caller: V,
                             event: string, data: map<string, V>)
    requires WellFormed(reg)
    ensures DispatchEvent(reg, handle, caller, GlobalScope, event, data).Keys
         == set c | c in Lookup(reg.index, event) :: ExtractPluginName(c)
  {
    forall c | c in Lookup(reg.index, event)
      ensures Selected(reg, GlobalScope, c)
    {
      assert event in reg.index && c in reg.index[event];
    }
  }

  /** The event names given to trigger: a single name or a list. */
  datatype EventNames = Single(name: string) | Names(names: seq<string>)

  /** A single name is treated as a one-element list. */
  function NameList(names: EventNames): seq<string> {
    match names
    case Single(n) => [n]
    case Names(ns) => ns
  }

  /** Drops the empty names and keeps the others in order. */
  function FilterNames(names: seq<string>): (r: seq<string>)
    ensures forall n :: n in r <==> n in names && n != ""
    ensures |r| <= |names|
    ensures (forall i :: 0 <= i < |names| ==> names[i] != "") ==> r == names
  {
    if names == [] then []
    else
      var init := FilterNames(names[..|names| - 1]);
      var n := names[|names| - 1];
      assert names == names[..|names| - 1] + [n];
      if n == "" then init else init + [n]
  }

  /** Filtering distributes over concatenation, so the surviving names keep
      their relative order. */
  lemma {:induction false} FilterNamesAppend(a: seq<string>, b: seq<string>)
    ensures FilterNames(a + b) == FilterNames(a) + FilterNames(b)
  {
    if b == [] {
      assert a + b == a;
    } else {
      var init := b[..|b| - 1];
      assert (a + b)[..|a + b| - 1] == a + init;
      assert (a + b)[|a + b| - 1] == b[|b| - 1];
      FilterNamesAppend(a, init);
    }
  }

  /** Dispatches a full event name: parses scope and bare event, then
      dispatches the bare event within the scope; a name without a dot is
      dispatched globally under its whole self. */
  function DispatchName<V, R>(reg: Registry, handle: (HandlerClass, string, Event<V>) -> R, caller: V,
                              name: string, data: map<string, V>): (r: map<string, R>)
    ensures '.' !in name ==> r == DispatchEvent(reg, handle, caller, GlobalScope, name, data)
  {
    var p := ParseEventName(name);
    DispatchEvent(reg, handle, caller, p.scope, p.event, data)
  }

  /** The loop of trigger over names already filtered: one key per name,
      holding that name's dispatch result. */
  function TriggerOver<V, R>(reg: Registry, handle: (HandlerClass, string, Event<V>) -> R, caller: V,
                             names: seq<string>, data: map<string, V>): (r: map<string, map<string, R>>)
    ensures r.Keys == set n | n in names
    ensures forall n :: n in r ==> r[n] == DispatchName(reg, handle, caller, n, data)
  {
    if names == [] then map[]
    else
      var init := names[..|names| - 1];
      var n := names[|names| - 1];
      assert names == init + [n];
      TriggerOver(reg, handle, caller, init, data)[n := DispatchName(reg, handle, caller, n, data)]
  }

  /** trigger: the result is keyed by the full names given (scope prefix
      included), exactly the non-empty ones, each holding the dispatch
      result of that name. */
  function Trigger<V, R>(reg: Registry, handle: (HandlerClass, string, Event<V>) -> R, caller: V,
                         names: EventNames, data: map<string, V>): (r: map<string, map<string, R>>)
    ensures r.Keys == set n | n in NameList(names) && n != ""
    ensures forall n :: n in r ==> r[n] == DispatchName(reg, handle, caller, n, data)
  {
    TriggerOver(reg, handle, caller, FilterNames(NameList(names)), data)
  }

  /** A single name behaves as a one-element list: a non-empty name gets
      exactly its own entry, an empty one yields nothing. */
  lemma TriggerSingle<V, R>(reg: Registry, handle: (HandlerClass, string, Event<V>) -> R, caller: V,
                            name: string, data: map<string, V>)
    ensures name != "" ==> Trigger(reg, handle, caller, Single(name), data)
                           == map[name := DispatchName(reg, handle, caller, name, data)]
    ensures name == "" ==> Trigger(reg, handle, caller, Single(name), data) == map[]
  {
    var r := Trigger(reg, handle, caller, Single(name), data);
    if name != "" {
      assert r.Keys == {name};
    } else {
      assert r.Keys == {};
    }
  }

}
