/** Discovery and indexing (EventCore::__loadEventHandlers, __loadEventClass
    and __getAvailableHandlers). The filesystem scan is replaced by its
    outcome: for every plugin directory, whether its events file exists, the
    method names its handler class declares and whether constructing the
    class succeeds. */
module Registry {
  import opened Options
  import opened Naming

  /** A constructed handler object; its identity is its class name. */
  datatype HandlerClass = HandlerClass(name: string, methods: seq<string>)

  /** What the scan finds for one plugin directory. */
  datatype Candidate = Candidate(pluginDir: string, fileExists: bool, methods: seq<string>, constructs: bool)

  /** The object table (class name to handler object) and the handler index
      (bare event name to the classes declaring a handler, in load order). */
  datatype Registry = Registry(objects: map<string, HandlerClass>, index: map<string, seq<string>>)

  const EmptyRegistry: Registry := Registry(map[], map[])

  /** The classes indexed under an event; none for an event never indexed. */
  function Lookup(index: map<string, seq<string>>, event: string): seq<string> {
    if event in index then index[event] else []
  }

  /** Every class the index names has an object in the object table, and
      every object is stored under its own class name. */
  predicate WellFormed(reg: Registry) {
    && (forall event, c :: event in reg.index && c in reg.index[event] ==> c in reg.objects)
    && (forall c :: c in reg.objects ==> reg.objects[c].name == c)
  }

  /** A candidate whose class ends up constructed and stored. */
  predicate Loads(cand: Candidate) {
    cand.fileExists && cand.constructs
  }

  /** The candidate loads and its class is c. */
  predicate LoadsAs(cand: Candidate, c: string) {
    Loads(cand) && EventClassName(cand.pluginDir) == c
  }

  /** The candidate loads as class c and declares a handler for the event. */
  predicate HandlesAs(cand: Candidate, c: string, event: string) {
    LoadsAs(cand, c) && CountKey(cand.methods, event) > 0
  }

  function Repeat(c: string, n: nat): (r: seq<string>)
    ensures |r| == n
    ensures forall i :: 0 <= i < n ==> r[i] == c
  {
    if n == 0 then [] else Repeat(c, n - 1) + [c]
  }

  /** How many of the methods handle the event. */
  function CountKey(methods: seq<string>, event: string): nat {
    if methods == [] then 0
    else CountKey(methods[..|methods| - 1], event)
         + (if IndexKey(methods[|methods| - 1]) == Some(event) then 1 else 0)
  }

  /** One step of the method scan: a handler method appends the class to its
      event's entry; any other method changes nothing. */
  function AddMethod(index: map<string, seq<string>>, c: string, m: string): (r: map<string, seq<string>>)
    ensures IndexKey(m).None? ==> r == index
    ensures forall event :: Lookup(r, event)
              == Lookup(index, event) + (if IndexKey(m) == Some(event) then [c] else [])
  {
    match IndexKey(m)
    case None => index
    case Some(event) => index[event := Lookup(index, event) + [c]]
  }

  /** The method scan of one class: each entry gains the class once per
      method handling that event, after the classes already there; entries
      of other events are untouched. */
  function AddHandlers(index: map<string, seq<string>>, c: string, methods: seq<string>): (r: map<string, seq<string>>)
    ensures forall event :: Lookup(r, event) == Lookup(index, event) + Repeat(c, CountKey(methods, event))
  {
    if methods == [] then index
    else
      var init := methods[..|methods| - 1];
      var m := methods[|methods| - 1];
      var prev := AddHandlers(index, c, init);
      var r := AddMethod(prev, c, m);
      assert forall event :: Lookup(r, event) == Lookup(index, event) + Repeat(c, CountKey(methods, event)) by {
        forall event
          ensures Lookup(r, event) == Lookup(index, event) + Repeat(c, CountKey(methods, event))
        {
          var extra: seq<string> := if IndexKey(m) == Some(event) then [c] else [];
          assert CountKey(methods, event) == CountKey(init, event) + |extra|;
          assert Repeat(c, CountKey(methods, event)) == Repeat(c, CountKey(init, event)) + extra;
          assert Lookup(r, event) == Lookup(prev, event) + extra;
        }
      }
      r
  }

  /** Loading a class: a constructor that throws leaves the table as it was
      and reports failure; otherwise the new object is stored under its class. */
  function LoadEventClass(objects: map<string, HandlerClass>, className: string, methods: seq<string>,
                          constructs: bool): (r: (bool, map<string, HandlerClass>))
    ensures r.0 == constructs
    ensures r.0 ==> r.1 == objects[className := HandlerClass(className, methods)]
    ensures !r.0 ==> r.1 == objects
  {
    if constructs then (true, objects[className := HandlerClass(className, methods)])
    else (false, objects)
  }

  /** The work for one plugin directory: only a class that was stored gets
      its methods indexed, so nothing changes at all unless the file exists
      and the class constructs. */
  function LoadCandidate(reg: Registry, cand: Candidate): (r: Registry)
    ensures !Loads(cand) ==> r == reg
    ensures Loads(cand) ==> r.objects == reg.objects[EventClassName(cand.pluginDir)
                                       := HandlerClass(EventClassName(cand.pluginDir), cand.methods)]
    ensures forall event :: Lookup(r.index, event) == Lookup(reg.index, event)
              + (if Loads(cand) then Repeat(EventClassName(cand.pluginDir), CountKey(cand.methods, event)) else [])
    ensures WellFormed(reg) ==> WellFormed(r)
  {
    var className := EventClassName(cand.pluginDir);
    if !cand.fileExists then reg
    else
      var (ok, objects) := LoadEventClass(reg.objects, className, cand.methods, cand.constructs);
      if ok then
        var r := Registry(objects, AddHandlers(reg.index, objects[className].name, objects[className].methods));
        assert WellFormed(reg) ==> WellFormed(r) by {
          if WellFormed(reg) {
            forall event, c | event in r.index && c in r.index[event]
              ensures c in r.objects
            {
              assert r.index[event] == Lookup(r.index, event);
              assert c in Lookup(reg.index, event) || c == className;
            }
            assert forall c :: c in r.objects ==> r.objects[c].name == c;
          }
        }
        r
      else reg
  }

  /** Loads the plugin directories of one plugins path, in order. */
  function LoadPlugins(reg: Registry, cands: seq<Candidate>): (r: Registry)
    ensures WellFormed(reg) ==> WellFormed(r)
    ensures forall event :: Lookup(reg.index, event) <= Lookup(r.index, event)
  {
    if cands == [] then reg
    else LoadCandidate(LoadPlugins(reg, cands[..|cands| - 1]), cands[|cands| - 1])
  }

  /** The object table after a scan holds the earlier objects plus exactly
      the classes of the candidates that loaded. */
  lemma {:induction false} LoadPluginsObjects(reg: Registry, cands: seq<Candidate>, c: string)
    ensures c in LoadPlugins(reg, cands).objects <==>
              c in reg.objects
              || exists i :: 0 <= i < |cands| && LoadsAs(cands[i], c)
  {
    if cands != [] {
      var init := cands[..|cands| - 1];
      LoadPluginsObjects(reg, init, c);
      assert forall i :: 0 <= i < |init| ==> init[i] == cands[i];
      if exists i :: 0 <= i < |cands| && LoadsAs(cands[i], c) {
        var i :| 0 <= i < |cands| && LoadsAs(cands[i], c);
        if i < |init| {
          assert init[i] == cands[i];
        }
      }
    }
  }

  /** A class is indexed under an event after a scan exactly when it already
      was, or it is the class of a candidate that loaded and declares a
      handler method for that event. */
  lemma {:induction false} LoadPluginsIndex(reg: Registry, cands: seq<Candidate>, event: string, c: string)
    ensures c in Lookup(LoadPlugins(reg, cands).index, event) <==>
              c in Lookup(reg.index, event)
              || exists i :: 0 <= i < |cands| && HandlesAs(cands[i], c, event)
  {
    if cands != [] {
      var init := cands[..|cands| - 1];
      var last := cands[|cands| - 1];
      assert cands == init + [last];
      assert LoadPlugins(reg, cands) == LoadCandidate(LoadPlugins(reg, init), last);
      LoadPluginsIndex(reg, init, event, c);
      LoadCandidateIndex(LoadPlugins(reg, init), last, event, c);
      HandlesSplit(cands, init, last, event, c);
    }
  }

  /** One plugin directory adds its class to an event's entry exactly when
      it loads and handles the event. */
  lemma LoadCandidateIndex(reg: Registry, cand: Candidate, event: string, c: string)
    ensures c in Lookup(LoadCandidate(reg, cand).index, event) <==>
              c in Lookup(reg.index, event) || HandlesAs(cand, c, event)
  {
    var added := if Loads(cand) then Repeat(EventClassName(cand.pluginDir), CountKey(cand.methods, event)) else [];
    assert Lookup(LoadCandidate(reg, cand).index, event) == Lookup(reg.index, event) + added;
    if Loads(cand) {
      if c in added {
        var j :| 0 <= j < |added| && added[j] == c;
      }
      if HandlesAs(cand, c, event) {
        assert added[0] == c;
      }
    }
  }

  lemma HandlesSplit(cands: seq<Candidate>, init: seq<Candidate>, last: Candidate, event: string, c: string)
    requires cands == init + [last]
    ensures (exists i :: 0 <= i < |cands| && HandlesAs(cands[i], c, event)) <==>
              (exists i :: 0 <= i < |init| && HandlesAs(init[i], c, event)) || HandlesAs(last, c, event)
  {
    if i :| 0 <= i < |cands| && HandlesAs(cands[i], c, event) {
      if i < |init| {
        assert init[i] == cands[i];
      }
    }
    if i :| 0 <= i < |init| && HandlesAs(init[i], c, event) {
      assert cands[i] == init[i];
    }
    assert cands[|init|] == last;
  }

  /** Loads every plugins path in order; index entries only grow at their end. */
  function LoadPaths(reg: Registry, paths: seq<seq<Candidate>>): (r: Registry)
    ensures forall event :: Lookup(reg.index, event) <= Lookup(r.index, event)
  {
    if paths == [] then reg
    else LoadPlugins(LoadPaths(reg, paths[..|paths| - 1]), paths[|paths| - 1])
  }

  lemma {:induction false} LoadPathsWellFormed(reg: Registry, paths: seq<seq<Candidate>>)
    requires WellFormed(reg)
    ensures WellFormed(LoadPaths(reg, paths))
  {
    if paths != [] {
      LoadPathsWellFormed(reg, paths[..|paths| - 1]);
    }
  }

  /** The registry discovery builds, starting from empty tables; it is
      well-formed whatever the scan finds. */
  function Discover(paths: seq<seq<Candidate>>): (r: Registry)
    ensures WellFormed(r)
  {
    LoadPathsWellFormed(EmptyRegistry, paths);
    LoadPaths(EmptyRegistry, paths)
  }

  /** After discovery a class has an object exactly when some plugin
      directory, under some plugins path, yields that class and loads. */
  lemma {:induction false} DiscoverObjects(paths: seq<seq<Candidate>>, c: string)
    ensures c in Discover(paths).objects <==>
              exists p, i :: 0 <= p < |paths| && 0 <= i < |paths[p]|
                             && LoadsAs(paths[p][i], c)
  {
    if paths != [] {
      var init := paths[..|paths| - 1];
      var last := paths[|paths| - 1];
      DiscoverObjects(init, c);
      LoadPluginsObjects(Discover(init), last, c);
      assert forall p :: 0 <= p < |init| ==> init[p] == paths[p];
      if exists p, i :: 0 <= p < |paths| && 0 <= i < |paths[p]|
                        && LoadsAs(paths[p][i], c) {
        var p, i :| 0 <= p < |paths| && 0 <= i < |paths[p]|
                    && LoadsAs(paths[p][i], c);
        if p < |init| {
          assert init[p][i] == paths[p][i];
        }
      }
    }
  }

  /** After discovery a class is indexed under an event exactly when some
      plugin directory yields that class, loads, and declares a handler
      method for the event. */
  lemma {:induction false} DiscoverIndex(paths: seq<seq<Candidate>>, event: string, c: string)
    ensures c in Lookup(Discover(paths).index, event) <==>
              exists p, i :: 0 <= p < |paths| && 0 <= i < |paths[p]| && HandlesAs(paths[p][i], c, event)
  {
    if paths != [] {
      var init := paths[..|paths| - 1];
      var last := paths[|paths| - 1];
      assert paths == init + [last];
      assert Discover(paths) == LoadPlugins(Discover(init), last);
      DiscoverIndex(init, event, c);
      LoadPluginsIndex(Discover(init), last, event, c);
      PathsSplit(paths, init, last, event, c);
    }
  }

  lemma PathsSplit(paths: seq<seq<Candidate>>, init: seq<seq<Candidate>>, last: seq<Candidate>,
                   event: string, c: string)
    requires paths == init + [last]
    ensures (exists p, i :: 0 <= p < |paths| && 0 <= i < |paths[p]| && HandlesAs(paths[p][i], c, event)) <==>
              (exists p, i :: 0 <= p < |init| && 0 <= i < |init[p]| && HandlesAs(init[p][i], c, event))
              || (exists i :: 0 <= i < |last| && HandlesAs(last[i], c, event))
  {
    if p, i :| 0 <= p < |paths| && 0 <= i < |paths[p]| && HandlesAs(paths[p][i], c, event) {
      if p < |init| {
        assert init[p][i] == paths[p][i];
      } else {
        assert last[i] == paths[p][i];
      }
    }
    if p, i :| 0 <= p < |init| && 0 <= i < |init[p]| && HandlesAs(init[p][i], c, event) {
      assert paths[p][i] == init[p][i];
    }
    if i :| 0 <= i < |last| && HandlesAs(last[i], c, event) {
      assert paths[|init|][i] == last[i];
    }
  }

  /** The nested scan over plugins paths and the plugin directories found
      under each. */
  method LoadEventHandlers(pluginPaths: seq<seq<Candidate>>) returns (reg: Registry)
    ensures reg == Discover(pluginPaths)
    ensures WellFormed(reg)
  {
    reg := EmptyRegistry;
    var i := 0;
    while i < |pluginPaths|
      invariant 0 <= i <= |pluginPaths|
      invariant reg == LoadPaths(EmptyRegistry, pluginPaths[..i])
      invariant WellFormed(reg)
    {
      var plugins := pluginPaths[i];
      ghost var start := reg;
      var j := 0;
      while j < |plugins|
        invariant 0 <= j <= |plugins|
        invariant reg == LoadPlugins(start, plugins[..j])
        invariant WellFormed(reg)
      {
        reg := LoadCandidate(reg, plugins[j]);
        assert plugins[..j + 1][..j] == plugins[..j];
        j := j + 1;
      }
      assert plugins[..j] == plugins;
      assert pluginPaths[..i + 1][..i] == pluginPaths[..i];
      i := i + 1;
    }
    assert pluginPaths[..i] == pluginPaths;
  }

}
