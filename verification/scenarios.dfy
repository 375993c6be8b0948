/** Worked scenarios of the registry: a blog plugin whose handler class
    declares onPostSaved, discovered and then triggered. */
module Scenarios {
  import opened Options
  import opened Strings
  import opened Naming
  import opened EventBag
  import opened Registry
  import opened Dispatch

  const Blog: Candidate := Candidate("blog", true, ["onPostSaved"], true)

  lemma BlogClass()
    ensures EventClassName("blog") == "BlogEvents"
    ensures ExtractPluginName("BlogEvents") == "Blog"
  {
    assert "blog"[1..] == "log";
    CamelizePlain("log");
    assert Camelize("blog") == "Blog";
    EventClassNameShape("blog");
  }

  lemma PostSavedMethod()
    ensures IndexKey("onPostSaved") == Some("postSaved")
    ensures HandlerMethodName("postSaved") == "onPostSaved"
  {
    MethodNameRoundTrip("PostSaved");
    assert HandlerPrefix + "PostSaved" == "onPostSaved";
    PostSavedKey();
  }

  lemma PostSavedKey()
    ensures LowerFirst("PostSaved") == "postSaved"
  {
    assert LowerFirst("PostSaved") == [ToLower('P')] + "ostSaved";
  }

  const BlogObject: HandlerClass := HandlerClass("BlogEvents", ["onPostSaved"])

  /** The registry expected from the blog plugin alone: its object under
      BlogEvents, and BlogEvents indexed under postSaved. */
  const BlogRegistry: Registry := Registry(map["BlogEvents" := BlogObject], map["postSaved" := ["BlogEvents"]])

  /** Discovering the blog plugin stores its object and indexes its class
      under the bare event postSaved. */
  lemma BlogDiscovered()
    ensures Discover([[Blog]]) == BlogRegistry
  {
    BlogClass();
    PostSavedMethod();
    var paths := [[Blog]];
    assert paths[..0] == [];
    assert LoadPaths(EmptyRegistry, paths[..0]) == EmptyRegistry;
    assert Discover(paths) == LoadPlugins(EmptyRegistry, [Blog]);
    assert [Blog][..0] == [];
    assert LoadPlugins(EmptyRegistry, [Blog]) == LoadCandidate(LoadPlugins(EmptyRegistry, []), Blog);
    var methods := ["onPostSaved"];
    assert methods[..0] == [];
    var index := AddHandlers(map[], "BlogEvents", methods);
    assert index == AddMethod(AddHandlers(map[], "BlogEvents", []), "BlogEvents", "onPostSaved");
    var empty: map<string, seq<string>> := map[];
    assert AddHandlers(empty, "BlogEvents", []) == empty;
    assert Lookup(empty, "postSaved") == [];
    assert AddMethod(empty, "BlogEvents", "onPostSaved") == empty["postSaved" := [] + ["BlogEvents"]];
    assert [] + ["BlogEvents"] == ["BlogEvents"];
    assert index == map["postSaved" := ["BlogEvents"]];
    assert LoadCandidate(EmptyRegistry, Blog)
        == Registry(map["BlogEvents" := HandlerClass("BlogEvents", methods)], index);
  }

  lemma GlobalPostSavedParsed()
    ensures ParseEventName("Global.postSaved") == ParsedName(GlobalScope, "postSaved")
  {
    ParseScoped(GlobalScope, "postSaved", "");
    assert GlobalScope + "." + "postSaved" + "" == "Global.postSaved";
  }

  lemma BlogInvoked<R>(handle: (HandlerClass, string, Event<int>) -> R, caller: int, data: map<string, int>)
    ensures Invoke(BlogRegistry, handle, caller, "postSaved", data, "BlogEvents")
         == handle(BlogObject, "onPostSaved", NewEvent("postSaved", caller, "Blog", data))
  {
    BlogClass();
    PostSavedMethod();
  }

  lemma BlogCollected<R>(handle: (HandlerClass, string, Event<int>) -> R, caller: int, data: map<string, int>)
    ensures DispatchOver(BlogRegistry, handle, caller, GlobalScope, "postSaved", data, ["BlogEvents"])
         == map["Blog" := Invoke(BlogRegistry, handle, caller, "postSaved", data, "BlogEvents")]
  {
    BlogClass();
    assert ["BlogEvents"][..0] == [];
    assert Selected(BlogRegistry, GlobalScope, "BlogEvents");
  }

  lemma BlogDispatchedOn<R>(handle: (HandlerClass, string, Event<int>) -> R, caller: int, data: map<string, int>)
    ensures DispatchName(BlogRegistry, handle, caller, "Global.postSaved", data)
         == map["Blog" := handle(BlogObject, "onPostSaved", NewEvent("postSaved", caller, "Blog", data))]
  {
    GlobalPostSavedParsed();
    assert Lookup(BlogRegistry.index, "postSaved") == ["BlogEvents"];
    BlogCollected(handle, caller, data);
    BlogInvoked(handle, caller, data);
  }

  lemma BlogEventFields(caller: int)
    ensures var e := NewEvent("postSaved", caller, "Blog", map["id" := 5]);
            && Read(e, NameField) == Some(Text("postSaved"))
            && Read(e, PluginField) == Some(Text("Blog"))
            && Read(e, "id") == Some(Ref(5))
  {
    var data := map["id" := 5];
    assert NameField !in data && PluginField !in data;
  }

  /** Triggering Global.postSaved with payload id = 5 calls onPostSaved on
      the blog object with an Event whose name is postSaved, whose plugin is
      Blog and whose id is 5, and files the result under Blog within the
      entry for the full name. */
  lemma BlogTriggered<R>(handle: (HandlerClass, string, Event<int>) -> R, caller: int)
    ensures var data := map["id" := 5];
            var e := NewEvent("postSaved", caller, "Blog", data);
            && Trigger(Discover([[Blog]]), handle, caller, Single("Global.postSaved"), data)
               == map["Global.postSaved" := map["Blog" := handle(BlogObject, "onPostSaved", e)]]
            && Read(e, NameField) == Some(Text("postSaved"))
            && Read(e, PluginField) == Some(Text("Blog"))
            && Read(e, "id") == Some(Ref(5))
  {
    var data := map["id" := 5];
    BlogDiscovered();
    BlogDispatchedOn(handle, caller, data);
    TriggerSingle(BlogRegistry, handle, caller, "Global.postSaved", data);
    BlogEventFields(caller);
  }

}
