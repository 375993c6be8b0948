/** The naming conventions of the event registry (EventCore): how an event
    name splits into scope and bare event, how a plugin name is recovered from
    its handler class, which handler method serves an event and which event a
    handler method serves. */
module Naming {
  import opened Options
  import opened Strings

  /** The scope that lets every plugin's handler fire. */
  const GlobalScope: string := "Global"

  /** The fixed suffix of every handler class name. */
  const ClassSuffix: string := "Events"

  /** The prefix of every handler method name. */
  const HandlerPrefix: string := "on"

  datatype ParsedName = ParsedName(scope: string, event: string)

  /** Splits an event name on '.': a single token is a bare event in the
      global scope; otherwise the first token is the scope and the second the
      bare event, and any further tokens are ignored. */
  function ParseEventName(name: string): (p: ParsedName)
    ensures '.' !in name ==> p == ParsedName(GlobalScope, name)
    ensures '.' !in p.scope && '.' !in p.event
  {
    var tokens := Split(name, '.');
    if |tokens| > 1 then ParsedName(tokens[0], tokens[1])
    else ParsedName(GlobalScope, tokens[0])
  }

  /** A dotted name is scope, dot, bare event, and then either nothing or
      more dot-separated tokens that play no part. */
  lemma ParseScoped(scope: string, event: string, rest: string)
    requires '.' !in scope && '.' !in event
    requires rest == [] || rest[0] == '.'
    ensures ParseEventName(scope + "." + event + rest) == ParsedName(scope, event)
  {
    assert scope + "." + event + rest == scope + ['.'] + (event + rest);
    SplitAtSeparator(scope, event + rest, '.');
    SplitPrefix(event, rest, '.');
    if rest != [] {
      assert rest == [] + ['.'] + rest[1..];
      SplitAtSeparator([], rest[1..], '.');
    }
    assert Split(rest, '.')[0] == "";
    assert event + "" == event;
  }

  /** Conversely, a name holding a dot starts with the parsed scope, a dot and
      the parsed bare event, followed by nothing or by a further dot. */
  lemma ParseDotted(name: string)
    requires '.' in name
    ensures var p := ParseEventName(name);
      var n := |p.scope| + 1 + |p.event|;
      && n <= |name|
      && name[..n] == p.scope + "." + p.event
      && (n == |name| || name[n] == '.')
  {
    var tokens := Split(name, '.');
    JoinSplit(name, '.');
    assert |tokens| > 1;
    var tail := Join(tokens[1..], '.');
    assert name == tokens[0] + "." + tail;
    assert tokens[1..][0] == tokens[1];
    if |tokens| == 2 {
      assert tail == tokens[1];
    } else {
      assert tail == tokens[1] + "." + Join(tokens[2..], '.') by {
        assert tokens[1..][1..] == tokens[2..];
      }
    }
  }

  /** The plugin name of a handler class: PHP's substr with length
      |className| - 6. For six characters or more this drops the last six;
      a negative length drops that many characters from the end instead, so
      a name of 3 to 5 characters keeps its first 2 * |className| - 6, and a
      shorter one gives the empty string. */
  function ExtractPluginName(className: string): (p: string)
    ensures |className| >= |ClassSuffix| ==> |p| == |className| - |ClassSuffix|
    ensures 3 <= |className| < |ClassSuffix| ==> |p| == |className| - (|ClassSuffix| - |className|)
    ensures |className| < 3 ==> p == ""
    ensures p + className[|p|..] == className
  {
    if |className| >= 6 then className[..|className| - 6]
    else if |className| >= 3 then className[..2 * |className| - 6]
    else ""
  }

  /** A class name shorter than the suffix loses only 6 - |className|
      characters from its end. */
  lemma ShortClassName()
    ensures ExtractPluginName("Blog") == "Bl"
  {
    assert "Blog"[..2] == "Bl";
  }

  lemma PluginOfClass(plugin: string)
    ensures ExtractPluginName(plugin + ClassSuffix) == plugin
  {
    assert (plugin + ClassSuffix)[..|plugin|] == plugin;
  }

  /** The handler class a plugin directory is expected to define. */
  function EventClassName(pluginDir: string): (c: string)
    ensures c == Camelize(pluginDir) + ClassSuffix
  {
    CamelizeAppend(pluginDir, "events", true);
    assert pluginDir + "_events" == pluginDir + "_" + "events";
    CamelizedSuffix();
    Camelize(pluginDir + "_events")
  }

  /** The class of plugin directory d is the camel-cased d followed by the
      suffix, so its plugin name is the camel-cased directory name. */
  lemma EventClassNameShape(pluginDir: string)
    ensures ExtractPluginName(EventClassName(pluginDir)) == Camelize(pluginDir)
  {
    PluginOfClass(Camelize(pluginDir));
  }

  lemma CamelizedSuffix()
    ensures CamelizeFrom("events", true) == ClassSuffix
  {
    var w := "events";
    assert w[0] == 'e' && !IsWordBreak(w[0]);
    assert w[1..] == "vents";
    CamelizePlain("vents");
    assert ToUpper('e') == 'E';
    assert CamelizeFrom(w, true) == ['E'] + CamelizeFrom("vents", false);
  }

  /** The handler method invoked for a bare event name: "on" followed by
      the camel-cased event, which holds no underscore or space. */
  function HandlerMethodName(event: string): (m: string)
    ensures HasPrefix(m, HandlerPrefix) && |m| <= |HandlerPrefix| + |event|
    ensures forall i :: |HandlerPrefix| <= i < |m| ==> !IsWordBreak(m[i])
  {
    var m := HandlerPrefix + Camelize(event);
    assert m[..2] == HandlerPrefix;
    assert forall i :: 2 <= i < |m| ==> m[i] == Camelize(event)[i - 2];
    m
  }

  /** The bare event a method handles: for a name starting with "on", the
      rest of the name with its first character lower-cased; no event for any
      other method. */
  function IndexKey(methodName: string): (k: Option<string>)
    ensures k.Some? <==> HasPrefix(methodName, HandlerPrefix)
    ensures k.Some? ==> |k.value| == |methodName| - 2
    ensures k.Some? && |k.value| > 0 ==> k.value[0] == ToLower(methodName[2]) && k.value[1..] == methodName[3..]
  {
    if HasPrefix(methodName, HandlerPrefix) then Some(LowerFirst(methodName[2..]))
    else None
  }

  /** A handler method named "on" + a word without underscores or spaces
      is indexed under an event whose handler method is that method again; a
      lower-case initial comes back capitalised, which names the same method
      under PHP's case-insensitive method lookup. */
  lemma MethodNameRoundTrip(word: string)
    requires |word| > 0
    requires forall i :: 0 <= i < |word| ==> !IsWordBreak(word[i])
    ensures IndexKey(HandlerPrefix + word).Some?
    ensures HandlerMethodName(IndexKey(HandlerPrefix + word).value)
         == HandlerPrefix + [ToUpper(word[0])] + word[1..]
    ensures IsUpper(word[0]) ==>
      HandlerMethodName(IndexKey(HandlerPrefix + word).value) == HandlerPrefix + word
  {
    var m := HandlerPrefix + word;
    assert m[..2] == HandlerPrefix;
    assert m[2..] == word;
    assert IndexKey(m) == Some(LowerFirst(word));
    CamelizeLowerFirst(word);
    if IsUpper(word[0]) {
      assert [ToUpper(word[0])] + word[1..] == word;
    }
  }

  /** A method whose name has an underscore right after "on" is indexed, but
      dispatch asks for a differently spelled method. */
  lemma UnderscoreMethodNotReached()
    ensures IndexKey("on_saved") == Some("_saved")
    ensures HandlerMethodName("_saved") == "onSaved"
  {
    var m := "on_saved";
    assert HasPrefix(m, HandlerPrefix) by { assert m[..2] == HandlerPrefix; }
    assert m[2..] == "_saved";
    assert "_saved"[1..] == "saved";
    assert LowerFirst("_saved") == [ToLower('_')] + "saved";
    assert [ToLower('_')] + "saved" == "_saved";
    CamelizePlain("aved");
    assert "_saved"[1..] == "saved" && "saved"[1..] == "aved";
  }

}
