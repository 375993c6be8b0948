# EventCore: a Dafny model of an in-process event registry

This project models the event registry of a CakePHP plugin extension
(`EventCore` and its `Event` payload object). At start-up the registry looks,
in every plugins path, for a `<plugin>_events.php` file per plugin directory,
constructs the class `<Plugin>Events` it defines, stores the object by class
name, and indexes every method named `on<Something>` under the bare event
`something` (first character lower-cased). `trigger(caller, names, data)`
then takes one event name or a list of them, drops the empty ones, splits
each into an optional `Scope.` prefix (default scope `Global`) and a bare
event, and calls `on<Camelized event>` on every indexed object that is
stored and whose plugin name (the class name minus `Events`) equals the
scope, or on all of them when the scope is `Global`. Each handler gets a
fresh `Event`, an open key/value bag seeded with `name`, `Controller` and
`plugin` and then the payload. Results are collected per plugin name, and
a later handler with the same plugin name overwrites an earlier one. The
outer result is keyed by the full names as given.

The model is purely functional:

- `options.dfy`: `Option`. It stands for reads of undefined keys.
- `strings.dfy`: the string helpers. These are ASCII case mapping, prefix
  test, a plain split on a separator with its inverse `Join`, and
  camel-casing.
- `naming.dfy`: event-name parsing, plugin-name extraction, the handler
  class name of a plugin directory, the handler method of an event, and the
  event of a handler method.
- `event_bag.dfy`: the `Event` bag with its constructor, `__get` and `__set`.
- `registry.dfy`: the object table and the handler index as one immutable
  `Registry` value. It also holds class loading, the method scan and
  discovery, written both as a fold and as the nested loop of the source.
- `dispatch.dfy`: the dispatch loop over an index entry and `trigger`.
- `scenarios.dfy`: a concrete run. A `blog` plugin with `onPostSaved` is
  discovered and `Global.postSaved` is triggered with payload `id = 5`.

Handlers are an abstract function `(HandlerClass, methodName, Event) -> R`
passed as a parameter. So are the caller reference and the payload values
(a type parameter `V`). The filesystem scan is replaced by its outcome: a
list, per plugins path, of `Candidate(pluginDir, fileExists, methods,
constructs)`.

String comparisons are PHP's loose `==`. They are modelled as exact
equality. A plugin name derived from a valid PHP class name is never a
numeric string, and `Global` is not one either.

Two behaviours of the code worth noting:

- The per-handler `Event` carries the bare event name, the caller, the
  plugin name and the payload. It does not carry the scope.
- Names are dropped by the framework's `Set::filter`. On strings it drops
  only the empty string and keeps `"0"`, although `"0"` is falsy in PHP.

## Model

| member | source | states |
|---|---|---|
| Strings.LowerFirst | extensions/events/libs/events.php:174 | only the first character is lower-cased; length and the rest are kept |
| Strings.Split | extensions/events/libs/events.php:133 | at least one token, no token holds the separator, a string without separator is its own single token |
| Strings.JoinSplit | extensions/events/libs/events.php:133 | joining the tokens of a split gives the original string back |
| Strings.SplitJoin | extensions/events/libs/events.php:133 | splitting a join of separator-free tokens gives the tokens back |
| Strings.SplitPrefix | extensions/events/libs/events.php:133 | a separator-free prefix is glued onto the first token of the rest |
| Strings.SplitAtSeparator | extensions/events/libs/events.php:133 | a separator-free prefix followed by the separator becomes its own first token |
| Strings.CamelizeFrom | extensions/events/libs/events.php:81 | camel-casing removes every underscore and space and never lengthens the word |
| Strings.CamelizeAppend | extensions/events/libs/events.php:81 | camel-casing `p_t` is camel-cased `p` followed by camel-cased `t` with a capital initial |
| Strings.CamelizePlain | extensions/events/libs/events.php:152 | a word without breaks is unchanged after its first character |
| Naming.ParseEventName | extensions/events/libs/events.php:129-141 | a name without a dot is the bare event in scope `Global`; scope and event never hold a dot |
| Naming.ParseScoped | extensions/events/libs/events.php:133-140 | `S.e` followed by nothing or further `.tokens` parses to scope `S`, event `e` |
| Naming.ParseDotted | extensions/events/libs/events.php:133-140 | a dotted name starts with `scope.event`, followed by its end or by another dot |
| Naming.ExtractPluginName | extensions/events/libs/events.php:212-215 | the plugin name is a prefix of the class name: without its last six characters from six characters up, the first 2·length−6 characters for 3 to 5 characters, empty below 3 |
| Naming.ShortClassName | extensions/events/libs/events.php:214 | a negative `substr` length keeps `"Bl"` of `"Blog"` |
| Naming.PluginOfClass | extensions/events/libs/events.php:212-215 | the plugin name of `P ++ "Events"` is exactly `P` |
| Naming.EventClassName | extensions/events/libs/events.php:81 | the class of plugin directory `d` is camelized `d` followed by `Events` |
| Naming.EventClassNameShape | extensions/events/libs/events.php:81 | the plugin name of the class of plugin directory `d` is camelized `d` |
| Naming.HandlerMethodName | extensions/events/libs/events.php:150-153 | the handler method starts with `on` and holds no underscore or space after it |
| Naming.IndexKey | extensions/events/libs/events.php:171-174 | a method is indexed exactly when its name starts with `on`, under the rest of its name with only the first character lower-cased |
| Naming.MethodNameRoundTrip | extensions/events/libs/events.php:150-153 | a method `on` + a non-empty word without underscores or spaces is indexed under an event whose handler method is that method again, up to the case of the word's first character |
| Naming.UnderscoreMethodNotReached | extensions/events/libs/events.php:171-175 | `on_saved` is indexed under `_saved`, but dispatch of `_saved` calls `onSaved` |
| EventBag.Read | extensions/events/libs/events.php:265-267 | a key reads as nothing exactly when it was never written, and otherwise as its stored value |
| EventBag.Write | extensions/events/libs/events.php:256-258 | after a write the key reads as the written value and every other key reads as before |
| EventBag.WritePayload | extensions/events/libs/events.php:243-247 | every payload key reads as its payload value, other keys are unchanged |
| EventBag.NewEvent | extensions/events/libs/events.php:238-248 | payload keys read as their values, overriding `name`/`Controller`/`plugin`, which otherwise read as the bare event, the caller and the plugin; nothing else is readable |
| Registry.AddMethod | extensions/events/libs/events.php:169-177 | a method not starting with `on` changes nothing; an `on` method appends the class to its event's entry only |
| Registry.AddHandlers | extensions/events/libs/events.php:161-179 | each entry gains the class once per method handling that event, after its existing classes; other entries are untouched |
| Registry.LoadEventClass | extensions/events/libs/events.php:188-203 | success equals construction success; success stores the object under its class name, failure leaves the table unchanged |
| Registry.LoadCandidate | extensions/events/libs/events.php:80-86 | a plugin whose file is missing or whose class fails to construct changes neither table; otherwise the object constructed for its class is stored under that class, other objects are kept, and the class is appended to its events; well-formedness (indexed classes are stored, objects stored under their own class) is preserved |
| Registry.LoadPlugins | extensions/events/libs/events.php:78-87 | well-formedness is preserved and every index entry only grows at its end |
| Registry.LoadPluginsObjects | extensions/events/libs/events.php:78-87 | after a scan, a class has an object exactly when it had one or some candidate loads as that class |
| Registry.LoadCandidateIndex | extensions/events/libs/events.php:84-85 | one plugin adds its class to an event's entry exactly when it loads and declares a handler for that event |
| Registry.LoadPluginsIndex | extensions/events/libs/events.php:78-87 | after a scan, a class is under an event exactly when it was, or some candidate loads as that class and handles the event |
| Registry.LoadPathsWellFormed | extensions/events/libs/events.php:70-89 | loading any plugins paths keeps every indexed class backed by a stored object |
| Registry.LoadPaths | extensions/events/libs/events.php:70-89 | loading plugins paths in order only appends to index entries |
| Registry.Discover | extensions/events/libs/events.php:24-31 | the registry built at first access is well-formed, whatever discovery finds |
| Registry.DiscoverObjects | extensions/events/libs/events.php:62-90 | after discovery a class is stored exactly when some plugin directory under some path loads as it |
| Registry.DiscoverIndex | extensions/events/libs/events.php:62-90 | after discovery a class is under an event exactly when some plugin directory loads as it and handles that event |
| Registry.LoadEventHandlers | extensions/events/libs/events.php:62-90 | the nested scan over paths and plugin directories builds the discovery registry, which is well-formed |
| Dispatch.SelectedClass | extensions/events/libs/events.php:111-114 | the class of plugin `P` fires exactly when its object is stored and the scope is `Global` or `P` itself |
| Dispatch.InvokeHandler | extensions/events/libs/events.php:117-121 | in a well-formed registry a fired class's handler is called on the object constructed for that class, through `on<Camelized event>`, with a fresh Event of bare event, caller, plugin name and payload |
| Dispatch.DispatchOver | extensions/events/libs/events.php:109-123 | under a scope other than `Global` only the scope itself can become a result key |
| Dispatch.DispatchKeys | extensions/events/libs/events.php:105-123 | the result keys are exactly the plugin names of entry classes that are stored and match the scope |
| Dispatch.DispatchLastWins | extensions/events/libs/events.php:109-121 | the value under a plugin name is the handler result of the last selected class with that plugin name |
| Dispatch.DispatchAppend | extensions/events/libs/events.php:109-123 | dispatch runs in entry order: over a concatenation, the second part's results override the first's |
| Dispatch.DispatchEvent | extensions/events/libs/events.php:100-127 | an event absent from the index yields an empty map; keys are the selected plugin names of its entry |
| Dispatch.ScopedDispatch | extensions/events/libs/events.php:114 | a non-global scope yields at most the key equal to the scope |
| Dispatch.GlobalDispatch | extensions/events/libs/events.php:112-114 | in a well-formed registry the global scope yields the plugin name of every class in the entry |
| Dispatch.FilterNames | extensions/events/libs/events.php:48 | exactly the non-empty names survive; a list without empty names is kept as it is |
| Dispatch.FilterNamesAppend | extensions/events/libs/events.php:48 | filtering distributes over concatenation, so surviving names keep their order |
| Dispatch.DispatchName | extensions/events/libs/events.php:51-52 | a name without a dot is dispatched in scope `Global` as its whole self |
| Dispatch.TriggerOver | extensions/events/libs/events.php:49-53 | one key per name, holding that name's parsed dispatch result |
| Dispatch.Trigger | extensions/events/libs/events.php:41-56 | the keys are exactly the non-empty full names given, scope prefix included, each holding the dispatch of its parsed scope and event |
| Dispatch.TriggerSingle | extensions/events/libs/events.php:43-46 | a single non-empty name yields exactly its own entry, an empty one yields nothing |
| Scenarios.BlogDiscovered | extensions/events/libs/events.php:78-86 | the `blog` plugin with `onPostSaved` is stored as `BlogEvents` and indexed under `postSaved` |
| Scenarios.BlogTriggered | extensions/events/libs/events.php:100-121 | `Global.postSaved` with payload `id = 5` calls `onPostSaved` with name `postSaved`, plugin `Blog`, id 5, filed under `Blog` |

## Left out

- Filesystem discovery is not modelled. This covers `App::path('plugins')`, `Folder::cd/read`, `file_exists` and `App::import`. Its outcome is the input list of `Candidate` values.
- Reflection and dynamic calls are not modelled: `get_class_methods`, `new $className()`, `call_user_func_array`. A class is its name and its method list, and a handler is the abstract `handle` function. Method lookup, including PHP's case-insensitive method names and a missing method, is that function's business.
- `get_class` is taken to return the class name the registry derived. PHP class names are case-insensitive, so a class declared as `blogEvents` would be indexed under a name the object table does not hold.
- `Inflector::camelize` is simplified. It treats `_` and space as word breaks, drops them and ASCII-upper-cases the character after each (and the first). Other whitespace, which `ucwords` also treats as a break, and the inflector's cache are left out.
- `String::tokenize` is a plain split on `.`. Its trimming of tokens and its bracket-aware grouping are left out.
- `Set::filter` is modelled on strings only, where it drops the empty string and keeps `"0"`. Non-string list elements (null, false) have no counterpart.
- The `getInstance` singleton, PHP references and `&new` are not modelled. The registry is an explicit value built by `Discover`/`LoadEventHandlers` and passed to `Trigger`.
- Exceptions thrown by a handler at dispatch time are not modelled. So are handler side effects on the caller object passed by reference.
- Dispatch.Trigger: when every name is filtered out (or an empty list is given), the source returns an undefined `$return` (null with a notice). The model returns an empty map.
- Naming.ExtractPluginName: for a class name of 0 to 2 characters PHP 5's `substr` returns false (PHP 8: `""`). The model gives `""`. Discovered class names always end in `Events`, so this case does not arise from discovery.
- Naming.IndexKey: a method named exactly `on` leaves an empty remainder. Writing to offset 0 of it misbehaves in PHP. The model indexes it under the empty event name.
- EventBag.NewEvent: a payload key named `values` is written inside the constructor, where the protected `values` property is accessible. So it replaces the whole bag instead of going through `__set`. The model treats it like any other key, because the payload value type is abstract.
- EventBag.Read: reading a key never written yields an undefined-index notice and null in PHP. The model yields `None`.
- Result ordering is not modelled. `$return` in `trigger` and `__dispatchEvent` is an ordered PHP array: keys come out in first-write order, and an overwritten key keeps its first position. The model's results are unordered maps, so a caller's `foreach` order is not described.
- PHP converts numeric-string array keys (an event named `5`) to integers. Keys stay strings in the model.
- `plugins/newsletter/newsletter_app_controller.php` is not part of this model. It holds only a helper list and framework callbacks.
- `infinitas/management/controllers/menu_items_controller.php` is not part of this model. It is ORM, session and redirect glue.
