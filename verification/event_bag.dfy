/** The Event value handed to a handler method: an open key/value bag. Every
    attribute write goes into the bag and every attribute read comes from it;
    the constructor seeds it with three fixed fields and then the payload. */
module EventBag {
  import opened Options

  /** A bag entry: a string written by the registry itself, or a value that
      came from the caller (the triggering object or a payload value). */
  datatype Value<V> = Text(text: string) | Ref(ref: V)

  datatype Event<V> = Event(values: map<string, Value<V>>)

  const NameField: string := "name"
  const ControllerField: string := "Controller"
  const PluginField: string := "plugin"

  function EmptyEvent<V>(): Event<V> {
    Event(map[])
  }

  /** Attribute read; a key never written reads as nothing (PHP: an undefined
      index, null with a notice). */
  function Read<V>(e: Event<V>, key: string): (r: Option<Value<V>>)
    ensures r.None? <==> key !in e.values
    ensures r.Some? ==> e.values[key] == r.value
  {
    if key in e.values then Some(e.values[key]) else None
  }

  /** Attribute write: the key now reads as the value, every other key reads
      as before. */
  function Write<V>(e: Event<V>, key: string, v: Value<V>): (r: Event<V>)
    ensures Read(r, key) == Some(v)
    ensures forall k :: k != key ==> Read(r, k) == Read(e, k)
    ensures r.values.Keys == e.values.Keys + {key}
  {
    Event(e.values[key := v])
  }

  /** Writes every payload entry; payload keys are distinct, so the order of
      the writes does not matter. */
  function WritePayload<V>(e: Event<V>, data: map<string, V>): (r: Event<V>)
    ensures forall k :: k in data ==> Read(r, k) == Some(Ref(data[k]))
    ensures forall k :: k !in data ==> Read(r, k) == Read(e, k)
  {
    Event(e.values + map k | k in data :: Ref(data[k]))
  }

  /** The constructor: bare event name, triggering object and plugin name are
      written first, then the payload, so a payload key equal to a fixed
      field's name replaces that field. */
  function NewEvent<V>(name: string, caller: V, plugin: string, data: map<string, V>): (r: Event<V>)
    ensures forall k :: k in data ==> Read(r, k) == Some(Ref(data[k]))
    ensures NameField !in data ==> Read(r, NameField) == Some(Text(name))
    ensures ControllerField !in data ==> Read(r, ControllerField) == Some(Ref(caller))
    ensures PluginField !in data ==> Read(r, PluginField) == Some(Text(plugin))
    ensures forall k :: k !in data && k != NameField && k != ControllerField && k != PluginField
              ==> Read(r, k) == None
    ensures r.values.Keys == data.Keys + {NameField, ControllerField, PluginField}
  {
    var fixed := Write(Write(Write(EmptyEvent(), NameField, Text(name)),
                             ControllerField, Ref(caller)),
                       PluginField, Text(plugin));
    WritePayload(fixed, data)
  }

}
