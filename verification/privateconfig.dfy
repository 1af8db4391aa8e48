/**
 * How a connection overlays the per-device configuration it fetched from the
 * management API on its own copy of the server configuration
 * (`ConnectionHandler._initialize_private_config`). These functions are the
 * reference the session's imperative method is proved against.
 */
module PrivateConfig {
  import opened Wrappers
  import opened Config

  /** The provider sections a device may override, in the order they are applied. */
  const ModuleSections: seq<string> := ["TTS", "LLM", "VLLM", "Memory", "Intent"]

  /** The plain entries copied over when given. */
  const CopiedEntries: seq<string> := ["prompt", "voiceprint", "summaryMemory"]

  /** `selected_module` of a configuration, when it is a dictionary. */
  function Selection(m: map<string, Value>): map<string, Value> {
    match Get(m, "selected_module", Null)
    case Section(fields) => fields
    case _ => map[]
  }

  /**
   * One provider section: when the device configuration gives `name`, it
   * replaces the section and `selected_module[name]`. `None` when Python
   * raises: the device configuration's `selected_module` has no entry for
   * `name`, or either `selected_module` is not a dictionary.
   */
  function SelectModule(config: map<string, Value>, p: map<string, Value>, name: string): (r: Option<map<string, Value>>)
    requires name != "selected_module"
    ensures !Present(p, name) ==> r == Some(config)
    ensures Present(p, name) ==>
      (r.Some? <==> Get(p, "selected_module", Null).Section? && name in Get(p, "selected_module", Null).fields
                    && Get(config, "selected_module", Null).Section?)
    ensures r.Some? ==> forall k :: k != name && k != "selected_module" ==>
      (k in r.value <==> k in config) && (k in config ==> r.value[k] == config[k])
    ensures r.Some? ==> Get(config, "selected_module", Null).Section? ==> Get(r.value, "selected_module", Null).Section?
    ensures r.Some? && Present(p, name) ==>
      && name in r.value && r.value[name] == p[name]
      && Get(r.value, "selected_module", Null).Section?
      && name in Selection(r.value) && name in Selection(p) && Selection(r.value)[name] == Selection(p)[name]
      && forall m :: m != name ==>
           (m in Selection(r.value) <==> m in Selection(config))
           && (m in Selection(config) ==> Selection(r.value)[m] == Selection(config)[m])
  {
    if !Present(p, name) then Some(config)
    else
      var chosen := Get(p, "selected_module", Null);
      var selected := Get(config, "selected_module", Null);
      if chosen.Section? && name in chosen.fields && selected.Section? then
        Some(config[name := p[name]]["selected_module" := Section(selected.fields[name := chosen.fields[name]])])
      else None
  }

  /** The provider sections applied one after the other; `None` as soon as one raises. */
  function SelectAll(config: map<string, Value>, p: map<string, Value>, names: seq<string>): Option<map<string, Value>>
    requires "selected_module" !in names
    decreases |names|
  {
    if names == [] then Some(config)
    else match SelectModule(config, p, names[0])
      case None => None
      case Some(c) => SelectAll(c, p, names[1..])
  }

  /** `config[key] = p[key]` when the device configuration gives `key`. */
  function CopyIfGiven(config: map<string, Value>, p: map<string, Value>, key: string): (r: map<string, Value>)
    ensures Present(p, key) ==> r == config[key := p[key]]
    ensures !Present(p, key) ==> r == config
  {
    if Present(p, key) then config[key := p[key]] else config
  }

  /** `int(p[key])` when given, else `current`; `None` when `int()` raises. */
  function IntIfGiven(current: int, p: map<string, Value>, key: string): (r: Option<int>)
    ensures !Present(p, key) ==> r == Some(current)
    ensures Present(p, key) ==> r == AsInt(p[key])
  {
    if Present(p, key) then AsInt(p[key]) else Some(current)
  }

  /** The overlaid state: the configuration, `max_output_size` and `chat_history_conf`. */
  datatype Applied = Applied(config: map<string, Value>, maxOutputSize: int, chatHistoryConf: int)

  /** The whole overlay in source order; `None` when any step raises. */
  function Overlay(config: map<string, Value>, p: map<string, Value>, maxOutputSize: int, chatHistoryConf: int): Option<Applied> {
    match SelectAll(config, p, ModuleSections)
    case None => None
    case Some(c) => OverlayEntries(c, p, maxOutputSize, chatHistoryConf)
  }

  /** The overlay after the provider sections: the plain entries, then the two integers. */
  function OverlayEntries(config: map<string, Value>, p: map<string, Value>, maxOutputSize: int, chatHistoryConf: int): Option<Applied> {
    var c := CopyIfGiven(CopyIfGiven(CopyIfGiven(config, p, "prompt"), p, "voiceprint"), p, "summaryMemory");
    match IntIfGiven(maxOutputSize, p, "device_max_output_size")
    case None => None
    case Some(m) =>
      match IntIfGiven(chatHistoryConf, p, "chat_history_conf")
      case None => None
      case Some(h) => Some(Applied(c, m, h))
  }

  /** Which providers must be rebuilt: `init_tts`, `init_llm`, `init_memory`, `init_intent` (a VLLM override rebuilds nothing). */
  datatype InitFlags = InitFlags(llm: bool, tts: bool, memory: bool, intent: bool)

  function FlagsFor(p: map<string, Value>): (r: InitFlags)
    ensures r.tts <==> Present(p, "TTS")
    ensures r.llm <==> Present(p, "LLM")
    ensures r.memory <==> Present(p, "Memory")
    ensures r.intent <==> Present(p, "Intent")
  {
    InitFlags(Present(p, "LLM"), Present(p, "TTS"), Present(p, "Memory"), Present(p, "Intent"))
  }

  /**
   * A successful overlay takes every given provider section, with its
   * selection, from the device; it keeps the server's selection for every
   * provider the device does not override; and it leaves every other entry
   * of the configuration as it was.
   */
  lemma {:induction false} SelectAllTakesGivenSections(config: map<string, Value>, p: map<string, Value>, names: seq<string>)
    requires "selected_module" !in names
    requires Get(config, "selected_module", Null).Section?
    requires SelectAll(config, p, names).Some?
    ensures var r := SelectAll(config, p, names).value;
      && (forall k :: k !in names && k != "selected_module" ==>
            (k in r <==> k in config) && (k in config ==> r[k] == config[k]))
      && Get(r, "selected_module", Null).Section?
      && (forall n :: n in names && Present(p, n) ==>
            n in r && r[n] == p[n] && n in Selection(r) && n in Selection(p) && Selection(r)[n] == Selection(p)[n])
      && (forall m :: m !in names || !Present(p, m) ==>
            (m in Selection(r) <==> m in Selection(config))
            && (m in Selection(config) ==> Selection(r)[m] == Selection(config)[m]))
    decreases |names|
  {
    if names != [] {
      var c := SelectModule(config, p, names[0]).value;
      SelectAllTakesGivenSections(c, p, names[1..]);
    }
  }

  /**
   * With a server `selected_module` dictionary, applying the sections raises
   * exactly when some section is given without its selection.
   */
  lemma {:induction false} SelectAllRaisesIffSelectionMissing(config: map<string, Value>, p: map<string, Value>, names: seq<string>)
    requires "selected_module" !in names
    requires Get(config, "selected_module", Null).Section?
    ensures SelectAll(config, p, names).None? <==> exists n :: n in names && Present(p, n) && n !in Selection(p)
    decreases |names|
  {
    if names != [] {
      var n := names[0];
      if SelectModule(config, p, n).Some? {
        SelectAllRaisesIffSelectionMissing(SelectModule(config, p, n).value, p, names[1..]);
        assert forall m :: m in names <==> m == n || m in names[1..];
      } else {
        assert n in names && Present(p, n) && n !in Selection(p);
      }
    }
  }

  /**
   * The overlay fails exactly when a provider section comes without its
   * selection, or a given `device_max_output_size` or `chat_history_conf`
   * is not an integer; a device configuration with none of the keys read
   * changes nothing.
   */
  lemma OverlayRaisesIff(config: map<string, Value>, p: map<string, Value>, maxOutputSize: int, chatHistoryConf: int)
    requires Get(config, "selected_module", Null).Section?
    ensures Overlay(config, p, maxOutputSize, chatHistoryConf).None? <==>
      || (exists n :: n in ModuleSections && Present(p, n) && n !in Selection(p))
      || (Present(p, "device_max_output_size") && AsInt(p["device_max_output_size"]).None?)
      || (Present(p, "chat_history_conf") && AsInt(p["chat_history_conf"]).None?)
    ensures p == map[] ==> Overlay(config, p, maxOutputSize, chatHistoryConf) == Some(Applied(config, maxOutputSize, chatHistoryConf))
  {
    SelectAllRaisesIffSelectionMissing(config, p, ModuleSections);
    if p == map[] {
      assert SelectAll(config, p, ModuleSections[4..]) == Some(config);
      assert SelectAll(config, p, ModuleSections[3..]) == Some(config);
      assert SelectAll(config, p, ModuleSections[2..]) == Some(config);
      assert SelectAll(config, p, ModuleSections[1..]) == Some(config);
      assert SelectAll(config, p, ModuleSections) == Some(config);
    }
  }
}
