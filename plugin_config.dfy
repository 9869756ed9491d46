/**
 * The three module-level settings of the HTMLBars touch-action plugin and
 * `setConfigValues`, which merges a partial override object into them.
 */
module PluginConfig {
  import opened Wrappers

  datatype Config = Config(
    touchActionSelectors: seq<string>,      // tags that are interactive by themselves
    touchActionAttrSelectors: seq<string>,  // enabled detection signals: "action", "click"
    touchActionProperties: string)          // CSS text appended to the style attribute

  /** The values the module starts with. */
  const Defaults := Config(
    ["button", "input", "a", "textarea"],
    ["action", "click"],
    "touch-action: manipulation; -ms-touch-action: manipulation; cursor: pointer;")

  /**
   * The override object. `None` stands for a missing key or any other falsy
   * value; an array (even an empty one) is an object and therefore truthy;
   * a string is truthy unless it is empty.
   */
  datatype Overrides = Overrides(
    touchActionSelectors: Option<seq<string>>,
    touchActionAttrSelectors: Option<seq<string>>,
    touchActionProperties: Option<string>)

  /** `config = config || {}` followed by `x = config.x || x` for each setting. */
  function Merge(current: Config, config: Option<Overrides>): (r: Config)
    // a missing or undefined config changes nothing
    ensures config.None? ==> r == current
    // a list is replaced exactly when the override supplies one, even an empty one
    ensures config.Some? && config.value.touchActionSelectors.Some? ==>
              r.touchActionSelectors == config.value.touchActionSelectors.value
    ensures (config.None? || config.value.touchActionSelectors.None?) ==>
              r.touchActionSelectors == current.touchActionSelectors
    ensures config.Some? && config.value.touchActionAttrSelectors.Some? ==>
              r.touchActionAttrSelectors == config.value.touchActionAttrSelectors.value
    ensures (config.None? || config.value.touchActionAttrSelectors.None?) ==>
              r.touchActionAttrSelectors == current.touchActionAttrSelectors
    // the fragment is replaced exactly when the override is a non-empty string
    ensures config.Some? && config.value.touchActionProperties.Some? && config.value.touchActionProperties.value != "" ==>
              r.touchActionProperties == config.value.touchActionProperties.value
    ensures (config.None? || config.value.touchActionProperties.GetOr("") == "") ==>
              r.touchActionProperties == current.touchActionProperties
  {
    var c := config.GetOr(Overrides(None, None, None));
    Config(
      c.touchActionSelectors.GetOr(current.touchActionSelectors),
      c.touchActionAttrSelectors.GetOr(current.touchActionAttrSelectors),
      if c.touchActionProperties.GetOr("") != "" then c.touchActionProperties.value
      else current.touchActionProperties)
  }

  /** Overriding only the fragment leaves both selector lists as they were. */
  lemma PartialMerge(current: Config, properties: string)
    requires properties != ""
    ensures Merge(current, Some(Overrides(None, None, Some(properties)))) ==
            current.(touchActionProperties := properties)
  {
  }

  /** The module-level variables, updated in place by `setConfigValues`. */
  class ConfigStore {
    var touchActionSelectors: seq<string>
    var touchActionAttrSelectors: seq<string>
    var touchActionProperties: string

    /** The current settings as one value. */
    function Current(): Config
      reads this
    {
      Config(touchActionSelectors, touchActionAttrSelectors, touchActionProperties)
    }

    constructor ()
      ensures Current() == Defaults
    {
      touchActionSelectors := Defaults.touchActionSelectors;
      touchActionAttrSelectors := Defaults.touchActionAttrSelectors;
      touchActionProperties := Defaults.touchActionProperties;
    }

    method SetConfigValues(config: Option<Overrides>)
      modifies this
      ensures Current() == Merge(old(Current()), config)
    {
      var c := if config.Some? then config.value else Overrides(None, None, None);
      if c.touchActionSelectors.Some? {
        touchActionSelectors := c.touchActionSelectors.value;
      }
      if c.touchActionAttrSelectors.Some? {
        touchActionAttrSelectors := c.touchActionAttrSelectors.value;
      }
      if c.touchActionProperties.Some? && c.touchActionProperties.value != "" {
        touchActionProperties := c.touchActionProperties.value;
      }
    }
  }
}
