/**
 * `TouchActionSupport.prototype.validate`: whether a node is an interactive
 * element. The body follows the JavaScript step by step (truthiness,
 * `indexOf`, `===`); its contract states the resulting decision rule as three
 * declarative signals.
 */
module PluginClassifier {
  import opened Wrappers
  import opened Js
  import opened PluginConfig
  import opened PluginAst

  /** The input types listed in the `input` refinement. */
  const InputTypes := ["button", "submit", "text", "file"]

  /** An `onclick` attribute is present (any value, even ""), and "click" is enabled. */
  ghost predicate ClickSignal(cfg: Config, node: Node)
    requires node.ElementNode?
  {
    "click" in cfg.touchActionAttrSelectors &&
    exists i :: 0 <= i < |node.attributes| && node.attributes[i].name == "onclick"
  }

  /**
   * The first modifier whose normalised path is "action" exists and carries
   * no `on` pair at all. Every `on` pair, `on="click"` included,
   * disqualifies it: the code compares the pair object with the string
   * "click", which is never strictly equal.
   */
  ghost predicate ActionWithoutOn(node: Node)
    requires node.ElementNode? && WellFormed(node)
  {
    var mods := ModifierList(node);
    exists k :: 0 <= k < |mods| && Sexpr(mods[k]).pathOriginal == "action" &&
      (forall j :: 0 <= j < k ==> Sexpr(mods[j]).pathOriginal != "action") &&
      (forall p :: 0 <= p < |Sexpr(mods[k]).pairs| ==> Sexpr(mods[k]).pairs[p].key != "on")
  }

  /** The action modifier qualifies and "action" is enabled. */
  ghost predicate ActionSignal(cfg: Config, node: Node)
    requires node.ElementNode? && WellFormed(node)
  {
    "action" in cfg.touchActionAttrSelectors && ActionWithoutOn(node)
  }

  /**
   * The tag is a configured selector other than `input`, whatever the
   * attribute selectors are. An `input` never qualifies: the code looks the
   * AttrNode (or `false`) up in a list of strings, which never finds it.
   */
  ghost predicate TagSignal(cfg: Config, node: Node)
    requires node.ElementNode?
  {
    node.tag in cfg.touchActionSelectors && node.tag != "input"
  }

  /** `hasAction` before the selector gate: `modifier && (!onValue || onValue === 'click')`. */
  function HasAction(node: Node): (r: bool)
    requires node.ElementNode? && WellFormed(node)
    ensures r <==> ActionWithoutOn(node)
  {
    var modifier := ElementModifierForPath(node, "action");
    var onValue: Value<HashPair> :=
      if Truthy(modifier) then HashPairForKey(modifier.obj.pairs, "on") else Boolean(false);
    Truthy(modifier) && (!Truthy(onValue) || StrictEquals(onValue, Str("click")))
  }

  /** `isFocusable`: tag membership, refined for `input` by a lookup of its `type` attribute. */
  function IsFocusable(cfg: Config, node: Node): (r: bool)
    requires node.ElementNode?
    ensures r <==> TagSignal(cfg, node)
  {
    var isFocusable := StringIndexOf(cfg.touchActionSelectors, node.tag) != -1;
    if isFocusable && node.tag == "input" then
      var inputType := ElementAttribute(node, "type");
      IndexOfNonString(InputTypes, inputType);
      IndexOf(Strings(InputTypes), inputType) != -1
    else
      isFocusable
  }

  function Validate(cfg: Config, node: Node): (r: bool)
    requires WellFormed(node)
    ensures NodeType(node) != "ElementNode" ==> !r
    ensures r <==> node.ElementNode? &&
                   (ClickSignal(cfg, node) || ActionSignal(cfg, node) || TagSignal(cfg, node))
  {
    if NodeType(node) == "ElementNode" then
      var hasAction := HasAction(node) && StringIndexOf(cfg.touchActionAttrSelectors, "action") != -1;
      var hasClick := Truthy(ElementAttribute(node, "onclick")) &&
                      StringIndexOf(cfg.touchActionAttrSelectors, "click") != -1;
      hasClick || hasAction || IsFocusable(cfg, node)
    else
      false
  }

  /** A configured tag other than `input` is interactive whatever the attribute selectors are. */
  lemma TagSignalIgnoresAttrSelectors(cfg: Config, node: Node, attrSelectors: seq<string>)
    requires node.ElementNode? && WellFormed(node)
    requires node.tag in cfg.touchActionSelectors && node.tag != "input"
    ensures Validate(cfg.(touchActionAttrSelectors := attrSelectors), node)
  {
  }

  /** An `input` is interactive only through its `onclick` attribute or its action modifier. */
  lemma InputNeedsAnotherSignal(cfg: Config, node: Node)
    requires node.ElementNode? && WellFormed(node) && node.tag == "input"
    ensures Validate(cfg, node) <==> ClickSignal(cfg, node) || ActionSignal(cfg, node)
  {
  }

  /**
   * Elements whose modifier lists normalise to the same invocations classify
   * alike, whichever of the two shapes each entry has.
   */
  lemma ShapesClassifyAlike(cfg: Config, a: Node, b: Node)
    requires a.ElementNode? && WellFormed(a) && b.ElementNode? && WellFormed(b)
    requires a.tag == b.tag && a.attributes == b.attributes
    requires |ModifierList(a)| == |ModifierList(b)|
    requires forall i :: 0 <= i < |ModifierList(a)| ==> Sexpr(ModifierList(a)[i]) == Sexpr(ModifierList(b)[i])
    ensures Validate(cfg, a) == Validate(cfg, b)
  {
    ModifierIndexNormalised(ModifierList(a), ModifierList(b), "action");
  }
}
