/** Concrete elements and what the plugin makes of them under the default settings. */
module PluginExamples {
  import opened Wrappers
  import opened PluginConfig
  import opened PluginAst
  import opened PluginClassifier
  import opened PluginTransform

  function Element(tag: string, attributes: seq<Attr>, modifiers: seq<ModifierNode>): Node {
    ElementNode(tag, attributes, Some(modifiers), None)
  }

  const ActionFoo := Flat(Invocation("action", []))
  const ActionFooOnClick := Flat(Invocation("action", [HashPair("on", "click")]))

  /** An `onclick` attribute with an empty value still makes a `div` interactive. */
  lemma EmptyOnClickCounts()
    ensures Validate(Defaults, Element("div", [Attr("onclick", "")], []))
    ensures !Validate(Defaults.(touchActionAttrSelectors := ["action"]), Element("div", [Attr("onclick", "")], []))
  {
  }

  /** `{{action "foo"}}` counts, in either shape. */
  lemma ActionModifierCounts()
    ensures Validate(Defaults, Element("div", [], [ActionFoo]))
    ensures Validate(Defaults, ElementNode("div", [], None, Some([Nested(Invocation("action", []))])))
  {
    var flat := Element("div", [], [ActionFoo]);
    assert Sexpr(ModifierList(flat)[0]) == Invocation("action", []);
    var nested := ElementNode("div", [], None, Some([Nested(Invocation("action", []))]));
    assert Sexpr(ModifierList(nested)[0]) == Invocation("action", []);
  }

  /** `{{action "foo" on="click"}}` does not count: its `on` pair is an object, not "click". */
  lemma ActionOnClickIgnored()
    ensures !Validate(Defaults, Element("div", [], [ActionFooOnClick]))
  {
    var node := Element("div", [], [ActionFooOnClick]);
    assert Sexpr(ModifierList(node)[0]).pairs[0].key == "on";
  }

  /** With "action" disabled, an action modifier alone does not count. */
  lemma ActionSelectorDisabled()
    ensures !Validate(Defaults.(touchActionAttrSelectors := ["click"]), Element("div", [], [ActionFoo]))
  {
  }

  /** An empty `modifiers` array is used as it is; the `helpers` are not consulted. */
  lemma EmptyModifiersHideHelpers()
    ensures !Validate(Defaults, ElementNode("div", [], Some([]), Some([ActionFoo])))
  {
  }

  /** A `button` is interactive by its tag even with no attribute selector enabled; an `input` never is. */
  lemma TagSignalExamples()
    ensures Validate(Defaults.(touchActionAttrSelectors := []), Element("button", [], []))
    ensures !Validate(Defaults, Element("input", [Attr("type", "text")], []))
    ensures !Validate(Defaults, Element("input", [Attr("type", "checkbox")], []))
  {
  }

  /** A `button` without style gains one holding the fragment; a second pass doubles it. */
  lemma ButtonWithoutStyle()
    ensures StyleValue(TouchNode(Defaults, Element("button", [], []))) == Some(Defaults.touchActionProperties)
    ensures StyleValue(TouchNode(Defaults, TouchNode(Defaults, Element("button", [], [])))) ==
            Some(Defaults.touchActionProperties + Defaults.touchActionProperties)
  {
    TwicePassesAppendTwice(Defaults, Element("button", [], []));
  }

  /** An existing style keeps its text, with the fragment after it. */
  lemma ButtonWithStyle()
    ensures StyleValue(TouchNode(Defaults, Element("button", [Attr("style", "color:red;")], []))) ==
            Some("color:red;" + Defaults.touchActionProperties)
  {
  }
}
