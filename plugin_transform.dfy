/**
 * `TouchActionSupport.prototype.transform`: for every interactive element
 * the walker visits, find the first `style` attribute (appending an empty
 * one when there is none) and append the configured CSS fragment to it.
 */
module PluginTransform {
  import opened Wrappers
  import opened Js
  import opened PluginConfig
  import opened PluginAst
  import opened PluginClassifier

  /** The text of the element's first `style` attribute, if it has one. */
  function StyleValue(node: Node): Option<string>
    requires node.ElementNode?
  {
    match AttributeIndex(node.attributes, "style")
    case Some(i) => Some(node.attributes[i].chars)
    case None => None
  }

  /** Both sequences name their attributes alike, position by position. */
  ghost predicate SameNames(a: seq<Attr>, b: seq<Attr>) {
    |a| == |b| && forall i :: 0 <= i < |a| ==> a[i].name == b[i].name
  }

  /**
   * The effect of the walker callback on one node: an interactive element's
   * first style attribute gets the fragment appended, and one holding just
   * the fragment is appended when there is none.
   */
  function TouchNode(cfg: Config, node: Node): Node
    requires WellFormed(node)
  {
    if !Validate(cfg, node) then node
    else
      match AttributeIndex(node.attributes, "style")
      case None => node.(attributes := node.attributes + [Attr("style", cfg.touchActionProperties)])
      case Some(k) =>
        node.(attributes := node.attributes[k := Attr("style", node.attributes[k].chars + cfg.touchActionProperties)])
  }

  /** Nodes that fail `validate` are left exactly as they were; otherwise only the attribute list changes. */
  lemma TouchNodeFrame(cfg: Config, node: Node)
    requires WellFormed(node)
    ensures !Validate(cfg, node) ==> TouchNode(cfg, node) == node
    ensures Validate(cfg, node) ==>
              TouchNode(cfg, node).ElementNode? &&
              TouchNode(cfg, node) == node.(attributes := TouchNode(cfg, node).attributes)
  {
  }

  /** An interactive element's style text becomes its old text (or "") followed by the fragment. */
  lemma TouchNodeStyle(cfg: Config, node: Node)
    requires WellFormed(node)
    ensures Validate(cfg, node) ==>
              StyleValue(TouchNode(cfg, node)) == Some(StyleValue(node).GetOr("") + cfg.touchActionProperties)
  {
    if !Validate(cfg, node) {
      return;
    }
    var attributes := node.attributes;
    var r := TouchNode(cfg, node);
    match AttributeIndex(attributes, "style")
    case None =>
      AppendedStyle(attributes, cfg.touchActionProperties);
      assert StyleValue(r) == Some(cfg.touchActionProperties);
      assert "" + cfg.touchActionProperties == cfg.touchActionProperties;
    case Some(k) =>
      UpdatedStyle(attributes, k, attributes[k].chars + cfg.touchActionProperties);
      assert StyleValue(r) == Some(attributes[k].chars + cfg.touchActionProperties);
  }

  /** The callback keeps a node's classification, so a second pass touches the same elements. */
  lemma TouchNodeKeepsClassification(cfg: Config, node: Node)
    requires WellFormed(node)
    ensures WellFormed(TouchNode(cfg, node)) && Validate(cfg, TouchNode(cfg, node)) == Validate(cfg, node)
  {
    if Validate(cfg, node) {
      var attributes := node.attributes;
      var r := TouchNode(cfg, node);
      match AttributeIndex(attributes, "style")
      case None =>
        assert r.attributes[..|attributes|] == attributes;
        SameClassification(cfg, node, r);
      case Some(k) =>
        UpdatedStyle(attributes, k, attributes[k].chars + cfg.touchActionProperties);
        SameClassification(cfg, node, r);
    }
  }

  /** Appending a style attribute to a list without one makes it the first style attribute. */
  lemma {:induction false} AppendedStyle(attributes: seq<Attr>, chars: string)
    requires AttributeIndex(attributes, "style").None?
    ensures AttributeIndex(attributes + [Attr("style", chars)], "style") == Some(|attributes|)
    decreases |attributes|
  {
    var longer := attributes + [Attr("style", chars)];
    if |attributes| > 0 {
      assert attributes[0].name != "style";
      assert AttributeIndex(attributes[1..], "style").None?;
      assert longer[1..] == attributes[1..] + [Attr("style", chars)];
      AppendedStyle(attributes[1..], chars);
    }
  }

  /** Rewriting the text of the first style attribute keeps it the first style attribute. */
  lemma UpdatedStyle(attributes: seq<Attr>, k: nat, chars: string)
    requires AttributeIndex(attributes, "style") == Some(k)
    ensures SameNames(attributes, attributes[k := Attr("style", chars)])
    ensures AttributeIndex(attributes[k := Attr("style", chars)], "style") == Some(k)
  {
    var updated := attributes[k := Attr("style", chars)];
    assert forall i :: 0 <= i < |attributes| && i != k ==> updated[i] == attributes[i];
  }

  /**
   * Elements that differ only in attributes, and whose attributes other than
   * `style` are named alike, classify alike.
   */
  lemma SameClassification(cfg: Config, a: Node, b: Node)
    requires a.ElementNode? && WellFormed(a) && b.ElementNode?
    requires b == a.(attributes := b.attributes)
    requires SameNames(a.attributes, b.attributes) ||
             (|b.attributes| == |a.attributes| + 1 && b.attributes[..|a.attributes|] == a.attributes &&
              b.attributes[|a.attributes|].name == "style")
    ensures Validate(cfg, a) == Validate(cfg, b)
  {
    if ClickSignal(cfg, a) {
      var i :| 0 <= i < |a.attributes| && a.attributes[i].name == "onclick";
      if !SameNames(a.attributes, b.attributes) {
        assert b.attributes[..|a.attributes|][i] == b.attributes[i];
      }
      assert b.attributes[i].name == "onclick";
    }
    if ClickSignal(cfg, b) {
      var i :| 0 <= i < |b.attributes| && b.attributes[i].name == "onclick";
      if !SameNames(a.attributes, b.attributes) {
        assert i < |a.attributes|;
        assert b.attributes[..|a.attributes|][i] == b.attributes[i];
      }
      assert a.attributes[i].name == "onclick";
    }
  }

  /**
   * The callback handed to the walker: when the node validates, locate the
   * first style attribute, append an empty one if there is none, and append
   * the fragment to its text.
   */
  method Visit(cfg: Config, node: Node) returns (r: Node)
    requires WellFormed(node)
    ensures r == TouchNode(cfg, node)
  {
    r := node;
    if Validate(cfg, node) {
      var attributes := node.attributes;
      var style := FindAttribute(attributes, "style");
      if style.None? {
        attributes := attributes + [Attr("style", "")];
        style := Some(|attributes| - 1);
      }
      var k := style.value;
      attributes := attributes[k := attributes[k].(chars := attributes[k].chars + cfg.touchActionProperties)];
      assert "" + cfg.touchActionProperties == cfg.touchActionProperties;
      r := node.(attributes := attributes);
    }
  }

  /**
   * The callback applied to each node of a visit order: each node of the
   * result is what the callback makes of the node at the same position.
   */
  function TouchAll(cfg: Config, nodes: seq<Node>): (r: seq<Node>)
    requires forall i :: 0 <= i < |nodes| ==> WellFormed(nodes[i])
    ensures |r| == |nodes|
    ensures forall i :: 0 <= i < |nodes| ==> r[i] == TouchNode(cfg, nodes[i])
    decreases |nodes|
  {
    if |nodes| == 0 then [] else [TouchNode(cfg, nodes[0])] + TouchAll(cfg, nodes[1..])
  }

  /**
   * The walk: every node of the tree, in visit order, is handed to the
   * callback once and replaced in place by what the callback makes of it.
   */
  method Transform(cfg: Config, ast: array<Node>)
    requires forall i :: 0 <= i < ast.Length ==> WellFormed(ast[i])
    modifies ast
    ensures ast[..] == TouchAll(cfg, old(ast[..]))
  {
    ghost var input := ast[..];
    for n := 0 to ast.Length
      invariant ast[..n] == TouchAll(cfg, input[..n])
      invariant forall j :: n <= j < ast.Length ==> ast[j] == input[j]
    {
      var touched := Visit(cfg, ast[n]);
      assert input[..n + 1][..n] == input[..n];
      ast[n] := touched;
      assert ast[..n + 1] == ast[..n] + [touched];
    }
    assert input[..ast.Length] == input;
    assert ast[..ast.Length] == ast[..];
  }

  /**
   * An interactive element without a style attribute gains exactly one, at
   * the end, holding the fragment; the earlier attributes stay as they were.
   */
  lemma NewStyleAppended(cfg: Config, node: Node)
    requires WellFormed(node) && Validate(cfg, node) && AttributeIndex(node.attributes, "style").None?
    ensures
      var r := TouchNode(cfg, node);
      && r.attributes == node.attributes + [Attr("style", cfg.touchActionProperties)]
      && forall i :: 0 <= i < |r.attributes| && r.attributes[i].name == "style" ==> i == |node.attributes|
  {
  }

  /**
   * An interactive element with a style attribute (even an empty one) gains
   * no attribute; only the first style attribute's text changes.
   */
  lemma ExistingStyleExtended(cfg: Config, node: Node, k: nat)
    requires WellFormed(node) && Validate(cfg, node) && AttributeIndex(node.attributes, "style") == Some(k)
    ensures
      var r := TouchNode(cfg, node);
      && |r.attributes| == |node.attributes|
      && r.attributes[k] == Attr("style", node.attributes[k].chars + cfg.touchActionProperties)
      && forall i :: 0 <= i < |node.attributes| && i != k ==> r.attributes[i] == node.attributes[i]
  {
  }

  /**
   * The transform is not idempotent: a second pass over an interactive
   * element appends the fragment a second time.
   */
  lemma TwicePassesAppendTwice(cfg: Config, node: Node)
    requires WellFormed(node)
    ensures Validate(cfg, node) ==>
              StyleValue(TouchNode(cfg, TouchNode(cfg, node))) ==
              Some(StyleValue(node).GetOr("") + cfg.touchActionProperties + cfg.touchActionProperties)
  {
    TouchNodeStyle(cfg, node);
    TouchNodeKeepsClassification(cfg, node);
    TouchNodeStyle(cfg, TouchNode(cfg, node));
  }
}
