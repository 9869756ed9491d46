/**
 * The template AST as the touch-action plugin sees it, and its first-match
 * lookup helpers `elementAttribute`, `elementModifierForPath`,
 * `hashPairForKey` and the shape normaliser `sexpr`.
 */
module PluginAst {
  import opened Wrappers
  import opened Js

  /** An AttrNode whose value is a TextNode with text `chars`. */
  datatype Attr = Attr(name: string, chars: string)

  /** One `key=value` pair of a modifier's hash. */
  datatype HashPair = HashPair(key: string, value: string)

  /** A modifier or helper invocation: `path.original` and `hash.pairs`. */
  datatype Invocation = Invocation(pathOriginal: string, pairs: seq<HashPair>)

  /**
   * The two shapes a modifier entry can take: the invocation itself, or a
   * node that carries the invocation under its `sexpr` field.
   */
  datatype ModifierNode = Flat(inv: Invocation) | Nested(sexpr: Invocation)

  /**
   * A node the walker hands to the callback. An element's `modifiers` and
   * `helpers` are `None` when the property is missing (or null).
   */
  datatype Node =
    | ElementNode(tag: string, attributes: seq<Attr>,
                  modifiers: Option<seq<ModifierNode>>, helpers: Option<seq<ModifierNode>>)
    | OtherNode(nodeType: string)

  /** The node's `type` discriminator. */
  function NodeType(node: Node): string {
    if node.ElementNode? then "ElementNode" else node.nodeType
  }

  /**
   * Shapes on which the plugin does not throw: an element has a `modifiers`
   * or a `helpers` array, and no other node claims to be an element.
   */
  predicate WellFormed(node: Node) {
    match node
    case ElementNode(_, _, modifiers, helpers) => modifiers.Some? || helpers.Some?
    case OtherNode(nodeType) => nodeType != "ElementNode"
  }

  /** `node.modifiers || node.helpers`: an empty `modifiers` array is truthy and wins. */
  function ModifierList(node: Node): seq<ModifierNode>
    requires node.ElementNode? && WellFormed(node)
  {
    if node.modifiers.Some? then node.modifiers.value else node.helpers.value
  }

  /** `sexpr(node)`: the nested invocation when there is one, else the node itself. */
  function Sexpr(m: ModifierNode): Invocation {
    match m
    case Nested(s) => s
    case Flat(inv) => inv
  }

  /** Position of the first attribute named `path`. */
  function AttributeIndex(attributes: seq<Attr>, path: string): (r: Option<nat>)
    ensures r.None? <==> forall i :: 0 <= i < |attributes| ==> attributes[i].name != path
    ensures r.Some? ==> r.value < |attributes| && attributes[r.value].name == path &&
                        forall i :: 0 <= i < r.value ==> attributes[i].name != path
    decreases |attributes|
  {
    if |attributes| == 0 then None
    else if attributes[0].name == path then Some(0)
    else
      match AttributeIndex(attributes[1..], path)
      case None => None
      case Some(k) => Some(k + 1)
  }

  /** `elementAttribute(node, path)`: the first AttrNode named `path`, or `false`. */
  function ElementAttribute(node: Node, path: string): (r: Value<Attr>)
    requires node.ElementNode?
    ensures r.Object? || r == Boolean(false)
    ensures r == Boolean(false) <==> forall i :: 0 <= i < |node.attributes| ==> node.attributes[i].name != path
    ensures r.Object? ==> exists k :: 0 <= k < |node.attributes| && r.obj == node.attributes[k] &&
                            node.attributes[k].name == path &&
                            forall j :: 0 <= j < k ==> node.attributes[j].name != path
  {
    match AttributeIndex(node.attributes, path)
    case Some(i) => Object(node.attributes[i])
    case None => Boolean(false)
  }

  /**
   * The index loop of `elementAttribute`, returning the position of the
   * AttrNode it finds so that the caller can update that attribute.
   */
  method FindAttribute(attributes: seq<Attr>, path: string) returns (r: Option<nat>)
    ensures r == AttributeIndex(attributes, path)
  {
    var i := 0;
    while i < |attributes|
      invariant 0 <= i <= |attributes|
      invariant forall j :: 0 <= j < i ==> attributes[j].name != path
    {
      if attributes[i].name == path {
        return Some(i);
      }
      i := i + 1;
    }
    return None;
  }

  /** Position of the first modifier whose normalised path is `path`. */
  function ModifierIndex(modifiers: seq<ModifierNode>, path: string): (r: Option<nat>)
    ensures r.None? <==> forall i :: 0 <= i < |modifiers| ==> Sexpr(modifiers[i]).pathOriginal != path
    ensures r.Some? ==> r.value < |modifiers| && Sexpr(modifiers[r.value]).pathOriginal == path &&
                        forall i :: 0 <= i < r.value ==> Sexpr(modifiers[i]).pathOriginal != path
    decreases |modifiers|
  {
    if |modifiers| == 0 then None
    else if Sexpr(modifiers[0]).pathOriginal == path then Some(0)
    else
      match ModifierIndex(modifiers[1..], path)
      case None => None
      case Some(k) => Some(k + 1)
  }

  /** `elementModifierForPath(node, path)`: the first normalised invocation of `path`, or `false`. */
  function ElementModifierForPath(node: Node, path: string): (r: Value<Invocation>)
    requires node.ElementNode? && WellFormed(node)
    ensures r.Object? || r == Boolean(false)
    ensures r == Boolean(false) <==>
              forall i :: 0 <= i < |ModifierList(node)| ==> Sexpr(ModifierList(node)[i]).pathOriginal != path
    ensures r.Object? ==> exists k :: 0 <= k < |ModifierList(node)| && r.obj == Sexpr(ModifierList(node)[k]) &&
                            Sexpr(ModifierList(node)[k]).pathOriginal == path &&
                            forall j :: 0 <= j < k ==> Sexpr(ModifierList(node)[j]).pathOriginal != path
  {
    match ModifierIndex(ModifierList(node), path)
    case Some(i) => Object(Sexpr(ModifierList(node)[i]))
    case None => Boolean(false)
  }

  /** Position of the first hash pair with key `key`. */
  function PairIndex(pairs: seq<HashPair>, key: string): (r: Option<nat>)
    ensures r.None? <==> forall i :: 0 <= i < |pairs| ==> pairs[i].key != key
    ensures r.Some? ==> r.value < |pairs| && pairs[r.value].key == key &&
                        forall i :: 0 <= i < r.value ==> pairs[i].key != key
    decreases |pairs|
  {
    if |pairs| == 0 then None
    else if pairs[0].key == key then Some(0)
    else
      match PairIndex(pairs[1..], key)
      case None => None
      case Some(k) => Some(k + 1)
  }

  /** `hashPairForKey(hash, key)`: the first pair object with that key, or `false`. */
  function HashPairForKey(pairs: seq<HashPair>, key: string): (r: Value<HashPair>)
    ensures r.Object? || r == Boolean(false)
    ensures r == Boolean(false) <==> forall i :: 0 <= i < |pairs| ==> pairs[i].key != key
    ensures r.Object? ==> exists k :: 0 <= k < |pairs| && r.obj == pairs[k] && pairs[k].key == key &&
                            forall j :: 0 <= j < k ==> pairs[j].key != key
  {
    match PairIndex(pairs, key)
    case Some(i) => Object(pairs[i])
    case None => Boolean(false)
  }

  /**
   * Modifier lists that normalise to the same invocations, position by
   * position, yield the same lookup result: the two shapes are read alike.
   */
  lemma ModifierIndexNormalised(m1: seq<ModifierNode>, m2: seq<ModifierNode>, path: string)
    requires |m1| == |m2|
    requires forall i :: 0 <= i < |m1| ==> Sexpr(m1[i]) == Sexpr(m2[i])
    ensures ModifierIndex(m1, path) == ModifierIndex(m2, path)
  {
  }
}
