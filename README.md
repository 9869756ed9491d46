# ember-hammertime touch-action, modelled in Dafny

This project models the two classifiers of ember-hammertime.

The first is the HTMLBars AST plugin `TouchActionSupport`. It decides whether an element is interactive. Three signals count: an `onclick` attribute, an `{{action}}` modifier, or a focusable tag. For every interactive element, the plugin appends the configured touch-action CSS fragment to the element's first `style` attribute, and creates that attribute when it is missing. Three module-level settings control the plugin, and `setConfigValues` merges a partial override object into them.

The second is the runtime mixin's computed `touchActionStyle`. It is a fixed decision over `this.click`, `tagName` and `type`, and it returns one of two strings.

Modules:

- `Wrappers` (`wrappers.dfy`): `Option`.
- `Js` (`js.dfy`): the JavaScript semantics the code depends on.
  - `Value` covers `undefined`, booleans, strings and objects.
  - `Truthy`, strict equality `StrictEquals`, and `indexOf` as `IndexOf` / `StringIndexOf`.
  - The plugin's two object-against-string comparisons are derived from these definitions, not written in by hand.
- `PluginConfig` (`plugin_config.dfy`): the three settings.
  - `Config`, `Defaults`, the override object `Overrides`, and the pure merge `Merge`.
  - The class `ConfigStore`, whose fields are the module-level variables and whose `SetConfigValues` updates them in place.
- `PluginAst` (`plugin_ast.dfy`): the node shapes and the lookup helpers.
  - Nodes: `Attr`, `HashPair`, `Invocation`, the two modifier shapes `Flat` / `Nested`, and `Node`.
  - Helpers: `elementAttribute`, `elementModifierForPath`, `hashPairForKey` and `sexpr`. Each first-match search is a recursive index function with a first-match contract, and `elementAttribute`'s loop is also the method `FindAttribute`.
- `PluginClassifier` (`plugin_classifier.dfy`): `validate`.
  - The body follows the JavaScript step by step.
  - The contract states the decision as three declarative signals: `ClickSignal`, `ActionSignal` and `TagSignal`.
  - The JavaScript locals `hasAction` and `isFocusable` are the functions `HasAction` and `IsFocusable`.
- `PluginTransform` (`plugin_transform.dfy`): the walker callback and the walk.
  - `TouchNode` specifies what the callback does to one node, and `TouchAll` what it does to the whole visit order.
  - `Visit` is the imperative callback: find the style attribute, push an empty one, append with `+=`.
  - `Transform` is the walk, modelled as a `for` loop over an array of nodes in visit order that replaces each node in place.
- `PluginExamples` (`plugin_examples.dfy`): concrete elements under the default settings.
- `TouchActionMixin` (`mixin.dfy`): `touchActionStyle` as a pure function of `(click truthiness, tagName, type)`. It takes no configuration argument, so it cannot depend on the plugin's settings.

## Code versus its evident intent

The model follows the code as written. In the following cases the code evidently means something other than what it does:

- Line 57 compares `onValue` with the string `'click'`, so an action modifier with `on="click"` is evidently meant to count. But `hashPairForKey` returns the pair object, not its value.
  - A strict comparison between an object and a string is never true.
  - So any `on=` pair, `on="click"` included, disables the action signal (`PluginClassifier.HasAction`, `PluginExamples.ActionOnClickIgnored`).
- Line 65 lists the type strings `button`, `submit`, `text` and `file`, so an `input` with one of those types is evidently meant to count. But line 64 takes the AttrNode returned by `elementAttribute` (or `false`), and line 65 looks that value up in a list of strings.
  - That lookup never succeeds.
  - So an `input` never passes the tag signal, whatever its type (`Js.IndexOfNonString`, `PluginClassifier.InputNeedsAnotherSignal`).
- The runtime mixin compares the `type` string itself (addon/mixins/touch-action.js:26-29). It therefore does accept `<input type="button">`. Its tag list also includes `select`, and its fragment has no `cursor: pointer`.
- The transform is not idempotent. A second pass appends the fragment again (`PluginTransform.TwicePassesAppendTwice`).

## Model

| member | source | states |
|---|---|---|
| `Js.Truthy` | htmlbars-plugins/touch-action.js:55-57 | the truthiness the tests rely on (here, and at lines 31 and 71): `false`, `undefined` and `""` are falsy, every object (an AttrNode, a pair, an invocation, an array) is truthy |
| `Js.StrictEquals` | htmlbars-plugins/touch-action.js:57 | `===`, also the comparison `indexOf` makes at lines 58, 65 and 70-71: true only for values of the same kind with the same content, so an object never equals a string; objects are compared by content rather than identity |
| `Js.IndexOf` | htmlbars-plugins/touch-action.js:58 | `indexOf` gives the first strictly equal position, or -1 exactly when no entry is strictly equal |
| `Js.StringIndexOf` | htmlbars-plugins/touch-action.js:70-71 | on string lists `indexOf` finds a string exactly when it is a member, and at a position holding it |
| `Js.IndexOfNonString` | htmlbars-plugins/touch-action.js:65 | looking up a non-string value (an AttrNode, `false`, `undefined`) in a string list always yields -1 |
| `PluginConfig.Defaults` | htmlbars-plugins/touch-action.js:16-18 | the three settings start as `['button','input','a','textarea']`, `['action','click']` and the fragment ending in `cursor: pointer;` |
| `PluginConfig.Merge` | htmlbars-plugins/touch-action.js:123-129 | a missing config changes nothing; each list is replaced exactly when the override supplies an array, even an empty one; the fragment is replaced exactly when the override is a non-empty string |
| `PluginConfig.PartialMerge` | htmlbars-plugins/touch-action.js:126-128 | overriding only the fragment leaves both selector lists as they were |
| `PluginConfig.ConfigStore.constructor` | htmlbars-plugins/touch-action.js:16-18 | the settings start as `['button','input','a','textarea']`, `['action','click']` and the fragment with `cursor: pointer;` |
| `PluginConfig.ConfigStore.SetConfigValues` | htmlbars-plugins/touch-action.js:123-129 | the module-level variables afterwards are the merge of their old values with the override |
| `PluginAst.NodeType` | htmlbars-plugins/touch-action.js:53 | the node's `type`: `"ElementNode"` for an element, the node's own type string otherwise |
| `PluginAst.ModifierList` | htmlbars-plugins/touch-action.js:91 | `node.modifiers` when present, even when empty, otherwise `node.helpers` |
| `PluginAst.Sexpr` | htmlbars-plugins/touch-action.js:115-121 | the nested invocation of a pre-glimmer entry, or the entry itself |
| `PluginAst.AttributeIndex` | htmlbars-plugins/touch-action.js:79-87 | the result is the first position whose attribute has the given name, or absent exactly when no attribute has it |
| `PluginAst.ElementAttribute` | htmlbars-plugins/touch-action.js:79-87 | the result is the first attribute of the element with the given name, or `false` exactly when none has that name, so an empty value is distinct from absence |
| `PluginAst.FindAttribute` | htmlbars-plugins/touch-action.js:81-86 | the index loop with early return finds the same first match as the specification |
| `PluginAst.ModifierIndex` | htmlbars-plugins/touch-action.js:92-98 | the first modifier whose `sexpr`-normalised `path.original` is the path, or absent exactly when none is |
| `PluginAst.ElementModifierForPath` | htmlbars-plugins/touch-action.js:89-101 | over `modifiers`, or `helpers` when `modifiers` is missing, the result is the `sexpr`-normalised invocation of the first entry whose path matches, or `false` exactly when there is none |
| `PluginAst.PairIndex` | htmlbars-plugins/touch-action.js:104-109 | the first hash pair with the key, or absent exactly when none has it |
| `PluginAst.HashPairForKey` | htmlbars-plugins/touch-action.js:103-112 | the result is the first pair with the key, or `false` exactly when none has it |
| `PluginAst.ModifierIndexNormalised` | htmlbars-plugins/touch-action.js:115-121 | modifier lists that `sexpr` normalises to the same invocations give the same lookup result |
| `PluginClassifier.Validate` | htmlbars-plugins/touch-action.js:46-77 | false for every node of another type; for an element true exactly when the click, action or tag signal holds |
| `PluginClassifier.HasAction` | htmlbars-plugins/touch-action.js:54-57 | the action test on the modifier and its `on` value holds exactly when the first action modifier exists and has no `on` pair at all |
| `PluginClassifier.IsFocusable` | htmlbars-plugins/touch-action.js:58-67 | the focusable test holds exactly when the tag is a configured selector other than `input` |
| `PluginClassifier.TagSignalIgnoresAttrSelectors` | htmlbars-plugins/touch-action.js:58-73 | a configured tag other than `input` is interactive whatever `touchActionAttrSelectors` holds |
| `PluginClassifier.InputNeedsAnotherSignal` | htmlbars-plugins/touch-action.js:62-66 | an `input` is interactive exactly when its click or action signal holds, never by its tag |
| `PluginClassifier.ShapesClassifyAlike` | htmlbars-plugins/touch-action.js:89-121 | elements whose modifiers normalise to the same invocations classify alike, whichever shape each entry has |
| `PluginTransform.TouchNode` | htmlbars-plugins/touch-action.js:29-40 | the callback's effect on one node; what it promises is stated by the `TouchNode…` lemmas below |
| `PluginTransform.TouchNodeFrame` | htmlbars-plugins/touch-action.js:29-40 | a node that fails `validate` is unchanged; for one that passes, only the attribute list changes |
| `PluginTransform.TouchNodeStyle` | htmlbars-plugins/touch-action.js:30-39 | an interactive element's style text becomes its old text (or "" when it had none) followed by the fragment |
| `PluginTransform.TouchNodeKeepsClassification` | htmlbars-plugins/touch-action.js:28-41 | after the callback the node still validates exactly when it did before |
| `PluginTransform.SameClassification` | htmlbars-plugins/touch-action.js:60 | changing style text or appending a style attribute does not change the classification |
| `PluginTransform.AppendedStyle` | htmlbars-plugins/touch-action.js:37 | an appended style attribute becomes the first style attribute of a list that had none |
| `PluginTransform.UpdatedStyle` | htmlbars-plugins/touch-action.js:39 | rewriting the first style attribute's text keeps every name and keeps it the first style attribute |
| `PluginTransform.Visit` | htmlbars-plugins/touch-action.js:29-40 | the callback's push-then-append steps have exactly the effect `TouchNode` specifies |
| `PluginTransform.TouchAll` | htmlbars-plugins/touch-action.js:28 | the walk's result holds, at every position, what the callback makes of the node visited there |
| `PluginTransform.Transform` | htmlbars-plugins/touch-action.js:24-44 | after the walk, every node is what the callback makes of its original, in place and in visit order |
| `PluginTransform.NewStyleAppended` | htmlbars-plugins/touch-action.js:30-39 | an interactive element without style gets exactly one style attribute, at the end, holding the fragment, with earlier attributes unchanged and in order |
| `PluginTransform.ExistingStyleExtended` | htmlbars-plugins/touch-action.js:30-39 | with an existing style attribute, even an empty one, no attribute is added, and only the first style attribute's text changes, to old text plus fragment |
| `PluginTransform.TwicePassesAppendTwice` | htmlbars-plugins/touch-action.js:28-41 | two passes append the fragment twice |
| `PluginExamples.EmptyOnClickCounts` | htmlbars-plugins/touch-action.js:60-73 | `<div onclick="">` is interactive, and is not once "click" is disabled |
| `PluginExamples.ActionModifierCounts` | htmlbars-plugins/touch-action.js:89-101 | `{{action "foo"}}` counts, as a flat modifier and as a helper nested under `sexpr` |
| `PluginExamples.ActionOnClickIgnored` | htmlbars-plugins/touch-action.js:55-57 | `{{action "foo" on="click"}}` does not count |
| `PluginExamples.ActionSelectorDisabled` | htmlbars-plugins/touch-action.js:70 | with selectors `["click"]` an action modifier alone does not count |
| `PluginExamples.EmptyModifiersHideHelpers` | htmlbars-plugins/touch-action.js:91 | an empty `modifiers` array is used, so an action among the `helpers` is not seen |
| `PluginExamples.TagSignalExamples` | htmlbars-plugins/touch-action.js:58-66 | `button` counts with no attribute selector enabled; `input type="text"` and `input type="checkbox"` do not |
| `PluginExamples.ButtonWithoutStyle` | htmlbars-plugins/touch-action.js:30-39 | a bare `button` gets style equal to the fragment, and the fragment twice after two passes |
| `PluginExamples.ButtonWithStyle` | htmlbars-plugins/touch-action.js:39 | `style="color:red;"` becomes `"color:red;"` followed by the fragment |
| `TouchActionMixin.TypeValue` | addon/mixins/touch-action.js:22 | `this.get('type')`: the type string when set, `undefined` when unset |
| `TouchActionMixin.TouchActionStyle` | addon/mixins/touch-action.js:15-36 | the result is the fixed fragment or ""; a truthy `click` gives the fragment; otherwise it is the fragment exactly for `select`, `button`, `a`, `textarea`, or `input` with type `button`, `submit`, `text` or `file` |
| `TouchActionMixin.InputTypeListed` | addon/mixins/touch-action.js:26-29 | the type test succeeds exactly for the four listed type strings, never for an absent type |
| `TouchActionMixin.MissingCharExcludes` | addon/mixins/touch-action.js:35 | a string lacking a character contains no block holding it |
| `TouchActionMixin.FragmentOmitsCursor` | addon/mixins/touch-action.js:35 | the mixin's fragment does not contain `cursor: pointer` |
| `TouchActionMixin.ClickWins` | addon/mixins/touch-action.js:17-19 | with `click` truthy the fragment is returned for every tag and type |
| `TouchActionMixin.ExampleLinkAndSelect` | addon/mixins/touch-action.js:24 | `a` and `select` yield the fragment without a click |
| `TouchActionMixin.ExampleInputTypes` | addon/mixins/touch-action.js:26-29 | `input type="button"` yields the fragment; `type="checkbox"` and no type yield "" |
| `TouchActionMixin.ExampleDiv` | addon/mixins/touch-action.js:24 | `div` without a click yields "" |

## Left out

- The template parser and the HTMLBars `Walker` (htmlbars-plugins/touch-action.js:21, 26) are external. The tree is given as the array of nodes the walker visits, in order. Elements carry no children, because the callback never looks at them.
- `Transform`: the in-place update of the AttrNode object that `elementAttribute` returns (lines 37, 39) is modelled as replacing the element's attribute sequence. Aliasing of one AttrNode between several elements is not captured.
- Style values that are not TextNodes (mustache or concat values) are out of scope. Every attribute value is a text string.
- Nodes on which the JavaScript would throw a TypeError are excluded by the precondition `WellFormed`. These are an element with neither `modifiers` nor `helpers`. A missing `attributes` or `hash.pairs` cannot be expressed, because the datatypes always carry them.
- Override values of other JavaScript types are left out, such as a non-array truthy value for a list or `0` for the fragment. `None` stands for every falsy value.
- Object identity: `StrictEquals` compares objects by content. This matters only for object-to-object comparisons, and the code makes none.
- The module-level mutability of the settings is modelled as the fields of `ConfigStore`. There is no concurrency. `Validate` and `TouchNode` take a `Config` snapshot, which is equivalent because the callback never changes the settings.
- `module.exports` and the plugin's `syntax` field (lines 20-22, 131) are registration glue.
- Ember machinery in the mixin is not modelled: `Mixin.create`, `computed`, `attributeBindings`, `this.get` and the `SafeString` wrapper. Only the returned string is modelled. `this.click` is given as its truthiness. `tagName` is given as a string, and an undefined `tagName` behaves like any tag outside the list.
