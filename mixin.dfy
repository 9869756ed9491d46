/**
 * The runtime mixin's computed `touchActionStyle`: the inline style a
 * component binds, chosen from `this.click`, `tagName` and `type`. Its tag
 * list and its fragment are fixed; it reads none of the plugin's settings.
 */
module TouchActionMixin {
  import opened Wrappers
  import opened Js

  /** The fragment the mixin returns; unlike the plugin's default it has no `cursor: pointer`. */
  const Fragment := "touch-action: manipulation; -ms-touch-action: manipulation;"

  const FocusableTags := ["select", "button", "input", "a", "textarea"]

  const InputTypes := ["button", "submit", "text", "file"]

  /** `this.get('type')` as a JavaScript value: a string, or `undefined` when unset. */
  function TypeValue(inputType: Option<string>): Value<()> {
    match inputType
    case Some(t) => Str(t)
    case None => Undefined
  }

  /**
   * `click` is the truthiness of `this.click`; `inputType` is `None` when
   * the component has no `type`.
   */
  function TouchActionStyle(click: bool, tagName: string, inputType: Option<string>): (r: string)
    ensures r == Fragment || r == ""
    // a click handler wins, whatever the tag and type
    ensures click ==> r == Fragment
    // otherwise the fixed focusable tags, and `input` only for the listed types
    ensures !click ==>
              (r == Fragment <==>
                 tagName in ["select", "button", "a", "textarea"] ||
                 (tagName == "input" && inputType in [Some("button"), Some("submit"), Some("text"), Some("file")]))
  {
    var applyStyle :=
      if click then true
      else
        var isFocusable := StringIndexOf(FocusableTags, tagName) != -1;
        if isFocusable && tagName == "input" then
          InputTypeListed(inputType);
          IndexOf(Strings(InputTypes), TypeValue(inputType)) != -1
        else isFocusable;
    if applyStyle then Fragment else ""
  }

  /** The `type` test is a string comparison: it succeeds exactly for the four listed types. */
  lemma InputTypeListed(inputType: Option<string>)
    ensures IndexOf(Strings(InputTypes), TypeValue(inputType)) != -1 <==>
            inputType in [Some("button"), Some("submit"), Some("text"), Some("file")]
  {
    match inputType
    case None =>
      IndexOfNonString(InputTypes, TypeValue(inputType));
    case Some(t) =>
      assert StringIndexOf(InputTypes, t) == IndexOf(Strings(InputTypes), TypeValue(inputType));
  }

  /** `t` occurs in `s` as a contiguous block. */
  predicate Contains(s: string, t: string)
    decreases |s|
  {
    |t| <= |s| && (s[..|t|] == t || (|s| > 0 && Contains(s[1..], t)))
  }

  /** A string without the character `c` contains no block that holds `c`. */
  lemma {:induction false} MissingCharExcludes(s: string, t: string, c: char)
    requires c !in s && c in t
    ensures !Contains(s, t)
    decreases |s|
  {
    if |t| <= |s| {
      if |s| > 0 {
        assert forall x :: x in s[1..] ==> x in s;
        MissingCharExcludes(s[1..], t, c);
      }
    }
  }

  /** A character absent from both parts of a split string is absent from the string. */
  lemma MissingFromSplit(s: string, k: nat, c: char)
    requires k <= |s| && c !in s[..k] && c !in s[k..]
    ensures c !in s
  {
    assert s == s[..k] + s[k..];
  }

  /** The first 27 characters are `"touch-action: manipulation;"`, the fragment's first declaration. */
  lemma FragmentHeadOmitsR()
    ensures 'r' !in Fragment[..27]
  {
    assert Fragment[..27] == "touch-action: manipulation;";
  }

  /** After those 27 characters comes the second declaration, `" -ms-touch-action: manipulation;"`. */
  lemma FragmentTailOmitsR()
    ensures 'r' !in Fragment[27..]
  {
    assert Fragment[27..] == " -ms-touch-action: manipulation;";
  }

  /** The mixin's fragment has no `r`, so it does not contain `cursor: pointer`. */
  lemma FragmentOmitsCursor()
    ensures !Contains(Fragment, "cursor: pointer")
  {
    FragmentHeadOmitsR();
    FragmentTailOmitsR();
    MissingFromSplit(Fragment, 27, 'r');
    assert "cursor: pointer"[2] == 'r';
    MissingCharExcludes(Fragment, "cursor: pointer", 'r');
  }

  lemma ClickWins(tagName: string, inputType: Option<string>)
    ensures TouchActionStyle(true, tagName, inputType) == Fragment
  {
  }

  lemma ExampleLinkAndSelect()
    ensures TouchActionStyle(false, "a", None) == Fragment
    ensures TouchActionStyle(false, "select", None) == Fragment
  {
  }

  lemma ExampleInputTypes()
    ensures TouchActionStyle(false, "input", Some("button")) == Fragment
    ensures TouchActionStyle(false, "input", Some("checkbox")) == ""
    ensures TouchActionStyle(false, "input", None) == ""
  {
    assert "input" !in ["select", "button", "a", "textarea"];
    assert Some("checkbox") !in [Some("button"), Some("submit"), Some("text"), Some("file")];
  }

  lemma ExampleDiv()
    ensures TouchActionStyle(false, "div", None) == ""
  {
  }
}
