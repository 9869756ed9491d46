/**
 * The small part of JavaScript's value semantics that the touch-action
 * code relies on: truthiness, strict equality and `Array.prototype.indexOf`.
 * Objects carry a payload of type T; two objects are compared by payload,
 * which only matters for object-to-object comparisons (the code makes none).
 */
module Js {

  datatype Value<T> = Undefined | Boolean(b: bool) | Str(s: string) | Object(obj: T)

  /** JavaScript truthiness: `false`, `undefined` and `""` are falsy, every object is truthy. */
  predicate Truthy<T>(v: Value<T>) {
    match v
    case Undefined => false
    case Boolean(b) => b
    case Str(s) => s != ""
    case Object(_) => true
  }

  /** `x === y`: same kind of value and same content. */
  predicate StrictEquals<T(==)>(x: Value<T>, y: Value<T>) {
    x == y
  }

  /** An array literal of strings, as JavaScript values. */
  function Strings<T>(ss: seq<string>): (r: seq<Value<T>>)
    ensures |r| == |ss|
    ensures forall i :: 0 <= i < |ss| ==> r[i] == Str(ss[i])
  {
    seq(|ss|, i requires 0 <= i < |ss| => Str(ss[i]))
  }

  /** `list.indexOf(x)`: the first position strictly equal to `x`, or -1. */
  function IndexOf<T(==)>(list: seq<Value<T>>, x: Value<T>): (r: int)
    ensures -1 <= r < |list|
    ensures r == -1 <==> forall i :: 0 <= i < |list| ==> !StrictEquals(list[i], x)
    ensures r != -1 ==> StrictEquals(list[r], x) && forall i :: 0 <= i < r ==> !StrictEquals(list[i], x)
    decreases |list|
  {
    if |list| == 0 then -1
    else if StrictEquals(list[0], x) then 0
    else
      var k := IndexOf(list[1..], x);
      if k == -1 then -1 else k + 1
  }

  /** `list.indexOf(s)` on a list of strings: it finds `s` exactly when `s` is a member. */
  function StringIndexOf(list: seq<string>, s: string): (r: int)
    ensures r != -1 <==> s in list
    ensures r != -1 ==> 0 <= r < |list| && list[r] == s
  {
    StringsFind(list, s);
    IndexOf(Strings<()>(list), Str(s))
  }

  /** A member string of the list has a strictly equal string value in its array literal. */
  lemma StringsFind(list: seq<string>, s: string)
    ensures s in list ==> exists i :: 0 <= i < |list| && StrictEquals(Strings<()>(list)[i], Str(s))
  {
    if s in list {
      var i :| 0 <= i < |list| && list[i] == s;
      assert StrictEquals(Strings<()>(list)[i], Str(s));
    }
  }

  /** Looking anything but a string up in a string list never finds it. */
  lemma IndexOfNonString<T>(ss: seq<string>, x: Value<T>)
    requires !x.Str?
    ensures IndexOf(Strings<T>(ss), x) == -1
  {
    var list := Strings<T>(ss);
    forall i | 0 <= i < |list| ensures !StrictEquals(list[i], x) {
      assert list[i].Str?;
    }
  }
}
