/**
 * Property lookup on a plain JavaScript object literal such as the parsers' `keywords`
 * table: a name the literal does not define can still find a member every object
 * inherits from `Object.prototype`.
 */
module JsObject {
  import opened JsText

  /** What calling an inherited `Object.prototype` member as `handler(parts, unparsedArgs)` does. */
  datatype Inherited =
    | NotInherited   // the lookup yields undefined
    | HarmlessCall   // `constructor` and `toString` return a value and change nothing
    | Throws         // a TypeError: the member needs an object `this`, or is not callable

  /** The members of `Object.prototype` that return a value when called with `this` undefined. */
  function HarmlessMembers(): (names: set<string>)
    ensures forall n :: n in names ==> IsKeyword(n)
  {
    {"constructor", "toString"}
  }

  /** The legacy accessor methods of `Object.prototype`; each needs an object `this`. */
  function AccessorMembers(): (names: set<string>)
    ensures forall n :: n in names ==> IsKeyword(n)
  {
    {"__defineGetter__", "__defineSetter__", "__lookupGetter__", "__lookupSetter__"}
  }

  /** The other methods of `Object.prototype`, each needing an object `this`, and the `__proto__` accessor. */
  function ReflectionMembers(): (names: set<string>)
    ensures forall n :: n in names ==> IsKeyword(n)
  {
    {"valueOf", "hasOwnProperty", "isPrototypeOf", "propertyIsEnumerable", "toLocaleString", "__proto__"}
  }

  /**
   * The members of `Object.prototype`. Called with `this` undefined (a plain call in
   * strict mode), all but `constructor` and `toString` throw; `__proto__` is an object,
   * not a function, so calling it throws as well. Every such name is made of word
   * characters, so a line holding only that name reaches the lookup with it as keyword.
   */
  function InheritedMember(name: string): (r: Inherited)
    ensures r != NotInherited ==> IsKeyword(name)
  {
    if name in HarmlessMembers() then HarmlessCall
    else if name in AccessorMembers() || name in ReflectionMembers() then Throws
    else NotInherited
  }
}
