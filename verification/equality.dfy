/** Equality of IMEIs: by stored number, through `Equals(Imei)`, `Equals(object)` and the `==` and
    `!=` operators, with a hash code that is the stored `long`'s hash. */
module Equality {
  import opened Constants

  function Equals(a: Imei, b: Imei): (r: bool)
    ensures r <==> a == b
  {
    a.value == b.value
  }

  /** What `Equals(object)` may be handed: null, a boxed IMEI or any other object. */
  datatype Object = Null | Boxed(imei: Imei) | OtherObject

  function EqualsObject(a: Imei, obj: Object): (r: bool)
    ensures r <==> obj == Boxed(a)
  {
    obj.Boxed? && Equals(a, obj.imei)
  }

  /** `operator ==`. */
  function OpEquals(a: Imei, b: Imei): (r: bool)
    ensures r <==> a.value == b.value
  {
    Equals(a, b)
  }

  /** `operator !=`. */
  function OpNotEquals(a: Imei, b: Imei): (r: bool)
    ensures r <==> a.value != b.value
  {
    !Equals(a, b)
  }

  /** The hash code: the stored `long`'s own hash, which belongs to the platform and is passed in. */
  function GetHashCode(imei: Imei, longHash: Int64 -> int): int {
    longHash(imei.value)
  }

  // ---------------------------------------------------------------------------------------------
  // Properties

  /** `==` is an equivalence relation, `!=` is its negation, and `Equals(object)` agrees with
      `Equals(Imei)` on a boxed IMEI and is false for null and for any other object. */
  lemma EqualityLaws(a: Imei, b: Imei, c: Imei)
    ensures OpEquals(a, a)
    ensures OpEquals(a, b) == OpEquals(b, a)
    ensures OpEquals(a, b) && OpEquals(b, c) ==> OpEquals(a, c)
    ensures OpNotEquals(a, b) == !OpEquals(a, b)
    ensures EqualsObject(a, Boxed(b)) == Equals(a, b)
    ensures !EqualsObject(a, Null) && !EqualsObject(a, OtherObject)
  {
  }

  /** Equal IMEIs hash alike, whatever the platform's hash of a `long` is. */
  lemma HashRespectsEquality(a: Imei, b: Imei, longHash: Int64 -> int)
    ensures Equals(a, b) ==> GetHashCode(a, longHash) == GetHashCode(b, longHash)
  {
  }

  /** The outcomes the source's tests expect for two sample IMEIs. */
  lemma EqualityExamples()
    ensures OpEquals(Imei(490154203237518), Imei(490154203237518))
    ensures !OpEquals(Imei(490154203237518), Imei(356303489916807))
    ensures OpNotEquals(Imei(490154203237518), Imei(356303489916807))
  {
  }
}
