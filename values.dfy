/** The values that `to_h` puts in a Ruby hash, and the helpers both value objects share. */
module Values {
  import opened Wrappers
  import opened Calendar

  /** Account identifiers, as stored in the ledger. */
  type AccountId = int

  /** The `tax_info` hash, modelled with string keys and values. */
  type TaxInfo = map<string, string>

  /** A value of a `to_h` hash: `nil`, an integer, a string, a date, a symbol or a nested hash. */
  datatype Value = Nil | Int(i: int) | Text(s: string) | Day(d: Date) | Symbol(name: string) | Hash(h: TaxInfo)

  /** `nil` for an absent id, the integer otherwise. */
  function OptionalInt(x: Option<int>): (v: Value)
    ensures v.Nil? <==> x.None?
    ensures x.Some? ==> v == Int(x.value)
  {
    if x.Some? then Int(x.value) else Nil
  }

  /** Reads back an optional integer written by `OptionalInt`. */
  function ReadOptionalInt(v: Value): (r: Option<Option<int>>)
    ensures forall x :: r == Some(x) ==> OptionalInt(x) == v
  {
    match v
    case Nil => Some(None)
    case Int(i) => Some(Some(i))
    case _ => None
  }

  /** `x.abs` */
  function Abs(x: int): (r: nat)
    ensures r == x || r == -x
  {
    if x < 0 then -x else x
  }
}
