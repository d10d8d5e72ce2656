/**
 * `Movement`: the older, signed-amount record of money in or out. Its type
 * is a symbol, inferred from the sign of the amount unless one is given.
 */
module Movements {
  import opened Wrappers
  import opened Calendar
  import opened Values

  /** `kind` holds the Ruby attribute `type`, a symbol such as `:income`. */
  datatype Movement = Movement(id: Option<int>, amount: int, date: Date, description: string,
                               kind: string, taxInfo: TaxInfo)

  /** `Movement.new(id: nil, amount:, date:, description:, type: nil, tax_info: {})` */
  function New(amount: int, date: Date, description: string,
               id: Option<int> := None, kind: Option<string> := None, taxInfo: TaxInfo := map[]): (r: Movement)
    ensures r.amount == amount && r.id == id && r.date == date && r.description == description
    ensures r.taxInfo == taxInfo
    ensures kind.Some? ==> r.kind == kind.value
    ensures kind.None? ==> (r.kind == "income" <==> amount >= 0) && (r.kind == "expense" <==> amount < 0)
  {
    Movement(id, amount, date, description,
             if kind.Some? then kind.value else if amount >= 0 then "income" else "expense", taxInfo)
  }

  /** The keys of `to_h`, in the order the hash lists them. */
  const MovementKeys: seq<string> := ["id", "amount", "date", "description", "type", "tax_info"]

  /** `to_h` */
  function ToH(m: Movement): (h: map<string, Value>)
    ensures h.Keys == set k | k in MovementKeys
  {
    map["id" := OptionalInt(m.id), "amount" := Int(m.amount), "date" := Day(m.date),
        "description" := Text(m.description), "type" := Symbol(m.kind), "tax_info" := Hash(m.taxInfo)]
  }

  /** Rebuilds a movement from a hash shaped like the one `to_h` returns. */
  function FromH(h: map<string, Value>): Option<Movement> {
    if !(forall k :: k in MovementKeys ==> k in h) then None
    else
      match (ReadOptionalInt(h["id"]), h["amount"], h["date"], h["description"], h["type"], h["tax_info"])
      case (Some(id), Int(amount), Day(date), Text(description), Symbol(kind), Hash(tax)) =>
        Some(Movement(id, amount, date, description, kind, tax))
      case _ => None
  }

  /** `to_h` loses nothing: the hash holds exactly the six stored fields. */
  lemma ToHRoundTrip(m: Movement)
    ensures FromH(ToH(m)) == Some(m)
  {
  }

  /** Two movements with the same hash are the same movement. */
  lemma ToHInjective(a: Movement, b: Movement)
    requires ToH(a) == ToH(b)
    ensures a == b
  {
    ToHRoundTrip(a);
    ToHRoundTrip(b);
  }

  /** An inferred type is always one of the two, and the sign of the amount can be read back from it. */
  lemma InferredKind(amount: int, date: Date, description: string)
    ensures var m := New(amount, date, description);
      (m.kind == "income" || m.kind == "expense") && (m.kind == "expense" <==> m.amount < 0)
  {
  }
}
