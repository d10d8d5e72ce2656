/**
 * `Flow`: one predicted or recorded transfer of an unsigned amount from a
 * source account to a destination account. Its direction relative to an
 * account comes only from the two account ids.
 */
module Flows {
  import opened Wrappers
  import opened Calendar
  import opened Values

  datatype Flow = Flow(id: Option<int>, amount: nat, date: Date, description: string,
                       sourceId: AccountId, destinationId: AccountId, taxInfo: TaxInfo)

  /** `:outflow`, `:inflow` or `:neutral`. */
  datatype FlowType = Outflow | Inflow | Neutral

  /** `Flow.new(id: nil, amount:, date:, description:, source_id:, destination_id:, tax_info: {})` */
  function New(amount: int, date: Date, description: string, sourceId: AccountId, destinationId: AccountId,
               id: Option<int> := None, taxInfo: TaxInfo := map[]): (r: Flow)
    ensures r.amount >= 0 && (r.amount == amount || r.amount == -amount)
    ensures r.id == id && r.date == date && r.description == description
    ensures r.sourceId == sourceId && r.destinationId == destinationId && r.taxInfo == taxInfo
  {
    Flow(id, Abs(amount), date, description, sourceId, destinationId, taxInfo)
  }

  /** The keys of `to_h`, in the order the hash lists them. */
  const FlowKeys: seq<string> := ["id", "amount", "date", "description", "source_id", "destination_id", "tax_info"]

  /** `to_h` */
  function ToH(f: Flow): (h: map<string, Value>)
    ensures h.Keys == set k | k in FlowKeys
  {
    map["id" := OptionalInt(f.id), "amount" := Int(f.amount), "date" := Day(f.date),
        "description" := Text(f.description), "source_id" := Int(f.sourceId),
        "destination_id" := Int(f.destinationId), "tax_info" := Hash(f.taxInfo)]
  }

  /** Rebuilds a flow from a hash shaped like the one `to_h` returns. */
  function FromH(h: map<string, Value>): Option<Flow> {
    if !(forall k :: k in FlowKeys ==> k in h) then None
    else
      match (ReadOptionalInt(h["id"]), h["amount"], h["date"], h["description"],
             h["source_id"], h["destination_id"], h["tax_info"])
      case (Some(id), Int(amount), Day(date), Text(description), Int(source), Int(destination), Hash(tax)) =>
        if amount < 0 then None else Some(Flow(id, amount, date, description, source, destination, tax))
      case _ => None
  }

  /** `to_h` loses nothing: the hash holds exactly the seven stored fields. */
  lemma ToHRoundTrip(f: Flow)
    ensures FromH(ToH(f)) == Some(f)
  {
  }

  /** Two flows with the same hash are the same flow. */
  lemma ToHInjective(a: Flow, b: Flow)
    requires ToH(a) == ToH(b)
    ensures a == b
  {
    ToHRoundTrip(a);
    ToHRoundTrip(b);
  }

  /** `value_for(account_id)`: the signed effect of the flow on an account, the source checked first. */
  function ValueFor(f: Flow, account: AccountId): (v: int)
    ensures v == 0 || v == f.amount || v == -(f.amount as int)
    ensures v != 0 ==> account == f.sourceId || account == f.destinationId
    ensures v < 0 ==> account == f.sourceId
  {
    if f.sourceId == account then -(f.amount as int)
    else if f.destinationId == account then f.amount
    else 0
  }

  /** `type_for(account_id)`, with the same source-first priority. */
  function TypeFor(f: Flow, account: AccountId): (t: FlowType)
    ensures t == Neutral <==> account != f.sourceId && account != f.destinationId
  {
    if f.sourceId == account then Outflow
    else if f.destinationId == account then Inflow
    else Neutral
  }

  /** The signed value is the amount with the sign of the type. */
  lemma ValueMatchesType(f: Flow, account: AccountId)
    ensures ValueFor(f, account) ==
              match TypeFor(f, account)
              case Outflow => -(f.amount as int)
              case Inflow => f.amount
              case Neutral => 0
    ensures TypeFor(f, account) == Outflow <==> account == f.sourceId
    ensures TypeFor(f, account) == Inflow <==> account == f.destinationId && account != f.sourceId
  {
  }

  /** For a flow that moves money, the sign of the value decides the type. */
  lemma SignDecidesType(f: Flow, account: AccountId)
    requires f.amount > 0
    ensures ValueFor(f, account) < 0 <==> TypeFor(f, account) == Outflow
    ensures ValueFor(f, account) > 0 <==> TypeFor(f, account) == Inflow
    ensures ValueFor(f, account) == 0 <==> TypeFor(f, account) == Neutral
  {
  }

  /** A transfer to oneself only debits. */
  lemma SelfTransferDebits(f: Flow)
    requires f.sourceId == f.destinationId
    ensures ValueFor(f, f.sourceId) == -(f.amount as int) && TypeFor(f, f.sourceId) == Outflow
  {
  }

  /** Between two different accounts a flow nets to zero: what leaves one arrives at the other. */
  lemma TransferNetsToZero(f: Flow)
    requires f.sourceId != f.destinationId
    ensures ValueFor(f, f.sourceId) + ValueFor(f, f.destinationId) == 0
    ensures ValueFor(f, f.sourceId) == -(f.amount as int) && ValueFor(f, f.destinationId) == f.amount
  {
  }

  /** Every other account is untouched. */
  lemma BystanderUntouched(f: Flow, account: AccountId)
    requires account != f.sourceId && account != f.destinationId
    ensures ValueFor(f, account) == 0 && TypeFor(f, account) == Neutral
  {
  }
}
