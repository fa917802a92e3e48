/** The budget ledger: an event-sourced account of what operations reserve and what they turn out to cost. */
module BudgetLedger {
  import opened Base

  /** Amounts per dimension: duration, tokens, cost, tool calls. */
  type Amounts = q: seq<u64> | |q| == 4 witness [0, 0, 0, 0]

  datatype Measurement = Observed(amount: u64) | Estimated(amount: u64) | Unknown

  type Measures = m: seq<Measurement> | |m| == 4 witness [Unknown, Unknown, Unknown, Unknown]

  /** A ceiling per dimension, where there is one, and the currency of the cost ceiling. */
  datatype Limits = Limits(ceilings: seq<Option<u64>>, currency: Option<string>)

  type BudgetLimits = l: Limits | |l.ceilings| == 4 witness Limits([None, None, None, None], None)

  datatype Reconciliation = Reconciliation(id: string, measured: Measures)

  datatype Reservation = Reservation(
    operation: string, amounts: Amounts, estimate: Measures, reconciliation: Option<Reconciliation>)

  datatype Ledger = Ledger(
    account: Option<string>, limits: Option<BudgetLimits>, version: nat, reservations: map<string, Reservation>)

  datatype Event =
    | Opened(account: string, limits: BudgetLimits)
    | Reserved(account: string, id: string, operation: string, amounts: Amounts, estimate: Measures)
    | Reconciled(account: string, id: string, reconciliation: string, measured: Measures)

  datatype BudgetError =
    | NotOpen | AlreadyOpen | OpenedDifferently | OtherAccount
    | MissingEstimate(dimension: nat) | Exhausted(dimension: nat) | Overflow
    | ReservationExists | ReservationConflict | ReservationNotFound | ReconciliationConflict

  /** How reservation ids are derived from account and operation. */
  type Naming = (string, string) -> string

  const EMPTY := Ledger(None, None, 0, map[])

  // -------------------------------------------------------------------- charges

  /** What a measurement charges: its amount, or the reserved amount while it is unknown. */
  function ChargeOf(m: Measurement, reserved: u64): u64 {
    match m
    case Observed(v) => v
    case Estimated(v) => v
    case Unknown => reserved
  }

  function Charge(r: Reservation, d: nat): u64
    requires d < 4
  {
    match r.reconciliation
    case None => r.amounts[d]
    case Some(rec) => ChargeOf(rec.measured[d], r.amounts[d])
  }

  /** The column a charge is reported under. */
  datatype Column = ReservedColumn | ObservedColumn | EstimatedColumn | UnconfirmedColumn

  function ColumnOf(r: Reservation, d: nat): Column
    requires d < 4
  {
    match r.reconciliation
    case None => ReservedColumn
    case Some(rec) =>
      match rec.measured[d]
      case Observed(_) => ObservedColumn
      case Estimated(_) => EstimatedColumn
      case Unknown => UnconfirmedColumn
  }

  type Weight = Reservation -> nat

  function ChargeIn(d: nat): Weight
    requires d < 4
  {
    (r: Reservation) => Charge(r, d)
  }

  /**
   * What a reservation adds to a column: what is set aside, until it is reconciled; then what was observed, what was
   * estimated, or, while nothing is known, again what was set aside.
   */
  function ColumnIn(c: Column, d: nat): Weight
    requires d < 4
  {
    (r: Reservation) =>
      match c
      case ReservedColumn => if r.reconciliation.None? then r.amounts[d] else 0
      case ObservedColumn =>
        if r.reconciliation.Some? && r.reconciliation.value.measured[d].Observed?
        then r.reconciliation.value.measured[d].amount else 0
      case EstimatedColumn =>
        if r.reconciliation.Some? && r.reconciliation.value.measured[d].Estimated?
        then r.reconciliation.value.measured[d].amount else 0
      case UnconfirmedColumn =>
        if r.reconciliation.Some? && r.reconciliation.value.measured[d].Unknown? then r.amounts[d] else 0
  }

  /** The sum over all reservations. */
  ghost function Sum(m: map<string, Reservation>, weight: Weight): nat
    decreases |m|
  {
    if m == map[] then 0
    else
      var id :| id in m;
      weight(m[id]) + Sum(m - {id}, weight)
  }

  lemma {:induction false} SumTakes(m: map<string, Reservation>, weight: Weight, id: string)
    requires id in m
    ensures Sum(m, weight) == weight(m[id]) + Sum(m - {id}, weight)
    decreases |m|
  {
    var first :| first in m && Sum(m, weight) == weight(m[first]) + Sum(m - {first}, weight);
    if first != id {
      SumTakes(m - {first}, weight, id);
      SumTakes(m - {id}, weight, first);
      assert m - {first} - {id} == m - {id} - {first};
    }
  }

  lemma {:induction false} SumAdds(m: map<string, Reservation>, weight: Weight, id: string, r: Reservation)
    requires id !in m
    ensures Sum(m[id := r], weight) == weight(r) + Sum(m, weight)
  {
    SumTakes(m[id := r], weight, id);
    assert m[id := r] - {id} == m;
  }

  lemma {:induction false} SumReplaces(m: map<string, Reservation>, weight: Weight, id: string, r: Reservation)
    requires id in m
    ensures Sum(m[id := r], weight) == Sum(m, weight) - weight(m[id]) + weight(r)
  {
    SumTakes(m, weight, id);
    SumTakes(m[id := r], weight, id);
    assert m[id := r] - {id} == m - {id};
  }

  lemma {:induction false} SumOfFour(m: map<string, Reservation>, w: Weight, a: Weight, b: Weight, c: Weight, e: Weight)
    requires forall r :: w(r) == a(r) + b(r) + c(r) + e(r)
    ensures Sum(m, w) == Sum(m, a) + Sum(m, b) + Sum(m, c) + Sum(m, e)
    decreases |m|
  {
    if m != map[] {
      var id :| id in m;
      SumOfFour(m - {id}, w, a, b, c, e);
      SumTakes(m, w, id);
      SumTakes(m, a, id);
      SumTakes(m, b, id);
      SumTakes(m, c, id);
      SumTakes(m, e, id);
    }
  }

  /** The columns partition the charges. */
  lemma {:induction false} ColumnsAddUp(m: map<string, Reservation>, d: nat)
    requires d < 4
    ensures Sum(m, ChargeIn(d)) ==
              Sum(m, ColumnIn(ReservedColumn, d)) + Sum(m, ColumnIn(ObservedColumn, d))
              + Sum(m, ColumnIn(EstimatedColumn, d)) + Sum(m, ColumnIn(UnconfirmedColumn, d))
  {
    SumOfFour(m, ChargeIn(d), ColumnIn(ReservedColumn, d), ColumnIn(ObservedColumn, d),
              ColumnIn(EstimatedColumn, d), ColumnIn(UnconfirmedColumn, d));
  }

  /** What the ledger charges in a dimension, and the ceiling there. */
  ghost function Charged(l: Ledger, d: nat): nat
    requires d < 4
  {
    Sum(l.reservations, ChargeIn(d))
  }

  function Ceiling(l: Ledger, d: nat): u64
    requires d < 4 && l.limits.Some?
  {
    match l.limits.value.ceilings[d]
    case None => U64_MAX
    case Some(v) => v
  }

  // -------------------------------------------------------------------- balance

  datatype Balance = Balance(
    reserved: Amounts, observed: Amounts, estimated: Amounts, unconfirmed: Amounts,
    overrun: Amounts, available: Amounts)

  /**
   * The columns are the sums of their charges; ceiling plus overrun is charges plus what is available. Where there
   * is no ceiling nothing overruns, and what is available is what a `u64` can still count.
   */
  ghost predicate Balances(l: Ledger, b: Balance)
    requires l.limits.Some?
  {
    forall d :: 0 <= d < 4 ==> BalancesIn(l, b, d)
  }

  ghost predicate BalancesIn(l: Ledger, b: Balance, d: nat)
    requires l.limits.Some? && d < 4
  {
    && b.reserved[d] == Sum(l.reservations, ColumnIn(ReservedColumn, d))
    && b.observed[d] == Sum(l.reservations, ColumnIn(ObservedColumn, d))
    && b.estimated[d] == Sum(l.reservations, ColumnIn(EstimatedColumn, d))
    && b.unconfirmed[d] == Sum(l.reservations, ColumnIn(UnconfirmedColumn, d))
    && match l.limits.value.ceilings[d]
       case None => b.overrun[d] == 0 && Charged(l, d) + b.available[d] == U64_MAX
       case Some(ceiling) =>
         && Charged(l, d) + b.available[d] == ceiling + b.overrun[d]
         && (b.available[d] == 0 || b.overrun[d] == 0)
  }

  /** Running totals, one per column, over a part of the reservations. */
  datatype Tally = Tally(reserved: Amounts, observed: Amounts, estimated: Amounts, unconfirmed: Amounts)

  ghost predicate TalliesIn(m: map<string, Reservation>, t: Tally, d: nat)
    requires d < 4
  {
    && t.reserved[d] == Sum(m, ColumnIn(ReservedColumn, d))
    && t.observed[d] == Sum(m, ColumnIn(ObservedColumn, d))
    && t.estimated[d] == Sum(m, ColumnIn(EstimatedColumn, d))
    && t.unconfirmed[d] == Sum(m, ColumnIn(UnconfirmedColumn, d))
  }

  function ColumnAt(t: Tally, c: Column, d: nat): u64
    requires d < 4
  {
    match c
    case ReservedColumn => t.reserved[d]
    case ObservedColumn => t.observed[d]
    case EstimatedColumn => t.estimated[d]
    case UnconfirmedColumn => t.unconfirmed[d]
  }

  /** `add_at`: adds one charge to its column, unless the column would overflow. */
  function AddAt(t: Tally, c: Column, d: nat, v: u64): Option<Tally>
    requires d < 4
  {
    if ColumnAt(t, c, d) + v > U64_MAX then None
    else
      match c
      case ReservedColumn => Some(t.(reserved := t.reserved[d := t.reserved[d] + v]))
      case ObservedColumn => Some(t.(observed := t.observed[d := t.observed[d] + v]))
      case EstimatedColumn => Some(t.(estimated := t.estimated[d := t.estimated[d] + v]))
      case UnconfirmedColumn => Some(t.(unconfirmed := t.unconfirmed[d := t.unconfirmed[d] + v]))
  }

  lemma {:induction false} ColumnGrows(m: map<string, Reservation>, id: string, r: Reservation, c: Column, d: nat)
    requires d < 4 && id !in m
    ensures Sum(m[id := r], ColumnIn(c, d)) ==
              Sum(m, ColumnIn(c, d)) + if ColumnOf(r, d) == c then Charge(r, d) else 0
  {
    SumAdds(m, ColumnIn(c, d), id, r);
  }

  lemma {:induction false} TallyGrows(m: map<string, Reservation>, t: Tally, id: string, r: Reservation, d: nat)
    requires d < 4 && id !in m && TalliesIn(m, t, d)
    ensures var t' := AddAt(t, ColumnOf(r, d), d, Charge(r, d));
            && (t'.Some? ==> TalliesIn(m[id := r], t'.value, d))
            && (t'.None? ==> Sum(m[id := r], ColumnIn(ColumnOf(r, d), d)) > U64_MAX)
  {
    ColumnGrows(m, id, r, ReservedColumn, d);
    ColumnGrows(m, id, r, ObservedColumn, d);
    ColumnGrows(m, id, r, EstimatedColumn, d);
    ColumnGrows(m, id, r, UnconfirmedColumn, d);
  }

  ghost predicate Tallies(m: map<string, Reservation>, t: Tally, from: nat, to: nat) {
    forall d :: from <= d < to <= 4 ==> TalliesIn(m, t, d)
  }

  lemma {:induction false} AddAtElsewhere(t: Tally, c: Column, d: nat, v: u64, m: map<string, Reservation>, i: nat)
    requires d < 4 && i < 4 && i != d && AddAt(t, c, d, v).Some?
    ensures TalliesIn(m, AddAt(t, c, d, v).value, i) <==> TalliesIn(m, t, i)
  {
  }

  /** Adds the charges of one reservation in all four dimensions. */
  method Classify(t: Tally, r: Reservation, ghost m: map<string, Reservation>, ghost id: string)
    returns (t': Option<Tally>)
    requires id !in m && Tallies(m, t, 0, 4)
    ensures t'.Some? ==> Tallies(m[id := r], t'.value, 0, 4)
    ensures t'.None? ==> exists d, c :: 0 <= d < 4 && Sum(m[id := r], ColumnIn(c, d)) > U64_MAX
  {
    ghost var more := m[id := r];
    t' := Some(t);
    for d := 0 to 4
      invariant t'.Some? && Tallies(more, t'.value, 0, d) && Tallies(m, t'.value, d, 4)
    {
      TallyGrows(m, t'.value, id, r, d);
      ghost var before := t'.value;
      t' := AddAt(t'.value, ColumnOf(r, d), d, Charge(r, d));
      if t'.None? {
        return;
      }
      forall i | 0 <= i < d ensures TalliesIn(more, t'.value, i) {
        AddAtElsewhere(before, ColumnOf(r, d), d, Charge(r, d), more, i);
      }
      forall i | d < i < 4 ensures TalliesIn(m, t'.value, i) {
        AddAtElsewhere(before, ColumnOf(r, d), d, Charge(r, d), m, i);
      }
    }
  }

  lemma {:induction false} ColumnWithinCharge(m: map<string, Reservation>, c: Column, d: nat)
    requires d < 4
    ensures Sum(m, ColumnIn(c, d)) <= Sum(m, ChargeIn(d))
  {
    ColumnsAddUp(m, d);
  }

  lemma {:induction false} SumOfPart(part: map<string, Reservation>, all: map<string, Reservation>, weight: Weight)
    requires part.Keys <= all.Keys && forall id :: id in part ==> part[id] == all[id]
    ensures Sum(part, weight) <= Sum(all, weight)
    decreases |part|
  {
    if part != map[] {
      var id :| id in part;
      SumOfPart(part - {id}, all - {id}, weight);
      SumTakes(part, weight, id);
      SumTakes(all, weight, id);
    }
  }

  /** Totals that fit in a `u64` in every dimension. */
  ghost predicate Countable(l: Ledger) {
    forall d :: 0 <= d < 4 ==> Charged(l, d) <= U64_MAX
  }

  lemma {:induction false} OverflowingPart(l: Ledger, part: map<string, Reservation>)
    requires part.Keys <= l.reservations.Keys && forall id :: id in part ==> part[id] == l.reservations[id]
    requires exists d, c :: 0 <= d < 4 && Sum(part, ColumnIn(c, d)) > U64_MAX
    ensures !Countable(l)
  {
    var d, c :| 0 <= d < 4 && Sum(part, ColumnIn(c, d)) > U64_MAX;
    ColumnWithinCharge(part, c, d);
    SumOfPart(part, l.reservations, ChargeIn(d));
    assert Charged(l, d) > U64_MAX;
  }

  /** The loop over the reservations. */
  method TallyAll(l: Ledger) returns (r: Option<Tally>)
    ensures r.Some? ==> Tallies(l.reservations, r.value, 0, 4)
    ensures r.None? ==> !Countable(l)
  {
    var zero: Amounts := [0, 0, 0, 0];
    var t := Tally(zero, zero, zero, zero);
    ghost var done: map<string, Reservation> := map[];
    var left := l.reservations.Keys;
    while left != {}
      invariant left <= l.reservations.Keys && done.Keys == l.reservations.Keys - left
      invariant forall id :: id in done ==> done[id] == l.reservations[id]
      invariant Tallies(done, t, 0, 4)
      decreases |left|
    {
      var id :| id in left;
      var t' := Classify(t, l.reservations[id], done, id);
      done := done[id := l.reservations[id]];
      if t'.None? {
        OverflowingPart(l, done);
        return None;
      }
      t, left := t'.value, left - {id};
    }
    assert done == l.reservations;
    r := Some(t);
  }

  /** `balance`: fails on a closed ledger and when a total overflows, and otherwise adds up. */
  method BalanceOf(l: Ledger) returns (r: Result<Balance, BudgetError>)
    ensures l.limits.None? ==> r == Err(NotOpen)
    ensures l.limits.Some? ==> (r.Ok? <==> Countable(l)) && (r.Err? ==> r == Err(Overflow))
    ensures l.limits.Some? && r.Ok? ==> Balances(l, r.value)
  {
    if l.limits.None? {
      return Err(NotOpen);
    }
    var t := TallyAll(l);
    if t.None? {
      return Err(Overflow);
    }
    r := Compare(l, t.value);
  }

  /** The sums over the columns and the comparison with the ceilings. */
  method Compare(l: Ledger, t: Tally) returns (r: Result<Balance, BudgetError>)
    requires l.limits.Some? && Tallies(l.reservations, t, 0, 4)
    ensures r.Ok? <==> Countable(l)
    ensures r.Err? ==> r == Err(Overflow)
    ensures r.Ok? ==> Balances(l, r.value)
  {
    var overrun: Amounts, available: Amounts := [0, 0, 0, 0], [0, 0, 0, 0];
    for d := 0 to 4
      invariant forall i :: 0 <= i < d ==> Charged(l, i) <= U64_MAX
      invariant forall i :: 0 <= i < d ==>
                  Charged(l, i) + available[i] == Ceiling(l, i) + overrun[i] && (available[i] == 0 || overrun[i] == 0)
    {
      ColumnsAddUp(l.reservations, d);
      assert TalliesIn(l.reservations, t, d);
      var charged: nat := t.reserved[d] as int + t.observed[d] as int + t.estimated[d] as int + t.unconfirmed[d] as int;
      assert charged == Charged(l, d);
      if charged > U64_MAX {
        return Err(Overflow);
      }
      var ceiling := Ceiling(l, d);
      available := available[d := if charged <= ceiling then ceiling - charged else 0];
      overrun := overrun[d := if ceiling <= charged then charged - ceiling else 0];
    }
    r := Ok(Balance(t.reserved, t.observed, t.estimated, t.unconfirmed, overrun, available));
    forall d | 0 <= d < 4 ensures BalancesIn(l, r.value, d) {
      assert TalliesIn(l.reservations, t, d);
    }
  }

  // ------------------------------------------------------------------- capacity

  /** The first dimension from `d` on in which `p` holds. */
  function FirstWhere(p: nat -> bool, d: nat): (r: Option<nat>)
    ensures r.Some? ==> d <= r.value < 4 && p(r.value) && forall i :: d <= i < r.value ==> !p(i)
    ensures r.None? ==> forall i :: d <= i < 4 ==> !p(i)
    decreases 4 - d
  {
    if d >= 4 then None else if p(d) then Some(d) else FirstWhere(p, d + 1)
  }

  /** Countable, and not above the ceiling where there is one. */
  predicate Within(ceiling: Option<u64>, amount: nat) {
    amount <= U64_MAX && (ceiling.Some? ==> amount <= ceiling.value)
  }

  ghost function IsOverrun(l: Ledger): nat -> bool
    requires l.limits.Some?
  {
    (d: nat) => d < 4 && !Within(l.limits.value.ceilings[d], Charged(l, d))
  }

  ghost function IsShort(l: Ledger, wanted: Amounts): nat -> bool
    requires l.limits.Some?
  {
    (d: nat) => d < 4 && !Within(l.limits.value.ceilings[d], Charged(l, d) + wanted[d])
  }

  /** Why a request is turned away: an overflow, an overrun anywhere, or too little left somewhere. */
  ghost function CapacityError(l: Ledger, wanted: Amounts): Option<BudgetError> {
    if l.account.None? || l.limits.None? then Some(NotOpen)
    else if !Countable(l) then Some(Overflow)
    else if FirstWhere(IsOverrun(l), 0).Some? then Some(Exhausted(FirstWhere(IsOverrun(l), 0).value))
    else if FirstWhere(IsShort(l, wanted), 0).Some? then Some(Exhausted(FirstWhere(IsShort(l, wanted), 0).value))
    else None
  }

  /** Within every ceiling, the request included. */
  ghost predicate Fits(l: Ledger, wanted: Amounts)
    requires l.limits.Some?
  {
    forall d :: 0 <= d < 4 ==> Within(l.limits.value.ceilings[d], Charged(l, d) + wanted[d])
  }

  lemma {:induction false} CapacityIff(l: Ledger, wanted: Amounts)
    requires l.account.Some? && l.limits.Some?
    ensures CapacityError(l, wanted).None? <==> Fits(l, wanted)
  {
  }

  /** What the balance says about a dimension. */
  lemma {:induction false} BalanceShows(l: Ledger, b: Balance, wanted: Amounts, d: nat)
    requires l.limits.Some? && d < 4 && BalancesIn(l, b, d) && Charged(l, d) <= U64_MAX
    ensures b.overrun[d] > 0 <==> !Within(l.limits.value.ceilings[d], Charged(l, d))
    ensures b.overrun[d] == 0 ==>
              (wanted[d] > b.available[d] <==> !Within(l.limits.value.ceilings[d], Charged(l, d) + wanted[d]))
  {
  }

  /** `ensure_capacity`, by way of the balance. */
  method EnsureCapacity(l: Ledger, wanted: Amounts) returns (e: Option<BudgetError>)
    requires l.account.Some? ==> l.limits.Some?
    ensures e == CapacityError(l, wanted)
  {
    if l.account.None? {
      return Some(NotOpen);
    }
    var balance := BalanceOf(l);
    if balance.Err? {
      return Some(balance.error);
    }
    var b := balance.value;
    forall d | 0 <= d < 4 ensures b.overrun[d] > 0 <==> IsOverrun(l)(d) {
      BalanceShows(l, b, wanted, d);
    }
    var over := FirstWhere((d: nat) => d < 4 && b.overrun[d] > 0, 0);
    SameFirst((d: nat) => d < 4 && b.overrun[d] > 0, IsOverrun(l), 0);
    if over.Some? {
      return Some(Exhausted(over.value));
    }
    var short := FirstWhere((d: nat) => d < 4 && wanted[d] > b.available[d], 0);
    forall d | 0 <= d < 4 ensures wanted[d] > b.available[d] <==> IsShort(l, wanted)(d) {
      assert !IsOverrun(l)(d);
      BalanceShows(l, b, wanted, d);
    }
    SameFirst((d: nat) => d < 4 && wanted[d] > b.available[d], IsShort(l, wanted), 0);
    if short.Some? {
      return Some(Exhausted(short.value));
    }
    return None;
  }

  lemma {:induction false} SameFirst(p: nat -> bool, q: nat -> bool, d: nat)
    requires forall i :: d <= i < 4 ==> (p(i) <==> q(i))
    ensures FirstWhere(p, d) == FirstWhere(q, d)
    decreases 4 - d
  {
  }

  // ------------------------------------------------------------------ decisions

  predicate Unbounded(m: Measurement, ceiling: Option<u64>) {
    m.Unknown? && ceiling.Some?
  }

  /** The amounts an estimate reserves; an unknown amount is only allowed where there is no ceiling. */
  function AmountsOf(estimate: Measures, limits: BudgetLimits): Result<Amounts, BudgetError> {
    match FirstWhere((d: nat) => d < 4 && Unbounded(estimate[d], limits.ceilings[d]), 0)
    case Some(d) => Err(MissingEstimate(d))
    case None =>
      Ok([ChargeOf(estimate[0], 0), ChargeOf(estimate[1], 0), ChargeOf(estimate[2], 0), ChargeOf(estimate[3], 0)])
  }

  ghost predicate LacksEstimate(estimate: Measures, limits: BudgetLimits, d: nat)
    requires d < 4
  {
    estimate[d] == Unknown && limits.ceilings[d] != None
  }

  /** Every known amount is reserved as it is and an unknown one as nothing, unless some ceiling has no estimate. */
  lemma {:induction false} AmountsAre(estimate: Measures, limits: BudgetLimits)
    ensures match AmountsOf(estimate, limits)
            case Err(e) =>
              && e.MissingEstimate? && e.dimension < 4 && LacksEstimate(estimate, limits, e.dimension)
              && forall d :: 0 <= d < e.dimension ==> !LacksEstimate(estimate, limits, d)
            case Ok(amounts) =>
              forall d :: 0 <= d < 4 ==>
                && !LacksEstimate(estimate, limits, d)
                && amounts[d] == if estimate[d] == Unknown then 0 else estimate[d].amount
  {
  }

  function Quality(m: Measurement): nat {
    match m case Unknown => 0 case Estimated(_) => 1 case Observed(_) => 2
  }

  /** A later measurement is at least as good in every dimension and better in one. */
  predicate Improves(m: Measures, previous: Measures) {
    && (forall d :: 0 <= d < 4 ==> Quality(m[d]) >= Quality(previous[d]))
    && (exists d :: 0 <= d < 4 && Quality(m[d]) > Quality(previous[d]))
  }

  type Decision = Result<Option<Event>, BudgetError>

  function DecideOpen(l: Ledger, account: string, limits: BudgetLimits): Decision {
    if l.account.None? && l.limits.None? then Ok(Some(Opened(account, limits)))
    else if l.account == Some(account) && l.limits == Some(limits) then Ok(None)
    else Err(OpenedDifferently)
  }

  ghost function DecideReserve(ids: Naming, l: Ledger, operation: string, estimate: Measures): Decision {
    if l.account.None? || l.limits.None? then Err(NotOpen)
    else
      var id := ids(l.account.value, operation);
      match AmountsOf(estimate, l.limits.value)
      case Err(e) => Err(e)
      case Ok(amounts) =>
        if id in l.reservations then
          var r := l.reservations[id];
          if r.operation == operation && r.amounts == amounts && r.estimate == estimate then Ok(None)
          else Err(ReservationConflict)
        else
          match CapacityError(l, amounts)
          case Some(e) => Err(e)
          case None => Ok(Some(Reserved(l.account.value, id, operation, amounts, estimate)))
  }

  function DecideReconcile(l: Ledger, id: string, reconciliation: string, measured: Measures): Decision {
    if l.account.None? then Err(NotOpen)
    else if id !in l.reservations then Err(ReservationNotFound)
    else
      var event := Reconciled(l.account.value, id, reconciliation, measured);
      match l.reservations[id].reconciliation
      case None => Ok(Some(event))
      case Some(stored) =>
        if stored.id != reconciliation then Err(ReconciliationConflict)
        else if stored.measured == measured then Ok(None)
        else if !Improves(measured, stored.measured) then Err(ReconciliationConflict)
        else Ok(Some(event))
  }

  // --------------------------------------------------------------------- events

  /** `apply`: the ledger after an event, or why the event does not fit it. */
  ghost function Apply(ids: Naming, l: Ledger, e: Event): Result<Ledger, BudgetError> {
    if l.account.Some? && e.account != l.account.value then Err(OtherAccount)
    else
      match e
      case Opened(account, limits) =>
        if l.account.Some? then Err(AlreadyOpen)
        else Ok(l.(account := Some(account), limits := Some(limits), version := l.version + 1))
      case Reserved(_, id, operation, amounts, estimate) =>
        if l.account.None? || l.limits.None? then Err(NotOpen)
        else if id != ids(l.account.value, operation) then Err(ReservationConflict)
        else if id in l.reservations then Err(ReservationExists)
        else
          (match CapacityError(l, amounts)
           case Some(error) => Err(error)
           case None =>
             if AmountsOf(estimate, l.limits.value).Err? then Err(AmountsOf(estimate, l.limits.value).error)
             else if AmountsOf(estimate, l.limits.value).value != amounts then Err(ReservationConflict)
             else
               Ok(l.(reservations := l.reservations[id := Reservation(operation, amounts, estimate, None)],
                     version := l.version + 1)))
      case Reconciled(_, id, reconciliation, measured) =>
        if id !in l.reservations then Err(ReservationNotFound)
        else
          var r := l.reservations[id];
          if r.reconciliation.Some? &&
             (r.reconciliation.value.id != reconciliation || !Improves(measured, r.reconciliation.value.measured))
          then Err(ReconciliationConflict)
          else
            var r' := r.(reconciliation := Some(Reconciliation(reconciliation, measured)));
            Ok(l.(reservations := l.reservations[id := r'],
                  version := l.version + 1))
  }

  /** The aggregate: `apply` changes it in place or leaves it alone. */
  class Account {
    const ids: Naming
    var ledger: Ledger

    constructor (ids: Naming)
      ensures this.ids == ids && ledger == EMPTY
    {
      this.ids, this.ledger := ids, EMPTY;
    }

    method ApplyEvent(e: Event) returns (r: Result<(), BudgetError>)
      requires ledger.account.Some? ==> ledger.limits.Some?
      modifies this
      ensures r.Ok? <==> Apply(ids, old(ledger), e).Ok?
      ensures r.Ok? ==> ledger == Apply(ids, old(ledger), e).value
      ensures r.Err? ==> ledger == old(ledger) && r.error == Apply(ids, old(ledger), e).error
    {
      if ledger.account.Some? && e.account != ledger.account.value {
        return Err(OtherAccount);
      }
      match e {
        case Opened(account, limits) =>
          if ledger.account.Some? {
            return Err(AlreadyOpen);
          }
          ledger := ledger.(account := Some(account), limits := Some(limits));
        case Reserved(_, id, operation, amounts, estimate) =>
          if ledger.account.None? {
            return Err(NotOpen);
          }
          if id != ids(ledger.account.value, operation) {
            return Err(ReservationConflict);
          }
          if id in ledger.reservations {
            return Err(ReservationExists);
          }
          var short := EnsureCapacity(ledger, amounts);
          if short.Some? {
            return Err(short.value);
          }
          var expected := AmountsOf(estimate, ledger.limits.value);
          if expected.Err? {
            return Err(expected.error);
          }
          if expected.value != amounts {
            return Err(ReservationConflict);
          }
          ledger := ledger.(reservations := ledger.reservations[id := Reservation(operation, amounts, estimate, None)]);
        case Reconciled(_, id, reconciliation, measured) =>
          if id !in ledger.reservations {
            return Err(ReservationNotFound);
          }
          var r := ledger.reservations[id];
          if r.reconciliation.Some? {
            var stored := r.reconciliation.value;
            if stored.id != reconciliation || !Improves(measured, stored.measured) {
              return Err(ReconciliationConflict);
            }
          }
          r := r.(reconciliation := Some(Reconciliation(reconciliation, measured)));
          ledger := ledger.(reservations := ledger.reservations[id := r]);
      }
      ledger := ledger.(version := ledger.version + 1);
      r := Ok(());
    }
  }

  // ---------------------------------------------------- decisions meet events

  /** Account and limits are set together, and reservations sit under their derived ids. */
  ghost predicate WellFormed(ids: Naming, l: Ledger) {
    && (l.account.Some? <==> l.limits.Some?)
    && (l.account.None? ==> l.reservations == map[])
    && forall id :: id in l.reservations ==> l.account.Some? && id == ids(l.account.value, l.reservations[id].operation)
  }

  /** A command to the ledger. */
  datatype Command =
    | Open(account: string, limits: BudgetLimits)
    | Reserve(operation: string, estimate: Measures)
    | Reconcile(id: string, reconciliation: string, measured: Measures)

  ghost function Decide(ids: Naming, l: Ledger, c: Command): Decision {
    match c
    case Open(account, limits) => DecideOpen(l, account, limits)
    case Reserve(operation, estimate) => DecideReserve(ids, l, operation, estimate)
    case Reconcile(id, reconciliation, measured) => DecideReconcile(l, id, reconciliation, measured)
  }

  /** When a command produces an event, which one it is, and when it was carried out before. */
  lemma {:induction false} OpenIs(ids: Naming, l: Ledger, account: string, limits: BudgetLimits)
    ensures var r := Decide(ids, l, Open(account, limits));
            && (r == Ok(Some(Opened(account, limits))) <==> l.account == None && l.limits == None)
            && (r == Ok(None) <==> l.account == Some(account) && l.limits == Some(limits))
            && (r.Err? ==> r == Err(OpenedDifferently)) && (r.Ok? && r.value.Some? ==> r.value.value.Opened?)
            && (r.Ok? && r.value.Some? ==> r.value.value == Opened(account, limits))
  {
  }

  /** Reserved once, in the amounts of the estimate, under the id derived from account and operation. */
  lemma {:induction false} ReserveIs(ids: Naming, l: Ledger, operation: string, estimate: Measures)
    requires l.account.Some? && l.limits.Some?
    ensures var r, id, amounts := Decide(ids, l, Reserve(operation, estimate)), ids(l.account.value, operation),
                                  AmountsOf(estimate, l.limits.value);
            if amounts.Err? then r == Err(amounts.error)
            else if id in l.reservations then
              var existing := l.reservations[id];
              r == if existing == Reservation(operation, amounts.value, estimate, existing.reconciliation) then Ok(None)
                   else Err(ReservationConflict)
            else if Fits(l, amounts.value) then
              r == Ok(Some(Reserved(l.account.value, id, operation, amounts.value, estimate)))
            else r.Err? && Some(r.error) == CapacityError(l, amounts.value)
  {
    if AmountsOf(estimate, l.limits.value).Ok? {
      CapacityIff(l, AmountsOf(estimate, l.limits.value).value);
    }
  }

  /** Reconciled for the first time, or again under the same id with a better measurement. */
  lemma {:induction false} ReconcileIs(ids: Naming, l: Ledger, id: string, reconciliation: string, measured: Measures)
    requires l.account.Some?
    ensures var r := Decide(ids, l, Reconcile(id, reconciliation, measured));
            var stored := if id in l.reservations then l.reservations[id].reconciliation else None;
            && (r == Err(ReservationNotFound) <==> id !in l.reservations)
            && (r == Ok(None) <==> stored == Some(Reconciliation(reconciliation, measured)))
            && (r.Ok? && r.value.Some? <==>
                  id in l.reservations
                  && (stored.None? || (stored.value.id == reconciliation && Improves(measured, stored.value.measured))))
            && (r.Ok? && r.value.Some? ==>
                  r.value.value == Reconciled(l.account.value, id, reconciliation, measured))
            && (r.Err? ==> r.error == ReservationNotFound || r.error == ReconciliationConflict)
  {
  }

  /** A ledger that is not open answers every other command with that. */
  lemma {:induction false} ClosedIs(ids: Naming, l: Ledger, c: Command)
    requires l.account.None? && !c.Open?
    ensures Decide(ids, l, c) == Err(NotOpen)
  {
  }

  /** What a decision produces, the ledger accepts; and deciding the same command again produces nothing. */
  lemma {:induction false} DecidedEventsApply(ids: Naming, l: Ledger, c: Command)
    requires WellFormed(ids, l) && Decide(ids, l, c).Ok? && Decide(ids, l, c).value.Some?
    ensures var r := Apply(ids, l, Decide(ids, l, c).value.value);
            r.Ok? && WellFormed(ids, r.value) && Decide(ids, r.value, c) == Ok(None)
  {
  }

  lemma {:induction false} AppliedStaysWellFormed(ids: Naming, l: Ledger, e: Event)
    requires WellFormed(ids, l) && Apply(ids, l, e).Ok?
    ensures WellFormed(ids, Apply(ids, l, e).value)
  {
  }

  /** `rehydrate`: fold the events from the empty ledger. */
  ghost function Rehydrate(ids: Naming, events: seq<Event>): Result<Ledger, BudgetError> {
    if events == [] then Ok(EMPTY)
    else
      match Rehydrate(ids, events[..|events| - 1])
      case Err(e) => Err(e)
      case Ok(l) => Apply(ids, l, events[|events| - 1])
  }

  datatype Session = Session(ledger: Ledger, events: seq<Event>)

  /** Executes commands: refused and repeated ones change nothing, the others append their event. */
  ghost function Execute(ids: Naming, commands: seq<Command>): Session {
    if commands == [] then Session(EMPTY, [])
    else
      var s := Execute(ids, commands[..|commands| - 1]);
      match Decide(ids, s.ledger, commands[|commands| - 1])
      case Err(_) => s
      case Ok(None) => s
      case Ok(Some(e)) =>
        match Apply(ids, s.ledger, e)
        case Err(_) => s
        case Ok(l) => Session(l, s.events + [e])
  }

  /** A command that produces an event adds it and moves the ledger by it; every other command changes nothing. */
  lemma {:induction false} ExecuteNext(ids: Naming, commands: seq<Command>, c: Command)
    ensures var s, s' := Execute(ids, commands), Execute(ids, commands + [c]);
            match Decide(ids, s.ledger, c)
            case Ok(Some(e)) => s'.events == s.events + [e] && Apply(ids, s.ledger, e) == Ok(s'.ledger)
            case _ => s' == s
  {
    assert (commands + [c])[..|commands|] == commands;
    ReplayRebuilds(ids, commands);
    var decision := Decide(ids, Execute(ids, commands).ledger, c);
    if decision.Ok? && decision.value.Some? {
      DecidedEventsApply(ids, Execute(ids, commands).ledger, c);
    }
  }

  /** Event sourcing is faithful: the recorded events rebuild exactly the ledger the commands led to. */
  lemma {:induction false} ReplayRebuilds(ids: Naming, commands: seq<Command>)
    ensures var s := Execute(ids, commands);
            && Rehydrate(ids, s.events) == Ok(s.ledger)
            && s.ledger.version == |s.events|
            && WellFormed(ids, s.ledger)
  {
    if commands != [] {
      var front, last := commands[..|commands| - 1], commands[|commands| - 1];
      ReplayRebuilds(ids, front);
      var s := Execute(ids, front);
      var decision := Decide(ids, s.ledger, last);
      if decision.Ok? && decision.value.Some? {
        DecidedEventsApply(ids, s.ledger, last);
        var e := decision.value.value;
        assert (s.events + [e])[..|s.events|] == s.events;
        VersionCounts(ids, s.ledger, e);
      }
    }
  }

  lemma {:induction false} VersionCounts(ids: Naming, l: Ledger, e: Event)
    requires Apply(ids, l, e).Ok?
    ensures Apply(ids, l, e).value.version == l.version + 1
  {
  }

  // ----------------------------------------------------------------- overrunning

  ghost predicate WithinCeiling(l: Ledger, d: nat)
    requires d < 4
  {
    l.limits.Some? ==> Within(l.limits.value.ceilings[d], Charged(l, d))
  }

  /** How an accepted event changes the charge in a dimension. */
  lemma {:induction false} ChargedAfter(ids: Naming, l: Ledger, e: Event, d: nat)
    requires WellFormed(ids, l) && Apply(ids, l, e).Ok? && d < 4
    ensures var l' := Apply(ids, l, e).value;
            match e
            case Opened(_, _) => Charged(l', d) == 0
            case Reserved(_, _, _, amounts, _) =>
              Charged(l', d) == Charged(l, d) + amounts[d] && WithinCeiling(l', d)
            case Reconciled(_, id, _, measured) =>
              Charged(l', d) == Charged(l, d) - Charge(l.reservations[id], d)
                                + ChargeOf(measured[d], l.reservations[id].amounts[d])
  {
    match e
    case Opened(_, _) =>
      assert l.reservations == map[];
    case Reserved(_, id, operation, amounts, estimate) =>
      SumAdds(l.reservations, ChargeIn(d), id, Reservation(operation, amounts, estimate, None));
      CapacityIff(l, amounts);
    case Reconciled(_, id, reconciliation, measured) =>
      var r := l.reservations[id];
      SumReplaces(l.reservations, ChargeIn(d), id,
                  r.(reconciliation := Some(Reconciliation(reconciliation, measured))));
  }

  /** An event reports a higher cost than the ledger charged so far, by more than what was left. */
  ghost predicate Overshoots(l: Ledger, e: Event, d: nat)
    requires d < 4
  {
    && e.Reconciled? && e.id in l.reservations && l.limits.Some?
    && ChargeOf(e.measured[d], l.reservations[e.id].amounts[d]) >
         Charge(l.reservations[e.id], d) + Ceiling(l, d) - Charged(l, d)
  }

  /** Only a reconciliation can break a ceiling: exactly one that reports more than its own charge and what was left. */
  lemma {:induction false} OverrunIff(ids: Naming, l: Ledger, e: Event, d: nat)
    requires WellFormed(ids, l) && Apply(ids, l, e).Ok? && d < 4 && WithinCeiling(l, d)
    ensures WithinCeiling(Apply(ids, l, e).value, d) <==> !Overshoots(l, e, d)
  {
    ChargedAfter(ids, l, e, d);
  }

  /** While any dimension is overrun, nothing further is reserved. */
  lemma {:induction false} OverrunBlocksReservations(ids: Naming, l: Ledger, operation: string, estimate: Measures,
                                                     d: nat)
    requires WellFormed(ids, l) && l.limits.Some? && d < 4 && !WithinCeiling(l, d)
    ensures DecideReserve(ids, l, operation, estimate).Err? || DecideReserve(ids, l, operation, estimate) == Ok(None)
  {
    var amounts := AmountsOf(estimate, l.limits.value);
    if amounts.Ok? {
      CapacityIff(l, amounts.value);
      assert !Within(l.limits.value.ceilings[d], Charged(l, d) + amounts.value[d]);
    }
  }

  /** The ledgers an accepted history passes through. */
  ghost predicate IsHistory(ids: Naming, events: seq<Event>, ledgers: seq<Ledger>) {
    && |ledgers| == |events| + 1 && ledgers[0] == EMPTY
    && forall i :: 0 <= i < |events| ==> IsStep(ids, ledgers[i], events[i], ledgers[i + 1])
  }

  ghost predicate IsStep(ids: Naming, l: Ledger, e: Event, l': Ledger) {
    Apply(ids, l, e) == Ok(l')
  }

  /** Histories are what rehydration goes through. */
  lemma {:induction false} HistoryRehydrates(ids: Naming, events: seq<Event>, ledgers: seq<Ledger>)
    requires IsHistory(ids, events, ledgers)
    ensures Rehydrate(ids, events) == Ok(ledgers[|events|])
  {
    if events != [] {
      HistoryRehydrates(ids, events[..|events| - 1], ledgers[..|events|]);
    }
  }

  lemma {:induction false} HistoryGrows(ids: Naming, events: seq<Event>, ledgers: seq<Ledger>, e: Event, l: Ledger)
    requires IsHistory(ids, events, ledgers) && IsStep(ids, ledgers[|events|], e, l)
    ensures IsHistory(ids, events + [e], ledgers + [l])
  {
  }

  lemma {:induction false} RehydratedHasHistory(ids: Naming, events: seq<Event>) returns (ledgers: seq<Ledger>)
    requires Rehydrate(ids, events).Ok?
    ensures IsHistory(ids, events, ledgers) && Rehydrate(ids, events) == Ok(ledgers[|events|])
  {
    if events == [] {
      ledgers := [EMPTY];
    } else {
      var before, last := events[..|events| - 1], events[|events| - 1];
      var front := RehydratedHasHistory(ids, before);
      HistoryGrows(ids, before, front, last, Rehydrate(ids, events).value);
      assert before + [last] == events;
      ledgers := front + [Rehydrate(ids, events).value];
    }
  }

  lemma {:induction false} HistoryIsWellFormed(ids: Naming, events: seq<Event>, ledgers: seq<Ledger>, i: nat)
    requires IsHistory(ids, events, ledgers) && i <= |events|
    ensures WellFormed(ids, ledgers[i])
  {
    if i > 0 {
      HistoryIsWellFormed(ids, events, ledgers, i - 1);
      assert IsStep(ids, ledgers[i - 1], events[i - 1], ledgers[i - 1 + 1]);
      AppliedStaysWellFormed(ids, ledgers[i - 1], events[i - 1]);
    }
  }

  ghost predicate AlwaysWithinCeiling(ledgers: seq<Ledger>, d: nat)
    requires d < 4
  {
    forall i :: 0 <= i < |ledgers| ==> WithinCeiling(ledgers[i], d)
  }

  /** In no step of the history does a reconciliation overshoot in dimension `d`. */
  ghost predicate NeverOvershoots(events: seq<Event>, ledgers: seq<Ledger>, d: nat)
    requires d < 4 && |events| < |ledgers|
  {
    forall i :: 0 <= i < |events| ==> !Overshoots(ledgers[i], events[i], d)
  }

  lemma {:induction false} StepStaysWithin(ids: Naming, events: seq<Event>, ledgers: seq<Ledger>, d: nat, i: nat)
    requires IsHistory(ids, events, ledgers) && d < 4 && i < |events| && WithinCeiling(ledgers[i], d)
    ensures WithinCeiling(ledgers[i + 1], d) <==> !Overshoots(ledgers[i], events[i], d)
  {
    HistoryIsWellFormed(ids, events, ledgers, i);
    assert IsStep(ids, ledgers[i], events[i], ledgers[i + 1]);
    OverrunIff(ids, ledgers[i], events[i], d);
  }

  lemma {:induction false} PrefixStaysWithin(ids: Naming, events: seq<Event>, ledgers: seq<Ledger>, d: nat, i: nat)
    requires IsHistory(ids, events, ledgers) && d < 4 && i <= |events| && NeverOvershoots(events, ledgers, d)
    ensures WithinCeiling(ledgers[i], d)
  {
    if i > 0 {
      PrefixStaysWithin(ids, events, ledgers, d, i - 1);
      StepStaysWithin(ids, events, ledgers, d, i - 1);
    }
  }

  /** Over every accepted history: a ceiling holds throughout if and only if no reconciliation overshoots it. */
  lemma {:induction false} HistoryStaysWithinCeilingIff(ids: Naming, events: seq<Event>, ledgers: seq<Ledger>, d: nat)
    requires IsHistory(ids, events, ledgers) && d < 4
    ensures AlwaysWithinCeiling(ledgers, d) <==> NeverOvershoots(events, ledgers, d)
  {
    if AlwaysWithinCeiling(ledgers, d) {
      forall i | 0 <= i < |events| ensures !Overshoots(ledgers[i], events[i], d) {
        StepStaysWithin(ids, events, ledgers, d, i);
      }
    }
    if NeverOvershoots(events, ledgers, d) {
      forall i | 0 <= i < |ledgers| ensures WithinCeiling(ledgers[i], d) {
        PrefixStaysWithin(ids, events, ledgers, d, i);
      }
    }
  }

  // ------------------------------------------------------ an overrun within reservations

  /** No reconciliation in the history reports more than its reservation set aside. */
  ghost predicate ReportsWithinReserved(events: seq<Event>, ledgers: seq<Ledger>)
    requires |events| < |ledgers|
  {
    forall i :: 0 <= i < |events| ==> StaysWithinReserved(ledgers[i], events[i])
  }

  ghost predicate StaysWithinReserved(l: Ledger, e: Event) {
    e.Reconciled? && e.id in l.reservations ==>
      var amounts := l.reservations[e.id].amounts;
      forall d :: 0 <= d < 4 ==> ChargeOf(e.measured[d], amounts[d]) <= amounts[d]
  }

  const TEN_TOKENS: BudgetLimits := Limits([None, Some(10), None, None], None)

  function Tokens(m: Measurement): Measures { [Unknown, m, Unknown, Unknown] }

  function TokenAmounts(n: u64): Amounts { [0, n, 0, 0] }

  /** Open with ten tokens, `n` of them charged and nothing else. */
  ghost predicate Holds(ids: Naming, l: Ledger, n: nat) {
    && WellFormed(ids, l) && l.account == Some("a") && l.limits == Some(TEN_TOKENS)
    && Charged(l, 0) == 0 && Charged(l, 1) == n && Charged(l, 2) == 0 && Charged(l, 3) == 0
  }

  lemma {:induction false} ReserveStep(ids: Naming, l: Ledger, n: nat, operation: string, k: u64) returns (l': Ledger)
    requires Holds(ids, l, n) && n + k <= 10 && ids("a", operation) !in l.reservations
    ensures Apply(ids, l, Reserved("a", ids("a", operation), operation, TokenAmounts(k), Tokens(Estimated(k)))) ==
            Ok(l')
    ensures Holds(ids, l', n + k)
    ensures l'.reservations ==
              l.reservations[ids("a", operation) := Reservation(operation, TokenAmounts(k), Tokens(Estimated(k)), None)]
  {
    var e := Reserved("a", ids("a", operation), operation, TokenAmounts(k), Tokens(Estimated(k)));
    assert Fits(l, e.amounts);
    CapacityIff(l, e.amounts);
    l' := Apply(ids, l, e).value;
    AppliedStaysWellFormed(ids, l, e);
    forall d | 0 <= d < 4 ensures Charged(l', d) == Charged(l, d) + e.amounts[d] {
      ChargedAfter(ids, l, e, d);
    }
  }

  lemma {:induction false} ReconcileStep(ids: Naming, l: Ledger, n: nat, id: string, k: u64, m: Measurement)
    returns (l': Ledger)
    requires Holds(ids, l, n) && id in l.reservations && l.reservations[id].amounts == TokenAmounts(k)
    requires l.reservations[id].reconciliation.Some? ==>
               var stored := l.reservations[id].reconciliation.value;
               stored.id == "r" && Improves(Tokens(m), stored.measured) && stored.measured == Tokens(stored.measured[1])
    ensures Apply(ids, l, Reconciled("a", id, "r", Tokens(m))) == Ok(l')
    ensures Holds(ids, l', Charged(l', 1)) && Charged(l', 1) == n - Charge(l.reservations[id], 1) + ChargeOf(m, k)
    ensures l'.reservations ==
              l.reservations[id := l.reservations[id].(reconciliation := Some(Reconciliation("r", Tokens(m))))]
  {
    var e := Reconciled("a", id, "r", Tokens(m));
    l' := Apply(ids, l, e).value;
    AppliedStaysWellFormed(ids, l, e);
    forall d | 0 <= d < 4
      ensures Charged(l', d) ==
              Charged(l, d) - Charge(l.reservations[id], d) + ChargeOf(e.measured[d], TokenAmounts(k)[d])
    {
      ChargedAfter(ids, l, e, d);
    }
  }

  /** A history without overreporting that ends in `l`. */
  ghost predicate LeadsTo(ids: Naming, events: seq<Event>, ledgers: seq<Ledger>, l: Ledger) {
    IsHistory(ids, events, ledgers) && ReportsWithinReserved(events, ledgers) && ledgers[|events|] == l
  }

  lemma {:induction false} Continue(ids: Naming, events: seq<Event>, ledgers: seq<Ledger>, l: Ledger, e: Event,
                                    l': Ledger)
    requires LeadsTo(ids, events, ledgers, l) && IsStep(ids, l, e, l') && StaysWithinReserved(l, e)
    ensures LeadsTo(ids, events + [e], ledgers + [l'], l')
  {
  }

  function FiveReserved(x: string, m: Option<Measurement>): Reservation {
    Reservation(x, TokenAmounts(5), Tokens(Estimated(5)),
                if m.None? then None else Some(Reconciliation("r", Tokens(m.value))))
  }

  lemma {:induction false} ReserveFive(ids: Naming, x: string)
    returns (events: seq<Event>, ledgers: seq<Ledger>, l: Ledger)
    ensures LeadsTo(ids, events, ledgers, l) && Holds(ids, l, 5)
    ensures l.reservations == map[ids("a", x) := FiveReserved(x, None)]
  {
    var l0 := Apply(ids, EMPTY, Opened("a", TEN_TOKENS)).value;
    l := ReserveStep(ids, l0, 0, x, 5);
    Continue(ids, [], [EMPTY], EMPTY, Opened("a", TEN_TOKENS), l0);
    var e := Reserved("a", ids("a", x), x, TokenAmounts(5), Tokens(Estimated(5)));
    Continue(ids, [] + [Opened("a", TEN_TOKENS)], [EMPTY] + [l0], l0, e, l);
    events, ledgers := [] + [Opened("a", TEN_TOKENS)] + [e], [EMPTY] + [l0] + [l];
  }

  lemma {:induction false} EstimateLow(ids: Naming, x: string)
    returns (events: seq<Event>, ledgers: seq<Ledger>, l: Ledger)
    ensures LeadsTo(ids, events, ledgers, l) && Holds(ids, l, 1)
    ensures l.reservations == map[ids("a", x) := FiveReserved(x, Some(Estimated(1)))]
  {
    var before, passed, l1 := ReserveFive(ids, x);
    l := ReconcileStep(ids, l1, 5, ids("a", x), 5, Estimated(1));
    var e := Reconciled("a", ids("a", x), "r", Tokens(Estimated(1)));
    Continue(ids, before, passed, l1, e, l);
    events, ledgers := before + [e], passed + [l];
  }

  lemma {:induction false} ReserveNine(ids: Naming, x: string, y: string)
    returns (events: seq<Event>, ledgers: seq<Ledger>, l: Ledger)
    requires ids("a", x) != ids("a", y)
    ensures LeadsTo(ids, events, ledgers, l) && Holds(ids, l, 10)
    ensures ids("a", x) in l.reservations && l.reservations[ids("a", x)] == FiveReserved(x, Some(Estimated(1)))
  {
    var before, passed, l2 := EstimateLow(ids, x);
    l := ReserveStep(ids, l2, 1, y, 9);
    var e := Reserved("a", ids("a", y), y, TokenAmounts(9), Tokens(Estimated(9)));
    Continue(ids, before, passed, l2, e, l);
    events, ledgers := before + [e], passed + [l];
  }

  lemma {:induction false} ObserveFive(ids: Naming, x: string, y: string)
    returns (events: seq<Event>, ledgers: seq<Ledger>, l: Ledger)
    requires ids("a", x) != ids("a", y)
    ensures LeadsTo(ids, events, ledgers, l) && Holds(ids, l, 14)
  {
    var before, passed, l3 := ReserveNine(ids, x, y);
    assert Improves(Tokens(Observed(5)), Tokens(Estimated(1))) by {
      assert Quality(Tokens(Observed(5))[1]) > Quality(Tokens(Estimated(1))[1]);
    }
    l := ReconcileStep(ids, l3, 10, ids("a", x), 5, Observed(5));
    var e := Reconciled("a", ids("a", x), "r", Tokens(Observed(5)));
    Continue(ids, before, passed, l3, e, l);
    events, ledgers := before + [e], passed + [l];
  }

  /**
   * Reservations do not keep the ceiling by themselves. A low estimate frees what was set aside, another operation
   * takes it, and the observation that replaces the estimate breaks the ceiling without exceeding its own reservation.
   */
  lemma {:induction false} LateObservationOverruns(ids: Naming, x: string, y: string)
    requires ids("a", x) != ids("a", y)
    ensures exists events, ledgers :: IsHistory(ids, events, ledgers) && ReportsWithinReserved(events, ledgers)
                                      && !AlwaysWithinCeiling(ledgers, 1)
  {
    var events, ledgers, l := ObserveFive(ids, x, y);
    assert !WithinCeiling(ledgers[|events|], 1);
  }

  // -------------------------------------------------- how often a reservation is reconciled

  function Rank(l: Ledger, id: string): nat {
    if id !in l.reservations || l.reservations[id].reconciliation.None? then 0
    else
      var m := l.reservations[id].reconciliation.value.measured;
      1 + Quality(m[0]) + Quality(m[1]) + Quality(m[2]) + Quality(m[3])
  }

  function Reconciliations(events: seq<Event>, id: string): nat {
    if events == [] then 0
    else
      var last := events[|events| - 1];
      Reconciliations(events[..|events| - 1], id) + if last.Reconciled? && last.id == id then 1 else 0
  }

  lemma {:induction false} RankRises(ids: Naming, l: Ledger, e: Event, id: string)
    requires Apply(ids, l, e).Ok?
    ensures Rank(Apply(ids, l, e).value, id) >= Rank(l, id) + if e.Reconciled? && e.id == id then 1 else 0
  {
  }

  /** Measurements only get better, so no history reconciles a reservation more than nine times. */
  lemma {:induction false} ReconciliationsEnd(ids: Naming, events: seq<Event>, id: string)
    requires Rehydrate(ids, events).Ok?
    ensures Reconciliations(events, id) <= Rank(Rehydrate(ids, events).value, id) <= 9
  {
    if events != [] {
      ReconciliationsEnd(ids, events[..|events| - 1], id);
      RankRises(ids, Rehydrate(ids, events[..|events| - 1]).value, events[|events| - 1], id);
    }
  }

  /** Measurements that get better one quality at a time, in eight steps from all unknown to all observed. */
  function Rung(k: nat): Measures {
    seq(4, d => if 2 * d + 2 <= k then Observed(0) else if 2 * d + 1 == k then Estimated(0) else Unknown)
  }

  lemma {:induction false} RungImproves(k: nat)
    requires k < 8
    ensures Improves(Rung(k + 1), Rung(k))
  {
    assert Quality(Rung(k + 1)[k / 2]) > Quality(Rung(k)[k / 2]);
  }

  /** What is stored after `k` reconciliations, each one rung higher. */
  function Stored(k: nat): Option<Reconciliation> {
    if k == 0 then None else Some(Reconciliation("r", Rung(k - 1)))
  }

  /** Open, and the reservation was reconciled `k` times. */
  ghost predicate Climbed(l: Ledger, id: string, k: nat) {
    l.account == Some("a") && id in l.reservations && l.reservations[id].reconciliation == Stored(k)
  }

  lemma {:induction false} ClimbOn(ids: Naming, l: Ledger, id: string, k: nat)
    requires Climbed(l, id, k) && k <= 8
    ensures var r := Apply(ids, l, Reconciled("a", id, "r", Rung(k))); r.Ok? && Climbed(r.value, id, k + 1)
  {
    if k > 0 {
      RungImproves(k - 1);
    }
  }

  lemma {:induction false} RehydrateOn(ids: Naming, events: seq<Event>, e: Event)
    requires Rehydrate(ids, events).Ok?
    ensures Rehydrate(ids, events + [e]) == Apply(ids, Rehydrate(ids, events).value, e)
    ensures forall id :: Reconciliations(events + [e], id) ==
                         Reconciliations(events, id) + if e.Reconciled? && e.id == id then 1 else 0
  {
    assert (events + [e])[..|events|] == events;
  }

  lemma {:induction false} Climb(ids: Naming, x: string, k: nat) returns (events: seq<Event>)
    requires k <= 9
    ensures Rehydrate(ids, events).Ok? && Climbed(Rehydrate(ids, events).value, ids("a", x), k)
    ensures Reconciliations(events, ids("a", x)) == k
  {
    var id := ids("a", x);
    if k == 0 {
      var ledgers, l;
      events, ledgers, l := ReserveFive(ids, x);
      HistoryRehydrates(ids, events, ledgers);
      ReconciliationsEnd(ids, events, id);
    } else {
      var before := Climb(ids, x, k - 1);
      ClimbOn(ids, Rehydrate(ids, before).value, id, k - 1);
      RehydrateOn(ids, before, Reconciled("a", id, "r", Rung(k - 1)));
      events := before + [Reconciled("a", id, "r", Rung(k - 1))];
    }
  }

  ghost predicate ReconciledTimes(ids: Naming, events: seq<Event>, id: string, n: nat) {
    Rehydrate(ids, events).Ok? && Reconciliations(events, id) == n
  }

  /** Nine is the exact bound: there is a history with `n` reconciliations of a reservation if and only if `n <= 9`. */
  lemma {:induction false} ReconciliationsIff(ids: Naming, x: string, n: nat)
    ensures (exists events :: ReconciledTimes(ids, events, ids("a", x), n)) <==> n <= 9
  {
    if n <= 9 {
      var events := Climb(ids, x, n);
      assert ReconciledTimes(ids, events, ids("a", x), n);
    }
    forall events | ReconciledTimes(ids, events, ids("a", x), n) ensures n <= 9 {
      ReconciliationsEnd(ids, events, ids("a", x));
    }
  }
}
