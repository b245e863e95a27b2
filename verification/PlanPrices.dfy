/** Plan prices: createPlanPrice, setPlanPriceActive and getSubscriptionPriceVersion of
    packages/core/src/admin/platform-billing-ops.ts, over the plan_prices table of
    20260926130000_platform_billing.sql and the reference of 20261010140000. */
module PlanPrices {
  import opened Text
  import opened SnapshotForms

  datatype Provider = Razorpay | Stripe

  datatype Environment = Sandbox | Live

  /** What at most one active price may cover. */
  datatype Key = Key(plan: nat, provider: Provider, environment: Environment, currency: string, interval: string)

  /** One row; amounts are in hundredths, as the column keeps them. */
  datatype Price = Price(key: Key, amount: nat, productId: Option<string>, priceId: string, active: bool)

  type Table = map<nat, Price>

  // ---------------------------------------------------------------------------------------------
  // Input
  // ---------------------------------------------------------------------------------------------

  /** A submitted price; the amount is None when it does not read as a number. */
  datatype Input = Input(plan: nat, provider: Provider, environment: Environment, currency: string,
                         interval: string, amount: Option<int>, productId: Option<string>, priceId: string)

  function Prefix(provider: Provider): string {
    match provider case Razorpay => "plan_" case Stripe => "price_"
  }

  /** The row an accepted input asks for, active. */
  function Read(input: Input): Option<Price> {
    var currency, priceId := ReadCurrency(input.currency), ReadText(input.priceId, 1, 200);
    var productId := Trim(input.productId.GetOr(""));
    if currency.None? || priceId.None? || |productId| > 200 || input.interval !in INTERVALS then None
    else if input.amount.None? || !(0 <= input.amount.value <= 10_000_000_000) then None
    else if !StartsWith(priceId.value, Prefix(input.provider)) then None
    else
      Some(Price(Key(input.plan, input.provider, input.environment, currency.value, input.interval),
                 input.amount.value, EmptyToNone(productId), priceId.value, true))
  }

  /** Which submitted prices are accepted: a currency of three letters, month or year, an amount from nothing to a
      hundred million, and a provider's id of at most 200 characters that begins as that provider's ids do. */
  lemma AcceptedIff(input: Input)
    ensures Read(input).Some? <==>
      && |Trim(input.currency)| == 3 && (forall i :: 0 <= i < 3 ==> IsLetter(Trim(input.currency)[i]))
      && (input.interval == "month" || input.interval == "year")
      && input.amount.Some? && 0 <= input.amount.value <= 100_000_000 * 100
      && (input.productId.Some? ==> |Trim(input.productId.value)| <= 200)
      && |Trim(input.priceId)| <= 200
      && match input.provider
         case Razorpay => StartsWith(Trim(input.priceId), "plan_")
         case Stripe => StartsWith(Trim(input.priceId), "price_")
  {
    hide Trim, ReadCurrency, StartsWith;
    CurrencyReadsIff(input.currency);
    TrimKeepsTrimmed("");
    NotEmpty(Trim(input.priceId));
  }

  lemma NotEmpty(s: string)
    ensures StartsWith(s, "plan_") || StartsWith(s, "price_") ==> s != ""
  {}

  /** The row an accepted price becomes: what was submitted, trimmed, in capitals, with no product for a blank one. */
  lemma AcceptedMeans(input: Input)
    requires Read(input).Some?
    ensures var p := Read(input).value;
      && p.key.plan == input.plan && p.key.provider == input.provider && p.key.environment == input.environment
      && p.key.currency == Upper(Trim(input.currency)) && p.key.interval == input.interval
      && Some(p.amount as int) == input.amount && p.priceId == Trim(input.priceId) && p.active
      && (p.productId.None? <==> input.productId.None? || Text.Blank(input.productId.value))
      && (p.productId.Some? ==> p.productId.value == Trim(input.productId.value))
  {
    hide Trim, ReadCurrency, StartsWith, Text.Blank;
    CurrencyReadsIff(input.currency);
    TrimKeepsTrimmed("");
    if input.productId.Some? { TrimEmptyIffBlank(input.productId.value); }
  }

  // ---------------------------------------------------------------------------------------------
  // Statements
  // ---------------------------------------------------------------------------------------------

  predicate Covers(p: Price, key: Key) { p.active && p.key == key }

  /** The active price of a key is on. */
  predicate Covered(t: Table, key: Key) { exists id :: id in t && Covers(t[id], key) }

  /** The provider's price id is already mapped, for any plan. */
  predicate Mapped(t: Table, p: Price) {
    exists id :: id in t && SamePriceId(t[id], p)
  }

  predicate SamePriceId(p: Price, q: Price) {
    p.key.provider == q.key.provider && p.key.environment == q.key.environment && p.priceId == q.priceId
  }

  /** update ... set active = false where the key matches and active. */
  function Deactivated(t: Table, key: Key): (t': Table)
    ensures t'.Keys == t.Keys
    ensures forall id :: id in t ==> t'[id] == if Covers(t[id], key) then t[id].(active := false) else t[id]
  {
    map id | id in t :: if Covers(t[id], key) then t[id].(active := false) else t[id]
  }

  /** insert; None is the refusal of an index or of the reference to the plan. */
  function Inserted(t: Table, plans: set<nat>, id: nat, p: Price): Option<Table>
    requires id !in t
  {
    if p.key.plan !in plans || Mapped(t, p) || (p.active && Covered(t, p.key)) then None else Some(t[id := p])
  }

  /** An active price other than this one covers its key. */
  predicate CoveredByAnother(t: Table, id: nat)
    requires id in t
  {
    exists other :: other in t && other != id && Covers(t[other], t[id].key)
  }

  /** update ... set active where id matches; updating no row is not an error. */
  function Switched(t: Table, id: nat, active: bool): Option<Table> {
    if id !in t then Some(t)
    else if active && CoveredByAnother(t, id) then None
    else Some(t[id := t[id].(active := active)])
  }

  // ---------------------------------------------------------------------------------------------
  // Any number of clients, statement by statement
  // ---------------------------------------------------------------------------------------------

  /** The tables, the rows of the clients that have deactivated and not yet inserted, and the price each
      subscription was billed on. */
  datatype State = State(prices: Table, plans: set<nat>, pending: map<nat, Price>, billed: map<nat, nat>)

  datatype Step =
    | Begin(client: nat, input: Input)
    | Finish(client: nat, id: nat)
    | Vanish(client: nat)
    | Switch(id: nat, active: bool)
    | Bill(subscription: nat, id: nat)
    | AddPlan(plan: nat)

  /** One statement of one client. A client whose connection breaks vanishes, before or after its statement. */
  function Next(s: State, step: Step): State {
    match step
    case Begin(client, input) =>
      if client in s.pending || Read(input).None? then s
      else
        var p := Read(input).value;
        s.(prices := Deactivated(s.prices, p.key), pending := s.pending[client := p])
    case Finish(client, id) =>
      if client !in s.pending || id in s.prices then s
      else
        var t := Inserted(s.prices, s.plans, id, s.pending[client]);
        s.(prices := t.GetOr(s.prices), pending := s.pending - {client})
    case Vanish(client) => s.(pending := s.pending - {client})
    case Switch(id, active) => s.(prices := Switched(s.prices, id, active).GetOr(s.prices))
    case Bill(subscription, id) => if id in s.prices then s.(billed := s.billed[subscription := id]) else s
    case AddPlan(plan) => s.(plans := s.plans + {plan})
  }

  function RunAll(s: State, steps: seq<Step>): State
    decreases |steps|
  {
    if steps == [] then s else Next(RunAll(s, steps[..|steps| - 1]), steps[|steps| - 1])
  }

  /** At most one price is active per key. */
  ghost predicate OneActive(t: Table) {
    forall a, b :: a in t && b in t && t[a].active && t[b].active && t[a].key == t[b].key ==> a == b
  }

  ghost predicate OneMapping(t: Table) {
    forall a, b :: a in t && b in t && SamePriceId(t[a], t[b]) ==> a == b
  }

  /** Every price belongs to an existing plan. */
  predicate Planned(t: Table, plans: set<nat>) { forall id :: id in t ==> t[id].key.plan in plans }

  ghost predicate Inv(s: State) {
    && OneActive(s.prices) && OneMapping(s.prices)
    && Planned(s.prices, s.plans)
    && (forall c :: c in s.pending ==> s.pending[c].active)
    && forall sub :: sub in s.billed ==> s.billed[sub] in s.prices
  }

  /** No row removed, and nothing but the active mark of a row changed. */
  ghost predicate Kept(before: Table, after: Table) {
    forall id :: id in before ==> id in after && after[id].(active := before[id].active) == before[id]
  }

  lemma DeactivatedKeeps(t: Table, plans: set<nat>, key: Key)
    requires OneActive(t) && OneMapping(t)
    ensures var t' := Deactivated(t, key);
      OneActive(t') && OneMapping(t') && Kept(t, t') && (Planned(t, plans) ==> Planned(t', plans))
  {}

  lemma InsertedKeeps(t: Table, plans: set<nat>, id: nat, p: Price)
    requires OneActive(t) && OneMapping(t) && id !in t
    ensures var t' := Inserted(t, plans, id, p).GetOr(t);
      OneActive(t') && OneMapping(t') && Kept(t, t') && (Planned(t, plans) ==> Planned(t', plans))
  {
    assert Inserted(t, plans, id, p).Some? ==> forall o :: o in t ==> !SamePriceId(t[o], p);
    assert Inserted(t, plans, id, p).Some? && p.active ==> forall o :: o in t ==> !Covers(t[o], p.key);
  }

  lemma SwitchedKeeps(t: Table, plans: set<nat>, id: nat, active: bool)
    requires OneActive(t) && OneMapping(t)
    ensures var t' := Switched(t, id, active).GetOr(t);
      OneActive(t') && OneMapping(t') && Kept(t, t') && (Planned(t, plans) ==> Planned(t', plans))
  {
    assert id in t && active && Switched(t, id, active).Some? ==>
      forall o :: o in t && o != id ==> !Covers(t[o], t[id].key);
  }

  lemma StepKeeps(s: State, step: Step)
    requires Inv(s)
    ensures Inv(Next(s, step)) && Kept(s.prices, Next(s, step).prices)
  {
    hide OneActive, OneMapping, Switched, Inserted, Deactivated, Read;
    match step
    case Begin(client, input) =>
      if Read(input).Some? {
        ReadIsActive(input);
        DeactivatedKeeps(s.prices, s.plans, Read(input).value.key);
      }
    case Finish(client, id) =>
      if client in s.pending && id !in s.prices {
        InsertedKeeps(s.prices, s.plans, id, s.pending[client]);
      }
    case Switch(id, active) => SwitchedKeeps(s.prices, s.plans, id, active);
    case _ =>
  }

  /** In any interleaving of any number of clients: at most one active price per key, no price removed or
      repriced, and every billed price still there. */
  lemma {:induction false} EveryInterleavingKeeps(s: State, steps: seq<Step>)
    requires Inv(s)
    ensures Inv(RunAll(s, steps)) && Kept(s.prices, RunAll(s, steps).prices)
  {
    hide Inv, Next;
    if steps != [] {
      var front := steps[..|steps| - 1];
      EveryInterleavingKeeps(s, front);
      StepKeeps(RunAll(s, front), steps[|steps| - 1]);
    }
  }

  // ---------------------------------------------------------------------------------------------
  // One create on its own, and a create among others
  // ---------------------------------------------------------------------------------------------

  /** createPlanPrice from start to end, with nothing in between: the new table and whether it went through. */
  function Created(t: Table, plans: set<nat>, id: nat, input: Input): (Table, bool)
    requires id !in t
  {
    match Read(input)
    case None => (t, false)
    case Some(p) =>
      var cleared := Deactivated(t, p.key);
      match Inserted(cleared, plans, id, p)
      case None => (cleared, false)
      case Some(t') => (t', true)
  }

  /** Exactly the row with this id covers the key. */
  ghost predicate OnlyActive(t: Table, key: Key, id: nat) {
    forall other :: other in t ==> (Covers(t[other], key) <==> other == id)
  }

  /** The insert of a create, however other clients' statements came between, goes through exactly when the plan
      exists, the provider's price id is not mapped and no active price covers the key at that moment; its row is
      then the only active one of the key. */
  lemma FinishSucceedsIff(s: State, client: nat, id: nat)
    requires Inv(s) && client in s.pending && id !in s.prices
    ensures var p, s' := s.pending[client], Next(s, Finish(client, id));
      && (id in s'.prices <==> p.key.plan in s.plans && !Mapped(s.prices, p) && !Covered(s.prices, p.key))
      && (id in s'.prices ==> s'.prices == s.prices[id := p] && OnlyActive(s'.prices, p.key, id))
      && (id !in s'.prices ==> s'.prices == s.prices)
  {
    hide OneActive, OneMapping, SamePriceId;
    var p := s.pending[client];
    assert !Covered(s.prices, p.key) ==> forall o :: o in s.prices ==> !Covers(s.prices[o], p.key);
  }

  /** A create that went through alone leaves its own row as the only active one of its key, and every row it
      did not deactivate as it was. */
  lemma SuccessLeavesOwnRowActive(t: Table, plans: set<nat>, id: nat, input: Input)
    requires id !in t && Created(t, plans, id, input).1
    ensures Read(input).Some?
    ensures var t', p := Created(t, plans, id, input).0, Read(input).value;
      && t'.Keys == t.Keys + {id} && t'[id] == p
      && OnlyActive(t', p.key, id)
      && Kept(t, t') && forall other :: other in t && t[other].key != p.key ==> t'[other] == t[other]
  {
    hide Read, SamePriceId;
    ReadIsActive(input);
    var p := Read(input).value;
    assert forall o :: o in t ==> !Covers(Deactivated(t, p.key)[o], p.key);
  }

  lemma MappedStays(t: Table, key: Key, p: Price)
    ensures Mapped(Deactivated(t, key), p) <==> Mapped(t, p)
  {
    var t' := Deactivated(t, key);
    if Mapped(t, p) {
      var id :| id in t && SamePriceId(t[id], p);
      assert id in t' && SamePriceId(t'[id], p);
    }
    if Mapped(t', p) {
      var id :| id in t' && SamePriceId(t'[id], p);
      assert SamePriceId(t[id], p);
    }
  }

  /** The deactivation is not undone when the insert is refused: a key that had an active price is left with
      none if and only if the submitted provider price id was already mapped. */
  lemma LosesItsPriceIff(t: Table, plans: set<nat>, id: nat, input: Input, key: Key)
    requires OneActive(t) && Planned(t, plans) && id !in t && Covered(t, key)
    ensures var (t', ok) := Created(t, plans, id, input);
      !Covered(t', key) <==> Read(input).Some? && Read(input).value.key == key && Mapped(t, Read(input).value)
  {
    hide Read, SamePriceId, OneActive;
    if Read(input).Some? {
      var p := Read(input).value;
      assert p.active by { ReadIsActive(input); }
      var cleared := Deactivated(t, p.key);
      MappedStays(t, p.key, p);
      var old_id :| old_id in t && Covers(t[old_id], key);
      if p.key != key {
        assert Covers(cleared[old_id], key);
      }
      assert forall o :: o in cleared ==> !Covers(cleared[o], p.key);
      var t' := Created(t, plans, id, input).0;
      if t' != cleared {
        assert Covers(t'[id], p.key);
        assert t'[old_id] == cleared[old_id];
      }
    }
  }

  lemma ReadIsActive(input: Input)
    requires Read(input).Some?
    ensures Read(input).value.active
  {
    hide ReadText, ReadCurrency, Trim;
  }

  /** Submitting the active price again under its own provider price id, as one would to correct its amount, is
      refused and leaves the key without an active price. */
  lemma ResubmittingSwitchesOff(t: Table, plans: set<nat>, id: nat, input: Input, current: nat)
    requires OneActive(t) && Planned(t, plans) && id !in t && Read(input).Some? && current in t
    requires Covers(t[current], Read(input).value.key) && t[current].priceId == Read(input).value.priceId
    ensures var (t', ok) := Created(t, plans, id, input); !ok && !Covered(t', Read(input).value.key)
  {
    hide Read, OneActive;
    var p := Read(input).value;
    assert SamePriceId(t[current], p);
    MappedStays(t, p.key, p);
    assert Mapped(t, p);
  }

  /** Switching the old price on again undoes a refused create completely. */
  lemma SwitchingOnUndoesRefusal(t: Table, plans: set<nat>, id: nat, input: Input, current: nat)
    requires OneActive(t) && id !in t && !Created(t, plans, id, input).1
    requires Read(input).Some? && current in t && Covers(t[current], Read(input).value.key)
    ensures Switched(Created(t, plans, id, input).0, current, true) == Some(t)
  {
    hide Read, Inserted;
    var cleared := Deactivated(t, Read(input).value.key);
    assert cleared[current := cleared[current].(active := true)] == t;
  }

  /** One create alone is its two statements one after the other. */
  lemma AloneIsBeginThenFinish(s: State, client: nat, id: nat, input: Input)
    requires client !in s.pending && id !in s.prices
    ensures RunAll(s, [Begin(client, input), Finish(client, id)]).prices
         == Created(s.prices, s.plans, id, input).0
  {
    hide Read, Mapped, Covered;
    var steps := [Begin(client, input), Finish(client, id)];
    assert steps[..1] == [Begin(client, input)] && steps[..1][..0] == [];
    assert RunAll(s, steps[..1]) == Next(s, steps[0]);
  }

  // ---------------------------------------------------------------------------------------------
  // The price a subscription was billed on
  // ---------------------------------------------------------------------------------------------

  datatype PriceVersion = PriceVersion(amount: nat, currency: string, interval: string, priceId: string, current: bool)

  function SubscriptionPrice(s: State, subscription: nat): Option<PriceVersion> {
    if subscription !in s.billed || s.billed[subscription] !in s.prices then None
    else
      var p := s.prices[s.billed[subscription]];
      Some(PriceVersion(p.amount, p.key.currency, p.key.interval, p.priceId, p.active))
  }

  predicate Rebills(step: Step, subscription: nat) { step.Bill? && step.subscription == subscription }

  /** Whatever clients do, a subscription's recorded price resolves, at the amount, currency, interval and provider id
      of the row it was billed on, until the subscription is billed anew; whether that row is still the active one is
      told as it is by then. */
  lemma {:induction false} BilledPriceResolves(s: State, steps: seq<Step>, subscription: nat)
    requires Inv(s) && subscription in s.billed
    requires forall step :: step in steps ==> !Rebills(step, subscription)
    ensures var row, s' := s.prices[s.billed[subscription]], RunAll(s, steps);
      && s.billed[subscription] in s'.prices
      && SubscriptionPrice(s', subscription)
         == Some(PriceVersion(row.amount, row.key.currency, row.key.interval, row.priceId,
                              s'.prices[s.billed[subscription]].active))
  {
    hide OneActive, OneMapping, Next, RunAll;
    EveryInterleavingKeeps(s, steps);
    SameBill(s, steps, subscription);
  }

  lemma {:induction false} SameBill(s: State, steps: seq<Step>, subscription: nat)
    requires subscription in s.billed
    requires forall step :: step in steps ==> !Rebills(step, subscription)
    ensures var s' := RunAll(s, steps); subscription in s'.billed && s'.billed[subscription] == s.billed[subscription]
  {
    hide Read, Deactivated, Inserted, Switched;
    if steps != [] {
      SameBill(s, steps[..|steps| - 1], subscription);
      assert steps[|steps| - 1] in steps;
    }
  }

  // ---------------------------------------------------------------------------------------------
  // The stored table
  // ---------------------------------------------------------------------------------------------

  class PriceTable {
    var prices: Table
    const plans: set<nat>

    constructor (plans: set<nat>)
      ensures prices == map[] && this.plans == plans
    {
      this.plans := plans;
      prices := map[];
    }

    method CreatePlanPrice(input: Input, id: nat) returns (ok: bool)
      requires id !in prices
      modifies this`prices
      ensures (prices, ok) == Created(old(prices), plans, id, input)
    {
      hide Read;
      var price := Read(input);
      if price.None? {
        return false;
      }
      prices := Deactivated(prices, price.value.key);
      var inserted := Inserted(prices, plans, id, price.value);
      if inserted.None? {
        return false;
      }
      prices := inserted.value;
      return true;
    }

    /** Only row id's mark changes, and only if this is not refused: it is exactly when another active price covers
        the key of a row to be switched on. An id nobody has is accepted and changes nothing. */
    method SetPlanPriceActive(id: nat, active: bool) returns (ok: bool)
      modifies this`prices
      ensures !ok <==> active && id in old(prices) && CoveredByAnother(old(prices), id)
      ensures prices.Keys == old(prices).Keys
      ensures forall other :: other in prices && other != id ==> prices[other] == old(prices)[other]
      ensures id in prices ==> prices[id] == if ok then old(prices)[id].(active := active) else old(prices)[id]
      ensures OneActive(old(prices)) && OneMapping(old(prices)) ==> OneActive(prices) && OneMapping(prices)
    {
      hide OneActive, OneMapping;
      if OneActive(prices) && OneMapping(prices) {
        SwitchedKeeps(prices, plans, id, active);
      }
      var switched := Switched(prices, id, active);
      if switched.None? {
        return false;
      }
      prices := switched.value;
      return true;
    }
  }
}
