/** The minimum plan of each module (packages/core/src/admin/platform-modules.ts): an argmin kept by a loop. */
module ModulePlans {
  datatype Entitlement = Entitlement(moduleKey: string, enabled: bool, planId: string)
  datatype Plan = Plan(id: string, key: string, name: string, displayOrder: int, status: string)
  datatype PlanName = PlanName(key: string, name: string)

  /** The active plans by id; of two with one id the later counts. */
  function ActiveById(plans: seq<Plan>): map<string, Plan> {
    if plans == [] then map[]
    else
      var last := plans[|plans| - 1];
      var before := ActiveById(plans[..|plans| - 1]);
      if last.status == "active" then before[last.id := last] else before
  }

  predicate IsLastActive(plans: seq<Plan>, i: int, id: string) {
    && 0 <= i < |plans| && plans[i].status == "active" && plans[i].id == id
    && forall j :: i < j < |plans| ==> plans[j].status != "active" || plans[j].id != id
  }

  /** An id is listed when some active plan has it, and then names the last such plan. */
  lemma {:induction false} ActiveByIdMeaning(plans: seq<Plan>, id: string)
    ensures id in ActiveById(plans) <==> exists p :: p in plans && p.status == "active" && p.id == id
    ensures id in ActiveById(plans) ==> exists i :: IsLastActive(plans, i, id) && plans[i] == ActiveById(plans)[id]
  {
    if plans != [] {
      var front := plans[..|plans| - 1];
      ActiveByIdMeaning(front, id);
      assert plans == front + [plans[|plans| - 1]];
      var n := |plans| - 1;
      if plans[n].status == "active" && plans[n].id == id {
        assert plans[n] in plans && IsLastActive(plans, n, id);
      } else if id in ActiveById(front) {
        var i :| IsLastActive(front, i, id) && front[i] == ActiveById(front)[id];
        assert IsLastActive(plans, i, id);
      }
    }
  }

  /** Row k says that its module comes with a plan that can be bought. */
  predicate Offers(rows: seq<Entitlement>, active: map<string, Plan>, k: int, moduleKey: string) {
    0 <= k < |rows| && rows[k].enabled && rows[k].moduleKey == moduleKey && rows[k].planId in active
  }

  /** Row k is the cheapest offer among the first n rows; the earliest wins a tie. */
  ghost predicate Cheapest(rows: seq<Entitlement>, active: map<string, Plan>, n: int, k: int, moduleKey: string) {
    && k < n && Offers(rows, active, k, moduleKey)
    && forall j :: 0 <= j < n && Offers(rows, active, j, moduleKey) ==>
         var order, best := active[rows[j].planId].displayOrder, active[rows[k].planId].displayOrder;
         best < order || (best == order && k <= j)
  }

  /** The name a module's cheapest offer goes by. */
  ghost predicate IsMinimum(rows: seq<Entitlement>, active: map<string, Plan>, moduleKey: string, name: PlanName) {
    exists k :: Cheapest(rows, active, |rows|, k, moduleKey)
             && name == PlanName(active[rows[k].planId].key, active[rows[k].planId].name)
  }

  ghost predicate Offered(rows: seq<Entitlement>, active: map<string, Plan>, moduleKey: string) {
    exists k :: Offers(rows, active, k, moduleKey)
  }

  /** One row more: the best offer so far stays, unless the new row is strictly cheaper. */
  lemma NextCheapest(rows: seq<Entitlement>, active: map<string, Plan>, n: int, k: int, moduleKey: string)
    requires 0 <= n < |rows|
    requires Cheapest(rows, active, n, k, moduleKey)
    ensures var cheaper := Offers(rows, active, n, moduleKey)
        && active[rows[n].planId].displayOrder < active[rows[k].planId].displayOrder;
      Cheapest(rows, active, n + 1, if cheaper then n else k, moduleKey)
  {}

  method ComputeMinimumPlans(rows: seq<Entitlement>, plans: seq<Plan>) returns (minimum: map<string, PlanName>)
    ensures forall m :: m in minimum <==> Offered(rows, ActiveById(plans), m)
    ensures forall m :: m in minimum ==> IsMinimum(rows, ActiveById(plans), m, minimum[m])
  {
    hide ActiveById, Cheapest;
    var active := ActiveById(plans);
    var best: map<string, Plan> := map[];
    ghost var at: map<string, int> := map[];
    var i := 0;
    while i < |rows|
      invariant 0 <= i <= |rows|
      invariant best.Keys == at.Keys
      invariant forall m :: m in best ==> Offers(rows, active, at[m], m) && best[m] == active[rows[at[m]].planId]
      invariant forall m :: m in best ==> Cheapest(rows, active, i, at[m], m)
      invariant forall k, m :: 0 <= k < i && Offers(rows, active, k, m) ==> m in best
    {
      var row := rows[i];
      forall m | m in best
        ensures Cheapest(rows, active, i + 1,
          if Offers(rows, active, i, m) && active[row.planId].displayOrder < best[m].displayOrder then i else at[m], m)
      {
        NextCheapest(rows, active, i, at[m], m);
      }
      if row.enabled && row.planId in active {
        var plan := active[row.planId];
        if row.moduleKey !in best || plan.displayOrder < best[row.moduleKey].displayOrder {
          if row.moduleKey !in best { FirstOffer(rows, active, i, row.moduleKey); }
          best := best[row.moduleKey := plan];
          at := at[row.moduleKey := i];
        }
      }
      i := i + 1;
    }
    minimum := map m | m in best :: PlanName(best[m].key, best[m].name);
    forall m | m in minimum ensures IsMinimum(rows, active, m, minimum[m]) {
      assert Cheapest(rows, active, |rows|, at[m], m);
    }
  }

  lemma FirstOffer(rows: seq<Entitlement>, active: map<string, Plan>, i: int, moduleKey: string)
    requires Offers(rows, active, i, moduleKey)
    requires forall k :: 0 <= k < i ==> !Offers(rows, active, k, moduleKey)
    ensures Cheapest(rows, active, i + 1, i, moduleKey)
  {}

  /** The cheapest offer is one row, so the answer for a module is determined by the rows and plans alone. */
  lemma CheapestIsUnique(rows: seq<Entitlement>, active: map<string, Plan>, k: int, l: int, moduleKey: string)
    requires Cheapest(rows, active, |rows|, k, moduleKey) && Cheapest(rows, active, |rows|, l, moduleKey)
    ensures k == l
  {}
}
