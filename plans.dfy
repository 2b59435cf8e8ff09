/** The subscription plan table (src/config/stripe.ts) and its lookups by name. */
module Plans {
  import opened Wrappers

  /** One entry of `PLANS`; the price block is only used by billing, which is not modelled. */
  datatype Plan = Plan(name: string, slug: string, quota: nat, pagePerPdf: nat)

  const PLANS: seq<Plan> := [
    Plan("Free", "free", 10, 5),
    Plan("Pro", "pro", 50, 25)
  ]

  /** `i` is the first position of `plans` holding a plan called `name`. */
  ghost predicate FirstNamed(plans: seq<Plan>, name: string, i: int) {
    && 0 <= i < |plans|
    && plans[i].name == name
    && forall j :: 0 <= j < i ==> plans[j].name != name
  }

  ghost predicate NamesDistinct(plans: seq<Plan>) {
    forall i, j :: 0 <= i < j < |plans| ==> plans[i].name != plans[j].name
  }

  /** `plans.find((plan) => plan.name === name)`: the first plan with that name, if any. */
  function Find(plans: seq<Plan>, name: string): (r: Option<Plan>)
    ensures r.None? <==> forall i :: 0 <= i < |plans| ==> plans[i].name != name
    ensures r.Some? ==> exists i :: FirstNamed(plans, name, i) && plans[i] == r.value
  {
    if plans == [] then None
    else if plans[0].name == name then
      assert FirstNamed(plans, name, 0);
      Some(plans[0])
    else
      var r := Find(plans[1..], name);
      if r.Some? then
        FirstNamedShift(plans, name, r.value);
        r
      else
        assert forall i :: 1 <= i < |plans| ==> plans[i].name == plans[1..][i - 1].name;
        r
  }

  lemma FirstNamedShift(plans: seq<Plan>, name: string, p: Plan)
    requires plans != [] && plans[0].name != name
    requires exists i :: FirstNamed(plans[1..], name, i) && plans[1..][i] == p
    ensures exists i :: FirstNamed(plans, name, i) && plans[i] == p
  {
    var i :| FirstNamed(plans[1..], name, i) && plans[1..][i] == p;
    assert FirstNamed(plans, name, i + 1);
  }

  /** With distinct names the lookup is deterministic: it finds exactly the plan so named. */
  lemma FindUnique(plans: seq<Plan>, name: string, i: int)
    requires NamesDistinct(plans)
    requires 0 <= i < |plans| && plans[i].name == name
    ensures Find(plans, name) == Some(plans[i])
  {
    var r := Find(plans, name);
    assert r.Some? by { assert plans[i].name == name; }
    var k :| FirstNamed(plans, name, k) && plans[k] == r.value;
    assert k == i;
  }

  function FindByName(name: string): Option<Plan> {
    Find(PLANS, name)
  }

  /** The names in the table are distinct, so every lookup by name is deterministic. */
  lemma PlanNamesDistinct()
    ensures NamesDistinct(PLANS)
  {
    assert PLANS[0].name[0] != PLANS[1].name[0];
  }

  /** The lookup on the table, worked out: Free, Pro, or nothing. */
  lemma {:induction false} LookupByName(name: string)
    ensures name == "Free" ==> FindByName(name) == Some(PLANS[0])
    ensures name == "Pro" ==> FindByName(name) == Some(PLANS[1])
    ensures name != "Free" && name != "Pro" ==> FindByName(name).None?
  {
    PlanNamesDistinct();
    if name == "Free" {
      FindUnique(PLANS, name, 0);
    } else if name == "Pro" {
      FindUnique(PLANS, name, 1);
    }
  }

  /** Looking up 'Free' yields quota 10 and 5 pages per document. */
  lemma FreePlanLimits()
    ensures FindByName("Free").Some?
    ensures FindByName("Free").value.quota == 10 && FindByName("Free").value.pagePerPdf == 5
  {
    LookupByName("Free");
  }

  /** Looking up 'Pro' yields quota 50 and 25 pages per document. */
  lemma ProPlanLimits()
    ensures FindByName("Pro").Some?
    ensures FindByName("Pro").value.quota == 50 && FindByName("Pro").value.pagePerPdf == 25
  {
    LookupByName("Pro");
  }

  /** Entry 0, the fallback of the quota lookup, is the Free plan. */
  lemma FallbackIsFree()
    ensures FindByName("Free") == Some(PLANS[0])
  {
    LookupByName("Free");
  }

  /** Pro is never stricter than Free, neither in quota nor in pages per document. */
  lemma ProNotStricter()
    ensures FindByName("Pro").Some? && FindByName("Free").Some?
    ensures FindByName("Pro").value.quota >= FindByName("Free").value.quota
    ensures FindByName("Pro").value.pagePerPdf >= FindByName("Free").value.pagePerPdf
  {
    ProPlanLimits();
    FreePlanLimits();
  }

  /** A non-null plan lookup (`PLANS.find(...)!.pagePerPdf`). */
  function PagePerPdf(name: string): (n: nat)
    requires FindByName(name).Some?
    ensures exists i :: 0 <= i < |PLANS| && PLANS[i].name == name && PLANS[i].pagePerPdf == n
  {
    FindByName(name).value.pagePerPdf
  }

  /** `PLANS.find(...)?.quota ?? PLANS[0].quota`: the quota of the named plan, or the first plan's. */
  function QuotaFor(planName: string): (q: nat)
    ensures q == if planName == "Pro" then 50 else 10
  {
    LookupByName(planName);
    match FindByName(planName)
    case Some(p) => p.quota
    case None => PLANS[0].quota
  }
}
