/** Reconciling stored spending plans, and the addresses tied to them, with a configuration. */
module SpendingPlans {
  import opened Wrappers

  datatype Tier = BASIC | EXTENDED | PRIVILEGED

  datatype Plan = Plan(tier: Tier, active: bool)

  datatype PlanConfig = PlanConfig(
    id: string, tier: Tier, evmAddresses: Option<seq<string>>, ipAddresses: Option<seq<string>>)

  datatype Outcome = Changed(plans: nat) | InvalidConfig

  // The stored state: plans by id, and for both kinds of address the plan each is tied to.
  datatype Store = Store(plans: map<string, Plan>, evm: map<string, string>, ip: map<string, string>)

  function Addresses(c: PlanConfig, evm: bool): seq<string> {
    (if evm then c.evmAddresses else c.ipAddresses).GetOr([])
  }

  predicate ValidConfig(c: PlanConfig) {
    c.evmAddresses.GetOr([]) != [] || c.ipAddresses.GetOr([]) != []
  }

  lemma AddressListed(c: PlanConfig)
    ensures ValidConfig(c) <==> exists a :: a in Addresses(c, true) || a in Addresses(c, false)
  {
    if Addresses(c, true) != [] {
      assert Addresses(c, true)[0] in Addresses(c, true);
    }
    if Addresses(c, false) != [] {
      assert Addresses(c, false)[0] in Addresses(c, false);
    }
  }

  predicate Preconfigurable(p: Plan) {
    p.active && p.tier in {EXTENDED, PRIVILEGED}
  }

  // The plans the service considers its own.
  function Existing(plans: map<string, Plan>): set<string> {
    set id | id in plans && Preconfigurable(plans[id])
  }

  function Ids(configs: seq<PlanConfig>): set<string> {
    set i | 0 <= i < |configs| :: configs[i].id
  }

  ghost predicate UniqueIds(configs: seq<PlanConfig>) {
    forall i, j :: 0 <= i < j < |configs| ==> configs[i].id != configs[j].id
  }

  /******* One plan at a time *******/

  // After a configured plan has been dealt with, exactly its listed addresses are tied to it.
  function Settle(ties: map<string, string>, id: string, addresses: seq<string>): map<string, string> {
    map a | a in ties.Keys + (set x | x in addresses) && (a in addresses || ties[a] != id) ::
      if a in addresses then id else ties[a]
  }

  function SettleAll(ties: map<string, string>, configs: seq<PlanConfig>, evm: bool): map<string, string> {
    if configs == [] then ties
    else
      var last := configs[|configs| - 1];
      Settle(SettleAll(ties, configs[..|configs| - 1], evm), last.id, Addresses(last, evm))
  }

  function Untie(ties: map<string, string>, ids: set<string>): map<string, string> {
    map a | a in ties && ties[a] !in ids :: ties[a]
  }

  lemma UntieOneMore(ties: map<string, string>, ids: set<string>, id: string)
    ensures Untie(Untie(ties, ids), {id}) == Untie(ties, ids + {id})
  {
  }

  function CreateAll(plans: map<string, Plan>, configs: seq<PlanConfig>, existing: set<string>): map<string, Plan> {
    if configs == [] then plans
    else
      var last := configs[|configs| - 1];
      var most := CreateAll(plans, configs[..|configs| - 1], existing);
      if last.id in existing then most else most[last.id := Plan(last.tier, true)]
  }

  function Missing(configs: seq<PlanConfig>, existing: set<string>): seq<PlanConfig> {
    if configs == [] then []
    else
      var most := Missing(configs[..|configs| - 1], existing);
      if configs[|configs| - 1].id in existing then most else most + [configs[|configs| - 1]]
  }

  function Reconcile(s: Store, configs: seq<PlanConfig>): Store {
    var existing := Existing(s.plans);
    var obsolete := existing - Ids(configs);
    Store(CreateAll(s.plans - obsolete, configs, existing),
          SettleAll(Untie(s.evm, obsolete), configs, true),
          SettleAll(Untie(s.ip, obsolete), configs, false))
  }

  /******* The repositories and the service *******/

  class AssociationRepository {
    var ties: map<string, string>

    constructor ()
      ensures ties == map[]
    {
      ties := map[];
    }

    predicate ExistsByAddress(address: string)
      reads this
    {
      address in ties
    }

    method FindAllByPlanId(planId: string) returns (found: seq<string>)
      ensures forall a :: a in found <==> a in ties && ties[a] == planId
    {
      found := [];
      var keys := ties.Keys;
      while keys != {}
        invariant keys <= ties.Keys
        invariant forall a :: a in found <==> a in ties && a !in keys && ties[a] == planId
        decreases keys
      {
        var key :| key in keys;
        if ties[key] == planId {
          found := found + [key];
        }
        keys := keys - {key};
      }
    }

    method DeleteAllByPlanId(planId: string)
      modifies this
      ensures ties == Untie(old(ties), {planId})
    {
      var keys := ties.Keys;
      while keys != {}
        invariant keys <= ties.Keys <= old(ties).Keys
        invariant forall a :: a in old(ties) ==> (a in ties <==> a in keys || old(ties)[a] != planId)
        invariant forall a :: a in ties ==> ties[a] == old(ties)[a]
        decreases keys
      {
        var key :| key in keys;
        if ties[key] == planId {
          ties := ties - {key};
        }
        keys := keys - {key};
      }
    }

    method Delete(address: string)
      modifies this
      ensures ties == old(ties) - {address}
    {
      ties := ties - {address};
    }

    method Save(address: string, planId: string)
      modifies this
      ensures ties == old(ties)[address := planId]
    {
      ties := ties[address := planId];
    }
  }

  class PlanRepository {
    var plans: map<string, Plan>

    constructor ()
      ensures plans == map[]
    {
      plans := map[];
    }

    method FindAllActive() returns (ids: set<string>)
      ensures ids == Existing(plans)
    {
      ids := set id | id in plans && plans[id].tier in {EXTENDED, PRIVILEGED} && plans[id].active;
    }

    method Create(tier: Tier, id: string)
      modifies this
      ensures plans == old(plans)[id := Plan(tier, true)]
    {
      plans := plans[id := Plan(tier, true)];
    }

    method Delete(id: string)
      modifies this
      ensures plans == old(plans) - {id}
    {
      plans := plans - {id};
    }
  }

  class HbarSpendingPlanConfigService {
    const planRepository: PlanRepository
    const evmRepository: AssociationRepository
    const ipRepository: AssociationRepository

    ghost function View(): Store
      reads planRepository, evmRepository, ipRepository
    {
      Store(planRepository.plans, evmRepository.ties, ipRepository.ties)
    }

    ghost predicate Valid() {
      evmRepository != ipRepository
    }

    constructor (plans: PlanRepository, evm: AssociationRepository, ip: AssociationRepository)
      requires evm != ip
      ensures Valid()
      ensures planRepository == plans && evmRepository == evm && ipRepository == ip
    {
      planRepository, evmRepository, ipRepository := plans, evm, ip;
    }

    // Every entry lists an address of one kind or the other.
    static method ValidateSpendingPlanConfig(configs: seq<PlanConfig>) returns (valid: bool)
      ensures !valid <==> exists c :: c in configs && forall a :: a !in Addresses(c, true) && a !in Addresses(c, false)
    {
      for i := 0 to |configs|
        invariant forall j :: 0 <= j < i ==> ValidConfig(configs[j])
      {
        if !ValidConfig(configs[i]) {
          AddressListed(configs[i]);
          assert configs[i] in configs;
          return false;
        }
      }
      forall c | c in configs ensures exists a :: a in Addresses(c, true) || a in Addresses(c, false) {
        AddressListed(c);
      }
      return true;
    }

    // The number of plans added or deleted; nothing happens without a configuration or with an invalid one.
    method PopulatePreconfiguredSpendingPlans(configs: seq<PlanConfig>) returns (r: Outcome)
      requires Valid()
      modifies planRepository, evmRepository, ipRepository
      ensures Valid()
      ensures r == InvalidConfig <==>
              exists c :: c in configs && forall a :: a !in Addresses(c, true) && a !in Addresses(c, false)
      ensures configs == [] || r == InvalidConfig ==> View() == old(View())
      ensures configs == [] ==> r == Changed(0)
      ensures r.Changed? && configs != [] ==>
                && View() == Reconcile(old(View()), configs)
                && r.plans ==
                   |Existing(old(View()).plans) - Ids(configs)| + |Missing(configs, Existing(old(View()).plans))|
    {
      if |configs| == 0 {
        return Changed(0);
      }
      var valid := ValidateSpendingPlanConfig(configs);
      if !valid {
        return InvalidConfig;
      }
      var existing := planRepository.FindAllActive();
      var deleted := DeleteObsoletePlans(existing, configs);
      var added := AddNewPlans(configs, existing);
      UpdatePlanAssociations(configs);
      return Changed(deleted + added);
    }

    method DeleteObsoletePlans(existing: set<string>, configs: seq<PlanConfig>) returns (deleted: nat)
      requires Valid()
      modifies planRepository, evmRepository, ipRepository
      ensures deleted == |existing - Ids(configs)|
      ensures View() == var was := old(View());
                        var obsolete := existing - Ids(configs);
                        Store(was.plans - obsolete, Untie(was.evm, obsolete), Untie(was.ip, obsolete))
    {
      var obsolete := existing - Ids(configs);
      var todo := obsolete;
      ghost var gone: set<string> := {};
      while todo != {}
        invariant gone + todo == obsolete && gone !! todo
        invariant planRepository.plans == old(planRepository.plans) - gone
        invariant evmRepository != ipRepository
        invariant evmRepository.ties == Untie(old(evmRepository.ties), gone)
        invariant ipRepository.ties == Untie(old(ipRepository.ties), gone)
        decreases todo
      {
        var id :| id in todo;
        UntieOneMore(old(evmRepository.ties), gone, id);
        UntieOneMore(old(ipRepository.ties), gone, id);
        assert old(planRepository.plans) - gone - {id} == old(planRepository.plans) - (gone + {id});
        planRepository.Delete(id);
        evmRepository.DeleteAllByPlanId(id);
        ipRepository.DeleteAllByPlanId(id);
        todo := todo - {id};
        gone := gone + {id};
      }
      assert gone == obsolete;
      return |obsolete|;
    }

    method AddNewPlans(configs: seq<PlanConfig>, existing: set<string>) returns (added: nat)
      modifies planRepository
      ensures planRepository.plans == CreateAll(old(planRepository.plans), configs, existing)
      ensures added == |Missing(configs, existing)|
    {
      added := 0;
      for i := 0 to |configs|
        invariant planRepository.plans == CreateAll(old(planRepository.plans), configs[..i], existing)
        invariant added == |Missing(configs[..i], existing)|
      {
        assert configs[..i + 1][..i] == configs[..i];
        if configs[i].id !in existing {
          planRepository.Create(configs[i].tier, configs[i].id);
          added := added + 1;
        }
      }
      assert configs[..|configs|] == configs;
    }

    method UpdatePlanAssociations(configs: seq<PlanConfig>)
      requires Valid()
      modifies evmRepository, ipRepository
      ensures evmRepository.ties == SettleAll(old(evmRepository.ties), configs, true)
      ensures ipRepository.ties == SettleAll(old(ipRepository.ties), configs, false)
    {
      for i := 0 to |configs|
        invariant evmRepository.ties == SettleAll(old(evmRepository.ties), configs[..i], true)
        invariant ipRepository.ties == SettleAll(old(ipRepository.ties), configs[..i], false)
      {
        assert configs[..i + 1][..i] == configs[..i];
        ghost var evm, ip := evmRepository.ties, ipRepository.ties;
        DeleteObsoleteAssociations(evmRepository, configs[i].id, configs[i].evmAddresses.GetOr([]));
        DeleteObsoleteAssociations(ipRepository, configs[i].id, configs[i].ipAddresses.GetOr([]));
        UpdateAssociations(evmRepository, configs[i].id, configs[i].evmAddresses);
        UpdateAssociations(ipRepository, configs[i].id, configs[i].ipAddresses);
        FreeThenSettle(evm, configs[i].id, Addresses(configs[i], true));
        FreeThenSettle(ip, configs[i].id, Addresses(configs[i], false));
      }
      assert configs[..|configs|] == configs;
    }

    // Frees the listed addresses that another plan holds.
    static method DeleteObsoleteAssociations(repository: AssociationRepository, id: string, addresses: seq<string>)
      modifies repository
      ensures repository.ties == Freed(old(repository.ties), id, addresses)
    {
      for i := 0 to |addresses|
        invariant repository.ties == Freed(old(repository.ties), id, addresses[..i])
      {
        var address := addresses[i];
        if repository.ExistsByAddress(address) && repository.ties[address] != id {
          repository.Delete(address);
        }
        assert forall a :: a in addresses[..i + 1] <==> a in addresses[..i] || a == address;
      }
      assert addresses[..|addresses|] == addresses;
    }

    static method UpdateAssociations(repository: AssociationRepository, id: string, addresses: Option<seq<string>>)
      modifies repository
      ensures repository.ties == Settle(old(repository.ties), id, addresses.GetOr([]))
    {
      var current := repository.FindAllByPlanId(id);
      ghost var was := repository.ties;
      var wanted := addresses.GetOr([]);
      for i := 0 to |current|
        invariant repository.ties == was - Unwanted(current[..i], wanted)
      {
        assert current[..i + 1] == current[..i] + [current[i]];
        UnwantedOneMore(was, current[..i], current[i], wanted);
        if addresses.None? || current[i] !in addresses.value {
          repository.Delete(current[i]);
        }
      }
      assert current[..|current|] == current;
      ghost var trimmed := repository.ties;
      for i := 0 to |wanted|
        invariant repository.ties == WithNew(trimmed, wanted[..i], current, id)
      {
        assert wanted[..i + 1] == wanted[..i] + [wanted[i]];
        WithNewOneMore(trimmed, wanted[..i], wanted[i], current, id);
        if wanted[i] !in current {
          repository.Save(wanted[i], id);
        }
      }
      assert wanted[..|wanted|] == wanted;
      TrimThenAdd(was, current, wanted, id);
    }
  }

  // The addresses of `found` that are not in `wanted`.
  function Unwanted(found: seq<string>, wanted: seq<string>): set<string> {
    set a | a in found && a !in wanted
  }

  function WithNew(ties: map<string, string>, wanted: seq<string>, current: seq<string>,
      id: string): map<string, string> {
    map a | a in ties.Keys + (set x | x in wanted) && (a in ties || a !in current) ::
      if a in wanted && a !in current then id else ties[a]
  }

  lemma UnwantedOneMore(ties: map<string, string>, found: seq<string>, a: string, wanted: seq<string>)
    ensures ties - Unwanted(found + [a], wanted) ==
            if a in wanted then ties - Unwanted(found, wanted) else ties - Unwanted(found, wanted) - {a}
  {
    if a in wanted {
      assert Unwanted(found + [a], wanted) == Unwanted(found, wanted);
    } else {
      assert Unwanted(found + [a], wanted) == Unwanted(found, wanted) + {a};
      assert ties - (Unwanted(found, wanted) + {a}) == ties - Unwanted(found, wanted) - {a};
    }
  }

  lemma WithNewOneMore(ties: map<string, string>, wanted: seq<string>, a: string, current: seq<string>, id: string)
    ensures WithNew(ties, wanted + [a], current, id) ==
            if a in current then WithNew(ties, wanted, current, id) else WithNew(ties, wanted, current, id)[a := id]
  {
    var less, more := WithNew(ties, wanted, current, id), WithNew(ties, wanted + [a], current, id);
    var target := if a in current then less else less[a := id];
    forall b ensures (b in more <==> b in target) && (b in more ==> more[b] == target[b]) {
      OneMoreWanted(ties, wanted, a, current, id, b);
    }
    assert more.Keys == target.Keys;
  }

  lemma OneMoreWanted(ties: map<string, string>, wanted: seq<string>, a: string,
      current: seq<string>, id: string, b: string)
    ensures var less, more := WithNew(ties, wanted, current, id), WithNew(ties, wanted + [a], current, id);
      if b == a && a !in current then b in more && more[b] == id
      else (b in more <==> b in less) && (b in more ==> more[b] == less[b])
  {
    assert b in wanted + [a] <==> b in wanted || b == a;
  }

  lemma TrimThenAdd(ties: map<string, string>, current: seq<string>, wanted: seq<string>, id: string)
    requires forall a :: a in current <==> a in ties && ties[a] == id
    ensures WithNew(ties - Unwanted(current, wanted), wanted, current, id) == Settle(ties, id, wanted)
  {
    var after := WithNew(ties - Unwanted(current, wanted), wanted, current, id);
    forall a ensures a in after <==> a in Settle(ties, id, wanted) {
    }
    assert after.Keys == Settle(ties, id, wanted).Keys;
  }

  function Freed(ties: map<string, string>, id: string, addresses: seq<string>): map<string, string> {
    map a | a in ties && !(a in addresses && ties[a] != id) :: ties[a]
  }

  lemma FreeThenSettle(ties: map<string, string>, id: string, addresses: seq<string>)
    ensures Settle(Freed(ties, id, addresses), id, addresses) == Settle(ties, id, addresses)
  {
  }

  /******* Convergence *******/

  // The last entry that lists the address.
  function LastListing(configs: seq<PlanConfig>, evm: bool, a: string): (r: Option<nat>)
    ensures r.Some? ==> r.value < |configs| && a in Addresses(configs[r.value], evm)
    ensures forall j :: 0 <= j < |configs| && a in Addresses(configs[j], evm) ==> r.Some? && j <= r.value
  {
    if configs == [] then None
    else if a in Addresses(configs[|configs| - 1], evm) then Some(|configs| - 1)
    else
      assert forall j :: 0 <= j < |configs| - 1 ==> configs[..|configs| - 1][j] == configs[j];
      LastListing(configs[..|configs| - 1], evm, a)
  }

  // No later entry has the id of entry k.
  predicate LastOfId(configs: seq<PlanConfig>, k: nat)
    requires k < |configs|
  {
    forall j :: k < j < |configs| ==> configs[j].id != configs[k].id
  }

  // Where an address ends up: with the last plan listing it, unless a later entry with the same id takes it away;
  // if no entry lists it, where it was, unless that plan was the service's own or is configured.
  function FinalTie(ties: map<string, string>, owned: set<string>, configs: seq<PlanConfig>, evm: bool,
      a: string): Option<string> {
    match LastListing(configs, evm, a)
    case Some(k) => if LastOfId(configs, k) then Some(configs[k].id) else None
    case None => if a in ties && ties[a] !in owned + Ids(configs) then Some(ties[a]) else None
  }

  function Lookup(ties: map<string, string>, a: string): Option<string> {
    if a in ties then Some(ties[a]) else None
  }

  lemma IdsSplit(configs: seq<PlanConfig>)
    requires configs != []
    ensures Ids(configs) == Ids(configs[..|configs| - 1]) + {configs[|configs| - 1].id}
  {
    var most := configs[..|configs| - 1];
    forall id | id in Ids(configs) ensures id in Ids(most) + {configs[|configs| - 1].id} {
      var i :| 0 <= i < |configs| && configs[i].id == id;
      if i < |most| {
        assert most[i].id == id;
      }
    }
    forall id | id in Ids(most) ensures id in Ids(configs) {
      var i :| 0 <= i < |most| && most[i].id == id;
      assert configs[i].id == id;
    }
  }

  lemma LastOfIdSplit(configs: seq<PlanConfig>, k: nat)
    requires k < |configs| - 1
    ensures LastOfId(configs, k) <==>
            LastOfId(configs[..|configs| - 1], k) && configs[|configs| - 1].id != configs[k].id
  {
    assert forall j :: 0 <= j < |configs| - 1 ==> configs[..|configs| - 1][j] == configs[j];
  }

  lemma {:induction false} SettledTie(ties: map<string, string>, configs: seq<PlanConfig>, evm: bool, a: string)
    ensures Lookup(SettleAll(ties, configs, evm), a) == FinalTie(ties, {}, configs, evm, a)
  {
    if configs != [] {
      var most, last := configs[..|configs| - 1], configs[|configs| - 1];
      SettledTie(ties, most, evm, a);
      IdsSplit(configs);
      var k := LastListing(most, evm, a);
      if k.Some? && a !in Addresses(last, evm) {
        LastOfIdSplit(configs, k.value);
      }
    }
  }

  // Every starting store, every configuration, every address: where it ends up, in both stores.
  lemma AddressesSettle(s: Store, configs: seq<PlanConfig>, a: string)
    ensures Lookup(Reconcile(s, configs).evm, a) == FinalTie(s.evm, Existing(s.plans), configs, true, a)
    ensures Lookup(Reconcile(s, configs).ip, a) == FinalTie(s.ip, Existing(s.plans), configs, false, a)
  {
    var obsolete := Existing(s.plans) - Ids(configs);
    SettledTie(Untie(s.evm, obsolete), configs, true, a);
    SettledTie(Untie(s.ip, obsolete), configs, false, a);
  }

  function Ties(s: Store, evm: bool): map<string, string> {
    if evm then s.evm else s.ip
  }

  // A listed address ends up with the last plan listing it exactly if no later entry has the same id, and with no
  // plan otherwise; any other address keeps its plan exactly if that was neither the service's own nor configured.
  lemma AddressConvergesIff(s: Store, configs: seq<PlanConfig>, evm: bool, a: string)
    ensures var after := Lookup(Ties(Reconcile(s, configs), evm), a);
      match LastListing(configs, evm, a)
      case Some(k) =>
        (after == Some(configs[k].id) <==> forall j :: k < j < |configs| ==> configs[j].id != configs[k].id)
        && (after == Some(configs[k].id) || after == None)
      case None =>
        a in Ties(s, evm) ==>
          (after == Some(Ties(s, evm)[a]) <==> Ties(s, evm)[a] !in Existing(s.plans) + Ids(configs))
          && (after == Some(Ties(s, evm)[a]) || after == None)
  {
    AddressesSettle(s, configs, a);
  }

  // With unique ids every listed address ends up with the last plan listing it.
  lemma AddressesConverge(s: Store, configs: seq<PlanConfig>, evm: bool, a: string)
    requires UniqueIds(configs)
    ensures var after := Lookup(Ties(Reconcile(s, configs), evm), a);
      match LastListing(configs, evm, a)
      case Some(k) => after == Some(configs[k].id)
      case None =>
        after == if a in Ties(s, evm) && Ties(s, evm)[a] !in Existing(s.plans) + Ids(configs)
                 then Some(Ties(s, evm)[a]) else None
  {
    AddressesSettle(s, configs, a);
  }

  // The last entry with the id.
  function LastEntry(configs: seq<PlanConfig>, id: string): (r: Option<nat>)
    ensures r.Some? ==> r.value < |configs| && configs[r.value].id == id && LastOfId(configs, r.value)
    ensures r.Some? <==> id in Ids(configs)
  {
    if configs == [] then None
    else
      IdsSplit(configs);
      if configs[|configs| - 1].id == id then Some(|configs| - 1)
      else
        var r := LastEntry(configs[..|configs| - 1], id);
        assert forall j :: 0 <= j < |configs| - 1 ==> configs[..|configs| - 1][j] == configs[j];
        r
  }

  lemma {:induction false} CreatedPlan(plans: map<string, Plan>, configs: seq<PlanConfig>, existing: set<string>,
      id: string)
    ensures var after := CreateAll(plans, configs, existing);
      if id in Ids(configs) && id !in existing then
        id in after && after[id] == Plan(configs[LastEntry(configs, id).value].tier, true)
      else (id in after <==> id in plans) && (id in plans ==> after[id] == plans[id])
  {
    if configs != [] {
      CreatedPlan(plans, configs[..|configs| - 1], existing, id);
      IdsSplit(configs);
    }
  }

  // Plans: the service's own plans that are not configured go, those configured stay as they are
  // (whatever tier the configuration gives), configured ids that are not its own are created
  // active with the tier of their last entry, and every other plan is left alone.
  lemma PlansConverge(s: Store, configs: seq<PlanConfig>, id: string)
    ensures var after := Reconcile(s, configs).plans;
      var own := id in s.plans && s.plans[id].active && s.plans[id].tier in {EXTENDED, PRIVILEGED};
      && (own && LastEntry(configs, id).None? ==> id !in after)
      && (own && LastEntry(configs, id).Some? ==> id in after && after[id] == s.plans[id])
      && (!own && LastEntry(configs, id).Some? ==>
            id in after && after[id] == Plan(configs[LastEntry(configs, id).value].tier, true))
      && (!own && LastEntry(configs, id).None? ==>
            (id in after <==> id in s.plans) && (id in s.plans ==> after[id] == s.plans[id]))
  {
    var existing := Existing(s.plans);
    CreatedPlan(s.plans - (existing - Ids(configs)), configs, existing, id);
  }

  // Each id that is missing is named by one entry only.
  predicate MissingOnce(configs: seq<PlanConfig>, existing: set<string>) {
    forall i, j :: 0 <= i < j < |configs| && configs[i].id !in existing ==> configs[j].id != configs[i].id
  }

  lemma MissingOnceSplit(configs: seq<PlanConfig>, existing: set<string>)
    requires configs != []
    ensures var most, last := configs[..|configs| - 1], configs[|configs| - 1];
      MissingOnce(configs, existing) <==> MissingOnce(most, existing) && (last.id in existing || last.id !in Ids(most))
  {
    var most, last := configs[..|configs| - 1], configs[|configs| - 1];
    assert forall j :: 0 <= j < |most| ==> most[j] == configs[j];
    if last.id !in existing && last.id in Ids(most) {
      var i :| 0 <= i < |most| && most[i].id == last.id;
      assert configs[i].id == last.id;
    }
  }

  // The number of plans added is the number of configured ids that are not yet the service's own exactly if each of
  // those is named by one entry; it is greater otherwise.
  lemma {:induction false} MissingCountIff(configs: seq<PlanConfig>, existing: set<string>)
    ensures |Missing(configs, existing)| >= |Ids(configs) - existing|
    ensures |Missing(configs, existing)| == |Ids(configs) - existing| <==> MissingOnce(configs, existing)
  {
    if configs != [] {
      var most, last := configs[..|configs| - 1], configs[|configs| - 1];
      MissingCountIff(most, existing);
      IdsSplit(configs);
      MissingOnceSplit(configs, existing);
      if last.id in existing || last.id in Ids(most) {
        assert Ids(configs) - existing == Ids(most) - existing;
      } else {
        assert Ids(configs) - existing == Ids(most) - existing + {last.id};
      }
    } else {
      assert Ids(configs) - existing == {};
    }
  }

  // The tier a plan is created with is one of the service's own.
  predicate OwnTier(configs: seq<PlanConfig>, id: string)
    requires id in Ids(configs)
  {
    configs[LastEntry(configs, id).value].tier in {EXTENDED, PRIVILEGED}
  }

  // After a run the service's own plans are the configured ones that were its own or were created with such a tier.
  lemma OwnedAfter(s: Store, configs: seq<PlanConfig>, id: string)
    ensures id in Existing(Reconcile(s, configs).plans) <==>
            id in Ids(configs) && (id in Existing(s.plans) || OwnTier(configs, id))
  {
    PlansConverge(s, configs, id);
  }

  lemma MissingNone(configs: seq<PlanConfig>, existing: set<string>)
    ensures Missing(configs, existing) == [] <==> Ids(configs) <= existing
  {
    if configs != [] {
      IdsSplit(configs);
      MissingNone(configs[..|configs| - 1], existing);
    }
  }

  // A second run with the same configuration deletes and adds nothing if and only if every
  // configured plan that the service had to create has an EXTENDED or PRIVILEGED tier.
  lemma SecondRunCountsNothingIff(s: Store, configs: seq<PlanConfig>)
    ensures var again := Existing(Reconcile(s, configs).plans);
            |again - Ids(configs)| + |Missing(configs, again)| == 0 <==>
            forall id :: id in Ids(configs) - Existing(s.plans) ==> OwnTier(configs, id)
  {
    var again := Existing(Reconcile(s, configs).plans);
    forall id ensures id in again <==> id in Ids(configs) && (id in Existing(s.plans) || OwnTier(configs, id)) {
      OwnedAfter(s, configs, id);
    }
    assert again - Ids(configs) == {};
    MissingNone(configs, again);
  }

  // Running twice is the same as running once.
  lemma ReconcileTwice(s: Store, configs: seq<PlanConfig>)
    ensures Reconcile(Reconcile(s, configs), configs) == Reconcile(s, configs)
  {
    var once := Reconcile(s, configs);
    var twice := Reconcile(once, configs);
    forall id ensures id in Existing(once.plans) ==> id in Ids(configs) {
      OwnedAfter(s, configs, id);
    }
    forall a
      ensures Lookup(twice.evm, a) == Lookup(once.evm, a)
      ensures Lookup(twice.ip, a) == Lookup(once.ip, a)
    {
      AddressesSettle(s, configs, a);
      AddressesSettle(once, configs, a);
    }
    SameLookups(twice.evm, once.evm);
    SameLookups(twice.ip, once.ip);
    forall id
      ensures id in twice.plans <==> id in once.plans
      ensures id in once.plans ==> twice.plans[id] == once.plans[id]
    {
      PlansConverge(s, configs, id);
      PlansConverge(once, configs, id);
    }
    assert twice.plans == once.plans;
  }

  lemma SameLookups(a: map<string, string>, b: map<string, string>)
    requires forall x :: Lookup(a, x) == Lookup(b, x)
    ensures a == b
  {
    forall x ensures x in a <==> x in b
      ensures x in a ==> a[x] == b[x]
    {
      assert Lookup(a, x) == Lookup(b, x);
    }
    assert a.Keys == b.Keys;
  }

  // Two entries that share an id: the later one takes away what only the earlier one lists.
  lemma SharedIdLosesAddresses(s: Store, id: string, tier: Tier, a: string, b: string)
    requires a != b
    ensures var configs := [PlanConfig(id, tier, Some([a]), None), PlanConfig(id, tier, Some([b]), None)];
      LastListing(configs, true, a) == Some(0) && Lookup(Reconcile(s, configs).evm, a) == None
  {
    var configs := [PlanConfig(id, tier, Some([a]), None), PlanConfig(id, tier, Some([b]), None)];
    assert a in Addresses(configs[0], true) && a !in Addresses(configs[1], true);
    AddressesSettle(s, configs, a);
  }
}
