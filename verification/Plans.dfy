/** Subscription plans: a cached detail per plan and cached pages of the active ones. */
module Plans {
  import opened Prelude
  import opened Redis
  import opened CacheKeys

  /** `details` stands for the columns no query looks at, by column name. */
  datatype Plan = Plan(id: int, name: string, active: bool, details: map<string, string>)

  datatype PlanPatch = PlanPatch(name: Option<string>, active: Option<bool>, details: map<string, string>)

  datatype Cached = DetailValue(plan: Plan) | ListValue(plans: seq<Plan>, total: nat, limit: Limit, offset: nat)

  datatype PlanError = PlanNotFound | NameExists | UniqueViolation

  /** Plans are never deleted, so the plan with id `n` is row number `n - 1`. */
  datatype State = State(plans: seq<Plan>, store: map<string, Cached>)

  function Patched(plan: Plan, patch: PlanPatch): Plan {
    Plan(plan.id,
         if patch.name.Some? then patch.name.value else plan.name,
         if patch.active.Some? then patch.active.value else plan.active,
         plan.details + patch.details)
  }

  /** The plans of one status, newest first: `updatedAt` is written only at creation. */
  function FindAll(plans: seq<Plan>, limit: Limit, offset: nat, active: bool): Cached {
    var rows := Selected(plans, (p: Plan) => p.active == active);
    ListValue(Window(rows, limit, offset), |rows|, limit, offset)
  }

  predicate IsPlanKey(k: Key) {
    k.PlanDetail? || k.PlanList?
  }

  type PlanKey = k: Key | IsPlanKey(k) witness PlanDetail(1)

  function Queried(plans: seq<Plan>, k: Key): Option<Cached> {
    match k
    case PlanDetail(id) => if 1 <= id <= |plans| then Some(DetailValue(plans[id - 1])) else None
    case PlanList(limit, offset) => Some(FindAll(plans, limit, offset, true))
    case _ => None
  }

  function Queries(plans: seq<Plan>): Key -> Option<Cached> {
    (k: Key) => Queried(plans, k)
  }

  function Read(ns: Namespace, s: State, k: Key): (State, Option<Cached>) {
    if Name(ns, k) in s.store then (s, Some(s.store[Name(ns, k)])) else
    match Queried(s.plans, k)
    case None => (s, None)
    case Some(v) => (s.(store := s.store[Name(ns, k) := v]), Some(v))
  }

  function Create(s: State, name: string, details: map<string, string>): (State, Result<Plan, PlanError>) {
    if exists p :: p in s.plans && p.name == name then (s, Failure(NameExists)) else
    var plan := Plan(|s.plans| + 1, name, true, details);
    (State(s.plans + [plan], Cleared(s.store, Pattern(ActivePlans))), Success(plan))
  }

  /** The plan is taken from the cache, patched and saved whole; only then are the entries deleted. */
  function Update(ns: Namespace, s: State, planId: int, patch: PlanPatch): (State, Result<Plan, PlanError>) {
    var (s1, cached) := Read(ns, s, PlanDetail(planId));
    match cached
    case Some(DetailValue(plan)) =>
      var saved := Patched(plan, patch);
      if !(1 <= planId <= |s.plans|) then (s1, Failure(PlanNotFound))
      else if exists p :: p in s.plans && p.id != planId && p.name == saved.name then (s1, Failure(UniqueViolation))
      else
        (State(s1.plans[planId - 1 := saved], Cleared(s1.store - {Name(ns, PlanDetail(planId))}, Pattern(ActivePlans))),
         Success(saved))
    case _ => (s1, Failure(PlanNotFound))
  }

  datatype PlanEvent =
    | ReadCall(k: PlanKey)
    | CreateCall(name: string, details: map<string, string>)
    | UpdateCall(planId: int, patch: PlanPatch)

  function Next(ns: Namespace, s: State, e: PlanEvent): State {
    match e
    case ReadCall(k) => Read(ns, s, k).0
    case CreateCall(name, details) => Create(s, name, details).0
    case UpdateCall(planId, patch) => Update(ns, s, planId, patch).0
  }

  function Play(ns: Namespace, s: State, events: seq<PlanEvent>): State
    decreases |events|
  {
    if events == [] then s else Play(ns, Next(ns, s, events[0]), events[1..])
  }

  const START := State([], map[])

  // ---------------------------------------------------------------- invariants

  ghost predicate CacheCurrent(ns: Namespace, s: State) {
    Coherent(ns, s.store, IsPlanKey, Queries(s.plans))
  }

  ghost predicate Numbered(plans: seq<Plan>) {
    forall i | 0 <= i < |plans| :: plans[i].id == i + 1
  }

  ghost predicate NamesUnique(plans: seq<Plan>) {
    forall i, j | 0 <= i < j < |plans| :: plans[i].name != plans[j].name
  }

  ghost predicate Inv(ns: Namespace, s: State) {
    CacheCurrent(ns, s) && Numbered(s.plans) && NamesUnique(s.plans)
  }

  lemma ReadIsCurrent(ns: Namespace, s: State, k: PlanKey)
    requires CacheCurrent(ns, s)
    ensures Read(ns, s, k).1 == Queried(s.plans, k)
    ensures CacheCurrent(ns, Read(ns, s, k).0) && Read(ns, s, k).0.plans == s.plans
    ensures Queried(s.plans, k).Some? ==> Name(ns, k) in Read(ns, s, k).0.store
    ensures s.store.Keys <= Read(ns, s, k).0.store.Keys <= s.store.Keys + {Name(ns, k)}
  {
    if Name(ns, k) !in s.store && Queried(s.plans, k).Some? {
      FillKeepsCoherent(ns, s.store, IsPlanKey, Queries(s.plans), k);
    }
  }

  lemma CreateKeepsCache(ns: Namespace, s: State, name: string, details: map<string, string>)
    requires CacheCurrent(ns, s)
    ensures CacheCurrent(ns, Create(s, name, details).0)
  {
    ClearKeepsCoherent(ns, s.store, IsPlanKey, Queries(s.plans), Queries(Create(s, name, details).0.plans),
                       ActivePlans);
  }

  lemma CreateKeepsInv(ns: Namespace, s: State, name: string, details: map<string, string>)
    requires Inv(ns, s)
    ensures Inv(ns, Create(s, name, details).0)
  {
    CreateKeepsCache(ns, s, name, details);
    assert forall i | 0 <= i < |s.plans| :: s.plans[i] in s.plans;
  }

  /** A row after a patch, column by column. */
  ghost predicate Follows(patch: PlanPatch, p: Plan, p': Plan) {
    && p'.id == p.id
    && (patch.name.Some? ==> p'.name == patch.name.value) && (patch.name.None? ==> p'.name == p.name)
    && (patch.active.Some? ==> p'.active == patch.active.value) && (patch.active.None? ==> p'.active == p.active)
    && p'.details.Keys == p.details.Keys + patch.details.Keys
    && (forall column | column in patch.details :: p'.details[column] == patch.details[column])
    && (forall column | column in p.details && column !in patch.details :: p'.details[column] == p.details[column])
  }

  /** Saving the whole cached plan writes exactly the patched columns of its row, and it is refused exactly when there
      is no such plan or another one has the new name. */
  lemma UpdateWritesOnlyThePatch(ns: Namespace, s: State, planId: int, patch: PlanPatch)
    requires Inv(ns, s)
    ensures var (s', result) := Update(ns, s, planId, patch);
            && (result.Success? <==>
                  && 1 <= planId <= |s.plans|
                  && (patch.name.Some? ==>
                        forall i | 0 <= i < |s.plans| && i != planId - 1 :: s.plans[i].name != patch.name.value))
            && (result.Failure? ==> s'.plans == s.plans)
            && (result.Success? ==>
                  && s'.plans == s.plans[planId - 1 := result.value]
                  && Follows(patch, s.plans[planId - 1], result.value))
  {
    ReadIsCurrent(ns, s, PlanDetail(planId));
    if 1 <= planId <= |s.plans| {
      var saved := Patched(s.plans[planId - 1], patch);
      NamesOfOthers(s.plans, planId, saved.name);
      assert Follows(patch, s.plans[planId - 1], saved);
    }
  }

  lemma NamesOfOthers(plans: seq<Plan>, planId: int, name: string)
    requires Numbered(plans) && NamesUnique(plans) && 1 <= planId <= |plans|
    ensures (exists p :: p in plans && p.id != planId && p.name == name) <==>
              exists i | 0 <= i < |plans| && i != planId - 1 :: plans[i].name == name
    ensures forall i | 0 <= i < |plans| && i != planId - 1 :: plans[i].name != plans[planId - 1].name
  {
    assert forall i | 0 <= i < |plans| :: plans[i] in plans;
  }

  /** A page written out: the plans of one status, newest first, of which it shows its part and knows the number. */
  ghost predicate ShowsPage(page: Cached, plans: seq<Plan>, limit: Limit, offset: nat, active: bool) {
    exists rows: seq<Plan> ::
      && Lists(rows, plans, (p: Plan) => p.active == active, (p: Plan) => p.id)
      && page.ListValue? && page.total == |rows| && page.limit == limit && page.offset == offset
      && Slices(page.plans, rows, limit, offset)
  }

  lemma FindAllShowsPage(plans: seq<Plan>, limit: Limit, offset: nat, active: bool)
    requires Numbered(plans)
    ensures ShowsPage(FindAll(plans, limit, offset, active), plans, limit, offset, active)
  {
    var rows := Selected(plans, (p: Plan) => p.active == active);
    SelectedLists(plans, (p: Plan) => p.active == active, (p: Plan) => p.id);
    WindowSlices(rows, limit, offset);
  }

  lemma SavedPlanKeepsCache(ns: Namespace, s: State, planId: int, plan: Plan)
    requires CacheCurrent(ns, s) && 1 <= planId <= |s.plans|
    ensures CacheCurrent(ns, State(s.plans[planId - 1 := plan],
                                   Cleared(s.store - {Name(ns, PlanDetail(planId))}, Pattern(ActivePlans))))
  {
    var store' := Cleared(s.store - {Name(ns, PlanDetail(planId))}, Pattern(ActivePlans));
    forall k | IsPlanKey(k) && Name(ns, k) in store'
      ensures Queried(s.plans[planId - 1 := plan], k) == Some(store'[Name(ns, k)])
    {
      PatternIsExact(ns, ActivePlans, k);
      assert Queries(s.plans)(k) == Some(s.store[Name(ns, k)]);
    }
  }

  lemma PatchedNamesStay(plans: seq<Plan>, planId: int, plan: Plan)
    requires Numbered(plans) && NamesUnique(plans) && 1 <= planId <= |plans| && plan.id == planId
    requires forall p :: p in plans && p.id != planId ==> p.name != plan.name
    ensures Numbered(plans[planId - 1 := plan]) && NamesUnique(plans[planId - 1 := plan])
  {
    assert forall i | 0 <= i < |plans| :: plans[i] in plans;
  }

  lemma UpdateKeepsInv(ns: Namespace, s: State, planId: int, patch: PlanPatch)
    requires Inv(ns, s)
    ensures Inv(ns, Update(ns, s, planId, patch).0)
  {
    ReadIsCurrent(ns, s, PlanDetail(planId));
    UpdateWritesOnlyThePatch(ns, s, planId, patch);
    if Update(ns, s, planId, patch).1.Success? {
      SavedPlanKeepsCache(ns, Read(ns, s, PlanDetail(planId)).0, planId, Patched(s.plans[planId - 1], patch));
      PatchedNamesStay(s.plans, planId, Update(ns, s, planId, patch).1.value);
    }
  }

  /** A plan is created exactly when its name is new.  It is active, it is what the next detail read gives, and it heads
      the first page of active plans. */
  lemma CreateIsReadBack(ns: Namespace, s: State, name: string, details: map<string, string>, limit: Limit)
    requires Inv(ns, s)
    ensures var (s', created) := Create(s, name, details);
            && (created.Success? <==> forall i | 0 <= i < |s.plans| :: s.plans[i].name != name)
            && (created.Failure? ==> s' == s && created.error == NameExists)
            && (created.Success? ==>
                  && created.value == Plan(|s.plans| + 1, name, true, details)
                  && s'.plans == s.plans + [created.value]
                  && Read(ns, s', PlanDetail(created.value.id)).1 == Some(DetailValue(created.value))
                  && Read(ns, s', PlanList(limit, 0)).1 == Some(FindAll(s'.plans, limit, 0, true))
                  && FindAll(s'.plans, limit, 0, true).plans[..1] == [created.value])
  {
    var (s', created) := Create(s, name, details);
    if created.Success? {
      CreateKeepsCache(ns, s, name, details);
      ReadIsCurrent(ns, s', PlanDetail(created.value.id));
      ReadIsCurrent(ns, s', PlanList(limit, 0));
      NewestFirst(s.plans, created.value, limit);
    }
    assert forall i | 0 <= i < |s.plans| :: s.plans[i] in s.plans;
  }

  lemma NewestFirst(plans: seq<Plan>, plan: Plan, limit: Limit)
    requires plan.active
    ensures |FindAll(plans + [plan], limit, 0, true).plans| > 0
    ensures FindAll(plans + [plan], limit, 0, true).plans[..1] == [plan]
  {
    SelectedMore(plans, plan, (p: Plan) => p.active == true);
  }

  /** A saved plan is what the next detail read gives. */
  lemma UpdateIsReadBack(ns: Namespace, s: State, planId: int, patch: PlanPatch)
    requires Inv(ns, s)
    ensures var (s', updated) := Update(ns, s, planId, patch);
            updated.Success? ==> Read(ns, s', PlanDetail(planId)).1 == Some(DetailValue(updated.value))
  {
    ReadIsCurrent(ns, s, PlanDetail(planId));
    UpdateWritesOnlyThePatch(ns, s, planId, patch);
    UpdateKeepsInv(ns, s, planId, patch);
    ReadIsCurrent(ns, Update(ns, s, planId, patch).0, PlanDetail(planId));
  }

  lemma {:induction false} PlayKeepsInv(ns: Namespace, s: State, events: seq<PlanEvent>)
    requires Inv(ns, s)
    ensures Inv(ns, Play(ns, s, events))
    decreases |events|
  {
    if events != [] {
      match events[0] {
        case ReadCall(k) => ReadIsCurrent(ns, s, k);
        case CreateCall(name, details) => CreateKeepsInv(ns, s, name, details);
        case UpdateCall(planId, patch) => UpdateKeepsInv(ns, s, planId, patch);
      }
      PlayKeepsInv(ns, Next(ns, s, events[0]), events[1..]);
    }
  }

  /** After every run both caches answer as the database would: a detail is the row of its plan, a list shows the active
      plans, newest first; and no name is used twice. */
  lemma PlansAreCurrent(ns: Namespace, events: seq<PlanEvent>, k: PlanKey)
    ensures var s := Play(ns, START, events);
            var read := Read(ns, s, k).1;
            && (k.PlanDetail? ==>
                  read == if 1 <= k.id <= |s.plans| then Some(DetailValue(s.plans[k.id - 1])) else None)
            && (k.PlanList? ==> read.Some? && ShowsPage(read.value, s.plans, k.limit, k.offset, true))
            && NamesUnique(s.plans) && Numbered(s.plans)
  {
    var s := Play(ns, START, events);
    PlayKeepsInv(ns, START, events);
    ReadIsCurrent(ns, s, k);
    if k.PlanList? {
      FindAllShowsPage(s.plans, k.limit, k.offset, true);
    }
  }
}

/** The service that owns the plans table. */
module PlanServices {
  import opened Prelude
  import opened Redis
  import opened CacheKeys
  import opened Plans

  class SubscriptionPlansService {
    const ns: Namespace
    const redisService: RedisService<Cached>
    var plans: seq<Plan>

    ghost predicate Valid()
      reads this, redisService
    {
      redisService.prefix == Prefix(ns)
    }

    ghost function View(): State
      reads this, redisService
    {
      State(plans, redisService.store)
    }

    constructor (ns: Namespace)
      ensures Valid() && fresh(redisService) && View() == START
    {
      this.ns, plans := ns, [];
      redisService := new RedisService(Prefix(ns));
    }

    method FindByIdWithCache(planId: int) returns (plan: Option<Cached>)
      requires Valid()
      modifies redisService
      ensures Valid() && (View(), plan) == Read(ns, old(View()), PlanDetail(planId))
    {
      var row := if 1 <= planId <= |plans| then Some(DetailValue(plans[planId - 1])) else None;
      plan := redisService.GetOrSet(Render(PlanDetail(planId)), row);
    }

    /** Only the active plans are cached. */
    method FindAllWithCache(limit: Limit, offset: nat, active: bool) returns (page: Option<Cached>)
      requires Valid()
      modifies redisService
      ensures Valid()
      ensures active ==> (View(), page) == Read(ns, old(View()), PlanList(limit, offset))
      ensures !active ==> View() == old(View()) && page == Some(FindAll(plans, limit, offset, false))
    {
      var rows := FindAll(plans, limit, offset, active);
      if active {
        page := redisService.GetOrSet(Render(PlanList(limit, offset)), Some(rows));
      } else {
        page := Some(rows);
      }
    }

    method Create(name: string, details: map<string, string>) returns (result: Result<Plan, PlanError>)
      requires Valid()
      modifies this`plans, redisService
      ensures Valid() && (View(), result) == Plans.Create(old(View()), name, details)
    {
      if exists p :: p in plans && p.name == name {
        return Failure(NameExists);
      }
      var plan := Plan(|plans| + 1, name, true, details);
      plans := plans + [plan];
      redisService.DeleteByPattern(Pattern(ActivePlans));
      return Success(plan);
    }

    method Update(planId: int, data: PlanPatch) returns (result: Result<Plan, PlanError>)
      requires Valid()
      modifies this`plans, redisService
      ensures Valid() && (View(), result) == Plans.Update(ns, old(View()), planId, data)
    {
      var cached := FindByIdWithCache(planId);
      if cached.None? || !cached.value.DetailValue? || !(1 <= planId <= |plans|) {
        return Failure(PlanNotFound);
      }
      var plan := Patched(cached.value.plan, data);
      if exists p :: p in plans && p.id != planId && p.name == plan.name {
        return Failure(UniqueViolation);
      }
      plans := plans[planId - 1 := plan];
      redisService.Delete(Render(PlanDetail(planId)));
      redisService.DeleteByPattern(Pattern(ActivePlans));
      return Success(plan);
    }
  }
}
