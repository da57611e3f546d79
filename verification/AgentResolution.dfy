/** Agent profiles and what they say about capabilities. */
module AgentProfiles {
  import opened Options

  type AgentId = string
  type CapabilityId = string

  datatype Category = Category(name: string)

  datatype Specialization = General | Coding | Research | Media | System | Vision | Voice

  datatype DelegationPolicy = Allow | Restricted | Prohibited

  datatype AgentProfile = AgentProfile(
    id: AgentId,
    specialization: Specialization,
    preferred: set<CapabilityId>,
    allowed: set<CapabilityId>,
    prohibited: set<CapabilityId>,
    preferredCategories: set<Category>,
    allowedCategories: set<Category>,
    delegation: DelegationPolicy)

  /** Whether the allowed entry ends in a star and the capability starts with what is before it. */
  predicate Covers(entry: string, capability: CapabilityId) {
    entry != "" && entry[|entry| - 1] == '*' && entry[..|entry| - 1] <= capability
  }

  predicate AllowsCategory(a: AgentProfile, category: Option<Category>) {
    a.allowedCategories == {} || (category.Some? && category.value in a.allowedCategories)
  }

  predicate CanUse(a: AgentProfile, capability: CapabilityId, category: Option<Category>) {
    if capability in a.prohibited then false
    else if a.allowed != {} && capability !in a.allowed
    then exists entry | entry in a.allowed :: Covers(entry, capability)
    else AllowsCategory(a, category)
  }

  predicate Prefers(a: AgentProfile, capability: CapabilityId, category: Option<Category>) {
    capability in a.preferred || PrefersCategory(a, category)
  }

  predicate PrefersCategory(a: AgentProfile, category: Option<Category>) {
    category.Some? && category.value in a.preferredCategories
  }

  /** What a profile permits, said of its lists: nothing prohibited; where a nonempty list does not name the
      capability, only what some beginning of it with a star is listed for, whatever the category; else
      only listed categories, if any are listed. */
  predicate Permits(a: AgentProfile, capability: CapabilityId, category: Option<Category>) {
    && capability !in a.prohibited
    && (a.allowed != {} && capability !in a.allowed ==>
          exists k | 0 <= k <= |capability| :: capability[..k] + "*" in a.allowed)
    && (a.allowed == {} || capability in a.allowed ==>
          a.allowedCategories == {} || exists c | c in a.allowedCategories :: category == Some(c))
  }

  lemma CanUseIff(a: AgentProfile, capability: CapabilityId, category: Option<Category>)
    ensures CanUse(a, capability, category) <==> Permits(a, capability, category)
  {
    forall entry: string
      ensures Covers(entry, capability) <==> exists k | 0 <= k <= |capability| :: capability[..k] + "*" == entry
    {
      if Covers(entry, capability) {
        assert capability[..|entry| - 1] + "*" == entry;
      }
    }
  }

  /** The three rules of capability access. */
  lemma AccessRules(a: AgentProfile, capability: CapabilityId, category: Option<Category>)
    ensures capability in a.prohibited ==> !CanUse(a, capability, category)
    ensures a.allowed != {} && capability !in a.allowed ==>
              (CanUse(a, capability, category) <==>
                 capability !in a.prohibited && exists p :: p <= capability && p + "*" in a.allowed)
    ensures (a.allowed == {} || capability in a.allowed) && capability !in a.prohibited ==>
              (CanUse(a, capability, category) <==>
                 a.allowedCategories == {} || (category.Some? && category.value in a.allowedCategories))
  {
    CanUseIff(a, capability, category);
    if p :| p <= capability && p + "*" in a.allowed {
      assert capability[..|p|] == p;
    }
    if k :| 0 <= k <= |capability| && capability[..k] + "*" in a.allowed {
      assert capability[..k] <= capability;
    }
  }

  /** A capability reached through a star skips the category check, so naming it outright as well
      takes it away exactly when the agent's categories do not allow it. */
  lemma NamingCanRevoke(a: AgentProfile, capability: CapabilityId, category: Option<Category>)
    requires CanUse(a, capability, category)
    ensures !CanUse(a.(allowed := a.allowed + {capability}), capability, category) <==> !AllowsCategory(a, category)
    ensures !AllowsCategory(a, category) ==> exists entry | entry in a.allowed :: Covers(entry, capability)
  {
    assert capability in a.allowed + {capability};
  }
}

/** Which agents are in the running for a capability, and how they rank. */
module AgentRanking {
  import opened Options
  import opened AgentProfiles

  datatype Request = Request(
    capability: CapabilityId,
    category: Option<Category>,
    specialization: Option<Specialization>,
    requiredCategories: set<Category>)

  type Agents = map<AgentId, AgentProfile>

  ghost predicate KeyedById(agents: Agents) {
    forall id | id in agents :: agents[id].id == id
  }

  predicate Qualifies(a: AgentProfile, req: Request) {
    CanUse(a, req.capability, req.category) && req.requiredCategories <= a.allowedCategories
  }

  predicate Hinted(a: AgentProfile, req: Request) {
    req.specialization == Some(a.specialization)
  }

  /** The agents the answer is picked from: the qualifying ones of the hinted specialization, or
      all qualifying ones when there is none of those. */
  ghost predicate InPool(agents: Agents, req: Request, a: AgentProfile) {
    && a in agents.Values && Qualifies(a, req)
    && ((exists b | b in agents.Values :: Qualifies(b, req) && Hinted(b, req)) ==> Hinted(a, req))
  }

  /** A scored candidate. Scores are in hundredths. */
  datatype Resolution =
    Resolution(agent: AgentProfile, score: nat, matched: seq<CapabilityId>, matchedSpecialization: bool)

  function Evaluate(a: AgentProfile, req: Request): Resolution {
    var prefers := Prefers(a, req.capability, req.category);
    var explicit := req.capability in a.preferred;
    var listed := req.capability in a.allowed && !explicit;
    Resolution(a,
               (if Hinted(a, req) then 100 else if prefers then 80 else 0)
               + (if explicit then 50 else 0)
               + (if PrefersCategory(a, req.category) then 30 else 0)
               + (if listed then 10 else 0)
               + (if a.specialization == General then 5 else 0),
               if explicit || listed then [req.capability] else [],
               Hinted(a, req) || prefers)
  }

  /** Text order, by code point. */
  predicate AtMost(s: string, t: string) {
    s == "" || (t != "" && (s[0] < t[0] || (s[0] == t[0] && AtMost(s[1..], t[1..]))))
  }

  predicate Ahead(x: Resolution, y: Resolution) {
    x.score > y.score || (x.score == y.score && AtMost(x.agent.id, y.agent.id))
  }

  ghost predicate IsBest(agents: Agents, req: Request, best: AgentProfile) {
    && InPool(agents, req, best)
    && forall a | InPool(agents, req, a) :: Ahead(Evaluate(best, req), Evaluate(a, req))
  }

  lemma {:induction false} TextOrderIsTotal(s: string, t: string)
    ensures AtMost(s, t) || AtMost(t, s)
    ensures AtMost(s, t) && AtMost(t, s) ==> s == t
  {
    if s != "" && t != "" {
      TextOrderIsTotal(s[1..], t[1..]);
      if s[0] == t[0] && s[1..] == t[1..] {
        assert s == [s[0]] + s[1..] && t == [t[0]] + t[1..];
      }
    }
  }

  lemma {:induction false} TextOrderIsTransitive(s: string, t: string, u: string)
    requires AtMost(s, t) && AtMost(t, u)
    ensures AtMost(s, u)
  {
    if s != "" && s[0] == t[0] && t[0] == u[0] {
      TextOrderIsTransitive(s[1..], t[1..], u[1..]);
    }
  }

  /** The one text is a beginning of the other, or has the smaller character where they first differ. */
  ghost predicate ComesFirst(s: string, t: string) {
    s <= t || exists k | 0 <= k < |s| && k < |t| :: s[..k] == t[..k] && s[k] < t[k]
  }

  lemma {:induction false} TextOrderIs(s: string, t: string)
    ensures AtMost(s, t) <==> ComesFirst(s, t)
  {
    if s != "" && t != "" && s[0] == t[0] {
      TextOrderIs(s[1..], t[1..]);
      assert s == [s[0]] + s[1..] && t == [t[0]] + t[1..];
      if k :| 0 <= k < |s| - 1 && k < |t| - 1 && s[1..][..k] == t[1..][..k] && s[1..][k] < t[1..][k] {
        assert s[..k + 1] == [s[0]] + s[1..][..k] && t[..k + 1] == [t[0]] + t[1..][..k];
        assert s[k + 1] < t[k + 1];
      }
      if k :| 0 <= k < |s| && k < |t| && s[..k] == t[..k] && s[k] < t[k] {
        assert k > 0 && s[1..][..k - 1] == s[..k][1..] && t[1..][..k - 1] == t[..k][1..];
        assert s[1..][k - 1] < t[1..][k - 1];
      }
    } else if s != "" && t != "" && s[0] < t[0] {
      assert s[..0] == t[..0];
    }
  }

  lemma AheadIsTransitive(x: Resolution, y: Resolution, z: Resolution)
    requires Ahead(x, y) && Ahead(y, z)
    ensures Ahead(x, z)
  {
    if x.score == z.score {
      TextOrderIsTransitive(x.agent.id, y.agent.id, z.agent.id);
    }
  }

  /** There is at most one best agent, so no order of registration or iteration can matter. */
  lemma BestIsUnique(agents: Agents, req: Request, a: AgentProfile, b: AgentProfile)
    requires KeyedById(agents) && IsBest(agents, req, a) && IsBest(agents, req, b)
    ensures a == b
  {
    assert Ahead(Evaluate(a, req), Evaluate(b, req)) && Ahead(Evaluate(b, req), Evaluate(a, req));
    TextOrderIsTotal(a.id, b.id);
  }

  /** The specialization is only a hint: somebody is in the pool exactly when somebody qualifies. */
  lemma PoolIsEmptyIff(agents: Agents, req: Request)
    ensures (exists a :: InPool(agents, req, a)) <==> exists a | a in agents.Values :: Qualifies(a, req)
    ensures forall a | InPool(agents, req, a) ::
              Hinted(a, req) <==> exists b | b in agents.Values :: Qualifies(b, req) && Hinted(b, req)
  {
    if a :| a in agents.Values && Qualifies(a, req) {
      if b :| b in agents.Values && Qualifies(b, req) && Hinted(b, req) {
        assert InPool(agents, req, b);
      } else {
        assert InPool(agents, req, a);
      }
    }
  }

  /** What the score weighs, most important first. */
  function Merits(a: AgentProfile, req: Request): seq<bool> {
    var explicit := req.capability in a.preferred;
    [explicit, exists c | c in a.preferredCategories :: req.category == Some(c),
     !explicit && req.capability in a.allowed, a.specialization == General]
  }

  /** The first merit the two differ in is the second one's. */
  ghost predicate Outmerits(p: seq<bool>, q: seq<bool>)
    requires |p| == |q|
  {
    exists i | 0 <= i < |p| :: p[i] && !q[i] && p[..i] == q[..i]
  }

  lemma MeritsDiffer(p: seq<bool>, q: seq<bool>)
    requires |p| == 4 && |q| == 4
    ensures Outmerits(p, q) <==>
              || (p[0] && !q[0])
              || (p[0] == q[0] && p[1] && !q[1])
              || (p[0] == q[0] && p[1] == q[1] && p[2] && !q[2])
              || (p[0] == q[0] && p[1] == q[1] && p[2] == q[2] && p[3] && !q[3])
  {
    forall i: nat | i < 4 ensures p[..i] == q[..i] <==> forall k | 0 <= k < i :: p[k] == q[k] {
      if p[..i] == q[..i] {
        forall k | 0 <= k < i ensures p[k] == q[k] {
          assert p[..i][k] == q[..i][k];
        }
      }
    }
  }

  /** Among agents in one pool the sum of weights is lexicographic: an explicit preference beats
      everything, then a preferred category, then a listing, then being a general agent. */
  lemma ScoresAreLexicographic(agents: Agents, req: Request, a: AgentProfile, b: AgentProfile)
    requires InPool(agents, req, a) && InPool(agents, req, b)
    ensures Evaluate(a, req).score > Evaluate(b, req).score <==> Outmerits(Merits(a, req), Merits(b, req))
  {
    assert Hinted(a, req) <==> Hinted(b, req);
    MeritsDiffer(Merits(a, req), Merits(b, req));
  }

  function One(b: bool): nat {
    if b then 1 else 0
  }

  /** The confidence adds up what speaks for the agent, the hint counting instead of a mere preference. */
  lemma ScoreAddsUp(a: AgentProfile, req: Request)
    ensures var r, merits := Evaluate(a, req), Merits(a, req);
            var hinted := exists s :: req.specialization == Some(s) && s == a.specialization;
            && r.agent == a
            && r.score == 100 * One(hinted) + 80 * One(!hinted && (merits[0] || merits[1])) + 50 * One(merits[0])
                          + 30 * One(merits[1]) + 10 * One(merits[2]) + 5 * One(merits[3])
            && (r.matched == [req.capability] <==> req.capability in a.preferred + a.allowed)
            && (r.matched == [] <==> req.capability !in a.preferred + a.allowed)
            && (r.matchedSpecialization <==> hinted || merits[0] || merits[1])
  {
  }

  /** The agents an answer may come from, said of their profiles. */
  ghost predicate Suits(a: AgentProfile, capability: CapabilityId, category: Option<Category>,
                        required: set<Category>) {
    Permits(a, capability, category) && forall c | c in required :: c in a.allowedCategories
  }

  lemma QualifiesIff(a: AgentProfile, req: Request)
    ensures Qualifies(a, req) <==> Suits(a, req.capability, req.category, req.requiredCategories)
  {
    CanUseIff(a, req.capability, req.category);
  }

  ghost function Pool(agents: Agents, req: Request): set<AgentProfile> {
    var suiting := set a | a in agents.Values && Suits(a, req.capability, req.category, req.requiredCategories);
    var hinted := set a | a in suiting && req.specialization == Some(a.specialization);
    if hinted == {} then suiting else hinted
  }

  /** The choice, said of the profiles: a suiting agent, of the hinted specialization if a suiting one is,
      and among all such agents the first by merits and then by id. */
  ghost predicate IsChoice(agents: Agents, req: Request, best: AgentProfile) {
    var pool := Pool(agents, req);
    && best in pool
    && forall a | a in pool ::
         && !Outmerits(Merits(a, req), Merits(best, req))
         && (Merits(a, req) == Merits(best, req) ==> ComesFirst(best.id, a.id))
  }

  lemma EqualScoresIff(agents: Agents, req: Request, a: AgentProfile, b: AgentProfile)
    requires InPool(agents, req, a) && InPool(agents, req, b)
    ensures Evaluate(a, req).score == Evaluate(b, req).score <==> Merits(a, req) == Merits(b, req)
  {
    assert Hinted(a, req) <==> Hinted(b, req);
    ScoreAddsUp(a, req);
    ScoreAddsUp(b, req);
  }

  lemma BestIsChoice(agents: Agents, req: Request, best: AgentProfile)
    requires IsBest(agents, req, best)
    ensures IsChoice(agents, req, best)
  {
    var pool := Pool(agents, req);
    forall a ensures a in pool <==> InPool(agents, req, a) {
      PoolIs(agents, req, a);
    }
    forall a | a in pool
      ensures !Outmerits(Merits(a, req), Merits(best, req))
      ensures Merits(a, req) == Merits(best, req) ==> ComesFirst(best.id, a.id)
    {
      assert Ahead(Evaluate(best, req), Evaluate(a, req));
      ScoresAreLexicographic(agents, req, a, best);
      EqualScoresIff(agents, req, a, best);
      TextOrderIs(best.id, a.id);
    }
  }

  lemma PoolIs(agents: Agents, req: Request, a: AgentProfile)
    ensures InPool(agents, req, a) <==> a in Pool(agents, req)
  {
    forall b ensures Qualifies(b, req) <==> Suits(b, req.capability, req.category, req.requiredCategories) {
      QualifiesIff(b, req);
    }
    var suiting := set x | x in agents.Values && Suits(x, req.capability, req.category, req.requiredCategories);
    var hinted := set x | x in suiting && req.specialization == Some(x.specialization);
    assert forall b | b in agents.Values && Qualifies(b, req) && Hinted(b, req) :: b in hinted;
    assert hinted != {} ==> exists b | b in agents.Values :: Qualifies(b, req) && Hinted(b, req) by {
      if b :| b in hinted {
        assert b in agents.Values && Qualifies(b, req) && Hinted(b, req);
      }
    }
  }

  /** The score is meant as a confidence of at most one. It goes beyond exactly for these agents,
      and up to 1.85; and a specialization counts as matched for a mere preference too. */
  lemma ConfidenceExceedsOneIff(a: AgentProfile, req: Request)
    ensures Evaluate(a, req).score <= 185
    ensures Evaluate(a, req).score > 100 <==>
              || req.capability in a.preferred || PrefersCategory(a, req.category)
              || (Hinted(a, req) && (req.capability in a.allowed || a.specialization == General))
    ensures Evaluate(a, req).matchedSpecialization <==> Evaluate(a, req).score >= 80
  {
  }

  /** A general agent with every preference, asked for by its specialization, reaches the maximum. */
  lemma ConfidenceReaches(id: AgentId, capability: CapabilityId, category: Category)
    ensures var a := AgentProfile(id, General, {capability}, {}, {}, {category}, {}, Allow);
            var req := Request(capability, Some(category), Some(General), {});
            Qualifies(a, req) && Evaluate(a, req).score == 185
  {
  }

  lemma SmallerPool(agents: Agents, req: Request, best: AgentProfile, id: AgentId)
    requires KeyedById(agents) && InPool(agents, req, best) && best.id != id
    ensures InPool(agents - {id}, req, best)
    ensures forall a | InPool(agents - {id}, req, a) :: InPool(agents, req, a)
  {
    var fewer := agents - {id};
    assert best.id in fewer && fewer[best.id] == best;
    assert forall a | a in fewer.Values :: a in agents.Values;
    forall a | InPool(fewer, req, a) ensures InPool(agents, req, a) {
      if exists b | b in agents.Values :: Qualifies(b, req) && Hinted(b, req) {
        assert Hinted(best, req) && best in fewer.Values;
      }
    }
  }

  /** Unregistering anybody but the chosen agent leaves the choice as it is. */
  lemma LosersDoNotMatter(agents: Agents, req: Request, best: AgentProfile, id: AgentId)
    requires KeyedById(agents) && IsBest(agents, req, best) && best.id != id
    ensures IsBest(agents - {id}, req, best)
  {
    SmallerPool(agents, req, best, id);
  }

  /** Registering an agent either makes it the choice or changes nothing. */
  lemma NewcomerWinsOrNothingChanges(agents: Agents, req: Request, newcomer: AgentProfile,
                                     before: AgentProfile, after: AgentProfile)
    requires KeyedById(agents) && newcomer.id !in agents
    requires IsBest(agents, req, before) && IsBest(agents[newcomer.id := newcomer], req, after)
    ensures after == newcomer || after == before
  {
    var more := agents[newcomer.id := newcomer];
    if after.id != newcomer.id {
      LosersDoNotMatter(more, req, after, newcomer.id);
      assert more - {newcomer.id} == agents;
      BestIsUnique(agents, req, before, after);
    } else {
      assert after in more.Values;
    }
  }

  /** Candidates by falling score, equal scores by rising id. */
  function Ranked(candidates: seq<Resolution>): (r: seq<Resolution>)
    ensures multiset(r) == multiset(candidates) && IsRanked(r)
  {
    if candidates == [] then []
    else
      assert candidates == [candidates[0]] + candidates[1..];
      Place(candidates[0], Ranked(candidates[1..]))
  }

  predicate IsRanked(s: seq<Resolution>) {
    forall i, j | 0 <= i < j < |s| :: Ahead(s[i], s[j])
  }

  function Place(x: Resolution, ranked: seq<Resolution>): (r: seq<Resolution>)
    requires IsRanked(ranked)
    ensures multiset(r) == multiset{x} + multiset(ranked) && IsRanked(r)
  {
    if ranked == [] then [x]
    else if Ahead(x, ranked[0]) then
      PlaceFirst(x, ranked);
      [x] + ranked
    else
      assert ranked == [ranked[0]] + ranked[1..];
      var rest := Place(x, ranked[1..]);
      PlaceLater(x, ranked, rest);
      [ranked[0]] + rest
  }

  lemma PlaceFirst(x: Resolution, ranked: seq<Resolution>)
    requires ranked != [] && IsRanked(ranked) && Ahead(x, ranked[0])
    ensures IsRanked([x] + ranked)
  {
    forall j | 0 < j < |ranked| ensures Ahead(x, ranked[j]) {
      AheadIsTransitive(x, ranked[0], ranked[j]);
    }
  }

  lemma PlaceLater(x: Resolution, ranked: seq<Resolution>, rest: seq<Resolution>)
    requires ranked != [] && IsRanked(ranked) && !Ahead(x, ranked[0])
    requires IsRanked(rest) && multiset(rest) == multiset{x} + multiset(ranked[1..])
    ensures IsRanked([ranked[0]] + rest)
  {
    TextOrderIsTotal(x.agent.id, ranked[0].agent.id);
    forall j | 0 <= j < |rest| ensures Ahead(ranked[0], rest[j]) {
      assert rest[j] in multiset(rest);
      if rest[j] != x {
        assert rest[j] in ranked[1..];
      }
    }
  }
}

/** The registry with its index, the resolver and the orchestrator's delegation. */
module AgentRegistries {
  import opened Options
  import opened AgentProfiles
  import opened AgentRanking

  datatype RegistryError = AlreadyRegistered | AgentNotFound

  class AgentRegistry {
    var agents: Agents
    var index: map<Specialization, set<AgentId>>

    /** The index lists every agent under its own specialization and nobody else, and has no
        empty entries. */
    ghost predicate Valid()
      reads this
    {
      && KeyedById(agents)
      && (forall s | s in index :: index[s] != {})
      && (forall s: Specialization, id: AgentId ::
            (s in index && id in index[s]) <==> (id in agents && agents[id].specialization == s))
    }

    constructor ()
      ensures Valid() && agents == map[]
    {
      agents, index := map[], map[];
    }

    method Register(profile: AgentProfile) returns (r: Result<(), RegistryError>)
      requires Valid()
      modifies this
      ensures Valid()
      ensures r == if profile.id in old(agents) then Err(AlreadyRegistered) else Ok(())
      ensures agents == if r.Ok? then old(agents)[profile.id := profile] else old(agents)
    {
      if profile.id in agents {
        return Err(AlreadyRegistered);
      }
      agents := agents[profile.id := profile];
      var ids := if profile.specialization in index then index[profile.specialization] else {};
      index := index[profile.specialization := ids + {profile.id}];
      r := Ok(());
    }

    method Unregister(id: AgentId) returns (r: Result<(), RegistryError>)
      requires Valid()
      modifies this
      ensures Valid()
      ensures r == if id in old(agents) then Ok(()) else Err(AgentNotFound)
      ensures agents == old(agents) - {id}
    {
      if id !in agents {
        return Err(AgentNotFound);
      }
      var s := agents[id].specialization;
      agents := agents - {id};
      if s in index {
        index := index[s := index[s] - {id}];
        if index[s] == {} {
          index := index - {s};
        }
      }
      r := Ok(());
    }

    /** The profiles of the given agents, in no particular order. */
    method Profiles(ids: set<AgentId>) returns (profiles: seq<AgentProfile>)
      requires ids <= agents.Keys
      ensures forall p :: p in profiles <==> exists id | id in ids :: agents[id] == p
      ensures |profiles| == |ids|
    {
      profiles := [];
      var left := ids;
      while left != {}
        invariant left <= ids && |profiles| == |ids| - |left|
        invariant forall p :: p in profiles <==> exists id | id in ids - left :: agents[id] == p
      {
        var id :| id in left;
        assert ids - (left - {id}) == (ids - left) + {id};
        profiles := profiles + [agents[id]];
        left := left - {id};
      }
      assert ids - left == ids;
    }

    method GetAll() returns (profiles: seq<AgentProfile>)
      ensures forall p :: p in profiles <==> p in agents.Values
      ensures |profiles| == |agents|
    {
      profiles := Profiles(agents.Keys);
    }

    method GetBySpecialization(s: Specialization) returns (profiles: seq<AgentProfile>)
      requires Valid()
      ensures forall p :: p in profiles <==> p in agents.Values && p.specialization == s
    {
      var ids := if s in index then index[s] else {};
      assert forall id | id in ids :: s in index && id in index[s];
      profiles := Profiles(ids);
      forall p ensures p in profiles <==> p in agents.Values && p.specialization == s {
        if p in agents.Values && p.specialization == s {
          var id :| id in agents && agents[id] == p;
          assert s in index && id in index[s];
        }
      }
    }
  }

  datatype ResolveError = NoSuitableAgent | DelegationProhibited | DelegateCannotUse

  class AgentResolver {
    const registry: AgentRegistry
    const categories: map<CapabilityId, Category>

    constructor (r: AgentRegistry, c: map<CapabilityId, Category>)
      ensures registry == r && categories == c
    {
      registry, categories := r, c;
    }

    function RequestFor(capability: CapabilityId, s: Option<Specialization>, required: set<Category>): Request {
      Request(capability, if capability in categories then Some(categories[capability]) else None, s, required)
    }

    method Filter(candidates: seq<AgentProfile>, req: Request) returns (filtered: seq<AgentProfile>)
      ensures forall a :: a in filtered <==> a in candidates && Qualifies(a, req)
    {
      filtered := [];
      for i := 0 to |candidates|
        invariant forall a :: a in filtered <==> a in candidates[..i] && Qualifies(a, req)
      {
        assert candidates[..i + 1] == candidates[..i] + [candidates[i]];
        if Qualifies(candidates[i], req) {
          filtered := filtered + [candidates[i]];
        }
      }
    }

    method FindCandidates(req: Request) returns (filtered: seq<AgentProfile>)
      requires registry.Valid()
      ensures forall a :: a in filtered <==> InPool(registry.agents, req, a)
      ensures forall a :: a in filtered <==> a in Pool(registry.agents, req)
    {
      var candidates;
      if req.specialization.Some? {
        candidates := registry.GetBySpecialization(req.specialization.value);
      } else {
        candidates := registry.GetAll();
      }
      filtered := Filter(candidates, req);
      if filtered == [] && req.specialization.Some? {
        var all := registry.GetAll();
        assert forall a | a in candidates :: a !in filtered && !Qualifies(a, req);
        filtered := Filter(all, req);
      } else if filtered != [] {
        assert filtered[0] in filtered;
      }
      forall a ensures InPool(registry.agents, req, a) <==> a in Pool(registry.agents, req) {
        PoolIs(registry.agents, req, a);
      }
    }

    method ScoreCandidates(candidates: seq<AgentProfile>, req: Request) returns (scored: seq<Resolution>)
      ensures IsRanked(scored) && |scored| == |candidates|
      ensures forall x :: x in scored <==> x.agent in candidates && x == Evaluate(x.agent, req)
    {
      var unsorted: seq<Resolution> := [];
      for i := 0 to |candidates|
        invariant |unsorted| == i
        invariant forall x :: x in unsorted <==> x.agent in candidates[..i] && x == Evaluate(x.agent, req)
      {
        assert candidates[..i + 1] == candidates[..i] + [candidates[i]];
        unsorted := unsorted + [Evaluate(candidates[i], req)];
      }
      assert candidates[..|candidates|] == candidates;
      scored := Ranked(unsorted);
      assert forall x :: x in scored <==> x in multiset(scored);
      assert |multiset(scored)| == |multiset(unsorted)|;
    }

    /** The best qualifying agent, or an error exactly when no registered agent qualifies. */
    method Resolve(capability: CapabilityId, s: Option<Specialization>, required: set<Category>)
      returns (r: Result<Resolution, ResolveError>)
      requires registry.Valid()
      ensures r.Err? <==> !exists a | a in registry.agents.Values :: Qualifies(a, RequestFor(capability, s, required))
      ensures r.Err? ==> r.error == NoSuitableAgent
      ensures r.Ok? ==> IsBest(registry.agents, RequestFor(capability, s, required), r.value.agent)
      ensures r.Ok? ==> r.value == Evaluate(r.value.agent, RequestFor(capability, s, required))
      ensures var category := if capability in categories then Some(categories[capability]) else None;
              && (r.Err? <==> forall a | a in registry.agents.Values :: !Suits(a, capability, category, required))
              && (r.Ok? ==> IsChoice(registry.agents, Request(capability, category, s, required), r.value.agent))
    {
      var req := RequestFor(capability, s, required);
      forall a ensures Qualifies(a, req) <==> Suits(a, req.capability, req.category, required) {
        QualifiesIff(a, req);
      }
      var candidates := FindCandidates(req);
      PoolIsEmptyIff(registry.agents, req);
      if candidates == [] {
        return Err(NoSuitableAgent);
      }
      assert candidates[0] in candidates;
      var scored := ScoreCandidates(candidates, req);
      assert Evaluate(candidates[0], req) in scored;
      var best := scored[0];
      assert best in scored;
      TextOrderIsTotal(best.agent.id, best.agent.id);
      forall a | InPool(registry.agents, req, a) ensures Ahead(best, Evaluate(a, req)) {
        assert Evaluate(a, req) in scored;
      }
      BestIsChoice(registry.agents, req, best.agent);
      r := Ok(best);
    }
  }

  class AgentOrchestrator {
    const resolver: AgentResolver

    constructor (r: AgentResolver)
      ensures resolver == r
    {
      resolver := r;
    }

    /** Hands a capability on to the best qualifying agent. The last error is never raised. */
    method Delegate(from: AgentId, capability: CapabilityId) returns (r: Result<Resolution, ResolveError>)
      requires resolver.registry.Valid()
      ensures var agents, categories := resolver.registry.agents, resolver.categories;
              var category := if capability in categories then Some(categories[capability]) else None;
              var allowed := from in agents && agents[from].delegation != Prohibited;
              && (r.Err? <==> !allowed || forall a | a in agents.Values :: !Permits(a, capability, category))
              && (r.Ok? ==> Permits(r.value.agent, capability, category)
                            && IsChoice(agents, Request(capability, category, None, {}), r.value.agent))
      ensures var agents, req := resolver.registry.agents, resolver.RequestFor(capability, None, {});
              var nobody := !exists a | a in agents.Values :: Qualifies(a, req);
              && (r == Err(DelegationProhibited) <==> from in agents && agents[from].delegation == Prohibited)
              && (r == Err(NoSuitableAgent) <==> from !in agents || (agents[from].delegation != Prohibited && nobody))
              && r != Err(DelegateCannotUse)
              && (r.Ok? ==> IsBest(agents, req, r.value.agent) && CanUse(r.value.agent, capability, req.category))
    {
      var agents := resolver.registry.agents;
      if from !in agents {
        return Err(NoSuitableAgent);
      }
      if agents[from].delegation == Prohibited {
        return Err(DelegationProhibited);
      }
      r := resolver.Resolve(capability, None, {});
      if r.Err? {
        return;
      }
      var category := resolver.RequestFor(capability, None, {}).category;
      if !CanUse(r.value.agent, capability, category) {
        r := Err(DelegateCannotUse);
      }
    }
  }
}
