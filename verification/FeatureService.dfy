/** The evaluator and the set, clear and list services as objects; calls that do not overlap. */
module FeatureService {
  import opened Keyset
  import opened Json
  import opened FeatureCache

  datatype ValueType = BoolFlag | StringFlag | IntFlag | EnumSetFlag | JsonFlag

  datatype Definition = Definition(slug: Slug, valueType: ValueType, defaultValue: Json, selfService: bool)

  datatype Error = UnknownSlug | InvalidValue(reason: string) | NotSelfService

  datatype Result<+T> = Ok(value: T) | Err(error: Error)

  datatype Source = Default | Override

  datatype EvaluatedFeature = EvaluatedFeature(slug: Slug, value: Json, source: Source, valueType: ValueType, selfService: bool)

  datatype CachedValue = CachedValue(value: Json, expiresAt: Time)

  const I64_MIN: int := -0x8000_0000_0000_0000
  const I64_MAX: int := 0x7FFF_FFFF_FFFF_FFFF

  /** The reason a value does not fit its declared type, if any. */
  function Mismatch(t: ValueType, v: Json): Option<string> {
    match t
    case BoolFlag => if v.Bool? then None else Some("expected boolean")
    case StringFlag => if v.String? then None else Some("expected string")
    case IntFlag => if v.Integer? && I64_MIN <= v.value <= I64_MAX then None else Some("expected integer")
    case EnumSetFlag =>
      if v.Array? && forall i | 0 <= i < |v.items| :: v.items[i].String? then None else Some("expected array of strings")
    case JsonFlag => None
  }

  /** What each declared type admits. */
  predicate Fits(t: ValueType, v: Json) {
    && (t == BoolFlag ==> v.Bool?) && (t == StringFlag ==> v.String?)
    && (t == IntFlag ==> v.Integer? && -9_223_372_036_854_775_808 <= v.value <= 9_223_372_036_854_775_807)
    && (t == EnumSetFlag ==> v.Array? && forall x <- v.items :: x.String?)
  }

  /** Exactly the values that do not fit are refused, each with the reason for its type. */
  lemma MismatchMeans(t: ValueType, v: Json)
    ensures Mismatch(t, v).None? <==> Fits(t, v)
    ensures Mismatch(t, v).Some? ==>
              && (t == BoolFlag ==> Mismatch(t, v).value == "expected boolean")
              && (t == StringFlag ==> Mismatch(t, v).value == "expected string")
              && (t == IntFlag ==> Mismatch(t, v).value == "expected integer")
              && (t == EnumSetFlag ==> Mismatch(t, v).value == "expected array of strings")
  {
    if t == EnumSetFlag && v.Array? {
      assert forall i | 0 <= i < |v.items| :: v.items[i] in v.items;
    }
  }

  /** Every stored override is of its flag's declared type. */
  predicate WellTyped(catalog: seq<Definition>, overrides: Overrides) {
    forall key, i | key in overrides && 0 <= i < |catalog| && catalog[i].slug == key.slug :: Fits(catalog[i].valueType, overrides[key])
  }

  // ---- the calls as functions on the store and the cache -------------------------

  /** The overrides table and the cache beside it. */
  datatype Flags = Flags(overrides: Overrides, cache: map<FlagKey, CachedValue>)

  predicate Hit(cache: map<FlagKey, CachedValue>, key: FlagKey, now: Time) {
    key in cache && cache[key].expiresAt > now
  }

  function Answer(f: Flags, defaults: Defaults, key: FlagKey, now: Time): Option<Json> {
    if Hit(f.cache, key, now) then Some(f.cache[key].value) else Lookup(f.overrides, defaults, key)
  }

  function AfterEvaluate(f: Flags, defaults: Defaults, key: FlagKey, now: Time, ttl: Time): Flags {
    var answer := Lookup(f.overrides, defaults, key);
    if Hit(f.cache, key, now) || answer.None? then f
    else f.(cache := f.cache[key := CachedValue(answer.value, now + ttl)])
  }

  function AfterWrite(f: Flags, key: FlagKey, value: Option<Json>): Flags {
    Flags(if value.Some? then f.overrides[key := value.value] else f.overrides - {key}, f.cache - {key})
  }

  datatype Call =
    | Evaluating(key: FlagKey, now: Time)
    | Setting(key: FlagKey, value: Json)      // one that passed its checks
    | Clearing(key: FlagKey)
    | InvalidatingAll

  function Apply(f: Flags, defaults: Defaults, ttl: Time, call: Call): Flags {
    match call
    case Evaluating(key, now) => AfterEvaluate(f, defaults, key, now, ttl)
    case Setting(key, value) => AfterWrite(f, key, Some(value))
    case Clearing(key) => AfterWrite(f, key, None)
    case InvalidatingAll => f.(cache := map[])
  }

  function Run(f: Flags, defaults: Defaults, ttl: Time, calls: seq<Call>): Flags {
    if calls == [] then f
    else Apply(Run(f, defaults, ttl, calls[..|calls| - 1]), defaults, ttl, calls[|calls| - 1])
  }

  /** Every cached value, expired or not, is the one the store would give. */
  ghost predicate Coherent(f: Flags, defaults: Defaults) {
    forall key | key in f.cache :: Lookup(f.overrides, defaults, key) == Some(f.cache[key].value)
  }

  lemma {:induction false} RunsStayCoherent(f: Flags, defaults: Defaults, ttl: Time, calls: seq<Call>)
    requires Coherent(f, defaults)
    ensures Coherent(Run(f, defaults, ttl, calls), defaults)
  {
    if calls != [] {
      RunsStayCoherent(f, defaults, ttl, calls[..|calls| - 1]);
    }
  }

  /** After any run of non-overlapping calls, `evaluate` answers exactly as the uncached lookup. */
  lemma EvaluateRefinesLookup(f: Flags, defaults: Defaults, ttl: Time, calls: seq<Call>, key: FlagKey, now: Time)
    requires Coherent(f, defaults)
    ensures Answer(Run(f, defaults, ttl, calls), defaults, key, now)
         == Lookup(Run(f, defaults, ttl, calls).overrides, defaults, key)
  {
    RunsStayCoherent(f, defaults, ttl, calls);
  }

  /** A write that passed its checks. */
  predicate Admitted(catalog: seq<Definition>, call: Call) {
    call.Setting? ==> forall i | 0 <= i < |catalog| && catalog[i].slug == call.key.slug :: Fits(catalog[i].valueType, call.value)
  }

  /** In any run whose writes passed their checks the stored overrides stay of their declared types. */
  lemma {:induction false} RunsStayTyped(catalog: seq<Definition>, f: Flags, defaults: Defaults, ttl: Time, calls: seq<Call>)
    requires WellTyped(catalog, f.overrides) && forall i | 0 <= i < |calls| :: Admitted(catalog, calls[i])
    ensures WellTyped(catalog, Run(f, defaults, ttl, calls).overrides)
  {
    if calls != [] {
      RunsStayTyped(catalog, f, defaults, ttl, calls[..|calls| - 1]);
      assert Admitted(catalog, calls[|calls| - 1]);
    }
  }

  // ---- a call that nothing overlaps is a run of the concurrent machine -------------

  function Plain(cache: map<FlagKey, Entry>): map<FlagKey, CachedValue> {
    map key | key in cache :: CachedValue(cache[key].value, cache[key].expiresAt)
  }

  /** The store and the cache of the concurrent machine, without its history. */
  function Seen(s: State): Flags
    requires s.history != []
  {
    Flags(Current(s), Plain(s.cache))
  }

  /** An evaluation left alone: the same answer and the same effect as the object's `Evaluate`. */
  lemma EvaluateIsARun(s: State, c: int, key: FlagKey) returns (steps: seq<Step>, t: State)
    requires s.history != [] && c !in s.calls
    ensures Leads(s, steps, t) && t.history == s.history && t.calls == s.calls && t.now == s.now
    ensures Seen(t) == AfterEvaluate(Seen(s), s.defaults, key, s.now, s.ttl)
    ensures |t.answers| == |s.answers| + 1
    ensures var r := t.answers[|s.answers|];
            r.key == key && r.start == r.at == s.now && r.result == Answer(Seen(s), s.defaults, key, s.now)
  {
    steps, t := LookIsARun(s, c, key);
    if !Hit(Plain(s.cache), key, s.now) {
      steps, t := MissIsARun(s, c, key, steps, t);
      var answer := Lookup(Current(s), s.defaults, key);
      if answer.Some? { PlainInsert(s.cache, key, Entry(answer.value, s.now + s.ttl, s.now)); }
    }
  }

  lemma PlainInsert(cache: map<FlagKey, Entry>, key: FlagKey, e: Entry)
    ensures Plain(cache[key := e]) == Plain(cache)[key := CachedValue(e.value, e.expiresAt)]
  {
  }

  lemma LookIsARun(s: State, c: int, key: FlagKey) returns (steps: seq<Step>, t: State)
    requires s.history != [] && c !in s.calls
    ensures Leads(s, steps, t)
    ensures t == if Hit(Plain(s.cache), key, s.now)
                 then s.(answers := s.answers + [Return(key, s.now, s.now, Some(s.cache[key].value), s.cache[key].readAt)])
                 else s.(calls := s.calls[c := FeatureCache.Call(key, s.now, Missed)])
  {
    steps, t := Extend(s, [], s, FeatureCache.Evaluate(c, key));
    steps, t := Extend(s, steps, t, ReadCache(c));
    if Hit(Plain(s.cache), key, s.now) { assert t.calls == s.calls; }
  }

  lemma MissIsARun(s: State, c: int, key: FlagKey, before: seq<Step>, m: State) returns (steps: seq<Step>, t: State)
    requires s.history != [] && c !in s.calls && Leads(s, before, m)
    requires m == s.(calls := s.calls[c := FeatureCache.Call(key, s.now, Missed)])
    ensures Leads(s, steps, t)
    ensures var answer := Lookup(Current(s), s.defaults, key);
            t == s.(calls := t.calls, answers := s.answers + [Return(key, s.now, s.now, answer, s.now)],
                    cache := if answer.None? then s.cache
                             else s.cache[key := Entry(answer.value, s.now + s.ttl, s.now)])
    ensures t.calls == s.calls
  {
    steps, t := StoreIsARun(s, c, key, before, m);
    if Lookup(Current(s), s.defaults, key).Some? {
      steps, t := Extend(s, steps, t, Insert(c));
    }
    assert t.calls == s.calls;
  }

  lemma StoreIsARun(s: State, c: int, key: FlagKey, before: seq<Step>, m: State) returns (steps: seq<Step>, t: State)
    requires s.history != [] && c !in s.calls && Leads(s, before, m)
    requires m == s.(calls := s.calls[c := FeatureCache.Call(key, s.now, Missed)])
    ensures Leads(s, steps, t)
    ensures t == match Lookup(Current(s), s.defaults, key)
                 case Some(v) => s.(calls := s.calls[c := FeatureCache.Call(key, s.now, Loaded(v, s.now))])
                 case None => s.(answers := s.answers + [Return(key, s.now, s.now, None, s.now)])
  {
    steps, t := Extend(s, before, m, ReadOverride(c));
    if key !in Current(s) {
      steps, t := Extend(s, steps, t, ReadDefinition(c));
    }
    if Lookup(Current(s), s.defaults, key).None? { assert t.calls == s.calls; }
  }

  // ---- the objects -----------------------------------------------------------------

  class FeatureRepository {
    const catalog: seq<Definition>     // ORDER BY slug; nothing writes it at run time
    var overrides: Overrides

    constructor (catalog: seq<Definition>)
      requires DistinctSlugs(catalog)
      ensures this.catalog == catalog && overrides == map[]
    {
      this.catalog := catalog;
      overrides := map[];
    }

    ghost predicate Valid() {
      DistinctSlugs(catalog)
    }

    function Defaults(): Defaults {
      DefaultsOf(catalog)
    }

    method GetDefinition(slug: Slug) returns (def: Option<Definition>)
      requires Valid()
      ensures if def.Some? then def.value in catalog && def.value.slug == slug
                                && slug in Defaults() && Defaults()[slug] == def.value.defaultValue
              else slug !in Defaults()
    {
      for i := 0 to |catalog|
        invariant forall k | 0 <= k < i :: catalog[k].slug != slug
      {
        if catalog[i].slug == slug {
          DefaultOfDefinition(catalog, i);
          return Some(catalog[i]);
        }
      }
      def := None;
    }
  }

  predicate DistinctSlugs(catalog: seq<Definition>) {
    forall i, k | 0 <= i < k < |catalog| :: catalog[i].slug != catalog[k].slug
  }

  function DefaultsOf(catalog: seq<Definition>): Defaults
    ensures forall slug | slug in DefaultsOf(catalog) :: exists i | 0 <= i < |catalog| :: catalog[i].slug == slug
  {
    if catalog == [] then map[]
    else DefaultsOf(catalog[1..])[catalog[0].slug := catalog[0].defaultValue]
  }

  lemma {:induction false} DefaultOfDefinition(catalog: seq<Definition>, i: nat)
    requires DistinctSlugs(catalog) && i < |catalog|
    ensures catalog[i].slug in DefaultsOf(catalog) && DefaultsOf(catalog)[catalog[i].slug] == catalog[i].defaultValue
  {
    if i > 0 {
      DefaultOfDefinition(catalog[1..], i - 1);
    }
  }

  class PgFeatureEvaluator {
    const repo: FeatureRepository
    const ttl: Time
    var cache: map<FlagKey, CachedValue>

    constructor (repo: FeatureRepository, ttl: Time)
      ensures this.repo == repo && this.ttl == ttl && cache == map[]
    {
      this.repo, this.ttl, cache := repo, ttl, map[];
    }

    function View(): Flags
      reads this, repo
    {
      Flags(repo.overrides, cache)
    }

    /** `now` is the instant captured on entry, before the repository is read. */
    method Evaluate(org: Id, slug: Slug, now: Time) returns (r: Result<Json>)
      requires repo.Valid()
      modifies this`cache
      ensures var key := FlagKey(org, slug);
              && r == (match Answer(old(View()), repo.Defaults(), key, now) case Some(v) => Ok(v) case None => Err(UnknownSlug))
              && View() == AfterEvaluate(old(View()), repo.Defaults(), key, now, ttl)
      ensures var key := FlagKey(org, slug);
              if key in old(cache) && old(cache)[key].expiresAt > now
              then r == Ok(old(cache)[key].value) && cache == old(cache)
              else if key in repo.overrides
              then r == Ok(repo.overrides[key]) && cache == old(cache)[key := CachedValue(repo.overrides[key], now + ttl)]
              else if slug in repo.Defaults()
              then r == Ok(repo.Defaults()[slug]) && cache == old(cache)[key := CachedValue(repo.Defaults()[slug], now + ttl)]
              else r == Err(UnknownSlug) && cache == old(cache)
      ensures Coherent(old(View()), repo.Defaults()) ==>
                Coherent(View(), repo.Defaults())
                && (r.Ok? <==> Lookup(repo.overrides, repo.Defaults(), FlagKey(org, slug)).Some?)
                && (r.Ok? ==> Lookup(repo.overrides, repo.Defaults(), FlagKey(org, slug)) == Some(r.value))
    {
      var key := FlagKey(org, slug);
      if key in cache && cache[key].expiresAt > now {
        return Ok(cache[key].value);
      }
      var value;
      if key in repo.overrides {
        value := repo.overrides[key];
      } else {
        var def := repo.GetDefinition(slug);
        if def.None? {
          return Err(UnknownSlug);
        }
        value := def.value.defaultValue;
      }
      cache := cache[key := CachedValue(value, now + ttl)];
      r := Ok(value);
    }

    /** Whatever was cached for the key, the next answer is the store's; other keys answer as before. */
    method Invalidate(org: Id, slug: Slug)
      modifies this`cache
      ensures cache == old(cache) - {FlagKey(org, slug)}
      ensures forall now :: Answer(View(), repo.Defaults(), FlagKey(org, slug), now)
                         == Lookup(repo.overrides, repo.Defaults(), FlagKey(org, slug))
      ensures forall key, now | key != FlagKey(org, slug) ::
                Answer(View(), repo.Defaults(), key, now) == Answer(old(View()), repo.Defaults(), key, now)
    {
      cache := cache - {FlagKey(org, slug)};
    }

    method InvalidateAll()
      modifies this`cache
      ensures View() == Apply(old(View()), repo.Defaults(), ttl, InvalidatingAll)
      ensures forall key, now :: Answer(View(), repo.Defaults(), key, now) == Lookup(repo.overrides, repo.Defaults(), key)
    {
      cache := map[];
    }
  }

  /** Validates, writes, then invalidates. On success the previous override is returned for the audit. */
  method SetOrgFeature(evaluator: PgFeatureEvaluator, org: Id, slug: Slug, value: Json, actorIsOperator: bool)
    returns (r: Result<Option<Json>>)
    requires evaluator.repo.Valid()
    modifies evaluator`cache, evaluator.repo`overrides
    ensures var key, flags, defaults := FlagKey(org, slug), old(evaluator.View()), evaluator.repo.Defaults();
            && (r.Err? ==> evaluator.View() == flags)
            && (r.Ok? ==> evaluator.View() == Apply(flags, defaults, evaluator.ttl, Setting(key, value)))
            && (r == Err(UnknownSlug) <==> slug !in defaults)
            && (r.Ok? ==> r.value == if key in flags.overrides then Some(flags.overrides[key]) else None)
    ensures forall def | def in evaluator.repo.catalog && def.slug == slug ::
              && (r.Ok? <==> Fits(def.valueType, value) && (def.selfService || actorIsOperator))
              && (r.Err? && r.error.InvalidValue? <==> !Fits(def.valueType, value))
              && (r.Err? && r.error.InvalidValue? ==>
                    r.error.reason == if def.valueType == BoolFlag then "expected boolean"
                                      else if def.valueType == StringFlag then "expected string"
                                      else if def.valueType == IntFlag then "expected integer" else "expected array of strings")
              && (r == Err(NotSelfService) <==> Fits(def.valueType, value) && !def.selfService && !actorIsOperator)
    ensures var key := FlagKey(org, slug);
            if r.Ok?
            then evaluator.repo.overrides == old(evaluator.repo.overrides)[key := value]
              && key !in evaluator.cache && forall k | k != key ::
                   (k in evaluator.cache <==> k in old(evaluator.cache))
                   && (k in evaluator.cache ==> evaluator.cache[k] == old(evaluator.cache)[k])
            else evaluator.repo.overrides == old(evaluator.repo.overrides) && evaluator.cache == old(evaluator.cache)
    ensures WellTyped(evaluator.repo.catalog, old(evaluator.repo.overrides)) ==>
              WellTyped(evaluator.repo.catalog, evaluator.repo.overrides)
  {
    var repo, key := evaluator.repo, FlagKey(org, slug);
    var def := repo.GetDefinition(slug);
    if def.None? {
      assert forall d | d in repo.catalog :: d.slug != slug by { UnlistedSlug(repo.catalog, slug); }
      return Err(UnknownSlug);
    }
    MismatchMeans(def.value.valueType, value);
    OneDefinition(repo.catalog, def.value);
    var reason := Mismatch(def.value.valueType, value);
    if reason.Some? {
      return Err(InvalidValue(reason.value));
    }
    if !def.value.selfService && !actorIsOperator {
      return Err(NotSelfService);
    }
    var previous := if key in repo.overrides then Some(repo.overrides[key]) else None;
    repo.overrides := repo.overrides[key := value];
    evaluator.Invalidate(org, slug);
    r := Ok(previous);
  }

  method ClearOrgFeature(evaluator: PgFeatureEvaluator, org: Id, slug: Slug, actorIsOperator: bool)
    returns (r: Result<Option<Json>>)
    requires evaluator.repo.Valid()
    modifies evaluator`cache, evaluator.repo`overrides
    ensures var key, flags, defaults := FlagKey(org, slug), old(evaluator.View()), evaluator.repo.Defaults();
            && (r.Err? ==> evaluator.View() == flags)
            && (r.Ok? ==> evaluator.View() == Apply(flags, defaults, evaluator.ttl, Clearing(key)))
            && (r == Err(UnknownSlug) <==> slug !in defaults)
            && (r.Ok? ==> r.value == if key in flags.overrides then Some(flags.overrides[key]) else None)
    ensures forall def | def in evaluator.repo.catalog && def.slug == slug ::
              && (r.Ok? <==> def.selfService || actorIsOperator)
              && (r == Err(NotSelfService) <==> !def.selfService && !actorIsOperator)
    ensures var key := FlagKey(org, slug);
            if r.Ok?
            then evaluator.repo.overrides == old(evaluator.repo.overrides) - {key}
              && key !in evaluator.cache && forall k | k != key ::
                   (k in evaluator.cache <==> k in old(evaluator.cache))
                   && (k in evaluator.cache ==> evaluator.cache[k] == old(evaluator.cache)[k])
            else evaluator.repo.overrides == old(evaluator.repo.overrides) && evaluator.cache == old(evaluator.cache)
    ensures WellTyped(evaluator.repo.catalog, old(evaluator.repo.overrides)) ==>
              WellTyped(evaluator.repo.catalog, evaluator.repo.overrides)
  {
    var repo, key := evaluator.repo, FlagKey(org, slug);
    var def := repo.GetDefinition(slug);
    if def.None? {
      assert forall d | d in repo.catalog :: d.slug != slug by { UnlistedSlug(repo.catalog, slug); }
      return Err(UnknownSlug);
    }
    if !def.value.selfService && !actorIsOperator {
      return Err(NotSelfService);
    }
    var previous := if key in repo.overrides then Some(repo.overrides[key]) else None;
    OneDefinition(repo.catalog, def.value);
    repo.overrides := repo.overrides - {key};
    evaluator.Invalidate(org, slug);
    r := Ok(previous);
  }

  lemma OneDefinition(catalog: seq<Definition>, def: Definition)
    requires DistinctSlugs(catalog) && def in catalog
    ensures forall i | 0 <= i < |catalog| && catalog[i].slug == def.slug :: catalog[i] == def
  {
  }

  lemma UnlistedSlug(catalog: seq<Definition>, slug: Slug)
    requires DistinctSlugs(catalog) && slug !in DefaultsOf(catalog)
    ensures forall d | d in catalog :: d.slug != slug
  {
    forall i | 0 <= i < |catalog| ensures catalog[i].slug != slug {
      DefaultOfDefinition(catalog, i);
    }
  }

  /** What the listing should show for one definition, straight from the store. */
  function Listed(def: Definition, org: Id, overrides: Overrides): EvaluatedFeature {
    var key := FlagKey(org, def.slug);
    if key in overrides
    then EvaluatedFeature(def.slug, overrides[key], Override, def.valueType, def.selfService)
    else EvaluatedFeature(def.slug, def.defaultValue, Default, def.valueType, def.selfService)
  }

  /** `list_overrides_for_org`, as the slugs the listing looks up in it. */
  function OverriddenSlugs(overrides: Overrides, org: Id): (slugs: set<Slug>)
    ensures forall slug :: slug in slugs <==> FlagKey(org, slug) in overrides
  {
    set key | key in overrides && key.org == org :: key.slug
  }

  /** One entry per definition, in catalogue order, although every value comes through the cache, each at
      an instant of its own. */
  method ListOrgFeatures(evaluator: PgFeatureEvaluator, org: Id, clock: nat -> Time) returns (results: seq<EvaluatedFeature>)
    requires evaluator.repo.Valid() && Coherent(evaluator.View(), evaluator.repo.Defaults())
    modifies evaluator`cache
    ensures Coherent(evaluator.View(), evaluator.repo.Defaults())
    ensures |results| == |evaluator.repo.catalog|
    ensures forall i | 0 <= i < |results| :: results[i] == Listed(evaluator.repo.catalog[i], org, evaluator.repo.overrides)
    ensures forall i | 0 <= i < |results| ::
              var def, key := evaluator.repo.catalog[i], FlagKey(org, evaluator.repo.catalog[i].slug);
              && results[i].slug == def.slug && results[i].valueType == def.valueType && results[i].selfService == def.selfService
              && (key in evaluator.repo.overrides ==> results[i].value == evaluator.repo.overrides[key] && results[i].source == Override)
              && (key !in evaluator.repo.overrides ==> results[i].value == def.defaultValue && results[i].source == Default)
  {
    var repo := evaluator.repo;
    var overridden := OverriddenSlugs(repo.overrides, org);
    results := [];
    for i := 0 to |repo.catalog|
      invariant Coherent(evaluator.View(), repo.Defaults()) && |results| == i
      invariant forall k | 0 <= k < i :: results[k] == Listed(repo.catalog[k], org, repo.overrides)
    {
      var feature := EvaluateDefinition(evaluator, org, i, overridden, clock(i));
      results := results + [feature];
    }
  }

  method EvaluateDefinition(evaluator: PgFeatureEvaluator, org: Id, i: nat, overridden: set<Slug>, now: Time)
    returns (feature: EvaluatedFeature)
    requires evaluator.repo.Valid() && Coherent(evaluator.View(), evaluator.repo.Defaults())
    requires i < |evaluator.repo.catalog| && overridden == OverriddenSlugs(evaluator.repo.overrides, org)
    modifies evaluator`cache
    ensures Coherent(evaluator.View(), evaluator.repo.Defaults())
    ensures feature == Listed(evaluator.repo.catalog[i], org, evaluator.repo.overrides)
  {
    var def := evaluator.repo.catalog[i];
    DefaultOfDefinition(evaluator.repo.catalog, i);
    var source := if def.slug in overridden then Override else Default;
    var value := evaluator.Evaluate(org, def.slug, now);
    feature := EvaluatedFeature(def.slug, value.value, source, def.valueType, def.selfService);
  }
}
