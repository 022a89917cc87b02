/** The inference broker: buckets set up from the registry, and any number of concurrent `callClass`
    runs that share the buckets and a semaphore per class. */
module Broker {
  import opened Options
  import opened RateLimit
  import opened AttemptLog

  datatype Provider = Provider(
    enabled: bool, envKeyVar: Option<string>, envKeyVarFallback: Option<string>,
    defaultRpm: Amount, defaultMaxBurst: Option<Amount>)

  datatype Class = Class(models: seq<Model>, maxParallel: nat)

  /** The policy file and the credentials that resolve in a fixed environment. */
  datatype Registry = Registry(providers: map<string, Provider>, classes: map<string, Class>, credentials: set<string>)

  predicate EffectivelyEnabled(reg: Registry, p: Provider) {
    && p.enabled
    && (p.envKeyVar.Some? ==>
          || p.envKeyVar.value in reg.credentials
          || (p.envKeyVarFallback.Some? && p.envKeyVarFallback.value in reg.credentials))
  }

  predicate Usable(reg: Registry, m: Model) {
    m.provider in reg.providers && EffectivelyEnabled(reg, reg.providers[m.provider])
  }

  function EnabledProviders(reg: Registry): set<string> {
    set name | name in reg.providers && EffectivelyEnabled(reg, reg.providers[name])
  }

  function UsableModels(reg: Registry, models: seq<Model>): (r: seq<Model>)
    ensures forall m :: m in r <==> m in models && Usable(reg, m)
  {
    if models == [] then []
    else (if Usable(reg, models[0]) then [models[0]] else []) + UsableModels(reg, models[1..])
  }

  function KeyedModels(models: seq<Model>, key: string): (r: seq<Model>)
    ensures forall m :: m in r <==> m in models && ModelKey(m) == key
  {
    if models == [] then []
    else (if ModelKey(models[0]) == key then [models[0]] else []) + KeyedModels(models[1..], key)
  }

  /** The models a call may try, in policy order. */
  function Candidates(reg: Registry, taskClass: string, modelOverride: Option<string>): (r: seq<Model>)
    ensures forall m :: m in r <==>
      && taskClass in reg.classes && m in reg.classes[taskClass].models && Usable(reg, m)
      && (modelOverride.Some? ==> ModelKey(m) == modelOverride.value)
  {
    if taskClass !in reg.classes then [] else
      var usable := UsableModels(reg, reg.classes[taskClass].models);
      if modelOverride.None? then usable else KeyedModels(usable, modelOverride.value)
  }

  /** The provider is switched on and, if it needs a credential, that or its fallback is there. */
  predicate Serves(reg: Registry, name: string) {
    && name in reg.providers && reg.providers[name].enabled
    && match reg.providers[name].envKeyVar
       case None => true
       case Some(key) =>
         || key in reg.credentials
         || match reg.providers[name].envKeyVarFallback
            case None => false
            case Some(other) => other in reg.credentials
  }

  /** A call may try exactly the models of its class whose provider serves, and of those, if it names a model,
      that one. */
  lemma CandidatesAreServed(reg: Registry, taskClass: string, modelOverride: Option<string>, m: Model)
    ensures m in Candidates(reg, taskClass, modelOverride)
      <==> && taskClass in reg.classes && m in reg.classes[taskClass].models && Serves(reg, m.provider)
           && (modelOverride.None? || m.provider + ":" + m.model == modelOverride.value)
  {
  }

  /** `a` is `b` with some elements left out. */
  predicate Subsequence(a: seq<Model>, b: seq<Model>)
    decreases |b|
  {
    a == [] || (b != [] && ((a[0] == b[0] && Subsequence(a[1..], b[1..])) || Subsequence(a, b[1..])))
  }

  lemma {:induction false} SubsequenceOfSubsequence(a: seq<Model>, b: seq<Model>, c: seq<Model>)
    requires Subsequence(a, b) && Subsequence(b, c)
    ensures Subsequence(a, c)
    decreases |c|
  {
    if a != [] {
      if b[0] == c[0] && Subsequence(b[1..], c[1..]) {
        if a[0] == b[0] && Subsequence(a[1..], b[1..]) {
          SubsequenceOfSubsequence(a[1..], b[1..], c[1..]);
        } else {
          SubsequenceOfSubsequence(a, b[1..], c[1..]);
        }
      } else {
        SubsequenceOfSubsequence(a, b, c[1..]);
      }
    }
  }

  lemma {:induction false} UsableInOrder(reg: Registry, models: seq<Model>)
    ensures Subsequence(UsableModels(reg, models), models)
  {
    if models != [] {
      UsableInOrder(reg, models[1..]);
      var rest := UsableModels(reg, models[1..]);
      assert ([models[0]] + rest)[1..] == rest;
      assert [] + rest == rest;
    }
  }

  lemma {:induction false} KeyedInOrder(models: seq<Model>, key: string)
    ensures Subsequence(KeyedModels(models, key), models)
  {
    if models != [] {
      KeyedInOrder(models[1..], key);
      var rest := KeyedModels(models[1..], key);
      assert ([models[0]] + rest)[1..] == rest;
      assert [] + rest == rest;
    }
  }

  /** Candidates are tried in the order in which the policy lists them. */
  lemma {:induction false} CandidatesInPolicyOrder(reg: Registry, taskClass: string, modelOverride: Option<string>)
    requires taskClass in reg.classes
    ensures Subsequence(Candidates(reg, taskClass, modelOverride), reg.classes[taskClass].models)
  {
    var models := reg.classes[taskClass].models;
    UsableInOrder(reg, models);
    if modelOverride.Some? {
      KeyedInOrder(UsableModels(reg, models), modelOverride.value);
      SubsequenceOfSubsequence(Candidates(reg, taskClass, modelOverride), UsableModels(reg, models), models);
    }
  }

  // ---------- set-up ----------

  /** Every bucket belongs to a usable model of some class and starts full. */
  ghost predicate EachBucketFresh(reg: Registry, buckets: map<string, Bucket>, now: Time) {
    forall key | key in buckets :: exists name, m :: FreshFor(reg, name, m, key, buckets[key], now)
  }

  predicate FreshFor(reg: Registry, name: string, m: Model, key: string, b: Bucket, now: Time) {
    && name in reg.classes && m in reg.classes[name].models && Usable(reg, m) && ModelKey(m) == key
    && b == Fresh(reg.providers[m.provider].defaultRpm, reg.providers[m.provider].defaultMaxBurst, now)
  }

  /** Every usable model of every class has a bucket. */
  ghost predicate EachModelHasBucket(reg: Registry, names: set<string>, buckets: map<string, Bucket>) {
    forall name, m | name in names && name in reg.classes && m in reg.classes[name].models && Usable(reg, m) ::
        ModelKey(m) in buckets
  }

  /** Every bucket is full, at the rate and burst of a serving provider of a model with its key; the burst
      is the rate unless the provider sets one. */
  ghost predicate EachBucketFull(reg: Registry, buckets: map<string, Bucket>, now: Time) {
    forall key | key in buckets :: exists name, m :: FullFor(reg, name, m, key, buckets[key], now)
  }

  ghost predicate FullFor(reg: Registry, name: string, m: Model, key: string, b: Bucket, now: Time) {
    && name in reg.classes && m in reg.classes[name].models && Serves(reg, m.provider)
    && key == m.provider + ":" + m.model
    && var provider := reg.providers[m.provider];
       Full(b, provider.defaultRpm,
            match provider.defaultMaxBurst case Some(burst) => burst case None => provider.defaultRpm, now)
  }

  lemma FreshIsFullFor(reg: Registry, name: string, m: Model, key: string, b: Bucket, now: Time)
    requires FreshFor(reg, name, m, key, b, now)
    ensures FullFor(reg, name, m, key, b, now)
  {
    FreshIsFull(reg.providers[m.provider].defaultRpm, reg.providers[m.provider].defaultMaxBurst, now);
  }

  lemma FreshBucketsAreFull(reg: Registry, buckets: map<string, Bucket>, now: Time)
    requires EachBucketFresh(reg, buckets, now)
    ensures EachBucketFull(reg, buckets, now)
  {
    forall key | key in buckets ensures exists name, m :: FullFor(reg, name, m, key, buckets[key], now) {
      var name, m :| FreshFor(reg, name, m, key, buckets[key], now);
      FreshIsFullFor(reg, name, m, key, buckets[key], now);
    }
  }

  class InferenceBroker {
    const registry: Registry
    const limiter: TokenBucketLimiter
    var providers: set<string>

    /** `classNames` lists the classes in the order of the policy file. */
    constructor (registry: Registry, classNames: seq<string>, now: Time)
      requires forall name :: name in classNames <==> name in registry.classes
      ensures this.registry == registry
      ensures providers == EnabledProviders(registry)
      ensures EachBucketFresh(registry, limiter.buckets, now) && EachBucketFull(registry, limiter.buckets, now)
      ensures EachModelHasBucket(registry, registry.classes.Keys, limiter.buckets)
    {
      this.registry := registry;
      limiter := new TokenBucketLimiter();
      providers := set name | name in registry.providers && EffectivelyEnabled(registry, registry.providers[name]);
      new;
      for i := 0 to |classNames|
        modifies limiter
        invariant EachBucketFresh(registry, limiter.buckets, now)
        invariant EachModelHasBucket(registry, set k | 0 <= k < i :: classNames[k], limiter.buckets)
      {
        var name := classNames[i];
        assert name in registry.classes;
        var models := registry.classes[name].models;
        for j := 0 to |models|
          modifies limiter
          invariant EachBucketFresh(registry, limiter.buckets, now)
          invariant EachModelHasBucket(registry, set k | 0 <= k < i :: classNames[k], limiter.buckets)
          invariant forall k | 0 <= k < j && Usable(registry, models[k]) :: ModelKey(models[k]) in limiter.buckets
        {
          var m := models[j];
          if Usable(registry, m) && ModelKey(m) !in limiter.buckets {
            var provider := registry.providers[m.provider];
            var bucket := Fresh(provider.defaultRpm, provider.defaultMaxBurst, now);
            assert FreshFor(registry, name, m, ModelKey(m), bucket, now);
            ghost var before := limiter.buckets;
            limiter.Configure(ModelKey(m), provider.defaultRpm, provider.defaultMaxBurst, now);
            KeepFresh(registry, before, limiter.buckets, ModelKey(m), now);
          }
        }
      }
      FreshBucketsAreFull(registry, limiter.buckets, now);
      assert forall name | name in registry.classes :: exists k :: 0 <= k < |classNames| && classNames[k] == name;
    }

    static lemma KeepFresh(
        reg: Registry, before: map<string, Bucket>, after: map<string, Bucket>, added: string, now: Time)
      requires EachBucketFresh(reg, before, now) && added in after
      requires exists name, m :: FreshFor(reg, name, m, added, after[added], now)
      requires forall key | key in after && key != added :: key in before && after[key] == before[key]
      ensures EachBucketFresh(reg, after, now)
    {
      forall key | key in after ensures exists name, m :: FreshFor(reg, name, m, key, after[key], now) {
        if key != added {
          var name, m :| FreshFor(reg, name, m, key, before[key], now);
          assert FreshFor(reg, name, m, key, after[key], now);
        }
      }
    }
  }
}
