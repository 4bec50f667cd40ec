/** The game controller: which hit effects a punch fires, the slow-motion
    stack, the per-prefab object pools, where spawned effect objects are
    placed, and the patient's health. Engine calls (audio, animator, pool
    objects, the patient) become events in a log. */
module PunchGame {
  import opened Common

  const MaxHealth: real := 100.0
  /** Damage = punch force * ForceFactor. */
  const ForceFactor: real := 4.0
  const KnockOutForce: real := 100.0
  /** SlowTime(.2f, 3f) on a knockout. */
  const KnockOutSlowScale: real := 0.2
  const KnockOutSlowTime: real := 3.0

  // ---------------------------------------------------------------------------
  // Configuration
  // ---------------------------------------------------------------------------

  datatype AnimBoolParameter = AnimBoolParameter(paramName: string, value: bool)

  /** ObjectToSpawn; a null Prefab is None, a bone is HumanBodyBones as an id. */
  datatype ObjectToSpawn = ObjectToSpawn(
    prefab: Option<int>,
    bone: int,
    isRelativeToHitPoint: bool,
    offset: Vec3,
    isLocalOffset: bool,
    setNormalDirection: bool,
    rotation: Vec3,
    isLocalRotation: bool,
    linkToBone: bool,
    destroyAfterTime: bool,
    destroyDelay: real)

  /** AreaEffect; a null HitSfx is None and a null AnimBoolParameters array
      behaves as an empty one. */
  datatype AreaEffect = AreaEffect(
    animForceParam: string,
    animTriggerParam: string,
    animBoolParameters: seq<AnimBoolParameter>,
    hitSfx: Option<int>,
    objectsToSpawn: seq<ObjectToSpawn>,
    setSlowMotion: bool,
    slowMotionTime: real,
    slowMotionTimeScale: real)

  datatype WeightedEffect = WeightedEffect(minForce: real, maxForce: real, probability: real, effect: AreaEffect)

  /** DamageableArea of the controller; a null AreaEffects array behaves as
      an empty one. */
  datatype EffectArea = EffectArea(areaId: string, areaEffects: seq<WeightedEffect>)

  // ---------------------------------------------------------------------------
  // What the controller does to the world
  // ---------------------------------------------------------------------------

  datatype Rotation = AlongNormal(normal: Vec3) | LocalEuler(angles: Vec3) | WorldEuler(angles: Vec3)

  /** Where a spawned object is put: at the hit point plus the offset turned
      by the object's rotation (local), at the hit point plus the offset
      (world), at the offset in its parent's space, or at the bone's world
      position plus the offset. */
  datatype Position =
    | HitLocal(hitPoint: Vec3, offset: Vec3)
    | HitWorld(position: Vec3)
    | ParentLocal(offset: Vec3)
    | FromBone(bone: int, offset: Vec3)

  datatype Placement = Placement(parentBone: Option<int>, rotation: Rotation, position: Position, releaseAfter: Option<real>)

  datatype GameEvent =
    | PlaySound(clip: int)
    | AnimFloat(param: string, value: real)
    | AnimBool(param: string, flag: bool)
    | AnimTrigger(param: string)
    | Spawn(pool: nat, placement: Placement)
    | PatientDamage(areaId: string, position: Vec3, normal: Vec3, force: real)
    | PatientHeal
    | PatientKnockOut(impulse: Vec3)

  /** A pending Observable.Timer of SlowTime: when it fires, the time scale
      is divided by factor again. */
  datatype SlowTimer = SlowTimer(deadline: real, factor: real)

  /** The parts of the controller that applying an effect changes. */
  datatype Fx = Fx(events: seq<GameEvent>, pools: map<int, nat>, nextPool: nat, timeScale: real, timers: seq<SlowTimer>)

  /** The inputs of an effect that come from the controller and the hit. */
  datatype HitContext = HitContext(hasAnimator: bool, hasHitsSource: bool, punchForce: real,
                                   hitPoint: Option<Vec3>, hitNormal: Option<Vec3>, clock: real)

  datatype Hit = Hit(areaId: Option<string>, position: Vec3, normal: Vec3)

  // ---------------------------------------------------------------------------
  // Rule selection
  // ---------------------------------------------------------------------------

  /** MinForce <= force < MaxForce: the half-open band in which a rule draws. */
  predicate InBand(w: WeightedEffect, force: real) {
    w.minForce <= force < w.maxForce
  }

  /** An area's rules when its id is the one hit, else none. */
  function AreaRules(area: EffectArea, areaId: string): seq<WeightedEffect> {
    if area.areaId == areaId then area.areaEffects else []
  }

  /** The rules of every area with the id, area by area. */
  function MatchingRules(areas: seq<EffectArea>, areaId: string): seq<WeightedEffect>
    decreases |areas|
  {
    if areas == [] then [] else AreaRules(areas[0], areaId) + MatchingRules(areas[1..], areaId)
  }

  /** The number of Random.value draws the rules take: one per in-band rule. */
  function InBandCount(rules: seq<WeightedEffect>, force: real): nat
    decreases |rules|
  {
    if rules == [] then 0 else (if InBand(rules[0], force) then 1 else 0) + InBandCount(rules[1..], force)
  }

  /** The effects that fire, in order: each in-band rule takes the next draw
      and fires iff the draw is below its Probability. */
  function Fired(rules: seq<WeightedEffect>, force: real, draws: seq<real>): seq<AreaEffect>
    requires InBandCount(rules, force) <= |draws|
    decreases |rules|
  {
    if rules == [] then []
    else if InBand(rules[0], force) then
      (if draws[0] < rules[0].probability then [rules[0].effect] else []) + Fired(rules[1..], force, draws[1..])
    else Fired(rules[1..], force, draws)
  }

  /** Rule i, judged on its own: it is in its band and its own draw (the
      one after the draws of the in-band rules before it) is below its
      Probability. */
  predicate Fires(rules: seq<WeightedEffect>, force: real, draws: seq<real>, i: nat)
    requires i < |rules| && InBandCount(rules, force) <= |draws|
  {
    InBandSplit(rules, force, i + 1);
    InBandSnoc(rules, force, i);
    InBand(rules[i], force) && draws[InBandCount(rules[..i], force)] < rules[i].probability
  }

  /** The effects of the rules before n that fire, each judged on its own. */
  function FiredBefore(rules: seq<WeightedEffect>, force: real, draws: seq<real>, n: nat): seq<AreaEffect>
    requires n <= |rules| && InBandCount(rules, force) <= |draws|
  {
    if n == 0 then []
    else FiredBefore(rules, force, draws, n - 1) + (if Fires(rules, force, draws, n - 1) then [rules[n - 1].effect] else [])
  }

  lemma {:induction false} InBandCountAppend(xs: seq<WeightedEffect>, ys: seq<WeightedEffect>, force: real)
    ensures InBandCount(xs + ys, force) == InBandCount(xs, force) + InBandCount(ys, force)
    decreases |xs|
  {
    if xs != [] {
      assert (xs + ys)[0] == xs[0] && (xs + ys)[1..] == xs[1..] + ys;
      InBandCountAppend(xs[1..], ys, force);
    } else {
      assert xs + ys == ys;
    }
  }

  lemma InBandSnoc(rules: seq<WeightedEffect>, force: real, i: nat)
    requires i < |rules|
    ensures InBandCount(rules[..i + 1], force) == InBandCount(rules[..i], force) + (if InBand(rules[i], force) then 1 else 0)
  {
    assert rules[..i + 1] == rules[..i] + [rules[i]];
    InBandCountAppend(rules[..i], [rules[i]], force);
    assert InBandCount([rules[i]], force) == (if InBand(rules[i], force) then 1 else 0) + InBandCount([], force);
  }

  lemma InBandSplit(rules: seq<WeightedEffect>, force: real, n: nat)
    requires n <= |rules|
    ensures InBandCount(rules[..n], force) + InBandCount(rules[n..], force) == InBandCount(rules, force)
  {
    assert rules == rules[..n] + rules[n..];
    InBandCountAppend(rules[..n], rules[n..], force);
  }

  /** The conclusion of FiredAppend for xs, ys and draws. */
  predicate FiredSplits(xs: seq<WeightedEffect>, ys: seq<WeightedEffect>, force: real, draws: seq<real>)
    requires InBandCount(xs, force) + InBandCount(ys, force) <= |draws|
    requires InBandCount(xs + ys, force) <= |draws|
  {
    Fired(xs + ys, force, draws) == Fired(xs, force, draws) + Fired(ys, force, draws[InBandCount(xs, force)..])
  }

  lemma FiredAppendHead(xs: seq<WeightedEffect>, ys: seq<WeightedEffect>, force: real, draws: seq<real>)
    requires xs != [] && InBandCount(xs + ys, force) <= |draws|
    requires InBandCount(xs + ys, force) == InBandCount(xs, force) + InBandCount(ys, force)
    requires InBandCount(xs[1..] + ys, force) == InBandCount(xs[1..], force) + InBandCount(ys, force)
    requires InBand(xs[0], force) ==> FiredSplits(xs[1..], ys, force, draws[1..])
    requires !InBand(xs[0], force) ==> FiredSplits(xs[1..], ys, force, draws)
    ensures FiredSplits(xs, ys, force, draws)
  {
    var zs := xs + ys;
    assert zs[0] == xs[0] && zs[1..] == xs[1..] + ys;
    var k := InBandCount(xs, force);
    if InBand(xs[0], force) {
      var h := if draws[0] < xs[0].probability then [xs[0].effect] else [];
      assert k == 1 + InBandCount(xs[1..], force);
      assert draws[1..][InBandCount(xs[1..], force)..] == draws[k..];
      var p, q := Fired(xs[1..], force, draws[1..]), Fired(ys, force, draws[k..]);
      assert Fired(xs, force, draws) == h + p;
      assert Fired(xs[1..] + ys, force, draws[1..]) == p + q;
      assert Fired(zs, force, draws) == h + Fired(zs[1..], force, draws[1..]);
      assert h + (p + q) == (h + p) + q;
    }
  }

  lemma {:induction false} FiredAppend(xs: seq<WeightedEffect>, ys: seq<WeightedEffect>, force: real, draws: seq<real>)
    requires InBandCount(xs + ys, force) <= |draws|
    ensures InBandCount(xs, force) + InBandCount(ys, force) <= |draws|
    ensures Fired(xs + ys, force, draws)
              == Fired(xs, force, draws) + Fired(ys, force, draws[InBandCount(xs, force)..])
    decreases |xs|
  {
    InBandCountAppend(xs, ys, force);
    if xs == [] {
      assert xs + ys == ys && draws[0..] == draws;
    } else {
      InBandCountAppend(xs[1..], ys, force);
      assert (xs + ys)[1..] == xs[1..] + ys;
      if InBand(xs[0], force) {
        FiredAppend(xs[1..], ys, force, draws[1..]);
      } else {
        FiredAppend(xs[1..], ys, force, draws);
      }
      FiredAppendHead(xs, ys, force, draws);
    }
  }

  /** Rule n, met by the front-to-back evaluation after the rules before
      it, decides exactly as Fires says. */
  lemma FiredStep(rules: seq<WeightedEffect>, force: real, draws: seq<real>, n: nat)
    requires n < |rules| && InBandCount(rules, force) <= |draws|
    ensures InBandCount(rules[..n], force) + InBandCount(rules[n..], force) == InBandCount(rules, force)
    ensures InBandCount(rules[..n + 1], force) + InBandCount(rules[n + 1..], force) == InBandCount(rules, force)
    ensures InBandCount(rules[..n + 1], force) == InBandCount(rules[..n], force) + (if InBand(rules[n], force) then 1 else 0)
    ensures Fired(rules[n..], force, draws[InBandCount(rules[..n], force)..])
              == (if Fires(rules, force, draws, n) then [rules[n].effect] else [])
                 + Fired(rules[n + 1..], force, draws[InBandCount(rules[..n + 1], force)..])
  {
    InBandSplit(rules, force, n);
    InBandSplit(rules, force, n + 1);
    InBandSnoc(rules, force, n);
    var d := InBandCount(rules[..n], force);
    var rest := rules[n..];
    assert rest[0] == rules[n] && rest[1..] == rules[n + 1..];
    if InBand(rules[n], force) {
      assert draws[d..][0] == draws[d];
      assert draws[d..][1..] == draws[d + 1..];
    }
  }

  lemma {:induction false} FiredUpTo(rules: seq<WeightedEffect>, force: real, draws: seq<real>, n: nat)
    requires n <= |rules| && InBandCount(rules, force) <= |draws|
    ensures InBandCount(rules[..n], force) + InBandCount(rules[n..], force) == InBandCount(rules, force)
    ensures Fired(rules, force, draws)
              == FiredBefore(rules, force, draws, n) + Fired(rules[n..], force, draws[InBandCount(rules[..n], force)..])
    decreases n
  {
    if n == 0 {
      assert rules[..0] == [] && rules[0..] == rules && draws[0..] == draws;
    } else {
      InBandSplit(rules, force, n - 1);
      InBandSplit(rules, force, n);
      var d := InBandCount(rules[..n - 1], force);
      var d' := InBandCount(rules[..n], force);
      var a := FiredBefore(rules, force, draws, n - 1);
      var b := if Fires(rules, force, draws, n - 1) then [rules[n - 1].effect] else [];
      var c := Fired(rules[n..], force, draws[d'..]);
      var m := Fired(rules[n - 1..], force, draws[d..]);
      assert Fired(rules, force, draws) == a + m by {
        FiredUpTo(rules, force, draws, n - 1);
      }
      assert m == b + c by {
        FiredStep(rules, force, draws, n - 1);
      }
      assert FiredBefore(rules, force, draws, n) == a + b;
      assert a + (b + c) == (a + b) + c;
    }
  }

  /** The effects that fire are exactly those of the rules that fire when
      each is judged on its own, in rule order: no rule's decision depends
      on another rule's outcome. */
  lemma FiredIsPerRule(rules: seq<WeightedEffect>, force: real, draws: seq<real>)
    requires InBandCount(rules, force) <= |draws|
    ensures Fired(rules, force, draws) == FiredBefore(rules, force, draws, |rules|)
  {
    FiredUpTo(rules, force, draws, |rules|);
    assert rules[|rules|..] == [];
  }

  // ---------------------------------------------------------------------------
  // Effects
  // ---------------------------------------------------------------------------

  /** char.IsWhiteSpace: the Unicode separators plus U+0009..U+000D, U+0085
      and U+00A0. */
  predicate IsWhiteSpace(c: char) {
    || ('\U{0009}' <= c <= '\U{000D}') || c == '\U{0020}' || c == '\U{0085}' || c == '\U{00A0}'
    || c == '\U{1680}' || ('\U{2000}' <= c <= '\U{200A}') || c == '\U{2028}' || c == '\U{2029}'
    || c == '\U{202F}' || c == '\U{205F}' || c == '\U{3000}'
  }

  /** string.IsNullOrWhiteSpace on a non-null string. */
  predicate Blank(s: string)
    decreases |s|
  {
    s == [] || (IsWhiteSpace(s[0]) && Blank(s[1..]))
  }

  /** Blank holds exactly when every character is white space. */
  lemma {:induction false} BlankIsAllWhiteSpace(s: string)
    ensures Blank(s) <==> forall i :: 0 <= i < |s| ==> IsWhiteSpace(s[i])
    decreases |s|
  {
    if s != [] {
      BlankIsAllWhiteSpace(s[1..]);
      assert forall i :: 1 <= i < |s| ==> s[i] == s[1..][i - 1];
    }
  }

  /** PlayHitSound: a clip plays iff there is a hits source and a clip. */
  function SoundEvents(eff: AreaEffect, ctx: HitContext): (r: seq<GameEvent>)
    ensures r != [] <==> ctx.hasHitsSource && eff.hitSfx.Some?
  {
    if ctx.hasHitsSource && eff.hitSfx.Some? then [PlaySound(eff.hitSfx.value)] else []
  }

  function BoolEvents(ps: seq<AnimBoolParameter>): (r: seq<GameEvent>)
    ensures |r| == |ps| && forall i :: 0 <= i < |ps| ==> r[i] == AnimBool(ps[i].paramName, ps[i].value)
  {
    if ps == [] then [] else [AnimBool(ps[0].paramName, ps[0].value)] + BoolEvents(ps[1..])
  }

  lemma ConcatAssoc<T>(s: seq<T>, a: seq<T>, b: seq<T>, c: seq<T>)
    ensures s + a + b + c == s + (a + b + c)
  {
  }

  lemma BoolEventsSnoc(ps: seq<AnimBoolParameter>, p: AnimBoolParameter)
    ensures BoolEvents(ps + [p]) == BoolEvents(ps) + [AnimBool(p.paramName, p.value)]
  {
    var l, r := BoolEvents(ps + [p]), BoolEvents(ps) + [AnimBool(p.paramName, p.value)];
    assert |l| == |r|;
    forall i | 0 <= i < |l| ensures l[i] == r[i] {
      assert (ps + [p])[i] == if i < |ps| then ps[i] else p;
    }
  }

  /** The animator's float parameter set to the punch force, unless blank. */
  function ForceParamEvents(eff: AreaEffect, punchForce: real): seq<GameEvent> {
    if Blank(eff.animForceParam) then [] else [AnimFloat(eff.animForceParam, punchForce)]
  }

  /** The animator's trigger, unless blank. */
  function TriggerEvents(eff: AreaEffect): seq<GameEvent> {
    if Blank(eff.animTriggerParam) then [] else [AnimTrigger(eff.animTriggerParam)]
  }

  /** processAnimator: with an animator, the force parameter, every bool
      parameter in order, then the trigger. */
  function AnimEvents(eff: AreaEffect, ctx: HitContext): seq<GameEvent> {
    if !ctx.hasAnimator then []
    else ForceParamEvents(eff, ctx.punchForce) + BoolEvents(eff.animBoolParameters) + TriggerEvents(eff)
  }

  /** The placement decision table of SpawnAdditionalObjects. */
  function Place(obj: ObjectToSpawn, hitPoint: Option<Vec3>, hitNormal: Option<Vec3>): (r: Placement)
    ensures r.parentBone.Some? <==> obj.linkToBone
    ensures r.rotation.AlongNormal? <==> obj.setNormalDirection && hitNormal.Some?
    ensures r.rotation.AlongNormal? ==> r.rotation.normal == hitNormal.value
    ensures !r.rotation.AlongNormal? ==>
              r.rotation == if obj.isLocalRotation then LocalEuler(obj.rotation) else WorldEuler(obj.rotation)
    ensures (r.position.HitLocal? || r.position.HitWorld?) <==> obj.isRelativeToHitPoint && hitPoint.Some?
    ensures (r.position.HitLocal? || r.position.ParentLocal?) <==> obj.isLocalOffset
    ensures r.position.HitWorld? ==> r.position.position == Add(hitPoint.value, obj.offset)
    ensures r.position.FromBone? ==> r.position.bone == obj.bone
    ensures r.releaseAfter.Some? <==> obj.destroyAfterTime
  {
    var rotation :=
      if obj.setNormalDirection && hitNormal.Some? then AlongNormal(hitNormal.value)
      else if obj.isLocalRotation then LocalEuler(obj.rotation)
      else WorldEuler(obj.rotation);
    var position :=
      if obj.isRelativeToHitPoint && hitPoint.Some? then
        if obj.isLocalOffset then HitLocal(hitPoint.value, obj.offset) else HitWorld(Add(hitPoint.value, obj.offset))
      else if obj.isLocalOffset then ParentLocal(obj.offset)
      else FromBone(obj.bone, obj.offset);
    Placement(if obj.linkToBone then Some(obj.bone) else None, rotation, position,
              if obj.destroyAfterTime then Some(obj.destroyDelay) else None)
  }

  /** Every pool id is below the next one and no two prefabs share a pool. */
  predicate PoolsDistinct(pools: map<int, nat>, next: nat) {
    && (forall p :: p in pools ==> pools[p] < next)
    && (forall p, q :: p in pools && q in pools && p != q ==> pools[p] != pools[q])
  }

  /** GetGameObjectPool: the prefab's pool, created (with the next id) only
      when the prefab has none. */
  function PoolFor(pools: map<int, nat>, next: nat, prefab: int): (r: (nat, map<int, nat>, nat))
    ensures prefab in r.1 && r.1[prefab] == r.0
    ensures prefab in pools ==> r == (pools[prefab], pools, next)
    ensures prefab !in pools ==> r.1 == pools[prefab := next] && r.2 == next + 1
  {
    if prefab in pools then (pools[prefab], pools, next) else (next, pools[prefab := next], next + 1)
  }

  /** One object: a null prefab is skipped, otherwise an object is taken from
      the prefab's pool and placed. */
  function SpawnOne(fx: Fx, obj: ObjectToSpawn, hitPoint: Option<Vec3>, hitNormal: Option<Vec3>): Fx {
    match obj.prefab
    case None => fx
    case Some(p) =>
      var (pool, pools', next') := PoolFor(fx.pools, fx.nextPool, p);
      fx.(events := fx.events + [Spawn(pool, Place(obj, hitPoint, hitNormal))], pools := pools', nextPool := next')
  }

  function SpawnEach(fx: Fx, objs: seq<ObjectToSpawn>, hitPoint: Option<Vec3>, hitNormal: Option<Vec3>): Fx
    decreases |objs|
  {
    if objs == [] then fx else SpawnEach(SpawnOne(fx, objs[0], hitPoint, hitNormal), objs[1..], hitPoint, hitNormal)
  }

  /** SpawnAdditionalObjects: nothing without an animator. */
  function SpawnAll(fx: Fx, objs: seq<ObjectToSpawn>, ctx: HitContext): Fx {
    if ctx.hasAnimator then SpawnEach(fx, objs, ctx.hitPoint, ctx.hitNormal) else fx
  }

  /** SlowTime(scale, interval): a non-positive scale is ignored; otherwise
      the scale is multiplied in now and a timer will divide it out. */
  function SlowStep(fx: Fx, scale: real, interval: real, clock: real): (r: Fx)
    ensures scale <= 0.0 ==> r == fx
    ensures scale > 0.0 ==> r == fx.(timeScale := fx.timeScale * scale, timers := fx.timers + [SlowTimer(clock + interval, scale)])
  {
    if scale <= 0.0 then fx
    else fx.(timeScale := fx.timeScale * scale, timers := fx.timers + [SlowTimer(clock + interval, scale)])
  }

  /** The stage before spawning of an effect: sound and animator events. */
  function SignalStage(fx: Fx, eff: AreaEffect, ctx: HitContext): Fx {
    fx.(events := fx.events + SoundEvents(eff, ctx) + AnimEvents(eff, ctx))
  }

  /** One fired effect: sound, animator, spawned objects, slow motion. */
  function EffectStep(fx: Fx, eff: AreaEffect, ctx: HitContext): Fx {
    var fx2 := SpawnAll(SignalStage(fx, eff, ctx), eff.objectsToSpawn, ctx);
    if eff.setSlowMotion then SlowStep(fx2, eff.slowMotionTimeScale, eff.slowMotionTime, ctx.clock) else fx2
  }

  function ApplyEffects(fx: Fx, effs: seq<AreaEffect>, ctx: HitContext): Fx
    decreases |effs|
  {
    if effs == [] then fx else ApplyEffects(EffectStep(fx, effs[0], ctx), effs[1..], ctx)
  }

  lemma {:induction false} ApplyEffectsAppend(fx: Fx, xs: seq<AreaEffect>, ys: seq<AreaEffect>, ctx: HitContext)
    ensures ApplyEffects(fx, xs + ys, ctx) == ApplyEffects(ApplyEffects(fx, xs, ctx), ys, ctx)
    decreases |xs|
  {
    if xs == [] {
      assert xs + ys == ys;
    } else {
      assert (xs + ys)[0] == xs[0] && (xs + ys)[1..] == xs[1..] + ys;
      ApplyEffectsAppend(EffectStep(fx, xs[0], ctx), xs[1..], ys, ctx);
    }
  }

  // ---------------------------------------------------------------------------
  // Invariants of the effects
  // ---------------------------------------------------------------------------

  /** The product of the pending timers' factors. */
  function Product(timers: seq<SlowTimer>): real
    decreases |timers|
  {
    if timers == [] then 1.0 else timers[0].factor * Product(timers[1..])
  }

  /** The slow-motion stack: every pending factor is positive and the time
      scale is their product. */
  predicate SlowStack(timeScale: real, timers: seq<SlowTimer>) {
    && (forall i :: 0 <= i < |timers| ==> timers[i].factor > 0.0)
    && timeScale == Product(timers)
  }

  lemma {:induction false} ProductSnoc(timers: seq<SlowTimer>, t: SlowTimer)
    ensures Product(timers + [t]) == Product(timers) * t.factor
    decreases |timers|
  {
    if timers == [] {
      assert timers + [t] == [t];
      assert Product([t]) == t.factor * Product([]);
    } else {
      assert (timers + [t])[0] == timers[0] && (timers + [t])[1..] == timers[1..] + [t];
      ProductSnoc(timers[1..], t);
    }
  }

  /** Taking out timer i divides its factor out of the product. */
  lemma {:induction false} ProductRemove(timers: seq<SlowTimer>, i: nat)
    requires i < |timers|
    ensures Product(timers) == timers[i].factor * Product(timers[..i] + timers[i + 1..])
    decreases |timers|
  {
    if i == 0 {
      assert timers[..0] + timers[1..] == timers[1..];
    } else {
      ProductRemove(timers[1..], i - 1);
      assert timers[1..][..i - 1] + timers[1..][i..] == (timers[..i] + timers[i + 1..])[1..];
      assert (timers[..i] + timers[i + 1..])[0] == timers[0];
    }
  }

  /** The timer that fires: the time scale divided by its factor, and the
      timer gone. */
  function Expire(timeScale: real, timers: seq<SlowTimer>, i: nat): (r: (real, seq<SlowTimer>))
    requires i < |timers| && timers[i].factor != 0.0
    ensures |r.1| == |timers| - 1
  {
    (timeScale / timers[i].factor, timers[..i] + timers[i + 1..])
  }

  /** SlowTime keeps the stack, whatever the request. */
  lemma SlowStepKeepsStack(fx: Fx, scale: real, interval: real, clock: real)
    requires SlowStack(fx.timeScale, fx.timers)
    ensures var r := SlowStep(fx, scale, interval, clock); SlowStack(r.timeScale, r.timers)
  {
    if scale > 0.0 {
      ProductSnoc(fx.timers, SlowTimer(clock + interval, scale));
    }
  }

  /** A firing timer keeps the stack: after the division the scale is the
      product of the timers still pending. */
  lemma ExpireKeepsStack(timeScale: real, timers: seq<SlowTimer>, i: nat)
    requires SlowStack(timeScale, timers) && i < |timers|
    ensures var r := Expire(timeScale, timers, i); SlowStack(r.0, r.1)
  {
    ProductRemove(timers, i);
    var rest := timers[..i] + timers[i + 1..];
    forall j | 0 <= j < |rest| ensures rest[j].factor > 0.0 {
      if j < i { assert rest[j] == timers[j]; } else { assert rest[j] == timers[j + 1]; }
    }
  }

  /** A slow-motion request and the expiry of its timer cancel out: the
      time scale and the pending timers are back where they were. */
  lemma SlowThenExpire(fx: Fx, scale: real, interval: real, clock: real)
    requires scale > 0.0
    ensures var r := SlowStep(fx, scale, interval, clock);
            && |r.timers| == |fx.timers| + 1
            && r.timers[|fx.timers|].factor == scale
            && Expire(r.timeScale, r.timers, |fx.timers|) == (fx.timeScale, fx.timers)
  {
    var r := SlowStep(fx, scale, interval, clock);
    assert r.timers[..|fx.timers|] + r.timers[|fx.timers| + 1..] == fx.timers;
    assert fx.timeScale * scale / scale == fx.timeScale;
  }

  /** Getting a pool keeps the pools distinct, and a second request for the
      same prefab returns the same pool and changes nothing. */
  lemma PoolForStable(pools: map<int, nat>, next: nat, prefab: int)
    requires PoolsDistinct(pools, next)
    ensures var (pool, pools', next') := PoolFor(pools, next, prefab);
            && PoolsDistinct(pools', next')
            && (forall p :: p in pools ==> p in pools' && pools'[p] == pools[p])
            && PoolFor(pools', next', prefab) == (pool, pools', next')
  {
  }

  /** The pools stay distinct and the slow-motion stack holds. */
  predicate WorldInv(fx: Fx) {
    PoolsDistinct(fx.pools, fx.nextPool) && SlowStack(fx.timeScale, fx.timers)
  }

  /** The events an effect may raise: none of them reaches the patient. */
  predicate EffectEvent(e: GameEvent) {
    e.PlaySound? || e.AnimFloat? || e.AnimBool? || e.AnimTrigger? || e.Spawn?
  }

  /** log' is log followed by effect events only. */
  predicate EventsExtend(log: seq<GameEvent>, log': seq<GameEvent>) {
    && |log'| >= |log| && log'[..|log|] == log
    && (forall i :: |log| <= i < |log'| ==> EffectEvent(log'[i]))
  }

  lemma EventsExtendTrans(a: seq<GameEvent>, b: seq<GameEvent>, c: seq<GameEvent>)
    requires EventsExtend(a, b) && EventsExtend(b, c)
    ensures EventsExtend(a, c)
  {
    assert c[..|a|] == c[..|b|][..|a|];
    forall i | |a| <= i < |c| ensures EffectEvent(c[i]) {
      if i < |b| {
        assert c[i] == c[..|b|][i];
      }
    }
  }

  lemma EventsExtendAppend(log: seq<GameEvent>, added: seq<GameEvent>)
    requires AllEffectEvents(added)
    ensures EventsExtend(log, log + added)
  {
    assert (log + added)[..|log|] == log;
  }

  lemma {:induction false} SpawnEachKeeps(fx: Fx, objs: seq<ObjectToSpawn>, hitPoint: Option<Vec3>, hitNormal: Option<Vec3>)
    requires PoolsDistinct(fx.pools, fx.nextPool)
    ensures var r := SpawnEach(fx, objs, hitPoint, hitNormal);
            && PoolsDistinct(r.pools, r.nextPool)
            && (forall p :: p in fx.pools ==> p in r.pools && r.pools[p] == fx.pools[p])
            && r.timeScale == fx.timeScale && r.timers == fx.timers
    decreases |objs|
  {
    if objs != [] {
      var fx' := SpawnOne(fx, objs[0], hitPoint, hitNormal);
      if objs[0].prefab.Some? {
        PoolForStable(fx.pools, fx.nextPool, objs[0].prefab.value);
      }
      SpawnEachKeeps(fx', objs[1..], hitPoint, hitNormal);
    }
  }

  lemma {:induction false} SpawnEachEvents(fx: Fx, objs: seq<ObjectToSpawn>, hitPoint: Option<Vec3>, hitNormal: Option<Vec3>)
    ensures EventsExtend(fx.events, SpawnEach(fx, objs, hitPoint, hitNormal).events)
    decreases |objs|
  {
    if objs == [] {
      assert fx.events[..|fx.events|] == fx.events;
    } else {
      var fx' := SpawnOne(fx, objs[0], hitPoint, hitNormal);
      if objs[0].prefab.Some? {
        var (pool, _, _) := PoolFor(fx.pools, fx.nextPool, objs[0].prefab.value);
        EventsExtendAppend(fx.events, [Spawn(pool, Place(objs[0], hitPoint, hitNormal))]);
      } else {
        assert fx'.events[..|fx.events|] == fx.events;
      }
      SpawnEachEvents(fx', objs[1..], hitPoint, hitNormal);
      EventsExtendTrans(fx.events, fx'.events, SpawnEach(fx', objs[1..], hitPoint, hitNormal).events);
    }
  }

  lemma EffectStepInv(fx: Fx, eff: AreaEffect, ctx: HitContext)
    requires WorldInv(fx)
    ensures WorldInv(EffectStep(fx, eff, ctx))
  {
    var fx1 := SignalStage(fx, eff, ctx);
    var fx2 := SpawnAll(fx1, eff.objectsToSpawn, ctx);
    if ctx.hasAnimator {
      SpawnEachKeeps(fx1, eff.objectsToSpawn, ctx.hitPoint, ctx.hitNormal);
    }
    if eff.setSlowMotion {
      SlowStepKeepsStack(fx2, eff.slowMotionTimeScale, eff.slowMotionTime, ctx.clock);
    }
  }

  predicate AllEffectEvents(log: seq<GameEvent>) {
    forall i :: 0 <= i < |log| ==> EffectEvent(log[i])
  }

  lemma AllEffectEventsAppend(a: seq<GameEvent>, b: seq<GameEvent>)
    requires AllEffectEvents(a) && AllEffectEvents(b)
    ensures AllEffectEvents(a + b)
  {
    forall i | 0 <= i < |a + b| ensures EffectEvent((a + b)[i]) {
      if i < |a| { assert (a + b)[i] == a[i]; } else { assert (a + b)[i] == b[i - |a|]; }
    }
  }

  lemma AnimEventsAreEffects(eff: AreaEffect, ctx: HitContext)
    ensures AllEffectEvents(AnimEvents(eff, ctx))
  {
    if ctx.hasAnimator {
      var f, b, t := ForceParamEvents(eff, ctx.punchForce), BoolEvents(eff.animBoolParameters), TriggerEvents(eff);
      assert AllEffectEvents(f) && AllEffectEvents(b) && AllEffectEvents(t);
      AllEffectEventsAppend(f, b);
      AllEffectEventsAppend(f + b, t);
    }
  }

  lemma SignalEvents(fx: Fx, eff: AreaEffect, ctx: HitContext)
    ensures EventsExtend(fx.events, SignalStage(fx, eff, ctx).events)
  {
    var sound, anim := SoundEvents(eff, ctx), AnimEvents(eff, ctx);
    AnimEventsAreEffects(eff, ctx);
    assert AllEffectEvents(sound);
    AllEffectEventsAppend(sound, anim);
    assert fx.events + sound + anim == fx.events + (sound + anim);
    EventsExtendAppend(fx.events, sound + anim);
  }

  lemma SpawnAllEvents(fx: Fx, objs: seq<ObjectToSpawn>, ctx: HitContext)
    ensures EventsExtend(fx.events, SpawnAll(fx, objs, ctx).events)
  {
    if ctx.hasAnimator {
      SpawnEachEvents(fx, objs, ctx.hitPoint, ctx.hitNormal);
    } else {
      assert fx.events[..|fx.events|] == fx.events;
    }
  }

  lemma EffectStepEvents(fx: Fx, eff: AreaEffect, ctx: HitContext)
    ensures EventsExtend(fx.events, EffectStep(fx, eff, ctx).events)
  {
    var fx1 := SignalStage(fx, eff, ctx);
    var fx2 := SpawnAll(fx1, eff.objectsToSpawn, ctx);
    SignalEvents(fx, eff, ctx);
    SpawnAllEvents(fx1, eff.objectsToSpawn, ctx);
    EventsExtendTrans(fx.events, fx1.events, fx2.events);
    assert EffectStep(fx, eff, ctx).events == fx2.events;
  }

  /** Applying effects keeps the pools distinct and the slow-motion stack. */
  lemma {:induction false} EffectsKeepWorld(fx: Fx, effs: seq<AreaEffect>, ctx: HitContext)
    requires WorldInv(fx)
    ensures WorldInv(ApplyEffects(fx, effs, ctx))
    decreases |effs|
  {
    if effs != [] {
      EffectStepInv(fx, effs[0], ctx);
      EffectsKeepWorld(EffectStep(fx, effs[0], ctx), effs[1..], ctx);
    }
  }

  /** Effects never reach the patient: they only append sound, animator and
      spawn events to the log. */
  lemma {:induction false} EffectsOnlySignal(fx: Fx, effs: seq<AreaEffect>, ctx: HitContext)
    ensures EventsExtend(fx.events, ApplyEffects(fx, effs, ctx).events)
    decreases |effs|
  {
    if effs == [] {
      assert fx.events[..|fx.events|] == fx.events;
    } else {
      var fx1 := EffectStep(fx, effs[0], ctx);
      EffectStepEvents(fx, effs[0], ctx);
      EffectsOnlySignal(fx1, effs[1..], ctx);
      EventsExtendTrans(fx.events, fx1.events, ApplyEffects(fx1, effs[1..], ctx).events);
    }
  }

  /** A punch on an area reaches the patient exactly once: of the events it
      appends (the fired effects' events, then Damage), only the last is a
      Damage call, and it carries the punch force. */
  lemma PunchDamagesOnce(fx: Fx, effs: seq<AreaEffect>, ctx: HitContext, areaId: string, position: Vec3, normal: Vec3)
    ensures var log := ApplyEffects(fx, effs, ctx).events + [PatientDamage(areaId, position, normal, ctx.punchForce)];
            && |log| > |fx.events| && log[..|fx.events|] == fx.events
            && log[|log| - 1] == PatientDamage(areaId, position, normal, ctx.punchForce)
            && forall i :: |fx.events| <= i < |log| - 1 ==> !log[i].PatientDamage?
  {
    var r := ApplyEffects(fx, effs, ctx).events;
    EffectsOnlySignal(fx, effs, ctx);
    var log := r + [PatientDamage(areaId, position, normal, ctx.punchForce)];
    assert log[..|fx.events|] == r[..|fx.events|];
    forall i | |fx.events| <= i < |log| - 1 ensures !log[i].PatientDamage? {
      assert log[i] == r[i] && EffectEvent(r[i]);
    }
  }

  /** One rule of the inner loop: an in-band rule takes the next draw and
      applies its effect when the draw is below its Probability. */
  lemma RuleStep(fx: Fx, rules: seq<WeightedEffect>, i: nat, force: real, draws: seq<real>, used: nat, ctx: HitContext)
    requires i < |rules| && used + InBandCount(rules[i..], force) <= |draws|
    ensures InBand(rules[i], force) ==> used < |draws|
    ensures var u := used + (if InBand(rules[i], force) then 1 else 0);
            u + InBandCount(rules[i + 1..], force) == used + InBandCount(rules[i..], force)
    ensures var u := used + (if InBand(rules[i], force) then 1 else 0);
            var fx' := if InBand(rules[i], force) && draws[used] < rules[i].probability
                       then EffectStep(fx, rules[i].effect, ctx) else fx;
            ApplyEffects(fx, Fired(rules[i..], force, draws[used..]), ctx)
              == ApplyEffects(fx', Fired(rules[i + 1..], force, draws[u..]), ctx)
  {
    var rest := rules[i..];
    assert rest[0] == rules[i] && rest[1..] == rules[i + 1..];
    if InBand(rules[i], force) {
      assert draws[used..][0] == draws[used] && draws[used..][1..] == draws[used + 1..];
      var f := Fired(rules[i + 1..], force, draws[used + 1..]);
      if draws[used] < rules[i].probability {
        var e := rules[i].effect;
        assert Fired(rest, force, draws[used..]) == [e] + f;
        assert ([e] + f)[0] == e && ([e] + f)[1..] == f;
        assert ApplyEffects(fx, [e] + f, ctx) == ApplyEffects(EffectStep(fx, e, ctx), f, ctx);
      } else {
        assert Fired(rest, force, draws[used..]) == [] + f;
        assert [] + f == f;
      }
    } else {
      assert Fired(rest, force, draws[used..]) == Fired(rules[i + 1..], force, draws[used..]);
    }
  }

  lemma AreaCount(areas: seq<EffectArea>, a: nat, areaId: string, force: real)
    requires a < |areas|
    ensures InBandCount(MatchingRules(areas[a..], areaId), force)
              == InBandCount(AreaRules(areas[a], areaId), force) + InBandCount(MatchingRules(areas[a + 1..], areaId), force)
  {
    assert areas[a..][0] == areas[a] && areas[a..][1..] == areas[a + 1..];
    InBandCountAppend(AreaRules(areas[a], areaId), MatchingRules(areas[a + 1..], areaId), force);
  }

  /** One area of the outer loop: its own rules, then the later areas' on
      the remaining draws. */
  lemma AreaStep(fx: Fx, areas: seq<EffectArea>, a: nat, areaId: string, force: real, draws: seq<real>, used: nat, ctx: HitContext)
    requires a < |areas| && used + InBandCount(MatchingRules(areas[a..], areaId), force) <= |draws|
    ensures InBandCount(MatchingRules(areas[a..], areaId), force)
              == InBandCount(AreaRules(areas[a], areaId), force) + InBandCount(MatchingRules(areas[a + 1..], areaId), force)
    ensures var own := AreaRules(areas[a], areaId);
            ApplyEffects(fx, Fired(MatchingRules(areas[a..], areaId), force, draws[used..]), ctx)
              == ApplyEffects(ApplyEffects(fx, Fired(own, force, draws[used..]), ctx),
                              Fired(MatchingRules(areas[a + 1..], areaId), force, draws[used + InBandCount(own, force)..]), ctx)
  {
    var own := AreaRules(areas[a], areaId);
    var later := MatchingRules(areas[a + 1..], areaId);
    assert areas[a..][0] == areas[a] && areas[a..][1..] == areas[a + 1..];
    assert MatchingRules(areas[a..], areaId) == own + later;
    InBandCountAppend(own, later, force);
    FiredAppend(own, later, force, draws[used..]);
    ApplyEffectsAppend(fx, Fired(own, force, draws[used..]), Fired(later, force, draws[used..][InBandCount(own, force)..]), ctx);
    assert draws[used..][InBandCount(own, force)..] == draws[used + InBandCount(own, force)..];
  }

  /** The outer loop's invariant carried over one area. */
  lemma AreaLoopStep(goal: Fx, cur: Fx, after: Fx, areas: seq<EffectArea>, a: nat, areaId: string, force: real,
                     draws: seq<real>, used: nat, n: nat, ctx: HitContext)
    requires a < |areas| && used + InBandCount(MatchingRules(areas[a..], areaId), force) <= |draws|
    requires n == InBandCount(AreaRules(areas[a], areaId), force)
    requires InBandCount(MatchingRules(areas[a..], areaId), force) == n + InBandCount(MatchingRules(areas[a + 1..], areaId), force)
    requires goal == ApplyEffects(cur, Fired(MatchingRules(areas[a..], areaId), force, draws[used..]), ctx)
    requires after == ApplyEffects(cur, Fired(AreaRules(areas[a], areaId), force, draws[used..]), ctx)
    ensures goal == ApplyEffects(after, Fired(MatchingRules(areas[a + 1..], areaId), force, draws[used + n..]), ctx)
  {
    AreaStep(cur, areas, a, areaId, force, draws, used, ctx);
  }

  /** The health the controller reports: h / MaxHealth. */
  function HealthFraction(h: real): (r: real)
    ensures 0.0 <= h <= MaxHealth ==> 0.0 <= r <= 1.0
    ensures r <= 0.0 <==> h <= 0.0
  {
    h / MaxHealth
  }

  /** (Vector3.forward + Vector3.up) * KnockOutForce. */
  function KnockOutImpulse(): (r: Vec3)
    ensures r.x == 0.0 && r.y == KnockOutForce && r.z == KnockOutForce
  {
    Vec3(0.0, 1.0 * KnockOutForce, 1.0 * KnockOutForce)
  }

  /** The animator event of MonitorPatientHealth: the health fraction, when
      there is an animator and a parameter name. */
  function HealthAnim(hasAnimator: bool, param: string, h: real): (r: seq<GameEvent>)
    ensures |r| <= 1
    ensures r != [] <==> hasAnimator && param != ""
    ensures r != [] ==> r[0] == AnimFloat(param, HealthFraction(h))
  {
    if hasAnimator && param != "" then [AnimFloat(param, HealthFraction(h))] else []
  }

  /** The controller after MonitorPatientHealth(h), as its effect parts and
      whether punches are enabled: anim is raised, and at h <= 0 the patient
      is knocked out, punches are disabled and time slows. */
  function Monitor(fx: Fx, enabled: bool, h: real, anim: seq<GameEvent>, clock: real): (Fx, bool) {
    var shown := fx.(events := fx.events + anim);
    if h <= 0.0 then
      (SlowStep(shown.(events := shown.events + [PatientKnockOut(KnockOutImpulse())]),
                KnockOutSlowScale, KnockOutSlowTime, clock), false)
    else (shown, enabled)
  }

  /** Watching the health keeps the pools and the slow-motion stack, only
      appends events, knocks the patient out (once) and disables punches
      exactly when the health is at or below zero, and the knockout's slow
      motion is undone by its own timer. */
  lemma MonitorKnocksOut(fx: Fx, enabled: bool, h: real, hasAnimator: bool, param: string, clock: real)
    requires SlowStack(fx.timeScale, fx.timers)
    ensures var (r, on) := Monitor(fx, enabled, h, HealthAnim(hasAnimator, param, h), clock);
            var added := r.events[|fx.events|..];
            && r.pools == fx.pools && r.nextPool == fx.nextPool
            && SlowStack(r.timeScale, r.timers)
            && |r.events| >= |fx.events| && r.events[..|fx.events|] == fx.events
            && (on <==> enabled && h > 0.0)
            && (PatientKnockOut(KnockOutImpulse()) in added <==> h <= 0.0)
            && (h <= 0.0 ==> && r.timeScale == fx.timeScale * KnockOutSlowScale
                             && Expire(r.timeScale, r.timers, |fx.timers|) == (fx.timeScale, fx.timers))
            && (h > 0.0 ==> r.timeScale == fx.timeScale && r.timers == fx.timers)
  {
    var anim := HealthAnim(hasAnimator, param, h);
    var shown := fx.(events := fx.events + anim);
    var (r, on) := Monitor(fx, enabled, h, anim, clock);
    assert r.events[..|fx.events|] == fx.events;
    if h <= 0.0 {
      var knocked := shown.(events := shown.events + [PatientKnockOut(KnockOutImpulse())]);
      SlowStepKeepsStack(knocked, KnockOutSlowScale, KnockOutSlowTime, clock);
      SlowThenExpire(knocked, KnockOutSlowScale, KnockOutSlowTime, clock);
      assert r.events[|fx.events|..] == anim + [PatientKnockOut(KnockOutImpulse())];
    } else {
      assert r.events[|fx.events|..] == anim;
    }
  }

  /** The effect parts after Punch: unchanged without an area id; otherwise
      the area's fired effects and then one Damage call on the patient. */
  function PunchOutcome(fx: Fx, areas: seq<EffectArea>, hit: Hit, ctx: HitContext, draws: seq<real>): Fx
    requires hit.areaId.Some? ==> InBandCount(MatchingRules(areas, hit.areaId.value), ctx.punchForce) <= |draws|
  {
    if hit.areaId.None? then fx
    else
      var r := ApplyEffects(fx, Fired(MatchingRules(areas, hit.areaId.value), ctx.punchForce, draws), ctx);
      r.(events := r.events + [PatientDamage(hit.areaId.value, hit.position, hit.normal, ctx.punchForce)])
  }

  // ---------------------------------------------------------------------------
  // The controller
  // ---------------------------------------------------------------------------

  class GameController {
    /** _damageableAreas; a null array behaves as an empty one. */
    const areas: seq<EffectArea>
    /** _hitsAudioSource != null */
    const hasHitsSource: bool
    const healthAnimParam: string

    var punchesEnabled: bool
    /** _punchForce, in [0, 1]. */
    var punchForce: real
    var patientHealth: real
    /** _animator != null */
    var hasAnimator: bool
    /** _patient != null */
    var hasPatient: bool
    var timeScale: real
    var timers: seq<SlowTimer>
    var clock: real
    var pools: map<int, nat>
    var nextPool: nat
    var events: seq<GameEvent>

    constructor(areas: seq<EffectArea>, hasHitsSource: bool, healthAnimParam: string)
      ensures this.areas == areas && this.hasHitsSource == hasHitsSource && this.healthAnimParam == healthAnimParam
      ensures !punchesEnabled && punchForce == 0.0 && patientHealth == MaxHealth
      ensures !hasAnimator && !hasPatient
      ensures timeScale == 1.0 && timers == [] && clock == 0.0
      ensures pools == map[] && nextPool == 0 && events == []
    {
      this.areas := areas;
      this.hasHitsSource := hasHitsSource;
      this.healthAnimParam := healthAnimParam;
      punchesEnabled := false;
      punchForce := 0.0;
      patientHealth := MaxHealth;
      hasAnimator := false;
      hasPatient := false;
      timeScale := 1.0;
      timers := [];
      clock := 0.0;
      pools := map[];
      nextPool := 0;
      events := [];
    }

    /** The slider value of Update, taken as given. */
    method SetPunchForce(force: real)
      requires 0.0 <= force <= 1.0
      modifies this`punchForce
      ensures punchForce == force
    {
      punchForce := force;
    }

    /** Time passes; pending timers whose deadline is reached may fire. */
    method AdvanceClock(now: real)
      requires clock <= now
      modifies this`clock
      ensures clock == now
    {
      clock := now;
    }

    /** HandleNewCharacterGeneration: the new character's animator replaces
        the old one; its damageable component, if any, becomes the patient. */
    method HandleNewCharacterGeneration(animator: bool, damageable: bool)
      modifies this`hasAnimator, this`hasPatient
      ensures hasAnimator == animator
      ensures hasPatient == (damageable || old(hasPatient))
    {
      hasAnimator := animator;
      if damageable {
        hasPatient := true;
      }
    }

    method GetGameObjectPool(prefab: int) returns (pool: nat)
      modifies this`pools, this`nextPool
      ensures (pool, pools, nextPool) == PoolFor(old(pools), old(nextPool), prefab)
    {
      if prefab in pools {
        pool := pools[prefab];
      } else {
        pool := nextPool;
        pools := pools[prefab := pool];
        nextPool := nextPool + 1;
      }
    }

    method SlowTime(scale: real, interval: real)
      modifies this`timeScale, this`timers
      ensures Fx(events, pools, nextPool, timeScale, timers)
                == SlowStep(Fx(events, pools, nextPool, old(timeScale), old(timers)), scale, interval, clock)
    {
      if scale <= 0.0 {
        return;
      }
      timeScale := timeScale * scale;
      timers := timers + [SlowTimer(clock + interval, scale)];
    }

    /** The Observable.Timer of pending request i fires. */
    method ExpireTimer(i: nat)
      requires i < |timers| && timers[i].deadline <= clock && timers[i].factor != 0.0
      modifies this`timeScale, this`timers
      ensures (timeScale, timers) == Expire(old(timeScale), old(timers), i)
    {
      timeScale := timeScale / timers[i].factor;
      timers := timers[..i] + timers[i + 1..];
    }

    method SpawnAdditionalObjects(objs: seq<ObjectToSpawn>, hitPoint: Option<Vec3>, hitNormal: Option<Vec3>)
      modifies this`events, this`pools, this`nextPool
      ensures var ctx := HitContext(hasAnimator, hasHitsSource, punchForce, hitPoint, hitNormal, clock);
              Fx(events, pools, nextPool, timeScale, timers)
                == SpawnAll(Fx(old(events), old(pools), old(nextPool), timeScale, timers), objs, ctx)
    {
      if !hasAnimator {
        return;
      }
      ghost var goal := SpawnEach(Fx(events, pools, nextPool, timeScale, timers), objs, hitPoint, hitNormal);
      var i := 0;
      assert objs[0..] == objs;
      while i < |objs|
        invariant 0 <= i <= |objs|
        invariant goal == SpawnEach(Fx(events, pools, nextPool, timeScale, timers), objs[i..], hitPoint, hitNormal)
      {
        var obj := objs[i];
        assert objs[i..][1..] == objs[i + 1..];
        if obj.prefab.Some? {
          var pool := GetGameObjectPool(obj.prefab.value);
          events := events + [Spawn(pool, Place(obj, hitPoint, hitNormal))];
        }
        i := i + 1;
      }
    }

    /** The body of ProcessAreaEffects' inner loop for one fired effect. */
    method PlayHitSound(eff: AreaEffect)
      modifies this`events
      ensures var ctx := HitContext(hasAnimator, hasHitsSource, punchForce, None, None, clock);
              events == old(events) + SoundEvents(eff, ctx)
    {
      if hasHitsSource && eff.hitSfx.Some? {
        events := events + [PlaySound(eff.hitSfx.value)];
      }
    }

    /** The animator part of a fired effect. */
    method ProcessAnimator(eff: AreaEffect)
      modifies this`events
      ensures var ctx := HitContext(hasAnimator, hasHitsSource, punchForce, None, None, clock);
              events == old(events) + AnimEvents(eff, ctx)
    {
      if !hasAnimator {
        return;
      }
      ghost var e0 := events;
      if !Blank(eff.animForceParam) {
        events := events + [AnimFloat(eff.animForceParam, punchForce)];
      }
      ghost var e1 := events;
      assert e1 == e0 + ForceParamEvents(eff, punchForce);
      var j := 0;
      while j < |eff.animBoolParameters|
        invariant 0 <= j <= |eff.animBoolParameters|
        invariant events == e1 + BoolEvents(eff.animBoolParameters[..j])
      {
        var p := eff.animBoolParameters[j];
        assert eff.animBoolParameters[..j + 1] == eff.animBoolParameters[..j] + [p];
        BoolEventsSnoc(eff.animBoolParameters[..j], p);
        events := events + [AnimBool(p.paramName, p.value)];
        j := j + 1;
      }
      assert eff.animBoolParameters[..j] == eff.animBoolParameters;
      ghost var e2 := events;
      if !Blank(eff.animTriggerParam) {
        events := events + [AnimTrigger(eff.animTriggerParam)];
      }
      assert events == e2 + TriggerEvents(eff);
      ghost var ctx := HitContext(hasAnimator, hasHitsSource, punchForce, None, None, clock);
      assert AnimEvents(eff, ctx) == ForceParamEvents(eff, punchForce) + BoolEvents(eff.animBoolParameters) + TriggerEvents(eff);
      ConcatAssoc(e0, ForceParamEvents(eff, punchForce), BoolEvents(eff.animBoolParameters), TriggerEvents(eff));
    }

    /** The body of ProcessAreaEffects' inner loop for one fired effect. */
    method ApplyEffect(eff: AreaEffect, hitPoint: Option<Vec3>, hitNormal: Option<Vec3>)
      modifies this`events, this`pools, this`nextPool, this`timeScale, this`timers
      ensures var ctx := HitContext(hasAnimator, hasHitsSource, punchForce, hitPoint, hitNormal, clock);
              Fx(events, pools, nextPool, timeScale, timers)
                == EffectStep(Fx(old(events), old(pools), old(nextPool), old(timeScale), old(timers)), eff, ctx)
    {
      ghost var ctx := HitContext(hasAnimator, hasHitsSource, punchForce, hitPoint, hitNormal, clock);
      ghost var fx0 := Fx(events, pools, nextPool, timeScale, timers);
      PlayHitSound(eff);
      ProcessAnimator(eff);
      ghost var fx1 := Fx(events, pools, nextPool, timeScale, timers);
      assert fx1 == SignalStage(fx0, eff, ctx);
      SpawnAdditionalObjects(eff.objectsToSpawn, hitPoint, hitNormal);
      assert Fx(events, pools, nextPool, timeScale, timers) == SpawnAll(fx1, eff.objectsToSpawn, ctx);
      if eff.setSlowMotion {
        SlowTime(eff.slowMotionTimeScale, eff.slowMotionTime);
      }
    }

    /** The inner loop of ProcessAreaEffects over one area's rules; used is
        the number of draws taken. */
    method ProcessRules(rules: seq<WeightedEffect>, force: real, hitPoint: Option<Vec3>, hitNormal: Option<Vec3>,
                        draws: seq<real>) returns (used: nat)
      requires InBandCount(rules, force) <= |draws|
      modifies this`events, this`pools, this`nextPool, this`timeScale, this`timers
      ensures used == InBandCount(rules, force)
      ensures var ctx := HitContext(hasAnimator, hasHitsSource, punchForce, hitPoint, hitNormal, clock);
              Fx(events, pools, nextPool, timeScale, timers)
                == ApplyEffects(Fx(old(events), old(pools), old(nextPool), old(timeScale), old(timers)),
                                Fired(rules, force, draws), ctx)
    {
      ghost var ctx := HitContext(hasAnimator, hasHitsSource, punchForce, hitPoint, hitNormal, clock);
      ghost var goal := ApplyEffects(Fx(events, pools, nextPool, timeScale, timers), Fired(rules, force, draws), ctx);
      used := 0;
      var i := 0;
      assert rules[0..] == rules && draws[0..] == draws;
      while i < |rules|
        invariant 0 <= i <= |rules|
        invariant used + InBandCount(rules[i..], force) == InBandCount(rules, force)
        invariant goal == ApplyEffects(Fx(events, pools, nextPool, timeScale, timers), Fired(rules[i..], force, draws[used..]), ctx)
      {
        var w := rules[i];
        RuleStep(Fx(events, pools, nextPool, timeScale, timers), rules, i, force, draws, used, ctx);
        if force >= w.minForce && force < w.maxForce {
          var chance := draws[used];
          used := used + 1;
          if chance < w.probability {
            ApplyEffect(w.effect, hitPoint, hitNormal);
          }
        }
        i := i + 1;
      }
    }

    /** The body of ProcessAreaEffects' outer loop: an area whose id is not
        the one hit is skipped. */
    method ProcessArea(area: EffectArea, areaId: string, force: real, hitPoint: Option<Vec3>, hitNormal: Option<Vec3>,
                       draws: seq<real>) returns (used: nat)
      requires InBandCount(AreaRules(area, areaId), force) <= |draws|
      modifies this`events, this`pools, this`nextPool, this`timeScale, this`timers
      ensures used == InBandCount(AreaRules(area, areaId), force)
      ensures var ctx := HitContext(hasAnimator, hasHitsSource, punchForce, hitPoint, hitNormal, clock);
              Fx(events, pools, nextPool, timeScale, timers)
                == ApplyEffects(Fx(old(events), old(pools), old(nextPool), old(timeScale), old(timers)),
                                Fired(AreaRules(area, areaId), force, draws), ctx)
    {
      if area.areaId == areaId {
        used := ProcessRules(area.areaEffects, force, hitPoint, hitNormal, draws);
      } else {
        used := 0;
      }
    }

    /** ProcessAreaEffects: every rule of every area with the id, in order,
        each in-band rule taking the next draw. */
    method ProcessAreaEffects(areaId: string, force: real, hitPoint: Option<Vec3>, hitNormal: Option<Vec3>,
                              draws: seq<real>)
      requires InBandCount(MatchingRules(areas, areaId), force) <= |draws|
      modifies this`events, this`pools, this`nextPool, this`timeScale, this`timers
      ensures var ctx := HitContext(hasAnimator, hasHitsSource, punchForce, hitPoint, hitNormal, clock);
              Fx(events, pools, nextPool, timeScale, timers)
                == ApplyEffects(Fx(old(events), old(pools), old(nextPool), old(timeScale), old(timers)),
                                Fired(MatchingRules(areas, areaId), force, draws), ctx)
    {
      ghost var ctx := HitContext(hasAnimator, hasHitsSource, punchForce, hitPoint, hitNormal, clock);
      ghost var all := MatchingRules(areas, areaId);
      ghost var goal := ApplyEffects(Fx(events, pools, nextPool, timeScale, timers), Fired(all, force, draws), ctx);
      var used: nat := 0;
      var a := 0;
      assert areas[0..] == areas && draws[0..] == draws;
      while a < |areas|
        invariant 0 <= a <= |areas|
        invariant used + InBandCount(MatchingRules(areas[a..], areaId), force) == InBandCount(all, force)
        invariant goal == ApplyEffects(Fx(events, pools, nextPool, timeScale, timers),
                                       Fired(MatchingRules(areas[a..], areaId), force, draws[used..]), ctx)
      {
        var area := areas[a];
        ghost var cur := Fx(events, pools, nextPool, timeScale, timers);
        AreaCount(areas, a, areaId, force);
        var n := ProcessArea(area, areaId, force, hitPoint, hitNormal, draws[used..]);
        AreaLoopStep(goal, cur, Fx(events, pools, nextPool, timeScale, timers), areas, a, areaId, force, draws, used, n, ctx);
        used := used + n;
        a := a + 1;
      }
    }

    /** Punch: nothing without an area id; otherwise the area's effects and
        then exactly one Damage call on the patient. */
    method Punch(hit: Hit, draws: seq<real>)
      requires hit.areaId.Some? ==> hasPatient
      requires hit.areaId.Some? ==> InBandCount(MatchingRules(areas, hit.areaId.value), punchForce) <= |draws|
      modifies this`events, this`pools, this`nextPool, this`timeScale, this`timers
      ensures var ctx := HitContext(hasAnimator, hasHitsSource, punchForce, Some(hit.position), Some(hit.normal), clock);
              Fx(events, pools, nextPool, timeScale, timers)
                == PunchOutcome(Fx(old(events), old(pools), old(nextPool), old(timeScale), old(timers)), areas, hit, ctx, draws)
    {
      if hit.areaId.None? {
        return;
      }
      var areaId := hit.areaId.value;
      ProcessAreaEffects(areaId, punchForce, Some(hit.position), Some(hit.normal), draws);
      events := events + [PatientDamage(areaId, hit.position, hit.normal, punchForce)];
    }

    /** MonitorPatientHealth(h): the animator's health parameter (when there
        is an animator and a parameter name) gets h / MaxHealth; at h <= 0
        punches are disabled, the patient is knocked out and time slows. */
    method MonitorPatientHealth(h: real)
      requires h <= 0.0 ==> hasPatient
      modifies this`events, this`punchesEnabled, this`timeScale, this`timers
      ensures (Fx(events, pools, nextPool, timeScale, timers), punchesEnabled)
                == Monitor(Fx(old(events), pools, nextPool, old(timeScale), old(timers)), old(punchesEnabled), h,
                           HealthAnim(hasAnimator, healthAnimParam, h), clock)
    {
      ghost var anim := HealthAnim(hasAnimator, healthAnimParam, h);
      if hasAnimator && healthAnimParam != "" {
        events := events + [AnimFloat(healthAnimParam, h / MaxHealth)];
      }
      assert events == old(events) + anim;
      if h <= 0.0 {
        punchesEnabled := false;
        events := events + [PatientKnockOut(Vec3(0.0, 1.0 * KnockOutForce, 1.0 * KnockOutForce))];
        ghost var knocked := Fx(events, pools, nextPool, timeScale, timers);
        SlowTime(KnockOutSlowScale, KnockOutSlowTime);
        assert Fx(events, pools, nextPool, timeScale, timers) == SlowStep(knocked, KnockOutSlowScale, KnockOutSlowTime, clock);
      }
    }

    /** Assigning _patientHealth.Value: subscribers hear only a changed
        value. */
    method SetHealth(h: real)
      requires h <= 0.0 && h != patientHealth ==> hasPatient
      modifies this`patientHealth, this`events, this`punchesEnabled, this`timeScale, this`timers
      ensures patientHealth == h
      ensures (Fx(events, pools, nextPool, timeScale, timers), punchesEnabled)
                == if h == old(patientHealth)
                   then (Fx(old(events), pools, nextPool, old(timeScale), old(timers)), old(punchesEnabled))
                   else Monitor(Fx(old(events), pools, nextPool, old(timeScale), old(timers)), old(punchesEnabled), h,
                                HealthAnim(hasAnimator, healthAnimParam, h), clock)
    {
      if h == patientHealth {
        return;
      }
      patientHealth := h;
      MonitorPatientHealth(h);
    }

    /** OnClick: a started click with punches enabled and a hit punches, then
        health drops by ForceFactor * punch force. */
    method OnClick(started: bool, hit: Option<Hit>, draws: seq<real>)
      requires started && punchesEnabled && hit.Some? ==> hasPatient
      requires started && punchesEnabled && hit.Some? && hit.value.areaId.Some? ==>
                 InBandCount(MatchingRules(areas, hit.value.areaId.value), punchForce) <= |draws|
      modifies this`events, this`pools, this`nextPool, this`timeScale, this`timers, this`patientHealth, this`punchesEnabled
      ensures !(started && old(punchesEnabled) && hit.Some?) ==>
                && events == old(events) && patientHealth == old(patientHealth) && punchesEnabled == old(punchesEnabled)
                && timeScale == old(timeScale) && timers == old(timers) && pools == old(pools) && nextPool == old(nextPool)
      ensures started && old(punchesEnabled) && hit.Some? ==>
                var ctx := HitContext(hasAnimator, hasHitsSource, punchForce, Some(hit.value.position), Some(hit.value.normal), clock);
                var punched := PunchOutcome(Fx(old(events), old(pools), old(nextPool), old(timeScale), old(timers)),
                                            areas, hit.value, ctx, draws);
                var h := old(patientHealth) - ForceFactor * punchForce;
                && patientHealth == h
                && (Fx(events, pools, nextPool, timeScale, timers), punchesEnabled)
                     == if h == old(patientHealth) then (punched, old(punchesEnabled))
                        else Monitor(punched, old(punchesEnabled), h, HealthAnim(hasAnimator, healthAnimParam, h), clock)
      ensures started && old(punchesEnabled) && hit.Some? ==>
                patientHealth <= 0.0 && punchForce != 0.0 ==> !punchesEnabled
    {
      if started && punchesEnabled && hit.Some? {
        Punch(hit.value, draws);
        SetHealth(patientHealth - ForceFactor * punchForce);
      }
    }

    /** HealPatient: full health, the patient healed, punches enabled. */
    method HealPatient()
      requires hasPatient
      modifies this`patientHealth, this`events, this`punchesEnabled, this`timeScale, this`timers
      ensures patientHealth == MaxHealth && punchesEnabled
      ensures var anim := if old(patientHealth) != MaxHealth && hasAnimator && healthAnimParam != ""
                          then [AnimFloat(healthAnimParam, 1.0)] else [];
              events == old(events) + anim + [PatientHeal]
      ensures timeScale == old(timeScale) && timers == old(timers)
    {
      if patientHealth != MaxHealth {
        patientHealth := MaxHealth;
        MonitorPatientHealth(MaxHealth);
      }
      events := events + [PatientHeal];
      punchesEnabled := true;
    }
  }
}
