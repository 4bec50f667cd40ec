/** The ragdoll rig of a UMA character (UmaPhysicsExtAvatar): Init builds a
    rigidbody and colliders on every bone named by a physics element, then
    joints between the bones; SetProperties switches the whole rig between
    animated and ragdolled; the build callbacks snapshot and restore the bone
    transforms while the animator is off. */
module Ragdoll {
  import opened Common

  // ---------------------------------------------------------------------------
  // Configuration and engine-side values
  // ---------------------------------------------------------------------------

  datatype ColliderType = Box | Sphere | Capsule

  /** ColliderDefinition: its kind, and the centre and dimensions it copies
      onto the collider (one opaque shape id here). */
  datatype ColliderDefinition = ColliderDefinition(colliderType: ColliderType, shape: int)

  /** UMAPhysicsElement; the joint axes and limits it copies onto the joint are
      one opaque id here. */
  datatype PhysicsElement = PhysicsElement(
    boneName: string, parentBone: string, isRoot: bool, mass: real,
    colliders: seq<ColliderDefinition>, jointLimits: int)

  /** The *OnStart fields that Init hands to SetProperties. */
  datatype StartSettings = StartSettings(
    areTriggers: bool, areKinematic: bool, useGravity: bool,
    setCollidersLayer: bool, collidersLayer: int,
    animatorEnabled: bool, updateWhenOffScreen: bool)

  /** The Rigidbody of a bone (Unity allows one per game object, so the bone's
      id names it). */
  datatype Body = Body(isKinematic: bool, useGravity: bool, mass: real)

  /** A collider component, added to a bone. */
  datatype Collider = Collider(bone: int, def: ColliderDefinition, isTrigger: bool)

  /** A CharacterJoint added to a bone; connectedBody None is a parent bone
      without a Rigidbody. */
  datatype Joint = Joint(bone: int, connectedBody: Option<int>, element: PhysicsElement)

  /** Debug-build log messages. */
  datatype Warning = UmaDataMissing | BoneNotFound(boneName: string) | ClothCollidersHigh(renderer: int)

  /** A skinned mesh renderer of the character and whether it carries Cloth. */
  datatype SkinRenderer = SkinRenderer(id: int, hasCloth: bool)

  /** The collider arrays a Cloth component was given. */
  datatype ClothColliders = ClothColliders(spheres: seq<nat>, capsules: seq<nat>)

  datatype Quaternion = Quaternion(x: real, y: real, z: real, w: real)

  /** The local transform of a bone, as CachedBone records it. */
  datatype Pose = Pose(localPosition: Vec3, localRotation: Quaternion, localScale: Vec3)

  /** A force applied to a body (AddForceAtPosition). */
  datatype Push = Push(body: int, force: Vec3, position: Vec3, forceMode: int)

  /** What the first pass of Init builds: the bodies on the bones, the
      _rigidbodies list, _rootBone, the collider components and the three typed
      collider lists (ids into colliders), and the debug log. */
  datatype Rig = Rig(
    bodies: map<int, Body>, rigidbodies: seq<int>, root: Option<int>,
    colliders: map<nat, Collider>, boxes: seq<nat>, spheres: seq<nat>, capsules: seq<nat>,
    nextCollider: nat, warnings: seq<Warning>)

  // ---------------------------------------------------------------------------
  // First pass: bodies and colliders
  // ---------------------------------------------------------------------------

  /** The bone an element resolves to: none for a null element or for a bone
      name the skeleton does not have. */
  function Resolve(bones: map<string, int>, e: Option<PhysicsElement>): Option<int> {
    if e.Some? && e.value.boneName in bones then Some(bones[e.value.boneName]) else None
  }

  /** The collider list of one kind. */
  function ListOf(rig: Rig, t: ColliderType): seq<nat> {
    match t
    case Box => rig.boxes
    case Sphere => rig.spheres
    case Capsule => rig.capsules
  }

  /** addToBone*Collider, then the Add to the list of that kind. */
  function AddCollider(rig: Rig, bone: int, def: ColliderDefinition, trigger: bool): Rig {
    var id := rig.nextCollider;
    var added := rig.(colliders := rig.colliders[id := Collider(bone, def, trigger)], nextCollider := id + 1);
    match def.colliderType
    case Box => added.(boxes := rig.boxes + [id])
    case Sphere => added.(spheres := rig.spheres + [id])
    case Capsule => added.(capsules := rig.capsules + [id])
  }

  function AddColliders(rig: Rig, bone: int, defs: seq<ColliderDefinition>, trigger: bool): Rig
    decreases |defs|
  {
    if defs == [] then rig
    else AddCollider(AddColliders(rig, bone, defs[..|defs| - 1], trigger), bone, defs[|defs| - 1], trigger)
  }

  /** One iteration of the first loop of Init. */
  function AddElement(rig: Rig, bones: map<string, int>, e: Option<PhysicsElement>, s: StartSettings, debug: bool): Rig {
    if e.None? then rig
    else if e.value.boneName !in bones then
      if debug then rig.(warnings := rig.warnings + [BoneNotFound(e.value.boneName)]) else rig
    else
      var bone := bones[e.value.boneName];
      AddColliders(WithBody(rig, bone, e.value, s), bone, e.value.colliders, s.areTriggers)
  }

  /** The Rigidbody part of one iteration: the bone's body (found or added)
      gets the start flags and the element's mass and joins _rigidbodies. */
  function WithBody(rig: Rig, bone: int, e: PhysicsElement, s: StartSettings): Rig {
    rig.(bodies := rig.bodies[bone := Body(s.areKinematic, s.useGravity, e.mass)],
         rigidbodies := rig.rigidbodies + [bone],
         root := if e.isRoot then Some(bone) else rig.root)
  }

  lemma AddCollidersSnoc(rig: Rig, bone: int, defs: seq<ColliderDefinition>, def: ColliderDefinition, trigger: bool)
    ensures AddColliders(rig, bone, defs + [def], trigger) == AddCollider(AddColliders(rig, bone, defs, trigger), bone, def, trigger)
  {
    assert (defs + [def])[..|defs|] == defs;
  }

  /** The first loop of Init over the elements. */
  function BuildBodies(rig: Rig, bones: map<string, int>, es: seq<Option<PhysicsElement>>, s: StartSettings, debug: bool): Rig
    decreases |es|
  {
    if es == [] then rig
    else AddElement(BuildBodies(rig, bones, es[..|es| - 1], s, debug), bones, es[|es| - 1], s, debug)
  }

  // Reference definitions, independent of the rig

  /** The bones of the elements that resolve, in element order. */
  function ResolvedBones(bones: map<string, int>, es: seq<Option<PhysicsElement>>): seq<int>
    decreases |es|
  {
    if es == [] then []
    else ResolvedBones(bones, es[..|es| - 1])
         + match Resolve(bones, es[|es| - 1]) case Some(b) => [b] case None => []
  }

  /** The bone of the last resolved element marked isRoot. */
  function LastRoot(bones: map<string, int>, es: seq<Option<PhysicsElement>>): Option<int>
    decreases |es|
  {
    if es == [] then None
    else if Resolve(bones, es[|es| - 1]).Some? && es[|es| - 1].value.isRoot then Resolve(bones, es[|es| - 1])
    else LastRoot(bones, es[..|es| - 1])
  }

  /** How many of defs are of kind t. */
  function TypeCount(defs: seq<ColliderDefinition>, t: ColliderType): nat
    decreases |defs|
  {
    if defs == [] then 0
    else TypeCount(defs[..|defs| - 1], t) + if defs[|defs| - 1].colliderType == t then 1 else 0
  }

  /** How many collider definitions of kind t the resolved elements carry. */
  function ColliderCount(bones: map<string, int>, es: seq<Option<PhysicsElement>>, t: ColliderType): nat
    decreases |es|
  {
    if es == [] then 0
    else ColliderCount(bones, es[..|es| - 1], t)
         + if Resolve(bones, es[|es| - 1]).Some? then TypeCount(es[|es| - 1].value.colliders, t) else 0
  }

  // Properties of the first pass

  lemma {:induction false} AddCollidersKeepsBodies(rig: Rig, bone: int, defs: seq<ColliderDefinition>, trigger: bool)
    ensures var r := AddColliders(rig, bone, defs, trigger);
            r.bodies == rig.bodies && r.rigidbodies == rig.rigidbodies && r.root == rig.root
    decreases |defs|
  {
    if defs != [] {
      AddCollidersKeepsBodies(rig, bone, defs[..|defs| - 1], trigger);
    }
  }

  /** The body part of one element's iteration: nothing for a null or
      unresolved element. */
  lemma AddElementBodies(rig: Rig, bones: map<string, int>, e: Option<PhysicsElement>, s: StartSettings, debug: bool)
    ensures var r := AddElement(rig, bones, e, s, debug);
            match Resolve(bones, e)
            case None => r.bodies == rig.bodies && r.rigidbodies == rig.rigidbodies && r.root == rig.root
            case Some(bone) =>
              && r.bodies == rig.bodies[bone := Body(s.areKinematic, s.useGravity, e.value.mass)]
              && r.rigidbodies == rig.rigidbodies + [bone]
              && r.root == if e.value.isRoot then Some(bone) else rig.root
  {
    if Resolve(bones, e).Some? {
      var bone := bones[e.value.boneName];
      AddCollidersKeepsBodies(WithBody(rig, bone, e.value, s), bone, e.value.colliders, s.areTriggers);
    }
  }

  /** Every resolved element appends its bone to _rigidbodies, in element
      order; null and unresolved elements add nothing. */
  lemma {:induction false} RigidbodiesListed(rig: Rig, bones: map<string, int>, es: seq<Option<PhysicsElement>>, s: StartSettings, debug: bool)
    ensures BuildBodies(rig, bones, es, s, debug).rigidbodies == rig.rigidbodies + ResolvedBones(bones, es)
    decreases |es|
  {
    if es != [] {
      var front := es[..|es| - 1];
      RigidbodiesListed(rig, bones, front, s, debug);
      AddElementBodies(BuildBodies(rig, bones, front, s, debug), bones, es[|es| - 1], s, debug);
    }
  }

  /** Exactly the resolved bones gain a body, each with the start flags;
      bodies on other bones are untouched. */
  lemma {:induction false} BodiesFlagged(rig: Rig, bones: map<string, int>, es: seq<Option<PhysicsElement>>, s: StartSettings, debug: bool)
    ensures var r := BuildBodies(rig, bones, es, s, debug);
            && (forall b :: b in r.bodies <==> b in rig.bodies || b in ResolvedBones(bones, es))
            && (forall b :: b in ResolvedBones(bones, es) ==>
                  r.bodies[b].isKinematic == s.areKinematic && r.bodies[b].useGravity == s.useGravity)
            && (forall b :: b in rig.bodies && b !in ResolvedBones(bones, es) ==> r.bodies[b] == rig.bodies[b])
    decreases |es|
  {
    if es != [] {
      var front := es[..|es| - 1];
      var e := es[|es| - 1];
      BodiesFlagged(rig, bones, front, s, debug);
      AddElementBodies(BuildBodies(rig, bones, front, s, debug), bones, e, s, debug);
      if Resolve(bones, e).Some? {
        assert ResolvedBones(bones, es) == ResolvedBones(bones, front) + [bones[e.value.boneName]];
      } else {
        assert ResolvedBones(bones, es) == ResolvedBones(bones, front);
      }
    }
  }

  /** _rootBone ends as the body of the last resolved element marked isRoot,
      or keeps its earlier value when no such element exists. */
  lemma {:induction false} RootIsLastRoot(rig: Rig, bones: map<string, int>, es: seq<Option<PhysicsElement>>, s: StartSettings, debug: bool)
    ensures BuildBodies(rig, bones, es, s, debug).root
              == if LastRoot(bones, es).Some? then LastRoot(bones, es) else rig.root
    decreases |es|
  {
    if es != [] {
      var front := es[..|es| - 1];
      var e := es[|es| - 1];
      var prev := BuildBodies(rig, bones, front, s, debug);
      RootIsLastRoot(rig, bones, front, s, debug);
      AddElementBodies(prev, bones, e, s, debug);
    }
  }

  /** id is a collider created between rig and r, of kind t. */
  predicate NewOfType(rig: Rig, r: Rig, id: nat, t: ColliderType) {
    rig.nextCollider <= id < r.nextCollider && id in r.colliders && r.colliders[id].def.colliderType == t
  }

  /** Colliders created before rig keep their components. */
  predicate TableGrows(rig: Rig, r: Rig) {
    && rig.nextCollider <= r.nextCollider
    && forall id :: id in rig.colliders && id < rig.nextCollider ==> id in r.colliders && r.colliders[id] == rig.colliders[id]
  }

  /** The list of kind t grew by exactly added new colliders, all of kind t. */
  predicate Extends(rig: Rig, r: Rig, t: ColliderType, added: nat) {
    && |ListOf(r, t)| == |ListOf(rig, t)| + added
    && ListOf(r, t)[..|ListOf(rig, t)|] == ListOf(rig, t)
    && forall i :: |ListOf(rig, t)| <= i < |ListOf(r, t)| ==> NewOfType(rig, r, ListOf(r, t)[i], t)
  }

  lemma ExtendsTrans(a: Rig, b: Rig, c: Rig, t: ColliderType, m: nat, n: nat)
    requires Extends(a, b, t, m) && Extends(b, c, t, n) && TableGrows(a, b) && TableGrows(b, c)
    ensures Extends(a, c, t, m + n) && TableGrows(a, c)
  {
    var la, lb, lc := ListOf(a, t), ListOf(b, t), ListOf(c, t);
    assert lc[..|la|] == lb[..|lb|][..|la|];
    forall i | |la| <= i < |lc| ensures NewOfType(a, c, lc[i], t) {
      if i < |lb| {
        assert lc[i] == lc[..|lb|][i] == lb[i];
      }
    }
  }

  lemma AddColliderSorts(rig: Rig, bone: int, def: ColliderDefinition, trigger: bool, t: ColliderType)
    ensures var r := AddCollider(rig, bone, def, trigger);
            && Extends(rig, r, t, if def.colliderType == t then 1 else 0) && TableGrows(rig, r)
            && r.nextCollider == rig.nextCollider + 1
  {
    var r := AddCollider(rig, bone, def, trigger);
    if def.colliderType == t {
      assert ListOf(r, t) == ListOf(rig, t) + [rig.nextCollider];
    } else {
      assert ListOf(r, t) == ListOf(rig, t);
    }
  }

  lemma {:induction false} AddCollidersSorts(rig: Rig, bone: int, defs: seq<ColliderDefinition>, trigger: bool, t: ColliderType)
    ensures var r := AddColliders(rig, bone, defs, trigger);
            && Extends(rig, r, t, TypeCount(defs, t)) && TableGrows(rig, r)
            && r.nextCollider == rig.nextCollider + |defs|
    decreases |defs|
  {
    if defs != [] {
      var front := defs[..|defs| - 1];
      var mid := AddColliders(rig, bone, front, trigger);
      AddCollidersSorts(rig, bone, front, trigger, t);
      AddColliderSorts(mid, bone, defs[|defs| - 1], trigger, t);
      ExtendsTrans(rig, mid, AddColliders(rig, bone, defs, trigger), t,
                   TypeCount(front, t), if defs[|defs| - 1].colliderType == t then 1 else 0);
    }
  }

  /** Each collider definition of a resolved element becomes one new collider
      in the list of its own kind: the list of kind t grows by exactly the
      number of kind-t definitions, keeps its old entries, and every entry it
      gains is a new collider of kind t. */
  lemma {:induction false} CollidersSorted(rig: Rig, bones: map<string, int>, es: seq<Option<PhysicsElement>>, s: StartSettings, debug: bool, t: ColliderType)
    ensures var r := BuildBodies(rig, bones, es, s, debug);
            Extends(rig, r, t, ColliderCount(bones, es, t)) && TableGrows(rig, r)
    decreases |es|
  {
    if es != [] {
      var front := es[..|es| - 1];
      var e := es[|es| - 1];
      var prev := BuildBodies(rig, bones, front, s, debug);
      var r := BuildBodies(rig, bones, es, s, debug);
      CollidersSorted(rig, bones, front, s, debug, t);
      if Resolve(bones, e).Some? {
        var bone := bones[e.value.boneName];
        var withBody := WithBody(prev, bone, e.value, s);
        AddCollidersSorts(withBody, bone, e.value.colliders, s.areTriggers, t);
        assert ListOf(withBody, t) == ListOf(prev, t);
        ExtendsTrans(rig, withBody, r, t, ColliderCount(bones, front, t), TypeCount(e.value.colliders, t));
      } else {
        assert ListOf(r, t) == ListOf(prev, t);
      }
    }
  }

  lemma {:induction false} TypeCountTotal(defs: seq<ColliderDefinition>)
    ensures TypeCount(defs, Box) + TypeCount(defs, Sphere) + TypeCount(defs, Capsule) == |defs|
    decreases |defs|
  {
    if defs != [] {
      TypeCountTotal(defs[..|defs| - 1]);
    }
  }

  /** The first pass creates exactly one collider per definition of a
      resolved element, so with CollidersSorted no definition is lost or
      listed twice. */
  lemma {:induction false} CollidersAccounted(rig: Rig, bones: map<string, int>, es: seq<Option<PhysicsElement>>, s: StartSettings, debug: bool)
    ensures BuildBodies(rig, bones, es, s, debug).nextCollider
              == rig.nextCollider + ColliderCount(bones, es, Box) + ColliderCount(bones, es, Sphere) + ColliderCount(bones, es, Capsule)
    decreases |es|
  {
    if es != [] {
      var front := es[..|es| - 1];
      var e := es[|es| - 1];
      var prev := BuildBodies(rig, bones, front, s, debug);
      CollidersAccounted(rig, bones, front, s, debug);
      if Resolve(bones, e).Some? {
        var bone := bones[e.value.boneName];
        var withBody := WithBody(prev, bone, e.value, s);
        AddCollidersSorts(withBody, bone, e.value.colliders, s.areTriggers, Box);
        TypeCountTotal(e.value.colliders);
      }
    }
  }

  /** Every listed collider exists and was created before nextCollider. */
  ghost predicate ListedLive(rig: Rig) {
    forall id :: id in rig.boxes || id in rig.spheres || id in rig.capsules ==>
      id in rig.colliders && id < rig.nextCollider
  }

  /** Every id of ids names an existing collider. */
  predicate AllLive(colliders: map<nat, Collider>, ids: seq<nat>) {
    forall i :: 0 <= i < |ids| ==> ids[i] in colliders
  }

  lemma ListStaysLive(rig: Rig, r: Rig, t: ColliderType, added: nat)
    requires Extends(rig, r, t, added) && TableGrows(rig, r)
    requires forall id :: id in ListOf(rig, t) ==> id in rig.colliders && id < rig.nextCollider
    ensures forall id :: id in ListOf(r, t) ==> id in r.colliders && id < r.nextCollider
  {
    var l, l' := ListOf(rig, t), ListOf(r, t);
    forall id | id in l' ensures id in r.colliders && id < r.nextCollider {
      var i :| 0 <= i < |l'| && l'[i] == id;
      if i < |l| {
        assert l'[..|l|][i] == l[i];
        assert l[i] in l;
        assert id in rig.colliders && id < rig.nextCollider;
      } else {
        assert NewOfType(rig, r, l'[i], t);
      }
    }
  }

  /** The first pass keeps every listed collider alive. */
  lemma BuildKeepsListed(rig: Rig, bones: map<string, int>, es: seq<Option<PhysicsElement>>, s: StartSettings, debug: bool)
    requires ListedLive(rig)
    ensures ListedLive(BuildBodies(rig, bones, es, s, debug))
  {
    var r := BuildBodies(rig, bones, es, s, debug);
    CollidersSorted(rig, bones, es, s, debug, Box);
    CollidersSorted(rig, bones, es, s, debug, Sphere);
    CollidersSorted(rig, bones, es, s, debug, Capsule);
    ListStaysLive(rig, r, Box, ColliderCount(bones, es, Box));
    ListStaysLive(rig, r, Sphere, ColliderCount(bones, es, Sphere));
    ListStaysLive(rig, r, Capsule, ColliderCount(bones, es, Capsule));
  }

  // ---------------------------------------------------------------------------
  // Second pass: joints
  // ---------------------------------------------------------------------------

  /** The joint lookup of the parent bone is not null-guarded: every resolved
      element that is not the root must name a parent bone the skeleton has. */
  predicate ParentsResolve(bones: map<string, int>, es: seq<Option<PhysicsElement>>) {
    forall i :: 0 <= i < |es| && Resolve(bones, es[i]).Some? && !es[i].value.isRoot ==> es[i].value.parentBone in bones
  }

  /** The joint one element gets in the second loop of Init, connected to
      the Rigidbody of its parent bone as the first pass left them. */
  function JointFor(bones: map<string, int>, bodies: map<int, Body>, e: Option<PhysicsElement>): seq<Joint>
    requires Resolve(bones, e).Some? && !e.value.isRoot ==> e.value.parentBone in bones
  {
    if Resolve(bones, e).None? || e.value.isRoot then []
    else
      var parent := bones[e.value.parentBone];
      [Joint(bones[e.value.boneName], if parent in bodies then Some(parent) else None, e.value)]
  }

  function BuildJoints(bones: map<string, int>, bodies: map<int, Body>, es: seq<Option<PhysicsElement>>): seq<Joint>
    requires ParentsResolve(bones, es)
    decreases |es|
  {
    if es == [] then []
    else BuildJoints(bones, bodies, es[..|es| - 1]) + JointFor(bones, bodies, es[|es| - 1])
  }

  lemma ParentsResolvePrefix(bones: map<string, int>, es: seq<Option<PhysicsElement>>, n: nat)
    requires n <= |es| && ParentsResolve(bones, es)
    ensures ParentsResolve(bones, es[..n])
  {
    forall i | 0 <= i < n ensures es[..n][i] == es[i] { }
  }

  lemma BuildJointsSnoc(bones: map<string, int>, bodies: map<int, Body>, es: seq<Option<PhysicsElement>>, n: nat)
    requires n < |es| && ParentsResolve(bones, es)
    ensures ParentsResolve(bones, es[..n]) && ParentsResolve(bones, es[..n + 1])
    ensures BuildJoints(bones, bodies, es[..n + 1]) == BuildJoints(bones, bodies, es[..n]) + JointFor(bones, bodies, es[n])
  {
    ParentsResolvePrefix(bones, es, n);
    ParentsResolvePrefix(bones, es, n + 1);
    assert es[..n + 1][..n] == es[..n];
  }

  /** How many elements resolve and are not the root. */
  function NonRootCount(bones: map<string, int>, es: seq<Option<PhysicsElement>>): nat
    decreases |es|
  {
    if es == [] then 0
    else NonRootCount(bones, es[..|es| - 1])
         + if Resolve(bones, es[|es| - 1]).Some? && !es[|es| - 1].value.isRoot then 1 else 0
  }

  /** One joint per resolved non-root element, on that element's bone; a
      joint whose parent bone got a body in the first pass is connected to
      it, wherever the parent stands in the element list. */
  lemma {:induction false} JointsConnectParents(rig: Rig, bones: map<string, int>, es: seq<Option<PhysicsElement>>, s: StartSettings, debug: bool)
    requires ParentsResolve(bones, es)
    ensures var r := BuildBodies(rig, bones, es, s, debug);
            var js := BuildJoints(bones, r.bodies, es);
            && |js| == NonRootCount(bones, es)
            && forall k :: 0 <= k < |js| ==>
                 && !js[k].element.isRoot && js[k].element.boneName in bones && js[k].element.parentBone in bones
                 && js[k].bone == bones[js[k].element.boneName]
                 && (bones[js[k].element.parentBone] in ResolvedBones(bones, es) ==>
                       js[k].connectedBody == Some(bones[js[k].element.parentBone]))
  {
    var r := BuildBodies(rig, bones, es, s, debug);
    BodiesFlagged(rig, bones, es, s, debug);
    JointsShape(bones, r.bodies, es);
    var js := BuildJoints(bones, r.bodies, es);
    forall k | 0 <= k < |js| && bones[js[k].element.parentBone] in ResolvedBones(bones, es)
      ensures js[k].connectedBody == Some(bones[js[k].element.parentBone])
    {
      var p := bones[js[k].element.parentBone];
      assert p in ResolvedBones(bones, es);
      assert p in r.bodies;
    }
  }

  lemma {:induction false} JointsShape(bones: map<string, int>, bodies: map<int, Body>, es: seq<Option<PhysicsElement>>)
    requires ParentsResolve(bones, es)
    ensures var js := BuildJoints(bones, bodies, es);
            && |js| == NonRootCount(bones, es)
            && forall k :: 0 <= k < |js| ==>
                 && !js[k].element.isRoot && js[k].element.boneName in bones && js[k].element.parentBone in bones
                 && js[k].bone == bones[js[k].element.boneName]
                 && js[k].connectedBody == (if bones[js[k].element.parentBone] in bodies then Some(bones[js[k].element.parentBone]) else None)
    decreases |es|
  {
    if es != [] {
      var front := es[..|es| - 1];
      assert ParentsResolve(bones, front) by {
        forall i | 0 <= i < |front| ensures front[i] == es[i] { }
      }
      JointsShape(bones, bodies, front);
    }
  }

  // ---------------------------------------------------------------------------
  // SetProperties
  // ---------------------------------------------------------------------------

  /** TuneRigidbodies over list: a destroyed body (absent from bodies) is
      Unity's null and is skipped. */
  function TuneBodies(bodies: map<int, Body>, list: seq<int>, kinematic: bool, gravity: bool): map<int, Body>
    decreases |list|
  {
    if list == [] then bodies
    else
      var m := TuneBodies(bodies, list[..|list| - 1], kinematic, gravity);
      var b := list[|list| - 1];
      if b in m then m[b := m[b].(isKinematic := kinematic, useGravity := gravity)] else m
  }

  /** Every listed live body gets both flags and keeps its mass; unlisted
      bodies are untouched, and no body is created. */
  lemma {:induction false} TuneBodiesSets(bodies: map<int, Body>, list: seq<int>, kinematic: bool, gravity: bool)
    ensures var r := TuneBodies(bodies, list, kinematic, gravity);
            && r.Keys == bodies.Keys
            && forall b :: b in bodies ==>
                 r[b] == if b in list then Body(kinematic, gravity, bodies[b].mass) else bodies[b]
    decreases |list|
  {
    if list != [] {
      TuneBodiesSets(bodies, list[..|list| - 1], kinematic, gravity);
    }
  }

  /** The isTrigger half of the TuneColliders loops. The model never destroys
      a collider, so the absent case, an exception in the source, is never
      reached from a rig that keeps ListedLive. */
  function TuneTriggers(colliders: map<nat, Collider>, ids: seq<nat>, trigger: bool): (r: map<nat, Collider>)
    ensures r.Keys == colliders.Keys
    ensures forall id :: id in r ==> r[id].bone == colliders[id].bone
    decreases |ids|
  {
    if ids == [] then colliders
    else
      var m := TuneTriggers(colliders, ids[..|ids| - 1], trigger);
      var id := ids[|ids| - 1];
      if id in m then m[id := m[id].(isTrigger := trigger)] else m
  }

  lemma TuneTriggersSnoc(colliders: map<nat, Collider>, ids: seq<nat>, id: nat, trigger: bool)
    requires id in TuneTriggers(colliders, ids, trigger)
    ensures var m := TuneTriggers(colliders, ids, trigger);
            TuneTriggers(colliders, ids + [id], trigger) == m[id := m[id].(isTrigger := trigger)]
  {
    assert (ids + [id])[..|ids|] == ids;
  }

  lemma SetLayersSnoc(layers: map<int, int>, colliders: map<nat, Collider>, ids: seq<nat>, id: nat, layer: int)
    requires id in colliders
    ensures SetLayers(layers, colliders, ids + [id], layer) == SetLayers(layers, colliders, ids, layer)[colliders[id].bone := layer]
  {
    assert (ids + [id])[..|ids|] == ids;
  }

  lemma {:induction false} TuneTriggersSets(colliders: map<nat, Collider>, ids: seq<nat>, trigger: bool)
    ensures var r := TuneTriggers(colliders, ids, trigger);
            && r.Keys == colliders.Keys
            && forall id :: id in colliders ==>
                 r[id] == if id in ids then colliders[id].(isTrigger := trigger) else colliders[id]
    decreases |ids|
  {
    if ids != [] {
      TuneTriggersSets(colliders, ids[..|ids| - 1], trigger);
    }
  }

  /** The layer half of the TuneColliders loops (setCollidersLayer true): the
      game object of each listed collider, its bone, moves to layer. */
  function SetLayers(layers: map<int, int>, colliders: map<nat, Collider>, ids: seq<nat>, layer: int): map<int, int>
    decreases |ids|
  {
    if ids == [] then layers
    else
      var m := SetLayers(layers, colliders, ids[..|ids| - 1], layer);
      var id := ids[|ids| - 1];
      if id in colliders then m[colliders[id].bone := layer] else m
  }

  /** A bone ends on the layer iff one of the listed colliders sits on it;
      other bones keep theirs. */
  lemma {:induction false} SetLayersMoves(layers: map<int, int>, colliders: map<nat, Collider>, ids: seq<nat>, layer: int)
    requires forall i :: 0 <= i < |ids| ==> ids[i] in colliders
    ensures var r := SetLayers(layers, colliders, ids, layer);
            && (forall i :: 0 <= i < |ids| ==> colliders[ids[i]].bone in r && r[colliders[ids[i]].bone] == layer)
            && (forall b :: b in layers && (forall i :: 0 <= i < |ids| ==> colliders[ids[i]].bone != b) ==>
                  b in r && r[b] == layers[b])
            && (forall b :: b in r ==> b in layers || exists i :: 0 <= i < |ids| && colliders[ids[i]].bone == b)
    decreases |ids|
  {
    if ids != [] {
      var front := ids[..|ids| - 1];
      SetLayersMoves(layers, colliders, front, layer);
      forall i | 0 <= i < |ids| - 1 ensures front[i] == ids[i] { }
    }
  }

  /** SetUpdateWhenOffscreen over the renderers. */
  function SetOffscreen(flags: map<int, bool>, renderers: seq<SkinRenderer>, value: bool): map<int, bool>
    decreases |renderers|
  {
    if renderers == [] then flags
    else SetOffscreen(flags, renderers[..|renderers| - 1], value)[renderers[|renderers| - 1].id := value]
  }

  /** UpdateClothColliders' loop: each renderer with Cloth is given the current
      sphere and capsule lists. */
  function ClothUpdate(cloth: map<int, ClothColliders>, renderers: seq<SkinRenderer>, given: ClothColliders): map<int, ClothColliders>
    decreases |renderers|
  {
    if renderers == [] then cloth
    else
      var m := ClothUpdate(cloth, renderers[..|renderers| - 1], given);
      var r := renderers[|renderers| - 1];
      if r.hasCloth then m[r.id := given] else m
  }

  /** UpdateClothColliders' warnings: one per Cloth renderer when the combined
      count is high. */
  function ClothWarnings(renderers: seq<SkinRenderer>, high: bool): seq<Warning>
    decreases |renderers|
  {
    if renderers == [] then []
    else ClothWarnings(renderers[..|renderers| - 1], high)
         + if high && renderers[|renderers| - 1].hasCloth then [ClothCollidersHigh(renderers[|renderers| - 1].id)] else []
  }

  /** Every Cloth renderer holds exactly the given lists; renderers without
      Cloth and unknown ids keep what they had. */
  lemma {:induction false} ClothGetsLists(cloth: map<int, ClothColliders>, renderers: seq<SkinRenderer>, given: ClothColliders)
    ensures var r := ClothUpdate(cloth, renderers, given);
            && (forall i :: 0 <= i < |renderers| && renderers[i].hasCloth ==>
                  renderers[i].id in r && r[renderers[i].id] == given)
            && (forall id :: id in cloth && (forall i :: 0 <= i < |renderers| && renderers[i].hasCloth ==> renderers[i].id != id) ==>
                  id in r && r[id] == cloth[id])
    decreases |renderers|
  {
    if renderers != [] {
      var front := renderers[..|renderers| - 1];
      ClothGetsLists(cloth, front, given);
      forall i | 0 <= i < |renderers| - 1 ensures front[i] == renderers[i] { }
    }
  }

  /** The count check warns iff the combined count is high, once per Cloth
      renderer. */
  lemma {:induction false} ClothWarnsIffHigh(renderers: seq<SkinRenderer>, high: bool)
    ensures var w := ClothWarnings(renderers, high);
            && (|w| > 0 <==> high && exists i :: 0 <= i < |renderers| && renderers[i].hasCloth)
            && forall k :: 0 <= k < |w| ==> w[k].ClothCollidersHigh?
    decreases |renderers|
  {
    if renderers != [] {
      var front := renderers[..|renderers| - 1];
      ClothWarnsIffHigh(front, high);
      forall i | 0 <= i < |renderers| - 1 ensures front[i] == renderers[i] { }
    }
  }

  // ---------------------------------------------------------------------------
  // Bone snapshots around a character build
  // ---------------------------------------------------------------------------

  /** isAnimatorDisabled: no UMAData, no animator, or the animator is off. */
  predicate AnimatorDisabled(hasUmaData: bool, hasAnimator: bool, animatorEnabled: bool) {
    !hasUmaData || !hasAnimator || !animatorEnabled
  }

  /** The cachedBones the begun callback collects: one (transform, pose) pair
      per skeleton hash whose transform exists. */
  function Capture(hashes: seq<int>, transforms: map<int, int>, poses: map<int, Pose>): seq<(int, Pose)>
    requires forall h :: h in transforms ==> transforms[h] in poses
    decreases |hashes|
  {
    if hashes == [] then []
    else
      var h := hashes[|hashes| - 1];
      Capture(hashes[..|hashes| - 1], transforms, poses)
      + if h in transforms then [(transforms[h], poses[transforms[h]])] else []
  }

  /** Every pair of ws records the pose its transform has in poses. */
  predicate SnapshotOf(ws: seq<(int, Pose)>, poses: map<int, Pose>) {
    forall i :: 0 <= i < |ws| ==> ws[i].0 in poses && ws[i].1 == poses[ws[i].0]
  }

  /** The snapshot covers every skeleton bone that has a transform, and
      records each one's current local pose. */
  lemma {:induction false} CaptureRecords(hashes: seq<int>, transforms: map<int, int>, poses: map<int, Pose>)
    requires forall h :: h in transforms ==> transforms[h] in poses
    ensures var ws := Capture(hashes, transforms, poses);
            && SnapshotOf(ws, poses)
            && forall i :: 0 <= i < |hashes| && hashes[i] in transforms ==> (transforms[hashes[i]], poses[transforms[hashes[i]]]) in ws
    decreases |hashes|
  {
    if hashes != [] {
      var front := hashes[..|hashes| - 1];
      CaptureRecords(front, transforms, poses);
      forall i | 0 <= i < |hashes| - 1 ensures front[i] == hashes[i] { }
    }
  }

  lemma {:induction false} WritesOfSnapshot(ws: seq<(int, Pose)>, poses: map<int, Pose>)
    requires SnapshotOf(ws, poses)
    ensures forall t :: t in Writes(ws) ==> t in poses && Writes(ws)[t] == poses[t]
    ensures forall i :: 0 <= i < |ws| ==> ws[i].0 in Writes(ws)
    ensures forall t :: t in Writes(ws) ==> exists i :: 0 <= i < |ws| && ws[i].0 == t
    decreases |ws|
  {
    if ws != [] {
      var rest := ws[1..];
      assert SnapshotOf(rest, poses) by {
        forall i | 0 <= i < |rest| ensures rest[i] == ws[i + 1] { }
      }
      WritesOfSnapshot(rest, poses);
      forall t | t in Writes(ws) ensures exists i :: 0 <= i < |ws| && ws[i].0 == t {
        if t != ws[0].0 {
          var j :| 0 <= j < |rest| && rest[j].0 == t;
          assert ws[j + 1].0 == t;
        }
      }
      forall i | 1 <= i < |ws| ensures ws[i].0 in Writes(ws) {
        assert ws[i] == rest[i - 1];
      }
    }
  }

  /** Writing a snapshot back puts every recorded transform at its recorded
      pose, whatever the build did in between, and leaves every other
      transform as the build left it. */
  lemma RestoreUndoes(ws: seq<(int, Pose)>, before: map<int, Pose>, built: map<int, Pose>)
    requires SnapshotOf(ws, before)
    ensures var r := Overwrite(built, ws);
            && (forall i :: 0 <= i < |ws| ==> ws[i].0 in r && ws[i].0 in before && r[ws[i].0] == before[ws[i].0])
            && (forall t :: t in built && (forall i :: 0 <= i < |ws| ==> ws[i].0 != t) ==> t in r && r[t] == built[t])
  {
    OverwriteIsUnion(built, ws);
    WritesOfSnapshot(ws, before);
  }

  /** The capture/restore protocol: a bone captured when the build begun is
      back at its captured pose once the build is over. */
  lemma CaptureThenRestore(hashes: seq<int>, transforms: map<int, int>, before: map<int, Pose>, built: map<int, Pose>)
    requires forall h :: h in transforms ==> transforms[h] in before
    ensures forall i :: 0 <= i < |hashes| && hashes[i] in transforms ==>
              var r := Overwrite(built, Capture(hashes, transforms, before));
              transforms[hashes[i]] in r && r[transforms[hashes[i]]] == before[transforms[hashes[i]]]
  {
    var ws := Capture(hashes, transforms, before);
    CaptureRecords(hashes, transforms, before);
    RestoreUndoes(ws, before, built);
    forall i | 0 <= i < |hashes| && hashes[i] in transforms
      ensures transforms[hashes[i]] in Overwrite(built, ws) && Overwrite(built, ws)[transforms[hashes[i]]] == before[transforms[hashes[i]]]
    {
      var j :| 0 <= j < |ws| && ws[j] == (transforms[hashes[i]], before[transforms[hashes[i]]]);
    }
  }

  // ---------------------------------------------------------------------------
  // The component
  // ---------------------------------------------------------------------------

  class PhysicsAvatar {
    /** elements, and the *OnStart fields Init hands to SetProperties. */
    const elements: seq<Option<PhysicsElement>>
    const settings: StartSettings
    /** Debug.isDebugBuild */
    const debug: bool
    /** Whether GetComponent<UMAData>() finds one on the game object. */
    const umaDataComponent: bool
    /** The UMAData side: GetBoneGameObject by name (absent is null), the
        renderers, the skeleton's bone hashes and transforms, the bones' world
        positions, and whether an animator exists. */
    const bones: map<string, int>
    const renderers: seq<SkinRenderer>
    const skeleton: seq<int>
    const transforms: map<int, int>
    const bonePositions: map<int, Vec3>
    const hasAnimator: bool

    /** _umaData != null */
    var hasUmaData: bool
    var animatorEnabled: bool

    /** _rigidbodies, _rootBone, the three collider lists, and the components
        they name (see Rig). */
    var bodies: map<int, Body>
    var rigidbodies: seq<int>
    var root: Option<int>
    var colliders: map<nat, Collider>
    var boxes: seq<nat>
    var spheres: seq<nat>
    var capsules: seq<nat>
    var nextCollider: nat
    var warnings: seq<Warning>

    /** Engine state the component writes: bone layers, joints, the Cloth
        collider arrays, the renderers' updateWhenOffscreen flags, the avatar's
        position, the bones' local poses and the forces applied. */
    var layers: map<int, int>
    var joints: seq<Joint>
    var cloth: map<int, ClothColliders>
    var offscreen: map<int, bool>
    var avatarPosition: Vec3
    var poses: map<int, Pose>
    var cachedBones: seq<(int, Pose)>
    var forces: seq<Push>

    function Snapshot(): Rig
      reads this
    {
      Rig(bodies, rigidbodies, root, colliders, boxes, spheres, capsules, nextCollider, warnings)
    }

    constructor(elements: seq<Option<PhysicsElement>>, settings: StartSettings, debug: bool, umaDataComponent: bool,
                bones: map<string, int>, renderers: seq<SkinRenderer>, skeleton: seq<int>, transforms: map<int, int>,
                bonePositions: map<int, Vec3>, hasAnimator: bool, poses: map<int, Pose>)
      ensures this.elements == elements && this.settings == settings && this.debug == debug
      ensures this.umaDataComponent == umaDataComponent && this.bones == bones && this.renderers == renderers
      ensures this.skeleton == skeleton && this.transforms == transforms && this.bonePositions == bonePositions
      ensures this.hasAnimator == hasAnimator && this.poses == poses
      ensures !hasUmaData && animatorEnabled
      ensures Snapshot() == Rig(map[], [], None, map[], [], [], [], 0, [])
      ensures layers == map[] && joints == [] && cloth == map[] && offscreen == map[]
      ensures cachedBones == [] && forces == []
    {
      this.elements := elements;
      this.settings := settings;
      this.debug := debug;
      this.umaDataComponent := umaDataComponent;
      this.bones := bones;
      this.renderers := renderers;
      this.skeleton := skeleton;
      this.transforms := transforms;
      this.bonePositions := bonePositions;
      this.hasAnimator := hasAnimator;
      this.poses := poses;
      hasUmaData := false;
      animatorEnabled := true;
      bodies, rigidbodies, root := map[], [], None;
      colliders, boxes, spheres, capsules, nextCollider := map[], [], [], [], 0;
      warnings := [];
      layers, joints, cloth, offscreen := map[], [], map[], map[];
      avatarPosition := Vec3(0.0, 0.0, 0.0);
      cachedBones, forces := [], [];
    }

    /** addToBone*Collider and the Add to the list of the collider's kind. */
    method AddBoneCollider(bone: int, def: ColliderDefinition, trigger: bool)
      modifies this`colliders, this`boxes, this`spheres, this`capsules, this`nextCollider
      ensures Snapshot() == AddCollider(old(Snapshot()), bone, def, trigger)
    {
      var id := nextCollider;
      colliders := colliders[id := Collider(bone, def, trigger)];
      nextCollider := nextCollider + 1;
      match def.colliderType {
        case Box => boxes := boxes + [id];
        case Sphere => spheres := spheres + [id];
        case Capsule => capsules := capsules + [id];
      }
    }

    /** The inner loop of the first pass: one collider per definition. */
    method AddBoneColliders(bone: int, defs: seq<ColliderDefinition>, trigger: bool)
      modifies this`colliders, this`boxes, this`spheres, this`capsules, this`nextCollider
      ensures Snapshot() == AddColliders(old(Snapshot()), bone, defs, trigger)
    {
      ghost var start := Snapshot();
      var j := 0;
      while j < |defs|
        invariant 0 <= j <= |defs|
        invariant Snapshot() == AddColliders(start, bone, defs[..j], trigger)
      {
        var def := defs[j];
        assert defs[..j + 1] == defs[..j] + [def];
        AddCollidersSnoc(start, bone, defs[..j], def, trigger);
        AddBoneCollider(bone, def, trigger);
        j := j + 1;
      }
      assert defs[..|defs|] == defs;
    }

    /** The first loop of Init. */
    method FirstPass()
      modifies this`bodies, this`rigidbodies, this`root, this`warnings
      modifies this`colliders, this`boxes, this`spheres, this`capsules, this`nextCollider
      ensures Snapshot() == BuildBodies(old(Snapshot()), bones, elements, settings, debug)
    {
      ghost var start := Snapshot();
      var i := 0;
      while i < |elements|
        invariant 0 <= i <= |elements|
        invariant Snapshot() == BuildBodies(start, bones, elements[..i], settings, debug)
      {
        assert elements[..i + 1][..i] == elements[..i];
        var element := elements[i];
        if element.Some? {
          var e := element.value;
          if e.boneName !in bones {
            if debug {
              warnings := warnings + [BoneNotFound(e.boneName)];
            }
          } else {
            var bone := bones[e.boneName];
            bodies := bodies[bone := Body(settings.areKinematic, settings.useGravity, e.mass)];
            rigidbodies := rigidbodies + [bone];
            if e.isRoot {
              root := Some(bone);
            }
            AddBoneColliders(bone, e.colliders, settings.areTriggers);
          }
        }
        i := i + 1;
      }
      assert elements[..|elements|] == elements;
    }

    /** The second loop of Init. */
    method SecondPass()
      requires ParentsResolve(bones, elements)
      modifies this`joints
      ensures joints == old(joints) + BuildJoints(bones, bodies, elements)
    {
      var i := 0;
      ParentsResolvePrefix(bones, elements, 0);
      while i < |elements|
        invariant 0 <= i <= |elements|
        invariant ParentsResolve(bones, elements[..i])
        invariant joints == old(joints) + BuildJoints(bones, bodies, elements[..i])
      {
        BuildJointsSnoc(bones, bodies, elements, i);
        var element := elements[i];
        if element.Some? && element.value.boneName in bones && !element.value.isRoot {
          var e := element.value;
          var parent := bones[e.parentBone];
          joints := joints + [Joint(bones[e.boneName], if parent in bodies then Some(parent) else None, e)];
        }
        i := i + 1;
      }
      assert elements[..|elements|] == elements;
    }

    /** UpdateClothColliders */
    method UpdateClothColliders()
      modifies this`cloth, this`warnings
      ensures !hasUmaData ==> cloth == old(cloth) && warnings == old(warnings)
      ensures hasUmaData ==>
                && cloth == ClothUpdate(old(cloth), renderers, ClothColliders(spheres, capsules))
                && warnings == old(warnings) + ClothWarnings(renderers, debug && |capsules| + |spheres| > 10)
    {
      if !hasUmaData {
        return;
      }
      var given := ClothColliders(spheres, capsules);
      var high := debug && |capsules| + |spheres| > 10;
      var i := 0;
      while i < |renderers|
        invariant 0 <= i <= |renderers|
        invariant cloth == ClothUpdate(old(cloth), renderers[..i], given)
        invariant warnings == old(warnings) + ClothWarnings(renderers[..i], high)
      {
        assert renderers[..i + 1][..i] == renderers[..i];
        var renderer := renderers[i];
        if renderer.hasCloth {
          cloth := cloth[renderer.id := given];
          if high {
            warnings := warnings + [ClothCollidersHigh(renderer.id)];
          }
        }
        i := i + 1;
      }
      assert renderers[..|renderers|] == renderers;
    }

    method TuneRigidbodies(kinematic: bool, gravity: bool)
      modifies this`bodies
      ensures bodies == TuneBodies(old(bodies), rigidbodies, kinematic, gravity)
    {
      var i := 0;
      while i < |rigidbodies|
        invariant 0 <= i <= |rigidbodies|
        invariant bodies == TuneBodies(old(bodies), rigidbodies[..i], kinematic, gravity)
      {
        assert rigidbodies[..i + 1][..i] == rigidbodies[..i];
        var b := rigidbodies[i];
        if b in bodies {
          bodies := bodies[b := bodies[b].(isKinematic := kinematic, useGravity := gravity)];
        }
        i := i + 1;
      }
      assert rigidbodies[..|rigidbodies|] == rigidbodies;
    }

    /** TuneColliders: its three loops, over the box, sphere and capsule
        lists in turn, are one pass over their concatenation. */
    method TuneColliders(trigger: bool, setLayer: bool, layer: int)
      requires AllLive(colliders, boxes + spheres + capsules)
      modifies this`colliders, this`layers
      ensures colliders == TuneTriggers(old(colliders), boxes + spheres + capsules, trigger)
      ensures layers == if setLayer then SetLayers(old(layers), old(colliders), boxes + spheres + capsules, layer) else old(layers)
    {
      var all := boxes + spheres + capsules;
      ghost var c0, l0 := colliders, layers;
      var i := 0;
      while i < |all|
        invariant 0 <= i <= |all|
        invariant colliders == TuneTriggers(c0, all[..i], trigger)
        invariant setLayer ==> layers == SetLayers(l0, c0, all[..i], layer)
        invariant !setLayer ==> layers == l0
      {
        var id := all[i];
        assert all[..i + 1] == all[..i] + [id];
        assert id in c0 && id in colliders;
        TuneTriggersSnoc(c0, all[..i], id, trigger);
        SetLayersSnoc(l0, c0, all[..i], id, layer);
        colliders := colliders[id := colliders[id].(isTrigger := trigger)];
        if setLayer {
          layers := layers[colliders[id].bone := layer];
        }
        i := i + 1;
      }
      assert all[..|all|] == all;
    }

    method SetUpdateWhenOffscreen(value: bool)
      modifies this`offscreen
      ensures offscreen == if hasUmaData then SetOffscreen(old(offscreen), renderers, value) else old(offscreen)
    {
      if !hasUmaData {
        return;
      }
      var i := 0;
      while i < |renderers|
        invariant 0 <= i <= |renderers|
        invariant offscreen == SetOffscreen(old(offscreen), renderers[..i], value)
      {
        assert renderers[..i + 1][..i] == renderers[..i];
        offscreen := offscreen[renderers[i].id := value];
        i := i + 1;
      }
      assert renderers[..|renderers|] == renderers;
    }

    /** SetProperties. The animator lookup needs the UMAData, and snapping
        the avatar to the root needs a root body. */
    method SetProperties(areTriggers: bool, areKinematic: bool, useGravity: bool, setCollidersLayer: bool,
                         collidersLayer: int, enableAnim: bool, moveAvatarToRootBonePosition: bool,
                         updateWhenOffScreen: bool)
      requires hasUmaData && AllLive(colliders, boxes + spheres + capsules)
      requires moveAvatarToRootBonePosition ==> root.Some? && root.value in bonePositions
      modifies this`bodies, this`colliders, this`layers, this`animatorEnabled, this`offscreen, this`avatarPosition
      ensures bodies == TuneBodies(old(bodies), rigidbodies, areKinematic, useGravity)
      ensures colliders == TuneTriggers(old(colliders), boxes + spheres + capsules, areTriggers)
      ensures layers == if setCollidersLayer then SetLayers(old(layers), old(colliders), boxes + spheres + capsules, collidersLayer) else old(layers)
      ensures animatorEnabled == if hasAnimator then enableAnim else old(animatorEnabled)
      ensures offscreen == SetOffscreen(old(offscreen), renderers, updateWhenOffScreen)
      ensures avatarPosition == if moveAvatarToRootBonePosition then bonePositions[root.value] else old(avatarPosition)
    {
      var rootBody := root;
      TuneRigidbodies(areKinematic, useGravity);
      ghost var tunedBodies := bodies;
      TuneColliders(areTriggers, setCollidersLayer, collidersLayer);
      ghost var tunedColliders, movedLayers := colliders, layers;
      if hasAnimator {
        animatorEnabled := enableAnim;
      }
      SetUpdateWhenOffscreen(updateWhenOffScreen);
      if moveAvatarToRootBonePosition {
        avatarPosition := bonePositions[rootBody.value];
      }
    }

    /** The two passes of Init and UpdateClothColliders. */
    method BuildRig()
      requires hasUmaData && ParentsResolve(bones, elements) && ListedLive(Snapshot())
      modifies this`warnings, this`bodies, this`rigidbodies, this`root
      modifies this`colliders, this`boxes, this`spheres, this`capsules, this`nextCollider
      modifies this`joints, this`cloth
      ensures var r := BuildBodies(old(Snapshot()), bones, elements, settings, debug);
              && Snapshot() == r.(warnings := r.warnings + ClothWarnings(renderers, debug && |r.capsules| + |r.spheres| > 10))
              && joints == old(joints) + BuildJoints(bones, r.bodies, elements)
              && cloth == ClothUpdate(old(cloth), renderers, ClothColliders(r.spheres, r.capsules))
      ensures AllLive(colliders, boxes + spheres + capsules)
    {
      ghost var start := Snapshot();
      FirstPass();
      ghost var r := Snapshot();
      BuildKeepsListed(start, bones, elements, settings, debug);
      assert AllLive(colliders, boxes + spheres + capsules) by {
        forall i | 0 <= i < |boxes + spheres + capsules| ensures (boxes + spheres + capsules)[i] in colliders {
          var id := (boxes + spheres + capsules)[i];
          assert id in boxes || id in spheres || id in capsules;
        }
      }
      SecondPass();
      UpdateClothColliders();
    }

    /** Init once the UMAData is found: BuildRig, then SetProperties with the
        start settings, not moving the avatar. */
    method Setup()
      requires hasUmaData && ParentsResolve(bones, elements) && ListedLive(Snapshot())
      modifies this`warnings, this`bodies, this`rigidbodies, this`root
      modifies this`colliders, this`boxes, this`spheres, this`capsules, this`nextCollider
      modifies this`joints, this`cloth, this`layers, this`animatorEnabled, this`offscreen, this`avatarPosition
      ensures var r := BuildBodies(old(Snapshot()), bones, elements, settings, debug);
              && rigidbodies == r.rigidbodies && root == r.root && nextCollider == r.nextCollider
              && boxes == r.boxes && spheres == r.spheres && capsules == r.capsules
              && warnings == r.warnings + ClothWarnings(renderers, debug && |r.capsules| + |r.spheres| > 10)
              && joints == old(joints) + BuildJoints(bones, r.bodies, elements)
              && cloth == ClothUpdate(old(cloth), renderers, ClothColliders(r.spheres, r.capsules))
              && bodies == TuneBodies(r.bodies, r.rigidbodies, settings.areKinematic, settings.useGravity)
              && colliders == TuneTriggers(r.colliders, r.boxes + r.spheres + r.capsules, settings.areTriggers)
              && layers == (if settings.setCollidersLayer
                            then SetLayers(old(layers), r.colliders, r.boxes + r.spheres + r.capsules, settings.collidersLayer)
                            else old(layers))
              && animatorEnabled == (if hasAnimator then settings.animatorEnabled else old(animatorEnabled))
              && offscreen == SetOffscreen(old(offscreen), renderers, settings.updateWhenOffScreen)
      ensures avatarPosition == old(avatarPosition)
    {
      ghost var start := Snapshot();
      ghost var l0, a0, o0 := layers, animatorEnabled, offscreen;
      BuildRig();
      ghost var r := BuildBodies(start, bones, elements, settings, debug);
      assert rigidbodies == r.rigidbodies && root == r.root && colliders == r.colliders;
      assert boxes + spheres + capsules == r.boxes + r.spheres + r.capsules;
      assert layers == l0 && animatorEnabled == a0 && offscreen == o0;
      SetProperties(settings.areTriggers, settings.areKinematic, settings.useGravity, settings.setCollidersLayer,
                    settings.collidersLayer, settings.animatorEnabled, false, settings.updateWhenOffScreen);
    }

    /** Init (also OnCharacterCreatedCallback): find the UMAData, then Setup.
        Nothing is cleared first, so a second Init appends to the lists
        again. */
    method Init()
      requires hasUmaData || umaDataComponent ==> ParentsResolve(bones, elements) && ListedLive(Snapshot())
      modifies this`hasUmaData, this`warnings, this`bodies, this`rigidbodies, this`root
      modifies this`colliders, this`boxes, this`spheres, this`capsules, this`nextCollider
      modifies this`joints, this`cloth, this`layers, this`animatorEnabled, this`offscreen, this`avatarPosition
      ensures hasUmaData == (old(hasUmaData) || umaDataComponent)
      ensures !hasUmaData ==>
                && Snapshot() == old(Snapshot()).(warnings := old(warnings) + if debug then [UmaDataMissing] else [])
                && joints == old(joints) && cloth == old(cloth) && layers == old(layers)
                && animatorEnabled == old(animatorEnabled) && offscreen == old(offscreen)
      ensures hasUmaData ==>
                var r := BuildBodies(old(Snapshot()), bones, elements, settings, debug);
                && rigidbodies == r.rigidbodies && root == r.root && nextCollider == r.nextCollider
                && boxes == r.boxes && spheres == r.spheres && capsules == r.capsules
                && warnings == r.warnings + ClothWarnings(renderers, debug && |r.capsules| + |r.spheres| > 10)
                && joints == old(joints) + BuildJoints(bones, r.bodies, elements)
                && cloth == ClothUpdate(old(cloth), renderers, ClothColliders(r.spheres, r.capsules))
                && bodies == TuneBodies(r.bodies, r.rigidbodies, settings.areKinematic, settings.useGravity)
                && colliders == TuneTriggers(r.colliders, r.boxes + r.spheres + r.capsules, settings.areTriggers)
                && layers == (if settings.setCollidersLayer
                              then SetLayers(old(layers), r.colliders, r.boxes + r.spheres + r.capsules, settings.collidersLayer)
                              else old(layers))
                && animatorEnabled == (if hasAnimator then settings.animatorEnabled else old(animatorEnabled))
                && offscreen == SetOffscreen(old(offscreen), renderers, settings.updateWhenOffScreen)
      ensures avatarPosition == old(avatarPosition)
    {
      if !hasUmaData {
        hasUmaData := umaDataComponent;
      }
      if !hasUmaData {
        if debug {
          warnings := warnings + [UmaDataMissing];
        }
        return;
      }
      Setup();
    }

    /** AddForce: only the root body is pushed, and only if there is one. */
    method AddForce(force: Vec3, position: Vec3, forceMode: int)
      modifies this`forces
      ensures forces == old(forces) + if root.Some? then [Push(root.value, force, position, forceMode)] else []
    {
      if root.Some? {
        forces := forces + [Push(root.value, force, position, forceMode)];
      }
    }

    /** OnCharacterBegunCallback(umaData): the test is on the argument, a
        present UMAData whose animator is described by dataAnimator (it has
        one) and dataAnimatorEnabled; its skeleton is the avatar's. */
    method OnCharacterBegun(dataAnimator: bool, dataAnimatorEnabled: bool)
      requires forall h :: h in transforms ==> transforms[h] in poses
      modifies this`cachedBones
      ensures cachedBones == if AnimatorDisabled(true, dataAnimator, dataAnimatorEnabled)
                             then Capture(skeleton, transforms, poses) else old(cachedBones)
    {
      if AnimatorDisabled(true, dataAnimator, dataAnimatorEnabled) {
        cachedBones := [];
        var i := 0;
        while i < |skeleton|
          invariant 0 <= i <= |skeleton|
          invariant cachedBones == Capture(skeleton[..i], transforms, poses)
        {
          assert skeleton[..i + 1][..i] == skeleton[..i];
          var hash := skeleton[i];
          if hash in transforms {
            var t := transforms[hash];
            cachedBones := cachedBones + [(t, poses[t])];
          }
          i := i + 1;
        }
        assert skeleton[..|skeleton|] == skeleton;
      }
    }

    /** OnCharacterUpdatedCallback(umaData): the test is on the argument;
        dataPresent is umaData != null, and dataAnimator and
        dataAnimatorEnabled describe its animator. */
    method OnCharacterUpdated(dataPresent: bool, dataAnimator: bool, dataAnimatorEnabled: bool)
      modifies this`poses, this`cachedBones
      ensures AnimatorDisabled(dataPresent, dataAnimator, dataAnimatorEnabled) ==>
                poses == Overwrite(old(poses), old(cachedBones)) && cachedBones == []
      ensures !AnimatorDisabled(dataPresent, dataAnimator, dataAnimatorEnabled) ==>
                poses == old(poses) && cachedBones == old(cachedBones)
    {
      if AnimatorDisabled(dataPresent, dataAnimator, dataAnimatorEnabled) {
        ghost var goal := Overwrite(poses, cachedBones);
        var i := 0;
        assert cachedBones[0..] == cachedBones;
        while i < |cachedBones|
          invariant 0 <= i <= |cachedBones|
          invariant goal == Overwrite(poses, cachedBones[i..])
        {
          assert cachedBones[i..][1..] == cachedBones[i + 1..];
          var cached := cachedBones[i];
          poses := poses[cached.0 := cached.1];
          i := i + 1;
        }
        cachedBones := [];
      }
    }
  }
}
