/** The damage accumulator of a UMA character (UmaDamageableAvatar): a hit on a
    named area raises a shared shader parameter, shifts DNA parameters inside a
    band around their baseline, pushes facial-expression values, and punches off
    head accessories; Heal puts the three value stores back to their baselines. */
module UmaDamage {
  import opened Common

  // ---------------------------------------------------------------------------
  // Configuration and engine-side values
  // ---------------------------------------------------------------------------

  /** (renderer name, material index, shader parameter id): areas resolving to
      the same key share one running value. */
  datatype MatKey = MatKey(renderer: string, matIndex: int, paramId: int)

  /** A live material: its instance id and the name of its shader. */
  datatype Material = Material(id: int, shaderName: string)

  /** A renderer of the character: its name and its material list. */
  datatype Renderer = Renderer(name: string, materials: seq<Material>)

  /** The target of Material.SetFloat: (material instance id, parameter id). */
  datatype ShaderSlot = ShaderSlot(material: int, paramId: int)

  /** The running value of one shared shader parameter (MaterialParam without
      its live Material reference, which the avatar keeps in boundMaterial). */
  datatype MaterialParam = MaterialParam(paramIndex: int, forceFactor: real, currentValue: real)

  /** A DNA asset: the hash of its DNA type and its parameter names. */
  datatype DnaAsset = DnaAsset(typeHash: int, names: seq<string>)

  /** DnaEffectConfig; MinForce and MaxForce are carried but never consulted. */
  datatype DnaEffectConfig = DnaEffectConfig(
    asset: DnaAsset, parameter: string,
    minForce: real, maxForce: real, forceFactor: real,
    minDelta: real, maxDelta: real)

  /** ExpressionEffectConfig; MinForce and MaxForce are never consulted. */
  datatype ExpressionEffectConfig = ExpressionEffectConfig(
    exprIndex: nat, minForce: real, maxForce: real, forceFactor: real,
    min: real, max: real)

  /** DamageableArea; paramId stands for Shader.PropertyToID(MaterialParam).
      A false exprConfigured or dnaConfigured stands for a null config array,
      whose sequence is then never read. */
  datatype DamageableArea = DamageableArea(
    areaId: string, renderer: string, shaderName: string, paramId: int,
    materialForceFactor: real,
    exprConfigured: bool, exprConfigs: seq<ExpressionEffectConfig>,
    dnaConfigured: bool, dnaConfigs: seq<DnaEffectConfig>)

  /** PunchOffStuff: a wardrobe slot group and the force that knocks it off. */
  datatype PunchOffStuff = PunchOffStuff(slotGroup: string, minForce: real)

  /** One DNA channel of the live character (UMADnaBase): names and values. */
  datatype DnaChannel = DnaChannel(names: seq<string>, values: seq<real>)

  /** Calls into the character, in the order they were made. */
  datatype AvatarEvent =
    | SpawnHat(slot: string, position: Vec3, normal: Vec3, force: real)
    | ClearSlot(slot: string)
    | BuildCharacter
    | MeshDirty

  // ---------------------------------------------------------------------------
  // Searches
  // ---------------------------------------------------------------------------

  /** The first element that satisfies `p`: the "foreach ... break" search
      that the component repeats over renderers, materials, areas and
      punch-off entries. */
  function FirstMatch<T>(s: seq<T>, p: T -> bool): (r: Option<nat>)
    ensures r.Some? ==> r.value < |s| && p(s[r.value])
    ensures r.Some? ==> forall j :: 0 <= j < r.value ==> !p(s[j])
    ensures r.None? <==> forall j :: 0 <= j < |s| ==> !p(s[j])
    decreases |s|
  {
    if s == [] then None
    else if p(s[0]) then Some(0)
    else match FirstMatch(s[1..], p)
      case None => None
      case Some(k) => Some(k + 1)
  }

  /** FindRenderer: the first renderer with the given name. */
  function FindRenderer(renderers: seq<Renderer>, name: string): (r: Option<nat>)
    ensures r.Some? ==> r.value < |renderers| && renderers[r.value].name == name
    ensures r.Some? ==> forall j :: 0 <= j < r.value ==> renderers[j].name != name
    ensures r.None? <==> forall j :: 0 <= j < |renderers| ==> renderers[j].name != name
  {
    FirstMatch(renderers, (x: Renderer) => x.name == name)
  }

  /** The first material whose shader has the given name. */
  function FindShaderMaterial(mats: seq<Material>, shaderName: string): (r: Option<nat>)
    ensures r.Some? ==> r.value < |mats| && mats[r.value].shaderName == shaderName
    ensures r.Some? ==> forall j :: 0 <= j < r.value ==> mats[j].shaderName != shaderName
    ensures r.None? <==> forall j :: 0 <= j < |mats| ==> mats[j].shaderName != shaderName
  {
    FirstMatch(mats, (m: Material) => m.shaderName == shaderName)
  }

  /** GetMaterial: on the first renderer named like the area, the first
      material whose shader has the area's shader name, with its index. */
  function GetMaterial(renderers: seq<Renderer>, area: DamageableArea): (r: Option<(Material, nat)>)
    ensures r.Some? ==> r.value.0.shaderName == area.shaderName
    ensures r.Some? ==>
      var ri := FindRenderer(renderers, area.renderer);
      ri.Some? && r.value.1 < |renderers[ri.value].materials|
      && renderers[ri.value].materials[r.value.1] == r.value.0
      && forall j :: 0 <= j < r.value.1 ==> renderers[ri.value].materials[j].shaderName != area.shaderName
    ensures r.None? <==>
      var ri := FindRenderer(renderers, area.renderer);
      ri.None? || forall j :: 0 <= j < |renderers[ri.value].materials| ==>
                    renderers[ri.value].materials[j].shaderName != area.shaderName
  {
    match FindRenderer(renderers, area.renderer)
    case None => None
    case Some(ri) =>
      var mats := renderers[ri].materials;
      match FindShaderMaterial(mats, area.shaderName)
      case None => None
      case Some(mi) => Some((mats[mi], mi))
  }

  /** findDnaInd: the index of a DNA parameter name, or -1. */
  function FindDnaInd(names: seq<string>, parameter: string): (r: int)
    ensures -1 <= r < |names|
    ensures r == -1 <==> parameter !in names
    ensures r >= 0 ==> names[r] == parameter && forall j :: 0 <= j < r ==> names[j] != parameter
    decreases |names|
  {
    if names == [] then -1
    else if names[0] == parameter then 0
    else
      var k := FindDnaInd(names[1..], parameter);
      if k == -1 then -1 else k + 1
  }

  /** The first configured area with the given id (the "foreach ... break"
      that UpdateDna and UpdateExpressions share). */
  function FirstArea(areas: seq<DamageableArea>, areaId: string): (r: Option<nat>)
    ensures r.Some? ==> r.value < |areas| && areas[r.value].areaId == areaId
    ensures r.Some? ==> forall j :: 0 <= j < r.value ==> areas[j].areaId != areaId
    ensures r.None? <==> forall j :: 0 <= j < |areas| ==> areas[j].areaId != areaId
  {
    FirstMatch(areas, (a: DamageableArea) => a.areaId == areaId)
  }

  /** The first punch-off entry for a slot group (the loop's "break"). */
  function FirstPunchOff(punchOff: seq<PunchOffStuff>, slotGroup: string): (r: Option<nat>)
    ensures r.Some? ==> r.value < |punchOff| && punchOff[r.value].slotGroup == slotGroup
    ensures r.Some? ==> forall j :: 0 <= j < r.value ==> punchOff[j].slotGroup != slotGroup
    ensures r.None? <==> forall j :: 0 <= j < |punchOff| ==> punchOff[j].slotGroup != slotGroup
  {
    FirstMatch(punchOff, (e: PunchOffStuff) => e.slotGroup == slotGroup)
  }

  /** IsHatToPutOff: only the first punch-off entry for the slot group is
      consulted, and it fires when its MinForce is at most the force. */
  function IsHatToPutOff(punchOff: seq<PunchOffStuff>, slotGroup: string, force: real): (r: bool)
    ensures r <==> exists i :: 0 <= i < |punchOff| && punchOff[i].slotGroup == slotGroup
                     && punchOff[i].minForce <= force
                     && forall j :: 0 <= j < i ==> punchOff[j].slotGroup != slotGroup
  {
    match FirstPunchOff(punchOff, slotGroup)
    case None => false
    case Some(i) => punchOff[i].minForce <= force
  }


  // ---------------------------------------------------------------------------
  // Material step
  // ---------------------------------------------------------------------------

  /** One hit on a running value: clamp01(current + force * ForceFactor). */
  function MaterialHit(mp: MaterialParam, force: real): (r: MaterialParam)
    ensures 0.0 <= r.currentValue <= 1.0
    ensures r.paramIndex == mp.paramIndex && r.forceFactor == mp.forceFactor
    ensures 0.0 <= mp.currentValue + force * mp.forceFactor <= 1.0 ==>
              r.currentValue == mp.currentValue + force * mp.forceFactor
  {
    mp.(currentValue := Clamp01(mp.currentValue + force * mp.forceFactor))
  }

  /** The running-value table after UpdateMaterials(areaId, force). */
  function MaterialsAfterHit(areaMatMap: map<string, MatKey>, md: map<MatKey, MaterialParam>,
                             areaId: string, force: real): (r: map<MatKey, MaterialParam>)
    ensures r.Keys == md.Keys
    ensures forall k :: k in md && (areaId !in areaMatMap || areaMatMap[areaId] != k) ==> r[k] == md[k]
    ensures areaId in areaMatMap && areaMatMap[areaId] in md ==>
              var k := areaMatMap[areaId]; r[k] == MaterialHit(md[k], force)
  {
    if areaId in areaMatMap && areaMatMap[areaId] in md then
      var k := areaMatMap[areaId];
      md[k := MaterialHit(md[k], force)]
    else md
  }

  /** A hit never takes a running value out of [0, 1], and with a
      non-negative force and factor it never lowers it. */
  lemma MaterialHitMonotone(mp: MaterialParam, force: real)
    requires 0.0 <= mp.currentValue <= 1.0
    requires 0.0 <= force && 0.0 <= mp.forceFactor
    ensures mp.currentValue <= MaterialHit(mp, force).currentValue <= 1.0
  {
    assert 0.0 <= force * mp.forceFactor;
  }

  /** Two areas bound to one key accumulate into the same value: a hit on the
      first and then on the second is two hits on the one shared value, and
      nothing else in the table changes. */
  lemma {:induction false} SharedKeyAccumulates(areaMatMap: map<string, MatKey>, md: map<MatKey, MaterialParam>,
                                                a: string, b: string, fa: real, fb: real)
    requires a in areaMatMap && b in areaMatMap && areaMatMap[a] == areaMatMap[b]
    requires areaMatMap[a] in md
    ensures var k := areaMatMap[a];
            var after := MaterialsAfterHit(areaMatMap, MaterialsAfterHit(areaMatMap, md, a, fa), b, fb);
            after == md[k := MaterialHit(MaterialHit(md[k], fa), fb)]
  {
    var k := areaMatMap[a];
    var once := MaterialsAfterHit(areaMatMap, md, a, fa);
    assert once == md[k := MaterialHit(md[k], fa)];
    assert MaterialsAfterHit(areaMatMap, once, b, fb) == once[k := MaterialHit(once[k], fb)];
  }

  /** Two areas bound to one key, hit with non-negative forces: the two hits
      are one hit with the summed force, so the shared value saturates at 1
      exactly when the summed increment reaches 1 - current. */
  lemma SharedKeySaturates(areaMatMap: map<string, MatKey>, md: map<MatKey, MaterialParam>,
                           a: string, b: string, fa: real, fb: real)
    requires a in areaMatMap && b in areaMatMap && areaMatMap[a] == areaMatMap[b]
    requires areaMatMap[a] in md
    requires 0.0 <= md[areaMatMap[a]].currentValue <= 1.0 && 0.0 <= md[areaMatMap[a]].forceFactor
    requires 0.0 <= fa && 0.0 <= fb
    ensures var k := areaMatMap[a];
            var after := MaterialsAfterHit(areaMatMap, MaterialsAfterHit(areaMatMap, md, a, fa), b, fb);
            && after == md[k := MaterialHit(md[k], fa + fb)]
            && (after[k].currentValue == 1.0 <==> (fa + fb) * md[k].forceFactor >= 1.0 - md[k].currentValue)
  {
    var k := areaMatMap[a];
    var mp := md[k];
    SharedKeyAccumulates(areaMatMap, md, a, b, fa, fb);
    var f := mp.forceFactor;
    assert (fa + fb) * f == fa * f + fb * f;
    assert 0.0 <= fa * f && 0.0 <= fb * f;
    assert MaterialHit(MaterialHit(mp, fa), fb) == MaterialHit(mp, fa + fb);
  }

  // ---------------------------------------------------------------------------
  // Reading the material bindings from a freshly created character
  // ---------------------------------------------------------------------------

  /** The three tables ReadMaterialDataFromAvatar fills. */
  datatype Bindings = Bindings(
    areaMatMap: map<string, MatKey>,
    materialData: map<MatKey, MaterialParam>,
    boundMaterial: map<MatKey, int>)

  /** Every area maps to a key that has a running value and a live material. */
  ghost predicate WellBound(b: Bindings) {
    && b.materialData.Keys == b.boundMaterial.Keys
    && forall a :: a in b.areaMatMap ==> b.areaMatMap[a] in b.materialData
  }

  /** The key an area resolves to, if its material is found. */
  function AreaKey(renderers: seq<Renderer>, area: DamageableArea): Option<MatKey> {
    match GetMaterial(renderers, area)
    case None => None
    case Some((_, mi)) => Some(MatKey(area.renderer, mi, area.paramId))
  }

  /** One iteration of ReadMaterialDataFromAvatar; None is the exception
      Dictionary.Add throws for an AreaId already present. */
  function ReadArea(b: Bindings, renderers: seq<Renderer>, area: DamageableArea): (r: Option<Bindings>)
  {
    match GetMaterial(renderers, area)
    case None => Some(b)
    case Some((mat, mi)) =>
      if area.areaId in b.areaMatMap then None
      else
        var k := MatKey(area.renderer, mi, area.paramId);
        if k in b.materialData then Some(b.(areaMatMap := b.areaMatMap[area.areaId := k]))
        else Some(Bindings(b.areaMatMap[area.areaId := k],
                           b.materialData[k := MaterialParam(area.paramId, area.materialForceFactor, 0.0)],
                           b.boundMaterial[k := mat.id]))
  }

  /** ReadMaterialDataFromAvatar over the remaining areas. */
  function ReadAreas(b: Bindings, renderers: seq<Renderer>, areas: seq<DamageableArea>): Option<Bindings>
    decreases |areas|
  {
    if areas == [] then Some(b)
    else match ReadArea(b, renderers, areas[0])
      case None => None
      case Some(b') => ReadAreas(b', renderers, areas[1..])
  }

  /** The tables ReadMaterialDataFromAvatar leaves behind: all the areas on
      success, or those before the area whose Add throws. */
  function ReadUntilFail(b: Bindings, renderers: seq<Renderer>, areas: seq<DamageableArea>): Bindings
    decreases |areas|
  {
    if areas == [] then b
    else match ReadArea(b, renderers, areas[0])
      case None => b
      case Some(b') => ReadUntilFail(b', renderers, areas[1..])
  }

  /** Empty tables, as after the two Clear calls. */
  function NoBindings(): Bindings {
    Bindings(map[], map[], map[])
  }

  /** The area's material is found, so it takes part in the bindings. */
  predicate Resolves(renderers: seq<Renderer>, area: DamageableArea) {
    AreaKey(renderers, area).Some?
  }

  /** Two resolvable areas never share an AreaId. */
  ghost predicate DistinctResolvedIds(renderers: seq<Renderer>, areas: seq<DamageableArea>) {
    forall i, j :: 0 <= i < j < |areas| && Resolves(renderers, areas[i]) && Resolves(renderers, areas[j])
      ==> areas[i].areaId != areas[j].areaId
  }

  /** No resolvable area uses an AreaId that is already bound. */
  ghost predicate UnboundIds(b: Bindings, renderers: seq<Renderer>, areas: seq<DamageableArea>) {
    forall i :: 0 <= i < |areas| && Resolves(renderers, areas[i]) ==> areas[i].areaId !in b.areaMatMap
  }

  /** What one iteration of the read does to the AreaId table. */
  lemma ReadAreaShape(b: Bindings, renderers: seq<Renderer>, area: DamageableArea)
    ensures !Resolves(renderers, area) ==> ReadArea(b, renderers, area) == Some(b)
    ensures Resolves(renderers, area) ==>
              (ReadArea(b, renderers, area).None? <==> area.areaId in b.areaMatMap)
    ensures Resolves(renderers, area) && ReadArea(b, renderers, area).Some? ==>
              ReadArea(b, renderers, area).value.areaMatMap
                == b.areaMatMap[area.areaId := AreaKey(renderers, area).value]
  {
  }

  lemma SplitDistinct(renderers: seq<Renderer>, areas: seq<DamageableArea>)
    requires areas != []
    ensures DistinctResolvedIds(renderers, areas) <==>
              DistinctResolvedIds(renderers, areas[1..])
              && (Resolves(renderers, areas[0]) ==>
                    forall j :: 0 <= j < |areas[1..]| && Resolves(renderers, areas[1..][j]) ==>
                      areas[1..][j].areaId != areas[0].areaId)
  {
    var rest := areas[1..];
    assert forall i :: 1 <= i < |areas| ==> areas[i] == rest[i - 1];
    if DistinctResolvedIds(renderers, rest)
       && (Resolves(renderers, areas[0]) ==>
             forall j :: 0 <= j < |rest| && Resolves(renderers, rest[j]) ==> rest[j].areaId != areas[0].areaId) {
      forall i, j | 0 <= i < j < |areas| && Resolves(renderers, areas[i]) && Resolves(renderers, areas[j])
        ensures areas[i].areaId != areas[j].areaId
      {
        if i > 0 {
          assert rest[i - 1] == areas[i] && rest[j - 1] == areas[j];
        } else {
          assert rest[j - 1] == areas[j];
        }
      }
    }
  }

  lemma SplitUnbound(b: Bindings, renderers: seq<Renderer>, areas: seq<DamageableArea>)
    requires areas != []
    ensures UnboundIds(b, renderers, areas) <==>
              UnboundIds(b, renderers, areas[1..])
              && (Resolves(renderers, areas[0]) ==> areas[0].areaId !in b.areaMatMap)
  {
    assert forall i :: 1 <= i < |areas| ==> areas[i] == areas[1..][i - 1];
  }

  /** Reading succeeds exactly when no resolvable area repeats an AreaId that
      is already bound or that an earlier resolvable area used. */
  lemma {:induction false} ReadAreasSucceeds(b: Bindings, renderers: seq<Renderer>, areas: seq<DamageableArea>)
    ensures ReadAreas(b, renderers, areas).Some? <==>
            DistinctResolvedIds(renderers, areas) && UnboundIds(b, renderers, areas)
    decreases |areas|
  {
    if areas != [] {
      var a := areas[0];
      var rest := areas[1..];
      ReadAreaShape(b, renderers, a);
      SplitDistinct(renderers, areas);
      SplitUnbound(b, renderers, areas);
      var step := ReadArea(b, renderers, a);
      if step.Some? {
        var b' := step.value;
        ReadAreasSucceeds(b', renderers, rest);
      }
    }
  }

  /** One successful iteration of the read: tables stay well bound, old
      entries stay, and a resolvable area binds its id to its key, which gets a
      fresh running value only if it had none. */
  lemma ReadAreaStep(b: Bindings, renderers: seq<Renderer>, area: DamageableArea)
    requires WellBound(b)
    requires ReadArea(b, renderers, area).Some?
    ensures var r := ReadArea(b, renderers, area).value;
            && WellBound(r)
            && (forall k :: k in b.materialData ==> k in r.materialData && r.materialData[k] == b.materialData[k])
            && (forall a :: a in b.areaMatMap ==> a in r.areaMatMap && r.areaMatMap[a] == b.areaMatMap[a])
            && (forall k :: k in r.materialData && k !in b.materialData ==> Some(k) == AreaKey(renderers, area))
            && (Resolves(renderers, area) ==>
                  var k := AreaKey(renderers, area).value;
                  && r.areaMatMap[area.areaId] == k && k in r.materialData
                  && (k !in b.materialData ==>
                        r.materialData[k] == MaterialParam(area.paramId, area.materialForceFactor, 0.0)))
  {
  }

  /** Reading keeps every table well bound and never changes an entry that
      was already there: a later area with an existing key keeps the first
      area's ForceFactor and material. */
  lemma {:induction false} ReadAreasKeeps(b: Bindings, renderers: seq<Renderer>, areas: seq<DamageableArea>)
    requires WellBound(b)
    requires ReadAreas(b, renderers, areas).Some?
    ensures var r := ReadAreas(b, renderers, areas).value;
            && WellBound(r)
            && (forall k :: k in b.materialData ==> k in r.materialData && r.materialData[k] == b.materialData[k])
            && (forall k :: k in b.boundMaterial ==> k in r.boundMaterial && r.boundMaterial[k] == b.boundMaterial[k])
            && (forall a :: a in b.areaMatMap ==> a in r.areaMatMap && r.areaMatMap[a] == b.areaMatMap[a])
    decreases |areas|
  {
    if areas != [] {
      var b' := ReadArea(b, renderers, areas[0]).value;
      ReadAreaStep(b, renderers, areas[0]);
      ReadAreasKeeps(b', renderers, areas[1..]);
    }
  }

  /** One successful iteration keeps the tables well bound and adds at most
      the area's own key to the running values. */
  lemma ReadAreaNewKey(b: Bindings, renderers: seq<Renderer>, area: DamageableArea)
    requires WellBound(b)
    requires ReadArea(b, renderers, area).Some?
    ensures WellBound(ReadArea(b, renderers, area).value)
    ensures forall k :: k in ReadArea(b, renderers, area).value.materialData && k !in b.materialData ==>
              Some(k) == AreaKey(renderers, area)
  {
  }

  /** A read that gets past its first area goes on from that area's tables. */
  lemma ReadAreasCons(b: Bindings, renderers: seq<Renderer>, areas: seq<DamageableArea>)
    requires areas != [] && ReadArea(b, renderers, areas[0]).Some?
    ensures ReadAreas(b, renderers, areas) == ReadAreas(ReadArea(b, renderers, areas[0]).value, renderers, areas[1..])
  {
  }

  /** The first area of a successful read is bound to its own key, and a
      key it is the first to use starts at 0 with its ForceFactor. */
  lemma ReadAreasBindsHead(b: Bindings, renderers: seq<Renderer>, areas: seq<DamageableArea>)
    requires WellBound(b)
    requires ReadAreas(b, renderers, areas).Some?
    requires 0 < |areas| && Resolves(renderers, areas[0])
    ensures var r := ReadAreas(b, renderers, areas).value;
            var k := AreaKey(renderers, areas[0]).value;
            && areas[0].areaId in r.areaMatMap && r.areaMatMap[areas[0].areaId] == k
            && k in r.materialData
            && (k !in b.materialData ==> r.materialData[k] == MaterialParam(areas[0].paramId, areas[0].materialForceFactor, 0.0))
  {
    var b' := ReadArea(b, renderers, areas[0]).value;
    ReadAreasCons(b, renderers, areas);
    ReadAreaStep(b, renderers, areas[0]);
    ReadAreasKeeps(b', renderers, areas[1..]);
  }

  /** A key that neither the old tables nor the first i areas produce is
      still unseen after the first area, over the remaining areas. */
  lemma ReadAreasBindsUnseen(b: Bindings, renderers: seq<Renderer>, areas: seq<DamageableArea>, i: nat, k: MatKey)
    requires WellBound(b)
    requires 0 < i <= |areas| && ReadArea(b, renderers, areas[0]).Some?
    requires k !in b.materialData && forall j :: 0 <= j < i ==> AreaKey(renderers, areas[j]) != Some(k)
    ensures k !in ReadArea(b, renderers, areas[0]).value.materialData
    ensures forall j :: 0 <= j < i - 1 ==> AreaKey(renderers, areas[1..][j]) != Some(k)
  {
    ReadAreaNewKey(b, renderers, areas[0]);
    assert AreaKey(renderers, areas[0]) != Some(k);
    assert forall j :: 0 <= j < i - 1 ==> areas[1..][j] == areas[j + 1];
  }

  /** After a successful read, every resolvable area is bound to its own key,
      and that key's running value starts at 0 with the ForceFactor and
      parameter of the first area that resolved to it. */
  lemma {:induction false} ReadAreasBinds(b: Bindings, renderers: seq<Renderer>, areas: seq<DamageableArea>, i: nat)
    requires WellBound(b)
    requires ReadAreas(b, renderers, areas).Some?
    requires i < |areas| && Resolves(renderers, areas[i])
    ensures var r := ReadAreas(b, renderers, areas).value;
            var k := AreaKey(renderers, areas[i]).value;
            && areas[i].areaId in r.areaMatMap && r.areaMatMap[areas[i].areaId] == k
            && k in r.materialData
            && ((k !in b.materialData && forall j :: 0 <= j < i ==> AreaKey(renderers, areas[j]) != Some(k)) ==>
                  r.materialData[k] == MaterialParam(areas[i].paramId, areas[i].materialForceFactor, 0.0))
    decreases |areas|
  {
    if i == 0 {
      ReadAreasBindsHead(b, renderers, areas);
    } else {
      var b' := ReadArea(b, renderers, areas[0]).value;
      var rest := areas[1..];
      ReadAreasCons(b, renderers, areas);
      ReadAreaNewKey(b, renderers, areas[0]);
      var k := AreaKey(renderers, areas[i]).value;
      assert rest[i - 1] == areas[i];
      ReadAreasBinds(b', renderers, rest, i - 1);
      var r := ReadAreas(b', renderers, rest).value;
      assert ReadAreas(b, renderers, areas).value == r;
      assert areas[i].areaId in r.areaMatMap && r.areaMatMap[areas[i].areaId] == k && k in r.materialData;
      if k !in b.materialData && forall j :: 0 <= j < i ==> AreaKey(renderers, areas[j]) != Some(k) {
        ReadAreasBindsUnseen(b, renderers, areas, i, k);
      }
    }
  }

  /** On success the tables left behind are the read result, and on failure
      they are still well bound. */
  lemma {:induction false} ReadUntilFailAgrees(b: Bindings, renderers: seq<Renderer>, areas: seq<DamageableArea>)
    requires WellBound(b)
    ensures ReadAreas(b, renderers, areas).Some? ==> ReadUntilFail(b, renderers, areas) == ReadAreas(b, renderers, areas).value
    ensures WellBound(ReadUntilFail(b, renderers, areas))
    decreases |areas|
  {
    if areas != [] {
      match ReadArea(b, renderers, areas[0])
      case None =>
      case Some(b') =>
        ReadAreaStep(b, renderers, areas[0]);
        ReadUntilFailAgrees(b', renderers, areas[1..]);
    }
  }

  /** An area whose material is not found gets no binding of its own: its id
      is bound only if some resolvable area carries the same id. */
  lemma {:induction false} ReadAreasSkipsUnresolved(b: Bindings, renderers: seq<Renderer>, areas: seq<DamageableArea>, id: string)
    requires ReadAreas(b, renderers, areas).Some?
    requires id !in b.areaMatMap
    requires forall i :: 0 <= i < |areas| && areas[i].areaId == id ==> !Resolves(renderers, areas[i])
    ensures id !in ReadAreas(b, renderers, areas).value.areaMatMap
    decreases |areas|
  {
    if areas != [] {
      var b' := ReadArea(b, renderers, areas[0]).value;
      assert forall i :: 1 <= i < |areas| ==> areas[1..][i - 1] == areas[i];
      ReadAreasSkipsUnresolved(b', renderers, areas[1..], id);
    }
  }

  /** Every running value starts at zero after a read from empty tables. */
  lemma {:induction false} ReadAreasStartAtZero(b: Bindings, renderers: seq<Renderer>, areas: seq<DamageableArea>)
    requires ReadAreas(b, renderers, areas).Some?
    requires forall k :: k in b.materialData ==> b.materialData[k].currentValue == 0.0
    ensures var r := ReadAreas(b, renderers, areas).value;
            forall k :: k in r.materialData ==> r.materialData[k].currentValue == 0.0
    decreases |areas|
  {
    if areas != [] {
      ReadAreasStartAtZero(ReadArea(b, renderers, areas[0]).value, renderers, areas[1..]);
    }
  }

  // ---------------------------------------------------------------------------
  // DNA step
  // ---------------------------------------------------------------------------

  /** The new delta of one DNA parameter: the old delta pushed by
      force * ForceFactor and clamped to MinMaxDelta. */
  function DnaStep(oldDelta: real, force: real, c: DnaEffectConfig): (d: real)
    ensures c.minDelta <= c.maxDelta ==> c.minDelta <= d <= c.maxDelta
    ensures c.minDelta <= oldDelta + force * c.forceFactor <= c.maxDelta ==>
              d == oldDelta + force * c.forceFactor
  {
    Clamp(oldDelta + force * c.forceFactor, c.minDelta, c.maxDelta)
  }

  /** The DNA the avatar drives: the live channels, the deltas, and whether
      UpdateDna has written a parameter. */
  datatype DnaState = DnaState(dna: map<int, DnaChannel>, deltas: map<int, seq<real>>, changed: bool)

  /** The baseline and delta tables cover the same DNA types with lists of
      equal length, and a type with a non-empty list has a channel with at
      least that many values. */
  ghost predicate DnaTables(init: map<int, seq<real>>, deltas: map<int, seq<real>>, dna: map<int, DnaChannel>) {
    && init.Keys == deltas.Keys
    && forall h :: h in init ==>
         |deltas[h]| == |init[h]| && (|init[h]| > 0 ==> h in dna && |init[h]| <= |dna[h].values|)
  }

  /** Every driven DNA value is its baseline plus its delta. */
  ghost predicate Applied(init: map<int, seq<real>>, deltas: map<int, seq<real>>, dna: map<int, DnaChannel>)
    requires DnaTables(init, deltas, dna)
  {
    forall h, i :: h in init && 0 <= i < |init[h]| ==> dna[h].values[i] == init[h][i] + deltas[h][i]
  }

  /** UpdateDna can run a config: its channel exists, and when it names a
      known parameter, that parameter has a baseline and a delta. */
  predicate DnaConfigReady(init: map<int, seq<real>>, dna: map<int, DnaChannel>, c: DnaEffectConfig) {
    var h := c.asset.typeHash;
    && h in dna
    && (FindDnaInd(dna[h].names, c.parameter) >= 0 ==>
          h in init && FindDnaInd(dna[h].names, c.parameter) < |init[h]|)
  }

  /** One config of UpdateDna: a known parameter gets the clamped delta and
      the value baseline + delta; an unknown one is skipped. */
  function ApplyDnaConfig(st: DnaState, init: map<int, seq<real>>, c: DnaEffectConfig, force: real): DnaState {
    var h := c.asset.typeHash;
    if h in st.dna && h in st.deltas && h in init then
      var ch := st.dna[h];
      var ind := FindDnaInd(ch.names, c.parameter);
      if 0 <= ind < |st.deltas[h]| && ind < |init[h]| && ind < |ch.values| then
        var nd := DnaStep(st.deltas[h][ind], force, c);
        DnaState(st.dna[h := ch.(values := ch.values[ind := init[h][ind] + nd])],
                 st.deltas[h := st.deltas[h][ind := nd]],
                 true)
      else st
    else st
  }

  /** The configs of the matched area, in order. */
  function ApplyDnaConfigs(st: DnaState, init: map<int, seq<real>>, cfgs: seq<DnaEffectConfig>, force: real): DnaState
    decreases |cfgs|
  {
    if cfgs == [] then st else ApplyDnaConfigs(ApplyDnaConfig(st, init, cfgs[0], force), init, cfgs[1..], force)
  }

  /** UpdateDna(areaId, force) from a state whose changed flag is false: only
      the first area with the id is applied. */
  function DnaAfterHit(areas: seq<DamageableArea>, init: map<int, seq<real>>, st: DnaState,
                       areaId: string, force: real): DnaState {
    match FirstArea(areas, areaId)
    case None => st
    case Some(i) => if areas[i].dnaConfigured then ApplyDnaConfigs(st, init, areas[i].dnaConfigs, force) else st
  }

  /** The channels' names, lengths and key set are never changed by a hit. */
  ghost predicate SameShape(a: map<int, DnaChannel>, b: map<int, DnaChannel>) {
    && a.Keys == b.Keys
    && forall h :: h in a ==> a[h].names == b[h].names && |a[h].values| == |b[h].values|
  }

  lemma ApplyDnaConfigKeeps(st: DnaState, init: map<int, seq<real>>, c: DnaEffectConfig, force: real)
    requires DnaTables(init, st.deltas, st.dna) && Applied(init, st.deltas, st.dna)
    requires DnaConfigReady(init, st.dna, c)
    ensures var r := ApplyDnaConfig(st, init, c, force);
            && DnaTables(init, r.deltas, r.dna) && Applied(init, r.deltas, r.dna)
            && SameShape(st.dna, r.dna)
            && (r.changed <==> st.changed || (c.asset.typeHash in st.dna && FindDnaInd(st.dna[c.asset.typeHash].names, c.parameter) >= 0))
  {
    var r := ApplyDnaConfig(st, init, c, force);
    var h := c.asset.typeHash;
    if h in st.dna && h in st.deltas && h in init {
      var ind := FindDnaInd(st.dna[h].names, c.parameter);
      if 0 <= ind < |st.deltas[h]| && ind < |init[h]| && ind < |st.dna[h].values| {
        forall h', i | h' in init && 0 <= i < |init[h']|
          ensures r.dna[h'].values[i] == init[h'][i] + r.deltas[h'][i]
        {
          if h' == h && i == ind {
          } else if h' == h {
            assert r.dna[h].values[i] == st.dna[h].values[i];
            assert r.deltas[h][i] == st.deltas[h][i];
          }
        }
      }
    }
  }

  /** A hit keeps every driven DNA value equal to baseline plus delta, keeps
      the channels' shape, and reports a change exactly when some config of
      the run named a parameter its channel has. */
  /** One step of the loop over an area's DNA configs. */
  lemma DnaLoopStep(st0: DnaState, cur: DnaState, init: map<int, seq<real>>, cfgs: seq<DnaEffectConfig>, j: nat, force: real)
    requires j < |cfgs|
    requires DnaTables(init, cur.deltas, cur.dna) && Applied(init, cur.deltas, cur.dna)
    requires forall c :: c in cfgs ==> DnaConfigReady(init, cur.dna, c)
    requires ApplyDnaConfigs(st0, init, cfgs, force) == ApplyDnaConfigs(cur, init, cfgs[j..], force)
    ensures var nxt := ApplyDnaConfig(cur, init, cfgs[j], force);
            && DnaTables(init, nxt.deltas, nxt.dna) && Applied(init, nxt.deltas, nxt.dna)
            && (forall c :: c in cfgs ==> DnaConfigReady(init, nxt.dna, c))
            && ApplyDnaConfigs(st0, init, cfgs, force) == ApplyDnaConfigs(nxt, init, cfgs[j + 1..], force)
  {
    var nxt := ApplyDnaConfig(cur, init, cfgs[j], force);
    ApplyDnaConfigKeeps(cur, init, cfgs[j], force);
    assert cfgs[j..][0] == cfgs[j] && cfgs[j..][1..] == cfgs[j + 1..];
    forall c | c in cfgs ensures DnaConfigReady(init, nxt.dna, c) {
      assert nxt.dna[c.asset.typeHash].names == cur.dna[c.asset.typeHash].names;
    }
  }

  lemma {:induction false} ApplyDnaConfigsKeeps(st: DnaState, init: map<int, seq<real>>, cfgs: seq<DnaEffectConfig>, force: real)
    requires DnaTables(init, st.deltas, st.dna) && Applied(init, st.deltas, st.dna)
    requires forall c :: c in cfgs ==> DnaConfigReady(init, st.dna, c)
    ensures var r := ApplyDnaConfigs(st, init, cfgs, force);
            && DnaTables(init, r.deltas, r.dna) && Applied(init, r.deltas, r.dna)
            && SameShape(st.dna, r.dna)
            && (r.changed <==> st.changed || exists i :: 0 <= i < |cfgs| && cfgs[i].asset.typeHash in st.dna
                                                && FindDnaInd(st.dna[cfgs[i].asset.typeHash].names, cfgs[i].parameter) >= 0)
    decreases |cfgs|
  {
    if cfgs != [] {
      var st' := ApplyDnaConfig(st, init, cfgs[0], force);
      ApplyDnaConfigKeeps(st, init, cfgs[0], force);
      forall c | c in cfgs[1..] ensures DnaConfigReady(init, st'.dna, c) {
        assert c in cfgs by { assert cfgs == [cfgs[0]] + cfgs[1..]; }
        assert st'.dna[c.asset.typeHash].names == st.dna[c.asset.typeHash].names;
      }
      ApplyDnaConfigsKeeps(st', init, cfgs[1..], force);
      assert forall i :: 1 <= i < |cfgs| ==> cfgs[1..][i - 1] == cfgs[i];
    }
  }

  /** Every delta a hit writes lies in its config's band when the band is
      well formed and the delta was in it before (or the config is the
      only writer). */
  lemma {:induction false} ApplyDnaConfigsInBand(st: DnaState, init: map<int, seq<real>>, cfgs: seq<DnaEffectConfig>,
                                                 force: real, h: int, i: nat, lo: real, hi: real)
    requires forall c :: c in cfgs ==> lo <= c.minDelta <= c.maxDelta <= hi
    requires h in st.deltas && i < |st.deltas[h]| && lo <= st.deltas[h][i] <= hi
    ensures var r := ApplyDnaConfigs(st, init, cfgs, force);
            h in r.deltas && i < |r.deltas[h]| && lo <= r.deltas[h][i] <= hi
    decreases |cfgs|
  {
    if cfgs != [] {
      ApplyDnaConfigsInBand(ApplyDnaConfig(st, init, cfgs[0], force), init, cfgs[1..], force, h, i, lo, hi);
    }
  }

  // ---------------------------------------------------------------------------
  // Expression step
  // ---------------------------------------------------------------------------

  /** One expression value after a hit: clamp(old + force * ForceFactor, MinMax). */
  function ExprStep(v: real, force: real, c: ExpressionEffectConfig): (r: real)
    ensures c.min <= c.max ==> c.min <= r <= c.max
    ensures c.min <= v + force * c.forceFactor <= c.max ==> r == v + force * c.forceFactor
  {
    Clamp(v + force * c.forceFactor, c.min, c.max)
  }

  /** The configs of the matched area applied in order to the value array. */
  function ApplyExprConfigs(vals: seq<real>, cfgs: seq<ExpressionEffectConfig>, force: real): (r: seq<real>)
    ensures |r| == |vals|
    decreases |cfgs|
  {
    if cfgs == [] then vals
    else
      var c := cfgs[0];
      ApplyExprConfigs(if c.exprIndex < |vals| then vals[c.exprIndex := ExprStep(vals[c.exprIndex], force, c)] else vals,
                       cfgs[1..], force)
  }

  /** Only configured indices change, and the length never does. */
  lemma {:induction false} ApplyExprConfigsFrame(vals: seq<real>, cfgs: seq<ExpressionEffectConfig>, force: real)
    ensures var r := ApplyExprConfigs(vals, cfgs, force);
            && |r| == |vals|
            && forall i :: 0 <= i < |vals| && (forall j :: 0 <= j < |cfgs| ==> cfgs[j].exprIndex != i) ==> r[i] == vals[i]
    decreases |cfgs|
  {
    if cfgs != [] {
      var c := cfgs[0];
      var v' := if c.exprIndex < |vals| then vals[c.exprIndex := ExprStep(vals[c.exprIndex], force, c)] else vals;
      ApplyExprConfigsFrame(v', cfgs[1..], force);
      assert forall j :: 1 <= j < |cfgs| ==> cfgs[1..][j - 1] == cfgs[j];
    }
  }

  /** The value at an index ends inside the MinMax band of the last config
      that targets it. */
  lemma {:induction false} ApplyExprConfigsLastInBand(vals: seq<real>, cfgs: seq<ExpressionEffectConfig>, force: real, j: nat)
    requires j < |cfgs| && cfgs[j].exprIndex < |vals| && cfgs[j].min <= cfgs[j].max
    requires forall k :: j < k < |cfgs| ==> cfgs[k].exprIndex != cfgs[j].exprIndex
    ensures var r := ApplyExprConfigs(vals, cfgs, force);
            cfgs[j].min <= r[cfgs[j].exprIndex] <= cfgs[j].max
    decreases |cfgs|
  {
    var c := cfgs[0];
    var v' := if c.exprIndex < |vals| then vals[c.exprIndex := ExprStep(vals[c.exprIndex], force, c)] else vals;
    assert forall k :: 1 <= k < |cfgs| ==> cfgs[1..][k - 1] == cfgs[k];
    if j == 0 {
      ApplyExprConfigsFrame(v', cfgs[1..], force);
    } else {
      ApplyExprConfigsLastInBand(v', cfgs[1..], force, j - 1);
    }
  }

  // ---------------------------------------------------------------------------
  // Re-binding the materials of a rebuilt character
  // ---------------------------------------------------------------------------

  /** What HandleCharacterUpdate writes for one area: the area's bound key
      and the material now found for it, if both exist. */
  function RebindWrite(renderers: seq<Renderer>, areaMatMap: map<string, MatKey>,
                       md: map<MatKey, MaterialParam>, area: DamageableArea): (r: Option<(MatKey, Material)>)
    ensures r.Some? ==> r.value.0 in md
  {
    match GetMaterial(renderers, area)
    case None => None
    case Some((mat, _)) =>
      if area.areaId in areaMatMap && areaMatMap[area.areaId] in md then Some((areaMatMap[area.areaId], mat))
      else None
  }

  /** The writes of one pass over the areas, in order. */
  function RebindWrites(renderers: seq<Renderer>, areaMatMap: map<string, MatKey>,
                        md: map<MatKey, MaterialParam>, areas: seq<DamageableArea>): (r: seq<(MatKey, Material)>)
    ensures forall i :: 0 <= i < |r| ==> r[i].0 in md
    decreases |areas|
  {
    if areas == [] then []
    else
      var last := areas[|areas| - 1];
      RebindWrites(renderers, areaMatMap, md, areas[..|areas| - 1])
        + match RebindWrite(renderers, areaMatMap, md, last)
          case None => []
          case Some(w) => [w]
  }

  /** The material each rebound key is attached to. */
  function BoundWrites(ws: seq<(MatKey, Material)>): (r: seq<(MatKey, int)>)
    ensures |r| == |ws| && forall i :: 0 <= i < |ws| ==> r[i] == (ws[i].0, ws[i].1.id)
  {
    seq(|ws|, i requires 0 <= i < |ws| => (ws[i].0, ws[i].1.id))
  }

  /** The SetFloat calls of a pass: each rebound key's running value is
      written to its parameter on the new material. */
  function ShaderWrites(md: map<MatKey, MaterialParam>, ws: seq<(MatKey, Material)>): (r: seq<(ShaderSlot, real)>)
    requires forall i :: 0 <= i < |ws| ==> ws[i].0 in md
    ensures |r| == |ws|
    ensures forall i :: 0 <= i < |ws| ==>
              r[i] == (ShaderSlot(ws[i].1.id, md[ws[i].0].paramIndex), md[ws[i].0].currentValue)
  {
    seq(|ws|, i requires 0 <= i < |ws| => (ShaderSlot(ws[i].1.id, md[ws[i].0].paramIndex), md[ws[i].0].currentValue))
  }

  /** One more area of a rebind pass adds at most one write to each table. */
  lemma RebindStep(renderers: seq<Renderer>, areaMatMap: map<string, MatKey>, md: map<MatKey, MaterialParam>,
                   areas: seq<DamageableArea>, i: nat, bound: map<MatKey, int>, shader: map<ShaderSlot, real>)
    requires i < |areas|
    ensures var ws := RebindWrites(renderers, areaMatMap, md, areas[..i]);
            var ws' := RebindWrites(renderers, areaMatMap, md, areas[..i + 1]);
            match RebindWrite(renderers, areaMatMap, md, areas[i])
            case None => ws' == ws
            case Some(w) =>
              && Overwrite(bound, BoundWrites(ws')) == Overwrite(bound, BoundWrites(ws))[w.0 := w.1.id]
              && Overwrite(shader, ShaderWrites(md, ws'))
                   == Overwrite(shader, ShaderWrites(md, ws))[ShaderSlot(w.1.id, md[w.0].paramIndex) := md[w.0].currentValue]
  {
    var ws := RebindWrites(renderers, areaMatMap, md, areas[..i]);
    assert areas[..i + 1][..i] == areas[..i];
    match RebindWrite(renderers, areaMatMap, md, areas[i])
    case None =>
    case Some(w) =>
      assert BoundWrites(ws + [w]) == BoundWrites(ws) + [(w.0, w.1.id)];
      assert ShaderWrites(md, ws + [w])
               == ShaderWrites(md, ws) + [(ShaderSlot(w.1.id, md[w.0].paramIndex), md[w.0].currentValue)];
      OverwriteSnoc(bound, BoundWrites(ws), (w.0, w.1.id));
      OverwriteSnoc(shader, ShaderWrites(md, ws), (ShaderSlot(w.1.id, md[w.0].paramIndex), md[w.0].currentValue));
  }

  /** The k-th pass of HandleCharacterUpdate's redundant outer loop leaves
      what the first pass left. */
  lemma {:induction false} RebindPassesCollapse<K, V>(m: map<K, V>, ws: seq<(K, V)>, n: nat)
    requires n >= 1
    ensures Repeat(m, ws, n) == Overwrite(m, ws)
  {
    if n > 1 {
      RebindPassesCollapse(m, ws, n - 1);
      OverwriteIdempotent(m, ws);
    }
  }

  /** n passes of the same writes. */
  function Repeat<K, V>(m: map<K, V>, ws: seq<(K, V)>, n: nat): map<K, V> {
    if n == 0 then m else Overwrite(Repeat(m, ws, n - 1), ws)
  }

  /** After the rebind, a key's running value sits on the material of the
      last area that rebound it, so a character rebuild keeps the damage. */
  lemma RebindRestoresValue(shader: map<ShaderSlot, real>, md: map<MatKey, MaterialParam>,
                            ws: seq<(MatKey, Material)>, i: nat)
    requires forall j :: 0 <= j < |ws| ==> ws[j].0 in md
    requires i < |ws|
    requires forall j :: i < j < |ws| ==> ShaderWrites(md, ws)[j].0 != ShaderWrites(md, ws)[i].0
    ensures Overwrite(shader, ShaderWrites(md, ws))[ShaderSlot(ws[i].1.id, md[ws[i].0].paramIndex)]
              == md[ws[i].0].currentValue
  {
    OverwriteLast(shader, ShaderWrites(md, ws), i);
  }

  // ---------------------------------------------------------------------------
  // DNA baselines read at character creation
  // ---------------------------------------------------------------------------

  /** The baseline and delta tables InitUmaDnaValues builds. */
  datatype DnaBaselines = DnaBaselines(init: map<int, seq<real>>, deltas: map<int, seq<real>>)

  /** The first n values of a channel, as GetValue(0 .. n-1) reads them. */
  function Baseline(dna: map<int, DnaChannel>, h: int, n: nat): seq<real> {
    if n > 0 && h in dna && n <= |dna[h].values| then dna[h].values[..n] else []
  }

  /** One config: the first config of a DNA type records that type's first
      Names.Length values and as many zero deltas; later ones change nothing. */
  function InitDnaConfig(t: DnaBaselines, dna: map<int, DnaChannel>, c: DnaEffectConfig): DnaBaselines {
    var h := c.asset.typeHash;
    if h in t.init then t
    else DnaBaselines(t.init[h := Baseline(dna, h, |c.asset.names|)], t.deltas[h := Zeros(|c.asset.names|)])
  }

  function InitDnaConfigs(t: DnaBaselines, dna: map<int, DnaChannel>, cfgs: seq<DnaEffectConfig>): DnaBaselines
    decreases |cfgs|
  {
    if cfgs == [] then t else InitDnaConfigs(InitDnaConfig(t, dna, cfgs[0]), dna, cfgs[1..])
  }

  /** The DNA configs of all areas, area by area. */
  function AllDnaConfigs(areas: seq<DamageableArea>): seq<DnaEffectConfig>
    decreases |areas|
  {
    if areas == [] then [] else areas[0].dnaConfigs + AllDnaConfigs(areas[1..])
  }

  /** Splitting off the area at `i` from the configs of `areas[i..]`. */
  lemma AllDnaConfigsAt(areas: seq<DamageableArea>, i: nat)
    requires i < |areas|
    ensures AllDnaConfigs(areas[i..]) == areas[i].dnaConfigs + AllDnaConfigs(areas[i + 1..])
  {
    assert areas[i..][1..] == areas[i + 1..];
  }

  /** The first config of each DNA type not yet recorded, with a non-empty
      name list, finds its channel with enough values (GetDna is dereferenced
      only inside the per-name loop). */
  ghost predicate InitReady(t: DnaBaselines, dna: map<int, DnaChannel>, cfgs: seq<DnaEffectConfig>) {
    forall i :: 0 <= i < |cfgs| && cfgs[i].asset.typeHash !in t.init && |cfgs[i].asset.names| > 0
                && (forall j :: 0 <= j < i ==> cfgs[j].asset.typeHash != cfgs[i].asset.typeHash) ==>
      cfgs[i].asset.typeHash in dna && |cfgs[i].asset.names| <= |dna[cfgs[i].asset.typeHash].values|
  }

  /** The first config of a ready list can be recorded. */
  lemma InitReadyHead(t: DnaBaselines, dna: map<int, DnaChannel>, cfgs: seq<DnaEffectConfig>)
    requires cfgs != [] && InitReady(t, dna, cfgs)
    ensures cfgs[0].asset.typeHash !in t.init && |cfgs[0].asset.names| > 0 ==>
              cfgs[0].asset.typeHash in dna && |cfgs[0].asset.names| <= |dna[cfgs[0].asset.typeHash].values|
  {
  }

  lemma InitReadyStep(t: DnaBaselines, dna: map<int, DnaChannel>, cfgs: seq<DnaEffectConfig>)
    requires cfgs != [] && InitReady(t, dna, cfgs)
    ensures InitReady(InitDnaConfig(t, dna, cfgs[0]), dna, cfgs[1..])
  {
    var t' := InitDnaConfig(t, dna, cfgs[0]);
    var rest := cfgs[1..];
    forall i | 0 <= i < |rest| && rest[i].asset.typeHash !in t'.init && |rest[i].asset.names| > 0
               && (forall j :: 0 <= j < i ==> rest[j].asset.typeHash != rest[i].asset.typeHash)
      ensures rest[i].asset.typeHash in dna && |rest[i].asset.names| <= |dna[rest[i].asset.typeHash].values|
    {
      assert rest[i] == cfgs[i + 1];
      assert forall j :: 1 <= j < i + 1 ==> cfgs[j] == rest[j - 1];
    }
  }

  /** One recording step keeps baseline + delta equal to the current value. */
  lemma InitDnaConfigTables(t: DnaBaselines, dna: map<int, DnaChannel>, cfgs: seq<DnaEffectConfig>)
    requires DnaTables(t.init, t.deltas, dna) && Applied(t.init, t.deltas, dna)
    requires cfgs != [] && InitReady(t, dna, cfgs)
    ensures var t' := InitDnaConfig(t, dna, cfgs[0]);
            DnaTables(t'.init, t'.deltas, dna) && Applied(t'.init, t'.deltas, dna)
  {
    var c := cfgs[0];
    if c.asset.typeHash !in t.init {
      assert 0 < |c.asset.names| ==> c.asset.typeHash in dna && |c.asset.names| <= |dna[c.asset.typeHash].values|;
    }
  }

  /** InitUmaDnaValues keeps every table consistent with the channels: each
      recorded baseline plus its delta is the channel's current value. */
  lemma {:induction false} InitDnaConfigsTables(t: DnaBaselines, dna: map<int, DnaChannel>, cfgs: seq<DnaEffectConfig>)
    requires DnaTables(t.init, t.deltas, dna) && Applied(t.init, t.deltas, dna)
    requires InitReady(t, dna, cfgs)
    ensures var r := InitDnaConfigs(t, dna, cfgs);
            DnaTables(r.init, r.deltas, dna) && Applied(r.init, r.deltas, dna)
    decreases |cfgs|
  {
    if cfgs != [] {
      InitDnaConfigTables(t, dna, cfgs);
      InitReadyStep(t, dna, cfgs);
      InitDnaConfigsTables(InitDnaConfig(t, dna, cfgs[0]), dna, cfgs[1..]);
    }
  }

  /** Exactly the DNA types named by some config are recorded, and a type
      recorded beforehand keeps its lists. */
  lemma {:induction false} InitDnaConfigsKeys(t: DnaBaselines, dna: map<int, DnaChannel>, cfgs: seq<DnaEffectConfig>)
    ensures var r := InitDnaConfigs(t, dna, cfgs);
            && r.init.Keys == t.init.Keys + (set c | c in cfgs :: c.asset.typeHash)
            && forall h :: h in t.init ==> r.init[h] == t.init[h]
    decreases |cfgs|
  {
    if cfgs != [] {
      var c := cfgs[0];
      var rest := cfgs[1..];
      InitDnaConfigsKeys(InitDnaConfig(t, dna, c), dna, rest);
      assert cfgs == [c] + rest;
      assert (set x | x in cfgs :: x.asset.typeHash) == {c.asset.typeHash} + (set x | x in rest :: x.asset.typeHash);
    }
  }

  /** The first config of a DNA type decides its lists: Names.Length values
      read from the channel and as many zero deltas. */
  lemma {:induction false} InitDnaConfigsFirstDecides(t: DnaBaselines, dna: map<int, DnaChannel>, cfgs: seq<DnaEffectConfig>, i: nat)
    requires t.init.Keys == t.deltas.Keys
    requires i < |cfgs| && cfgs[i].asset.typeHash !in t.init
    requires forall j :: 0 <= j < i ==> cfgs[j].asset.typeHash != cfgs[i].asset.typeHash
    ensures var r := InitDnaConfigs(t, dna, cfgs);
            var h := cfgs[i].asset.typeHash;
            && h in r.init && h in r.deltas
            && r.init[h] == Baseline(dna, h, |cfgs[i].asset.names|)
            && r.deltas[h] == Zeros(|cfgs[i].asset.names|)
    decreases |cfgs|
  {
    var t' := InitDnaConfig(t, dna, cfgs[0]);
    var rest := cfgs[1..];
    if i == 0 {
      InitDnaConfigsKept(t', dna, rest, cfgs[0].asset.typeHash);
    } else {
      assert rest[i - 1] == cfgs[i];
      assert forall j :: 0 <= j < i - 1 ==> rest[j] == cfgs[j + 1];
      InitDnaConfigsFirstDecides(t', dna, rest, i - 1);
    }
  }

  lemma {:induction false} InitDnaConfigsKept(t: DnaBaselines, dna: map<int, DnaChannel>, cfgs: seq<DnaEffectConfig>, h: int)
    requires h in t.init && h in t.deltas
    ensures var r := InitDnaConfigs(t, dna, cfgs);
            h in r.init && h in r.deltas && r.init[h] == t.init[h] && r.deltas[h] == t.deltas[h]
    decreases |cfgs|
  {
    if cfgs != [] {
      InitDnaConfigsKept(InitDnaConfig(t, dna, cfgs[0]), dna, cfgs[1..], h);
    }
  }

  lemma {:induction false} InitDnaConfigsAppend(t: DnaBaselines, dna: map<int, DnaChannel>, a: seq<DnaEffectConfig>, b: seq<DnaEffectConfig>)
    ensures InitDnaConfigs(t, dna, a + b) == InitDnaConfigs(InitDnaConfigs(t, dna, a), dna, b)
    decreases |a|
  {
    if a == [] {
      assert a + b == b;
    } else {
      assert (a + b)[1..] == a[1..] + b;
      InitDnaConfigsAppend(InitDnaConfig(t, dna, a[0]), dna, a[1..], b);
    }
  }

  // ---------------------------------------------------------------------------
  // Punching off head accessories
  // ---------------------------------------------------------------------------

  /** The calls UpdateHats makes for the selected slots, in order: spawn the
      detached item, then clear the slot. */
  function HatEvents(slots: seq<string>, position: Vec3, normal: Vec3, force: real): (r: seq<AvatarEvent>)
    ensures |r| == 2 * |slots|
    ensures forall i :: 0 <= i < |slots| ==>
              r[2 * i] == SpawnHat(slots[i], position, normal, force) && r[2 * i + 1] == ClearSlot(slots[i])
    decreases |slots|
  {
    if slots == [] then []
    else
      var n := |slots| - 1;
      var r := HatEvents(slots[..n], position, normal, force) + [SpawnHat(slots[n], position, normal, force), ClearSlot(slots[n])];
      assert forall i :: 0 <= i < n ==> slots[..n][i] == slots[i];
      r
  }

  /** The wardrobe slots a hit of the given force punches off. */
  function HatsToPutOff(wardrobe: map<string, int>, punchOff: seq<PunchOffStuff>, force: real): set<string> {
    set s | s in wardrobe && IsHatToPutOff(punchOff, s, force)
  }

  /** The elements of a list, as a set. */
  function Elems(s: seq<string>): set<string> {
    set x | x in s
  }

  /** No slot appears twice. */
  predicate Distinct<T(==)>(s: seq<T>) {
    forall i, j :: 0 <= i < j < |s| ==> s[i] != s[j]
  }

  /** UpdateDna can run: every config of the first area with the id is ready. */
  ghost predicate DnaReady(areas: seq<DamageableArea>, init: map<int, seq<real>>, dna: map<int, DnaChannel>, areaId: string) {
    match FirstArea(areas, areaId)
    case None => true
    case Some(i) => areas[i].dnaConfigured ==> forall c :: c in areas[i].dnaConfigs ==> DnaConfigReady(init, dna, c)
  }

  /** UpdateExpressions can run: with a player, every index of the first area
      with the id is inside the value array of length len. */
  ghost predicate ExprReady(areas: seq<DamageableArea>, hasPlayer: bool, len: int, areaId: string) {
    hasPlayer ==>
      match FirstArea(areas, areaId)
      case None => true
      case Some(i) => areas[i].exprConfigured ==> forall c :: c in areas[i].exprConfigs ==> c.exprIndex < len
  }

  /** The DNA tables agree with the channels. */
  ghost predicate DnaConsistent(init: map<int, seq<real>>, deltas: map<int, seq<real>>, dna: map<int, DnaChannel>) {
    DnaTables(init, deltas, dna) && Applied(init, deltas, dna)
  }

  /** The expression values after UpdateExpressions: with a player, the
      configs of the first area with the id applied in order. */
  function ExprAfterHit(areas: seq<DamageableArea>, hasPlayer: bool, vals: seq<real>, areaId: string, force: real): seq<real> {
    if hasPlayer then
      match FirstArea(areas, areaId)
      case None => vals
      case Some(i) => if areas[i].exprConfigured then ApplyExprConfigs(vals, areas[i].exprConfigs, force) else vals
    else vals
  }

  /** UpdateExpressions hands the values to the player: there is a player and
      the first area with the id has an expression config array. */
  predicate PlayerUpdated(areas: seq<DamageableArea>, hasPlayer: bool, areaId: string) {
    && hasPlayer
    && match FirstArea(areas, areaId)
       case None => false
       case Some(i) => areas[i].exprConfigured
  }

  /** The shader table after UpdateMaterials: the hit key's parameter on its
      bound material receives the new running value. */
  function ShaderAfterHit(areaMatMap: map<string, MatKey>, md: map<MatKey, MaterialParam>, bound: map<MatKey, int>,
                          shader: map<ShaderSlot, real>, areaId: string, force: real): map<ShaderSlot, real> {
    if areaId in areaMatMap && areaMatMap[areaId] in md && areaMatMap[areaId] in bound then
      var k := areaMatMap[areaId];
      shader[ShaderSlot(bound[k], md[k].paramIndex) := MaterialHit(md[k], force).currentValue]
    else shader
  }

  /** The parameter slots of the given running values on their bound materials. */
  ghost function ParamSlots(keys: set<MatKey>, md: map<MatKey, MaterialParam>, bound: map<MatKey, int>): set<ShaderSlot>
    requires keys <= md.Keys && keys <= bound.Keys
  {
    set k | k in keys :: ShaderSlot(bound[k], md[k].paramIndex)
  }

  /** The running values after Heal: every value is back to 0 and keeps its
      parameter and ForceFactor. */
  function MaterialsHealed(md: map<MatKey, MaterialParam>): (r: map<MatKey, MaterialParam>)
    ensures r.Keys == md.Keys
    ensures forall k :: k in r ==> r[k].currentValue == 0.0 && r[k].paramIndex == md[k].paramIndex
                                   && r[k].forceFactor == md[k].forceFactor
  {
    map k | k in md :: md[k].(currentValue := 0.0)
  }

  /** A shader table in which the given slots were set to 0. */
  function ShaderZeroed(shader: map<ShaderSlot, real>, slots: set<ShaderSlot>): (r: map<ShaderSlot, real>)
    ensures r.Keys == shader.Keys + slots
    ensures forall s :: s in slots ==> r[s] == 0.0
    ensures forall s :: s in shader && s !in slots ==> r[s] == shader[s]
  {
    map s | s in shader.Keys + slots :: if s in slots then 0.0 else shader[s]
  }

  /** A channel whose first values are put back to their baselines. */
  function ResetChannel(ch: DnaChannel, init: seq<real>): DnaChannel
    requires |init| <= |ch.values|
  {
    ch.(values := init + ch.values[|init|..])
  }

  /** The channels after resetDna has handled the given types: each handled
      type with a baseline list gets its baseline values back. */
  function DnaHealed(keys: set<int>, init: map<int, seq<real>>, dna: map<int, DnaChannel>): map<int, DnaChannel> {
    map h | h in dna :: if h in keys && h in init && 0 < |init[h]| <= |dna[h].values| then ResetChannel(dna[h], init[h]) else dna[h]
  }

  /** The delta lists after resetDna has handled the given types: all zero. */
  function DeltasHealed(keys: set<int>, init: map<int, seq<real>>, deltas: map<int, seq<real>>): map<int, seq<real>> {
    map h | h in deltas :: if h in keys && h in init then Zeros(|init[h]|) else deltas[h]
  }

  /** The running values after resetMaterials has visited the given keys. */
  function MaterialsHealedOn(keys: set<MatKey>, md: map<MatKey, MaterialParam>): map<MatKey, MaterialParam> {
    map k | k in md :: if k in keys then md[k].(currentValue := 0.0) else md[k]
  }

  lemma MaterialsHealedStep(keys: set<MatKey>, k: MatKey, md: map<MatKey, MaterialParam>)
    requires k in md
    ensures MaterialsHealedOn(keys + {k}, md) == MaterialsHealedOn(keys, md)[k := md[k].(currentValue := 0.0)]
  {
  }

  lemma ParamSlotsStep(keys: set<MatKey>, k: MatKey, md: map<MatKey, MaterialParam>, bound: map<MatKey, int>)
    requires keys <= md.Keys && keys <= bound.Keys && k in md && k in bound
    ensures ParamSlots(keys + {k}, md, bound) == ParamSlots(keys, md, bound) + {ShaderSlot(bound[k], md[k].paramIndex)}
  {
  }

  lemma ShaderZeroedStep(shader: map<ShaderSlot, real>, slots: set<ShaderSlot>, s: ShaderSlot)
    ensures ShaderZeroed(shader, slots + {s}) == ShaderZeroed(shader, slots)[s := 0.0]
  {
  }

  lemma DnaHealedStep(keys: set<int>, h: int, init: map<int, seq<real>>, dna: map<int, DnaChannel>)
    requires forall h :: h in init && |init[h]| > 0 ==> h in dna && |init[h]| <= |dna[h].values|
    requires h in init
    ensures DnaHealed(keys + {h}, init, dna)
              == if |init[h]| > 0 then DnaHealed(keys, init, dna)[h := ResetChannel(dna[h], init[h])]
                 else DnaHealed(keys, init, dna)
  {
  }

  lemma DeltasHealedStep(keys: set<int>, h: int, init: map<int, seq<real>>, deltas: map<int, seq<real>>)
    requires h in init && h in deltas
    ensures DeltasHealed(keys + {h}, init, deltas) == DeltasHealed(keys, init, deltas)[h := Zeros(|init[h]|)]
  {
  }

  /** After Heal the DNA tables agree with the channels again, whatever
      the hits did to them: every driven value is back at its baseline,
      every delta is 0, and nothing past the baselines changes. */
  lemma HealRestoresDna(init: map<int, seq<real>>, deltas: map<int, seq<real>>, dna: map<int, DnaChannel>)
    requires DnaTables(init, deltas, dna)
    ensures var dna', deltas' := DnaHealed(init.Keys, init, dna), DeltasHealed(init.Keys, init, deltas);
            && DnaConsistent(init, deltas', dna')
            && dna'.Keys == dna.Keys && deltas'.Keys == deltas.Keys
            && (forall h, i :: h in init && 0 <= i < |init[h]| ==> dna'[h].values[i] == init[h][i] && deltas'[h][i] == 0.0)
            && (forall h, i :: h in dna && (h !in init || |init[h]| <= i) && 0 <= i < |dna[h].values| ==>
                  |dna'[h].values| == |dna[h].values| && dna'[h].values[i] == dna[h].values[i])
  {
    var dna', deltas' := DnaHealed(init.Keys, init, dna), DeltasHealed(init.Keys, init, deltas);
    forall h, i | h in init && 0 <= i < |init[h]|
      ensures dna'[h].values[i] == init[h][i] && deltas'[h][i] == 0.0
    {
      assert dna'[h] == ResetChannel(dna[h], init[h]);
      assert (init[h] + dna[h].values[|init[h]|..])[i] == init[h][i];
    }
    forall h, i | h in dna && (h !in init || |init[h]| <= i) && 0 <= i < |dna[h].values|
      ensures |dna'[h].values| == |dna[h].values| && dna'[h].values[i] == dna[h].values[i]
    {
      if h in init && 0 < |init[h]| {
        assert (init[h] + dna[h].values[|init[h]|..])[i] == dna[h].values[|init[h]|..][i - |init[h]|];
      }
    }
    assert DnaTables(init, deltas', dna');
  }

  /** Healing twice heals once: the running values, the DNA channels and
      the deltas reach a fixed point after one Heal. */
  lemma HealIdempotent(md: map<MatKey, MaterialParam>, init: map<int, seq<real>>,
                       deltas: map<int, seq<real>>, dna: map<int, DnaChannel>)
    requires DnaTables(init, deltas, dna)
    ensures MaterialsHealed(MaterialsHealed(md)) == MaterialsHealed(md)
    ensures var dna' := DnaHealed(init.Keys, init, dna);
            DnaHealed(init.Keys, init, dna') == dna'
    ensures var deltas' := DeltasHealed(init.Keys, init, deltas);
            DeltasHealed(init.Keys, init, deltas') == deltas'
  {
    var dna' := DnaHealed(init.Keys, init, dna);
    forall h | h in dna'
      ensures DnaHealed(init.Keys, init, dna')[h] == dna'[h]
    {
      if h in init && 0 < |init[h]| <= |dna[h].values| {
        var n := |init[h]|;
        assert dna'[h].values == init[h] + dna[h].values[n..];
        assert dna'[h].values[..n] == init[h];
        assert init[h] + dna'[h].values[n..] == dna'[h].values;
      }
    }
  }

  /** The first hit after Heal starts from 0: the running value becomes
      clamp01(force * ForceFactor), as on a fresh character. */
  lemma HitAfterHeal(areaMatMap: map<string, MatKey>, md: map<MatKey, MaterialParam>, areaId: string, force: real)
    requires areaId in areaMatMap && areaMatMap[areaId] in md
    ensures var k := areaMatMap[areaId];
            MaterialsAfterHit(areaMatMap, MaterialsHealed(md), areaId, force)[k].currentValue
              == Clamp01(force * md[k].forceFactor)
  {
    var k := areaMatMap[areaId];
    assert MaterialsHealed(md)[k].currentValue == 0.0;
  }

  /** One step of the loop that puts off the selected hats. */
  lemma HatStep(slots: seq<string>, j: nat, position: Vec3, normal: Vec3, force: real)
    requires j < |slots|
    ensures HatEvents(slots[..j + 1], position, normal, force)
              == HatEvents(slots[..j], position, normal, force) + [SpawnHat(slots[j], position, normal, force), ClearSlot(slots[j])]
    ensures Elems(slots[..j + 1]) == Elems(slots[..j]) + {slots[j]}
  {
    assert slots[..j + 1][..j] == slots[..j];
    assert slots[..j + 1] == slots[..j] + [slots[j]];
  }

  /** What InitUmaDnaValues leaves: the baselines and zero deltas recorded
      by every area's configs, in order, from empty tables. */
  ghost predicate DnaRecorded(areas: seq<DamageableArea>, dna: map<int, DnaChannel>,
                              dnaInit: map<int, seq<real>>, dnaDeltas: map<int, seq<real>>) {
    DnaBaselines(dnaInit, dnaDeltas) == InitDnaConfigs(DnaBaselines(map[], map[]), dna, AllDnaConfigs(areas))
  }

  /** One step of a loop that copies a prefix of a over b. */
  lemma PrefixStep<T>(a: seq<T>, b: seq<T>, i: nat)
    requires i < |a| && i < |b|
    ensures (a[..i] + b[i..])[i := a[i]] == a[..i + 1] + b[i + 1..]
  {
    assert a[..i + 1] == a[..i] + [a[i]];
  }

  /** Copies the first n values of src into dst (Array.Copy). */
  method CopyInto(src: seq<real>, dst: array<real>, n: nat)
    requires n <= |src| && n <= dst.Length
    modifies dst
    ensures dst[..n] == src[..n] && dst[n..] == old(dst[n..])
  {
    var i := 0;
    while i < n
      invariant 0 <= i <= n
      invariant dst[..i] == src[..i] && dst[i..] == old(dst[i..])
    {
      dst[i] := src[i];
      assert dst[..i + 1] == dst[..i] + [dst[i]];
      assert src[..i + 1] == src[..i] + [src[i]];
      i := i + 1;
    }
  }

  /** The component on a character: its configuration, the tables it keeps,
      and the parts of the character it drives (the expression player's
      values, the shader parameters, the DNA channels, the wardrobe, and the
      calls it makes). */
  class DamageableAvatar {
    const areas: seq<DamageableArea>
    /** False stands for a null _damageableAreas array. */
    const areasConfigured: bool
    const punchOff: seq<PunchOffStuff>

    var areaMatMap: map<string, MatKey>
    var materialData: map<MatKey, MaterialParam>
    var boundMaterial: map<MatKey, int>
    var dnaInit: map<int, seq<real>>
    var dnaDeltas: map<int, seq<real>>
    var exprInit: array?<real>
    var exprValues: array?<real>
    var hatSlots: seq<string>

    /** _umaExpressionPlayer != null */
    var hasExprPlayer: bool
    /** The values of the character's ExpressionPlayer. */
    var playerValues: seq<real>
    var shader: map<ShaderSlot, real>
    var dna: map<int, DnaChannel>
    /** WardrobeRecipes (a null dictionary behaves as an empty one here). */
    var wardrobe: map<string, int>
    var events: seq<AvatarEvent>

    constructor(areas: seq<DamageableArea>, areasConfigured: bool, punchOff: seq<PunchOffStuff>,
                playerValues: seq<real>, dna: map<int, DnaChannel>, wardrobe: map<string, int>)
      requires !areasConfigured ==> areas == []
      ensures this.areas == areas && this.areasConfigured == areasConfigured && this.punchOff == punchOff
      ensures areaMatMap == map[] && materialData == map[] && boundMaterial == map[]
      ensures dnaInit == map[] && dnaDeltas == map[] && exprInit == null && exprValues == null && hatSlots == []
      ensures !hasExprPlayer && this.playerValues == playerValues && shader == map[]
      ensures this.dna == dna && this.wardrobe == wardrobe && events == []
    {
      this.areas := areas;
      this.areasConfigured := areasConfigured;
      this.punchOff := punchOff;
      areaMatMap, materialData, boundMaterial := map[], map[], map[];
      dnaInit, dnaDeltas := map[], map[];
      exprInit, exprValues := null, null;
      hatSlots := [];
      hasExprPlayer := false;
      this.playerValues := playerValues;
      shader := map[];
      this.dna := dna;
      this.wardrobe := wardrobe;
      events := [];
    }

    method UpdateMaterials(areaId: string, force: real)
      requires WellBound(Bindings(areaMatMap, materialData, boundMaterial))
      modifies this`materialData, this`shader
      ensures WellBound(Bindings(areaMatMap, materialData, boundMaterial))
      ensures materialData == MaterialsAfterHit(areaMatMap, old(materialData), areaId, force)
      ensures shader == ShaderAfterHit(areaMatMap, old(materialData), boundMaterial, old(shader), areaId, force)
    {
      if areaId in areaMatMap {
        var k := areaMatMap[areaId];
        if k in materialData {
          var mp := materialData[k];
          var newVal := Clamp01(mp.currentValue + force * mp.forceFactor);
          assert mp.(currentValue := newVal) == MaterialHit(mp, force);
          materialData := materialData[k := mp.(currentValue := newVal)];
          shader := shader[ShaderSlot(boundMaterial[k], mp.paramIndex) := newVal];
          assert materialData.Keys == old(materialData).Keys;
        }
      }
    }

    /** One config of UpdateDna applied to the live channel and the deltas. */
    method ApplyDnaConfigInPlace(c: DnaEffectConfig, force: real, changedIn: bool) returns (changed: bool)
      requires DnaTables(dnaInit, dnaDeltas, dna) && Applied(dnaInit, dnaDeltas, dna)
      requires DnaConfigReady(dnaInit, dna, c)
      modifies this`dna, this`dnaDeltas
      ensures DnaState(dna, dnaDeltas, changed)
                == ApplyDnaConfig(DnaState(old(dna), old(dnaDeltas), changedIn), dnaInit, c, force)
    {
      changed := changedIn;
      var h := c.asset.typeHash;
      var ch := dna[h];
      var dnaInd := FindDnaInd(ch.names, c.parameter);
      if dnaInd > -1 {
        var newDelta := Clamp(dnaDeltas[h][dnaInd] + force * c.forceFactor, c.minDelta, c.maxDelta);
        var newValue := dnaInit[h][dnaInd] + newDelta;
        dna := dna[h := ch.(values := ch.values[dnaInd := newValue])];
        dnaDeltas := dnaDeltas[h := dnaDeltas[h][dnaInd := newDelta]];
        changed := true;
      }
    }

    /** The inner loop of UpdateDna: the configs of one area in order. */
    method ApplyAreaDna(cfgs: seq<DnaEffectConfig>, force: real) returns (changed: bool)
      requires DnaConsistent(dnaInit, dnaDeltas, dna)
      requires forall c :: c in cfgs ==> DnaConfigReady(dnaInit, dna, c)
      modifies this`dna, this`dnaDeltas
      ensures DnaConsistent(dnaInit, dnaDeltas, dna)
      ensures DnaState(dna, dnaDeltas, changed) == ApplyDnaConfigs(DnaState(old(dna), old(dnaDeltas), false), dnaInit, cfgs, force)
    {
      ghost var st0 := DnaState(dna, dnaDeltas, false);
      changed := false;
      var j := 0;
      assert cfgs[0..] == cfgs;
      while j < |cfgs|
        invariant 0 <= j <= |cfgs|
        invariant DnaTables(dnaInit, dnaDeltas, dna) && Applied(dnaInit, dnaDeltas, dna)
        invariant forall c :: c in cfgs ==> DnaConfigReady(dnaInit, dna, c)
        invariant ApplyDnaConfigs(st0, dnaInit, cfgs, force)
                    == ApplyDnaConfigs(DnaState(dna, dnaDeltas, changed), dnaInit, cfgs[j..], force)
      {
        DnaLoopStep(st0, DnaState(dna, dnaDeltas, changed), dnaInit, cfgs, j, force);
        changed := ApplyDnaConfigInPlace(cfgs[j], force, changed);
        j := j + 1;
      }
    }

    method UpdateDna(areaId: string, force: real) returns (changed: bool)
      requires DnaConsistent(dnaInit, dnaDeltas, dna) && DnaReady(areas, dnaInit, dna, areaId)
      modifies this`dna, this`dnaDeltas
      ensures DnaConsistent(dnaInit, dnaDeltas, dna)
      ensures var st := DnaAfterHit(areas, dnaInit, DnaState(old(dna), old(dnaDeltas), false), areaId, force);
              dna == st.dna && dnaDeltas == st.deltas && changed == st.changed
    {
      changed := false;
      var i := 0;
      while i < |areas|
        invariant 0 <= i <= |areas|
        invariant forall j :: 0 <= j < i ==> areas[j].areaId != areaId
        invariant dna == old(dna) && dnaDeltas == old(dnaDeltas) && !changed
      {
        if areas[i].areaId == areaId {
          assert FirstArea(areas, areaId) == Some(i);
          if areas[i].dnaConfigured {
            changed := ApplyAreaDna(areas[i].dnaConfigs, force);
          }
          break;
        }
        i := i + 1;
      }
    }

    method UpdateExpressions(areaId: string, force: real)
      requires hasExprPlayer ==> exprValues != null
      requires ExprReady(areas, hasExprPlayer, if exprValues == null then 0 else exprValues.Length, areaId)
      modifies this`playerValues, exprValues
      ensures exprValues != null ==> exprValues[..] == ExprAfterHit(areas, hasExprPlayer, old(exprValues[..]), areaId, force)
      ensures playerValues == if PlayerUpdated(areas, hasExprPlayer, areaId) then exprValues[..] else old(playerValues)
    {
      if hasExprPlayer {
        var i := 0;
        while i < |areas|
          invariant 0 <= i <= |areas|
          invariant forall j :: 0 <= j < i ==> areas[j].areaId != areaId
          invariant exprValues[..] == old(exprValues[..]) && playerValues == old(playerValues)
        {
          if areas[i].areaId == areaId {
            assert FirstArea(areas, areaId) == Some(i);
            if areas[i].exprConfigured {
              var cfgs := areas[i].exprConfigs;
              var j := 0;
              while j < |cfgs|
                invariant 0 <= j <= |cfgs|
                invariant ApplyExprConfigs(old(exprValues[..]), cfgs, force) == ApplyExprConfigs(exprValues[..], cfgs[j..], force)
              {
                var c := cfgs[j];
                assert c in areas[i].exprConfigs;
                assert cfgs[j..][1..] == cfgs[j + 1..];
                ghost var before := exprValues[..];
                exprValues[c.exprIndex] := ExprStep(exprValues[c.exprIndex], force, c);
                assert exprValues[..] == before[c.exprIndex := ExprStep(before[c.exprIndex], force, c)];
                j := j + 1;
              }
              playerValues := exprValues[..];
            }
            break;
          }
          i := i + 1;
        }
      }
    }

    /** The first loop of UpdateHats: the wardrobe slots to punch off, each
        once, in the dictionary's (unspecified) order. */
    method SelectHatSlots(force: real) returns (slots: seq<string>)
      ensures Elems(slots) == HatsToPutOff(wardrobe, punchOff, force)
      ensures Distinct(slots)
    {
      var keys := wardrobe.Keys;
      slots := [];
      while |keys| > 0
        invariant keys <= wardrobe.Keys
        invariant forall s :: s in slots <==> s in wardrobe.Keys - keys && IsHatToPutOff(punchOff, s, force)
        invariant Distinct(slots)
        decreases keys
      {
        var k :| k in keys;
        if IsHatToPutOff(punchOff, k, force) {
          slots := slots + [k];
        }
        keys := keys - {k};
      }
    }

    /** The second loop of UpdateHats: spawn and clear each selected slot. */
    method PutOffHats(slots: seq<string>, position: Vec3, normal: Vec3, force: real)
      modifies this`wardrobe, this`events
      ensures wardrobe == old(wardrobe) - Elems(slots)
      ensures events == old(events) + HatEvents(slots, position, normal, force)
    {
      ghost var w0, e0 := wardrobe, events;
      var j := 0;
      while j < |slots|
        invariant 0 <= j <= |slots|
        invariant wardrobe == w0 - Elems(slots[..j])
        invariant events == e0 + HatEvents(slots[..j], position, normal, force)
      {
        var ws := slots[j];
        HatStep(slots, j, position, normal, force);
        events := events + [SpawnHat(ws, position, normal, force), ClearSlot(ws)];
        wardrobe := wardrobe - {ws};
        j := j + 1;
      }
      assert slots[..j] == slots;
    }

    /** UpdateHats: the punched-off slots are exactly the wardrobe slots whose
        first punch-off entry fires, each is spawned and cleared, and the
        character is rebuilt iff there was one. */
    method UpdateHats(position: Vec3, normal: Vec3, force: real)
      modifies this`hatSlots, this`wardrobe, this`events
      ensures Elems(hatSlots) == HatsToPutOff(old(wardrobe), punchOff, force) && Distinct(hatSlots)
      ensures wardrobe == old(wardrobe) - HatsToPutOff(old(wardrobe), punchOff, force)
      ensures events == old(events) + HatEvents(hatSlots, position, normal, force)
                        + (if |hatSlots| > 0 then [BuildCharacter] else [])
    {
      hatSlots := SelectHatSlots(force);
      PutOffHats(hatSlots, position, normal, force);
      if |hatSlots| > 0 {
        events := events + [BuildCharacter];
      }
    }

    /** The first half of Damage: the material and the DNA steps. */
    method HitBody(areaId: string, force: real) returns (dnaChanged: bool)
      requires WellBound(Bindings(areaMatMap, materialData, boundMaterial))
      requires DnaConsistent(dnaInit, dnaDeltas, dna) && DnaReady(areas, dnaInit, dna, areaId)
      modifies this`materialData, this`shader, this`dna, this`dnaDeltas
      ensures WellBound(Bindings(areaMatMap, materialData, boundMaterial))
      ensures DnaConsistent(dnaInit, dnaDeltas, dna)
      ensures materialData == MaterialsAfterHit(areaMatMap, old(materialData), areaId, force)
      ensures shader == ShaderAfterHit(areaMatMap, old(materialData), boundMaterial, old(shader), areaId, force)
      ensures DnaState(dna, dnaDeltas, dnaChanged)
                == DnaAfterHit(areas, dnaInit, DnaState(old(dna), old(dnaDeltas), false), areaId, force)
    {
      UpdateMaterials(areaId, force);
      dnaChanged := UpdateDna(areaId, force);
    }

    /** The second half of Damage: the expression and the hat steps. */
    method HitFace(areaId: string, position: Vec3, normal: Vec3, force: real, dnaChanged: bool)
      requires hasExprPlayer ==> exprValues != null
      requires ExprReady(areas, hasExprPlayer, if exprValues == null then 0 else exprValues.Length, areaId)
      modifies this`playerValues, exprValues, this`hatSlots, this`wardrobe, this`events
      ensures exprValues != null ==> exprValues[..] == ExprAfterHit(areas, hasExprPlayer, old(exprValues[..]), areaId, force)
      ensures playerValues == if PlayerUpdated(areas, hasExprPlayer, areaId) then exprValues[..] else old(playerValues)
      ensures Elems(hatSlots) == HatsToPutOff(old(wardrobe), punchOff, force) && Distinct(hatSlots)
      ensures wardrobe == old(wardrobe) - HatsToPutOff(old(wardrobe), punchOff, force)
      ensures events == old(events) + HatEvents(hatSlots, position, normal, force)
                        + (if |hatSlots| > 0 then [BuildCharacter] else [])
                        + (if dnaChanged then [MeshDirty] else [])
    {
      UpdateExpressions(areaId, force);
      UpdateHats(position, normal, force);
      if dnaChanged {
        events := events + [MeshDirty];
      }
    }

    /** Damage(areaId, position, normal, force01): the four steps in order,
        then a mesh-dirty call iff the DNA step wrote a parameter. */
    method Damage(areaId: string, position: Vec3, normal: Vec3, force: real)
      requires areasConfigured
      requires WellBound(Bindings(areaMatMap, materialData, boundMaterial))
      requires DnaConsistent(dnaInit, dnaDeltas, dna) && DnaReady(areas, dnaInit, dna, areaId)
      requires hasExprPlayer ==> exprValues != null
      requires ExprReady(areas, hasExprPlayer, if exprValues == null then 0 else exprValues.Length, areaId)
      modifies this`materialData, this`shader, this`dna, this`dnaDeltas, this`playerValues, exprValues,
               this`hatSlots, this`wardrobe, this`events
      ensures WellBound(Bindings(areaMatMap, materialData, boundMaterial))
      ensures DnaConsistent(dnaInit, dnaDeltas, dna)
      ensures materialData == MaterialsAfterHit(areaMatMap, old(materialData), areaId, force)
      ensures shader == ShaderAfterHit(areaMatMap, old(materialData), boundMaterial, old(shader), areaId, force)
      ensures var st := DnaAfterHit(areas, dnaInit, DnaState(old(dna), old(dnaDeltas), false), areaId, force);
              && dna == st.dna && dnaDeltas == st.deltas
              && events == old(events) + HatEvents(hatSlots, position, normal, force)
                           + (if |hatSlots| > 0 then [BuildCharacter] else [])
                           + (if st.changed then [MeshDirty] else [])
      ensures exprValues != null ==> exprValues[..] == ExprAfterHit(areas, hasExprPlayer, old(exprValues[..]), areaId, force)
      ensures playerValues == if PlayerUpdated(areas, hasExprPlayer, areaId) then exprValues[..] else old(playerValues)
      ensures Elems(hatSlots) == HatsToPutOff(old(wardrobe), punchOff, force) && Distinct(hatSlots)
      ensures wardrobe == old(wardrobe) - HatsToPutOff(old(wardrobe), punchOff, force)
    {
      var dnaChanged := HitBody(areaId, force);
      HitFace(areaId, position, normal, force, dnaChanged);
    }

    /** resetMaterials: every running value back to 0, written to its bound
        material. */
    method ResetMaterials()
      requires materialData.Keys == boundMaterial.Keys
      modifies this`materialData, this`shader
      ensures materialData == MaterialsHealed(old(materialData))
      ensures shader == ShaderZeroed(old(shader), ParamSlots(old(materialData).Keys, old(materialData), boundMaterial))
    {
      ghost var md0 := materialData;
      var keys := materialData.Keys;
      ghost var done: set<MatKey> := {};
      while |keys| > 0
        invariant keys <= md0.Keys && done == md0.Keys - keys
        invariant materialData == MaterialsHealedOn(done, md0)
        invariant shader == ShaderZeroed(old(shader), ParamSlots(done, md0, boundMaterial))
        decreases keys
      {
        var k :| k in keys;
        var mp := materialData[k];
        assert mp == md0[k];
        MaterialsHealedStep(done, k, md0);
        ParamSlotsStep(done, k, md0, boundMaterial);
        ShaderZeroedStep(old(shader), ParamSlots(done, md0, boundMaterial), ShaderSlot(boundMaterial[k], mp.paramIndex));
        materialData := materialData[k := mp.(currentValue := 0.0)];
        shader := shader[ShaderSlot(boundMaterial[k], mp.paramIndex) := 0.0];
        keys := keys - {k};
        done := done + {k};
      }
      assert MaterialsHealedOn(done, md0) == MaterialsHealed(md0);
    }

    /** The inner loop of resetDna for one DNA type. */
    method ResetDnaChannel(h: int)
      requires h in dnaInit && h in dnaDeltas && |dnaDeltas[h]| == |dnaInit[h]|
      requires |dnaInit[h]| > 0 ==> h in dna && |dnaInit[h]| <= |dna[h].values|
      modifies this`dna, this`dnaDeltas
      ensures dna == if |dnaInit[h]| > 0 then old(dna)[h := ResetChannel(old(dna)[h], dnaInit[h])] else old(dna)
      ensures dnaDeltas == old(dnaDeltas)[h := Zeros(|dnaInit[h]|)]
    {
      var init := dnaInit[h];
      ghost var zeros := Zeros(|init|);
      ghost var d0 := dnaDeltas[h];
      ghost var v0 := if |init| > 0 then dna[h].values else [];
      assert zeros[..0] + d0[0..] == d0 && init[..0] + v0[0..] == v0;
      var i := 0;
      while i < |init|
        invariant 0 <= i <= |init|
        invariant |init| > 0 ==> dna == old(dna)[h := old(dna)[h].(values := init[..i] + v0[i..])]
        invariant |init| == 0 ==> dna == old(dna)
        invariant dnaDeltas == old(dnaDeltas)[h := zeros[..i] + d0[i..]]
      {
        var ch := dna[h];
        PrefixStep(init, v0, i);
        PrefixStep(zeros, d0, i);
        dna := dna[h := ch.(values := ch.values[i := init[i]])];
        dnaDeltas := dnaDeltas[h := dnaDeltas[h][i := 0.0]];
        i := i + 1;
      }
      assert init[..i] == init && zeros[..i] == zeros && d0[i..] == [];
      assert zeros[..i] + d0[i..] == zeros;
    }

    /** resetDna: every delta back to 0 and every driven value back to its
        baseline. */
    method ResetDna()
      requires DnaTables(dnaInit, dnaDeltas, dna)
      modifies this`dna, this`dnaDeltas
      ensures dna == DnaHealed(dnaInit.Keys, dnaInit, old(dna))
      ensures dnaDeltas == DeltasHealed(dnaInit.Keys, dnaInit, old(dnaDeltas))
    {
      ghost var init, dna0, deltas0 := dnaInit, dna, dnaDeltas;
      var keys := dnaInit.Keys;
      ghost var done: set<int> := {};
      while keys != {}
        invariant keys <= init.Keys && done == init.Keys - keys
        invariant dna == DnaHealed(done, init, dna0)
        invariant dnaDeltas == DeltasHealed(done, init, deltas0)
        decreases keys
      {
        var h := PickKey(keys);
        DnaHealedStep(done, h, init, dna0);
        DeltasHealedStep(done, h, init, deltas0);
        assert h !in done && dnaDeltas[h] == deltas0[h];
        assert |init[h]| > 0 ==> dna[h] == dna0[h];
        ResetDnaChannel(h);
        keys := keys - {h};
        done := done + {h};
      }
      assert done == init.Keys;
    }

    /** resetExpressions, with the source's loop: it runs once per value of
        the player (none when the player has no values), and every pass
        hands the baseline to the player and copies it into the current
        values, allocating a new array when the current one is missing or
        too short. */
    method ResetExpressions()
      requires exprInit != null ==> hasExprPlayer
      modifies this`playerValues, this`exprValues, exprValues
      ensures exprInit == null || |old(playerValues)| == 0 ==>
                playerValues == old(playerValues) && exprValues == old(exprValues)
                && (exprValues != null ==> exprValues[..] == old(exprValues[..]))
      ensures exprInit != null && |old(playerValues)| > 0 ==>
                && playerValues == exprInit[..]
                && exprValues != null
                && exprValues.Length >= exprInit.Length
                && exprValues[..exprInit.Length] == exprInit[..]
                && if old(exprValues) != null && old(exprValues).Length >= exprInit.Length
                   then exprValues == old(exprValues)
                        && exprValues[exprInit.Length..] == old(exprValues[exprInit.Length..])
                   else fresh(exprValues) && exprValues.Length == exprInit.Length
    {
      if exprInit != null {
        var i := 0;
        while i < |playerValues|
          invariant i == 0 ==> playerValues == old(playerValues) && exprValues == old(exprValues)
                               && (exprValues != null ==> exprValues[..] == old(exprValues[..]))
          invariant i > 0 ==> |old(playerValues)| > 0
          invariant i > 0 ==>
                      && playerValues == exprInit[..]
                      && exprValues != null
                      && exprValues.Length >= exprInit.Length
                      && exprValues[..exprInit.Length] == exprInit[..]
                      && if old(exprValues) != null && old(exprValues).Length >= exprInit.Length
                         then exprValues == old(exprValues)
                              && exprValues[exprInit.Length..] == old(exprValues[exprInit.Length..])
                         else fresh(exprValues) && exprValues.Length == exprInit.Length
          decreases (if i == 0 then 1 else 0), |playerValues| - i
        {
          playerValues := exprInit[..];
          if exprValues == null || exprValues.Length < exprInit.Length {
            exprValues := new real[exprInit.Length](_ => 0.0);
          }
          CopyInto(exprInit[..], exprValues, |playerValues|);
          i := i + 1;
        }
      }
    }

    /** The first two steps of Heal: the running values and the DNA. */
    method ResetBody()
      requires materialData.Keys == boundMaterial.Keys && DnaTables(dnaInit, dnaDeltas, dna)
      modifies this`materialData, this`shader, this`dna, this`dnaDeltas
      ensures materialData == MaterialsHealed(old(materialData))
      ensures shader == ShaderZeroed(old(shader), ParamSlots(old(materialData).Keys, old(materialData), boundMaterial))
      ensures dna == DnaHealed(dnaInit.Keys, dnaInit, old(dna))
      ensures dnaDeltas == DeltasHealed(dnaInit.Keys, dnaInit, old(dnaDeltas))
    {
      ResetMaterials();
      ResetDna();
    }

    /** Heal: the three stores back to their baselines, then the mesh is
        marked dirty. */
    method Heal()
      requires materialData.Keys == boundMaterial.Keys && DnaTables(dnaInit, dnaDeltas, dna)
      requires exprInit != null ==> hasExprPlayer
      modifies this`materialData, this`shader, this`dna, this`dnaDeltas,
               this`playerValues, this`exprValues, exprValues, this`events
      ensures materialData == MaterialsHealed(old(materialData))
      ensures shader == ShaderZeroed(old(shader), ParamSlots(old(materialData).Keys, old(materialData), boundMaterial))
      ensures dna == DnaHealed(dnaInit.Keys, dnaInit, old(dna))
      ensures dnaDeltas == DeltasHealed(dnaInit.Keys, dnaInit, old(dnaDeltas))
      ensures exprInit == null || |old(playerValues)| == 0 ==>
                playerValues == old(playerValues) && exprValues == old(exprValues)
                && (exprValues != null ==> exprValues[..] == old(exprValues[..]))
      ensures exprInit != null && |old(playerValues)| > 0 ==>
                && playerValues == exprInit[..]
                && exprValues != null
                && exprValues.Length >= exprInit.Length
                && exprValues[..exprInit.Length] == exprInit[..]
                && if old(exprValues) != null && old(exprValues).Length >= exprInit.Length
                   then exprValues == old(exprValues)
                        && exprValues[exprInit.Length..] == old(exprValues[exprInit.Length..])
                   else fresh(exprValues) && exprValues.Length == exprInit.Length
      ensures events == old(events) + [MeshDirty]
    {
      ResetBody();
      ResetExpressions();
      events := events + [MeshDirty];
    }

    /** ReadMaterialDataFromAvatar: clears both tables and reads every area
        whose material is found on the character's renderers; ok is false
        when an AreaId is added twice (the exception ends the read). */
    method ReadMaterialDataFromAvatar(renderers: seq<Renderer>) returns (ok: bool)
      modifies this`areaMatMap, this`materialData, this`boundMaterial
      ensures ok <==> ReadAreas(NoBindings(), renderers, areas).Some?
      ensures Bindings(areaMatMap, materialData, boundMaterial) == ReadUntilFail(NoBindings(), renderers, areas)
    {
      areaMatMap, materialData, boundMaterial := map[], map[], map[];
      ok := true;
      var i := 0;
      while i < |areas|
        invariant 0 <= i <= |areas|
        invariant ReadAreas(NoBindings(), renderers, areas)
                    == ReadAreas(Bindings(areaMatMap, materialData, boundMaterial), renderers, areas[i..])
        invariant ReadUntilFail(NoBindings(), renderers, areas)
                    == ReadUntilFail(Bindings(areaMatMap, materialData, boundMaterial), renderers, areas[i..])
      {
        var area := areas[i];
        assert areas[i..][1..] == areas[i + 1..];
        var found := GetMaterial(renderers, area);
        if found.Some? {
          var (mat, matInd) := found.value;
          var key := MatKey(area.renderer, matInd, area.paramId);
          if area.areaId in areaMatMap {
            ok := false;
            return;
          }
          areaMatMap := areaMatMap[area.areaId := key];
          if key !in materialData {
            materialData := materialData[key := MaterialParam(area.paramId, area.materialForceFactor, 0.0)];
            boundMaterial := boundMaterial[key := mat.id];
          }
        }
        i := i + 1;
      }
    }

    /** One pass of HandleCharacterUpdate's inner loop: every area whose
        material is found and whose id maps to a running value rebinds that
        value to the found material and writes the value onto it. */
    method RebindPass(renderers: seq<Renderer>)
      modifies this`boundMaterial, this`shader
      ensures var ws := RebindWrites(renderers, areaMatMap, materialData, areas);
              && boundMaterial == Overwrite(old(boundMaterial), BoundWrites(ws))
              && shader == Overwrite(old(shader), ShaderWrites(materialData, ws))
    {
      ghost var b0, s0 := boundMaterial, shader;
      var i := 0;
      while i < |areas|
        invariant 0 <= i <= |areas|
        invariant var ws := RebindWrites(renderers, areaMatMap, materialData, areas[..i]);
                  && boundMaterial == Overwrite(b0, BoundWrites(ws))
                  && shader == Overwrite(s0, ShaderWrites(materialData, ws))
      {
        var area := areas[i];
        RebindStep(renderers, areaMatMap, materialData, areas, i, b0, s0);
        var found := GetMaterial(renderers, area);
        if found.Some? && area.areaId in areaMatMap && areaMatMap[area.areaId] in materialData {
          var mat := found.value.0;
          var key := areaMatMap[area.areaId];
          var mp := materialData[key];
          boundMaterial := boundMaterial[key := mat.id];
          shader := shader[ShaderSlot(mat.id, mp.paramIndex) := mp.currentValue];
        }
        i := i + 1;
      }
      assert areas[..i] == areas;
    }

    /** HandleCharacterUpdate: with areas configured and at least one running
        value, the rebind pass runs once per running value; every pass after
        the first changes nothing more. */
    method HandleCharacterUpdate(renderers: seq<Renderer>)
      modifies this`boundMaterial, this`shader
      ensures var ws := RebindWrites(renderers, areaMatMap, materialData, areas);
              if areasConfigured && materialData != map[] then
                && boundMaterial == Overwrite(old(boundMaterial), BoundWrites(ws))
                && shader == Overwrite(old(shader), ShaderWrites(materialData, ws))
              else boundMaterial == old(boundMaterial) && shader == old(shader)
    {
      if !areasConfigured {
        return;
      }
      ghost var bw := BoundWrites(RebindWrites(renderers, areaMatMap, materialData, areas));
      ghost var sw := ShaderWrites(materialData, RebindWrites(renderers, areaMatMap, materialData, areas));
      var keys := materialData.Keys;
      ghost var passes: nat := 0;
      while |keys| > 0
        invariant keys <= materialData.Keys
        invariant passes == 0 <==> keys == materialData.Keys
        invariant boundMaterial == Repeat(old(boundMaterial), bw, passes)
        invariant shader == Repeat(old(shader), sw, passes)
        decreases keys
      {
        var k :| k in keys;
        RebindPass(renderers);
        keys := keys - {k};
        passes := passes + 1;
      }
      if passes > 0 {
        RebindPassesCollapse(old(boundMaterial), bw, passes);
        RebindPassesCollapse(old(shader), sw, passes);
      } else {
        assert materialData.Keys == {};
      }
    }

    /** copyExpressionValuesToArray: reuses the array when it is long
        enough, otherwise allocates one of exactly the right length, and
        copies the player's values into its front. */
    method CopyPlayerValues(values: seq<real>, to: array?<real>) returns (arr: array<real>)
      modifies to
      ensures arr.Length >= |values| && arr[..|values|] == values
      ensures if to != null && to.Length >= |values|
              then arr == to && arr[|values|..] == old(to[|values|..])
              else fresh(arr) && arr.Length == |values|
    {
      if to == null || to.Length < |values| {
        arr := new real[|values|](_ => 0.0);
      } else {
        arr := to;
      }
      CopyInto(values, arr, |values|);
    }

    /** What InitUmaExpressionPlayer leaves. With a player (found), its
        values are the player's, and both arrays start with them; each array
        is the old one, its tail kept, when that was long enough, and a fresh
        one of exactly that length otherwise. Without a player, only the
        player reference changes. */
    twostate predicate ExprPlayerInitialised(found: bool, values: seq<real>)
      reads this, exprInit, exprValues
    {
      && hasExprPlayer == found
      && (found ==>
            && playerValues == values
            && exprInit != null && exprValues != null && exprInit != exprValues
            && exprInit.Length >= |values| && exprInit[..|values|] == values
            && exprValues.Length >= |values| && exprValues[..|values|] == values
            && (if old(exprInit) != null && old(exprInit).Length >= |values|
                then exprInit == old(exprInit) && exprInit[|values|..] == old(exprInit[|values|..])
                else fresh(exprInit) && exprInit.Length == |values|)
            && (if old(exprValues) != null && old(exprValues).Length >= |values|
                then exprValues == old(exprValues) && exprValues[|values|..] == old(exprValues[|values|..])
                else fresh(exprValues) && exprValues.Length == |values|))
      && (!found ==>
            && exprInit == old(exprInit) && exprValues == old(exprValues) && playerValues == old(playerValues)
            && (exprInit != null ==> exprInit[..] == old(exprInit[..]))
            && (exprValues != null ==> exprValues[..] == old(exprValues[..])))
    }

    /** InitUmaExpressionPlayer: with a player on the character (found), its
        values become both the baseline and the current values; the player
        reference is replaced in either case. */
    method InitUmaExpressionPlayer(found: bool, values: seq<real>)
      requires exprInit != null ==> exprInit != exprValues
      modifies this`exprInit, this`exprValues, exprInit, exprValues, this`hasExprPlayer, this`playerValues
      ensures ExprPlayerInitialised(found, values)
    {
      if found {
        var init := CopyPlayerValues(values, exprInit);
        var vals := CopyPlayerValues(values, exprValues);
        exprInit, exprValues := init, vals;
        playerValues := values;
      }
      hasExprPlayer := found;
    }

    /** One config of InitUmaDnaValues: the first config of a DNA type
        records the channel's first Names.Length values and as many zero
        deltas. */
    method RecordDnaConfig(c: DnaEffectConfig)
      requires c.asset.typeHash !in dnaInit && |c.asset.names| > 0 ==>
                 c.asset.typeHash in dna && |c.asset.names| <= |dna[c.asset.typeHash].values|
      modifies this`dnaInit, this`dnaDeltas
      ensures DnaBaselines(dnaInit, dnaDeltas) == InitDnaConfig(DnaBaselines(old(dnaInit), old(dnaDeltas)), dna, c)
    {
      var h := c.asset.typeHash;
      if h !in dnaInit {
        var n := |c.asset.names|;
        ghost var i0, d0 := dnaInit, dnaDeltas;
        ghost var vs := if n > 0 then dna[h].values else [];
        dnaInit := dnaInit[h := []];
        dnaDeltas := dnaDeltas[h := []];
        var i := 0;
        while i < n
          invariant 0 <= i <= n
          invariant dnaInit == i0[h := vs[..i]]
          invariant dnaDeltas == d0[h := Zeros(i)]
        {
          assert vs[..i + 1] == vs[..i] + [dna[h].values[i]];
          dnaInit := dnaInit[h := dnaInit[h] + [dna[h].values[i]]];
          dnaDeltas := dnaDeltas[h := dnaDeltas[h] + [0.0]];
          i := i + 1;
        }
      }
    }

    /** The inner loop of InitUmaDnaValues over one area's configs; later
        stands for the configs of the areas still to come. */
    method RecordDnaConfigs(cfgs: seq<DnaEffectConfig>, ghost later: seq<DnaEffectConfig>)
      requires InitReady(DnaBaselines(dnaInit, dnaDeltas), dna, cfgs + later)
      modifies this`dnaInit, this`dnaDeltas
      ensures DnaBaselines(dnaInit, dnaDeltas) == InitDnaConfigs(DnaBaselines(old(dnaInit), old(dnaDeltas)), dna, cfgs)
      ensures InitReady(DnaBaselines(dnaInit, dnaDeltas), dna, later)
    {
      ghost var t0 := DnaBaselines(dnaInit, dnaDeltas);
      var j := 0;
      assert cfgs[0..] == cfgs;
      while j < |cfgs|
        invariant 0 <= j <= |cfgs|
        invariant DnaBaselines(dnaInit, dnaDeltas) == InitDnaConfigs(t0, dna, cfgs[..j])
        invariant InitReady(DnaBaselines(dnaInit, dnaDeltas), dna, cfgs[j..] + later)
      {
        ghost var rest := cfgs[j..] + later;
        ghost var t := DnaBaselines(dnaInit, dnaDeltas);
        assert rest[0] == cfgs[j] && rest[1..] == cfgs[j + 1..] + later;
        InitReadyHead(t, dna, rest);
        InitReadyStep(t, dna, rest);
        InitDnaConfigsAppend(t0, dna, cfgs[..j], [cfgs[j]]);
        assert cfgs[..j + 1] == cfgs[..j] + [cfgs[j]];
        RecordDnaConfig(cfgs[j]);
        j := j + 1;
      }
      assert cfgs[..j] == cfgs && cfgs[j..] + later == later;
    }

    /** InitUmaDnaValues: both tables are cleared and rebuilt from the DNA
        configs of every area, in order. */
    method InitUmaDnaValues()
      requires forall i :: 0 <= i < |areas| ==> areas[i].dnaConfigured
      requires InitReady(DnaBaselines(map[], map[]), dna, AllDnaConfigs(areas))
      modifies this`dnaInit, this`dnaDeltas
      ensures DnaBaselines(dnaInit, dnaDeltas) == InitDnaConfigs(DnaBaselines(map[], map[]), dna, AllDnaConfigs(areas))
    {
      ghost var goal := InitDnaConfigs(DnaBaselines(map[], map[]), dna, AllDnaConfigs(areas));
      dnaInit, dnaDeltas := map[], map[];
      var i := 0;
      assert areas[0..] == areas;
      ghost var rest := AllDnaConfigs(areas);
      while i < |areas|
        invariant 0 <= i <= |areas|
        invariant rest == AllDnaConfigs(areas[i..])
        invariant goal == InitDnaConfigs(DnaBaselines(dnaInit, dnaDeltas), dna, rest)
        invariant InitReady(DnaBaselines(dnaInit, dnaDeltas), dna, rest)
      {
        ghost var t := DnaBaselines(dnaInit, dnaDeltas);
        ghost var later := AllDnaConfigs(areas[i + 1..]);
        AllDnaConfigsAt(areas, i);
        InitDnaConfigsAppend(t, dna, areas[i].dnaConfigs, later);
        RecordDnaConfigs(areas[i].dnaConfigs, later);
        rest := later;
        i := i + 1;
      }
    }

    /** The first half of HandleCharacterCreation: the material tables are
        rebound when they hold running values and read afresh otherwise; ok
        is false when the fresh read ends in an exception. */
    method BindMaterials(renderers: seq<Renderer>) returns (ok: bool)
      requires areasConfigured
      modifies this`areaMatMap, this`materialData, this`boundMaterial, this`shader
      ensures old(materialData) != map[] ==>
                var ws := RebindWrites(renderers, areaMatMap, materialData, areas);
                && ok
                && areaMatMap == old(areaMatMap) && materialData == old(materialData)
                && boundMaterial == Overwrite(old(boundMaterial), BoundWrites(ws))
                && shader == Overwrite(old(shader), ShaderWrites(materialData, ws))
      ensures old(materialData) == map[] ==>
                && (ok <==> ReadAreas(NoBindings(), renderers, areas).Some?)
                && Bindings(areaMatMap, materialData, boundMaterial) == ReadUntilFail(NoBindings(), renderers, areas)
                && shader == old(shader)
    {
      if materialData != map[] {
        HandleCharacterUpdate(renderers);
        ok := true;
      } else {
        ok := ReadMaterialDataFromAvatar(renderers);
      }
    }

    /** The second half of HandleCharacterCreation. */
    method Initialise(found: bool, values: seq<real>)
      requires exprInit != null ==> exprInit != exprValues
      requires forall i :: 0 <= i < |areas| ==> areas[i].dnaConfigured
      requires InitReady(DnaBaselines(map[], map[]), dna, AllDnaConfigs(areas))
      modifies this`exprInit, this`exprValues, exprInit, exprValues, this`hasExprPlayer, this`playerValues,
               this`dnaInit, this`dnaDeltas
      ensures ExprPlayerInitialised(found, values)
      ensures DnaRecorded(areas, dna, dnaInit, dnaDeltas)
    {
      InitUmaExpressionPlayer(found, values);
      InitUmaDnaValues();
    }

    /** HandleCharacterCreation: with areas configured, the material tables
        are bound, then the expression player and the DNA baselines are
        initialised; an exception in the fresh read (ok false) skips both
        initialisations. */
    method HandleCharacterCreation(renderers: seq<Renderer>, found: bool, values: seq<real>) returns (ok: bool)
      requires exprInit != null ==> exprInit != exprValues
      requires areasConfigured ==> forall i :: 0 <= i < |areas| ==> areas[i].dnaConfigured
      requires areasConfigured ==> InitReady(DnaBaselines(map[], map[]), dna, AllDnaConfigs(areas))
      modifies this`areaMatMap, this`materialData, this`boundMaterial, this`shader,
               this`exprInit, this`exprValues, exprInit, exprValues, this`hasExprPlayer, this`playerValues,
               this`dnaInit, this`dnaDeltas
      ensures !areasConfigured ==>
                && ok && unchanged(this)
                && (exprInit != null ==> exprInit[..] == old(exprInit[..]))
                && (exprValues != null ==> exprValues[..] == old(exprValues[..]))
      ensures areasConfigured && old(materialData) != map[] ==>
                var ws := RebindWrites(renderers, areaMatMap, materialData, areas);
                && ok
                && areaMatMap == old(areaMatMap) && materialData == old(materialData)
                && boundMaterial == Overwrite(old(boundMaterial), BoundWrites(ws))
                && shader == Overwrite(old(shader), ShaderWrites(materialData, ws))
      ensures areasConfigured && old(materialData) == map[] ==>
                && (ok <==> ReadAreas(NoBindings(), renderers, areas).Some?)
                && Bindings(areaMatMap, materialData, boundMaterial) == ReadUntilFail(NoBindings(), renderers, areas)
                && shader == old(shader)
      ensures areasConfigured && ok ==>
                ExprPlayerInitialised(found, values) && DnaRecorded(areas, dna, dnaInit, dnaDeltas)
      ensures areasConfigured && !ok ==>
                && (hasExprPlayer, playerValues, exprInit, exprValues, dnaInit, dnaDeltas)
                     == old((hasExprPlayer, playerValues, exprInit, exprValues, dnaInit, dnaDeltas))
                && (exprInit != null ==> exprInit[..] == old(exprInit[..]))
                && (exprValues != null ==> exprValues[..] == old(exprValues[..]))
    {
      if !areasConfigured {
        return true;
      }
      ok := BindMaterials(renderers);
      if ok {
        Initialise(found, values);
      }
    }
  }
}
