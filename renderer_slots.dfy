/** Renderer slot duplication (DcaRendererManager): when a character is built
    for the first time with custom renderers on, every recipe slot that a
    renderer element names, directly or through a wardrobe recipe, is copied
    once per renderer asset of that element, and the copies are put in front
    of the original slots. */
module RendererSlots {
  import opened Common

  /** A SlotDataAsset, known by its slot name. */
  datatype SlotAsset = SlotAsset(slotName: string)

  /** A SlotData of the character's recipe: its name, its renderer asset (an
      id; None is the default renderer) and the rest of its data (opaque). */
  datatype Slot = Slot(slotName: string, rendererAsset: Option<int>, data: int)

  /** A SlotData of a loaded wardrobe recipe: what addWardrobeSlotAssets reads. */
  datatype RecipeSlot = RecipeSlot(isBlendShapeSource: bool, asset: Option<SlotAsset>)

  /** RendererElement. None stands for a null list; wardrobeSlots is never
      null-checked and is a plain list. */
  datatype RendererElement = RendererElement(
    rendererAssets: Option<seq<int>>,
    slotAssets: Option<seq<Option<SlotAsset>>>,
    wardrobeSlots: seq<string>)

  /** The avatar's wardrobe as recipe.Load leaves _umaRecipe.slotDataList:
      a wardrobe slot that is absent has no recipe, and None is a null slot
      list. */
  type Wardrobe = map<string, Option<seq<Option<RecipeSlot>>>>

  // ---------------------------------------------------------------------------
  // Searches and collections
  // ---------------------------------------------------------------------------

  /** HasSlot: a null list has no slot; null entries never match. */
  function HasSlot(slots: Option<seq<Option<SlotAsset>>>, slotName: string): (r: bool)
    ensures r <==> slots.Some? && exists i :: 0 <= i < |slots.value| && slots.value[i].Some? && slots.value[i].value.slotName == slotName
    decreases if slots.Some? then |slots.value| else 0
  {
    if slots.None? || slots.value == [] then false
    else if slots.value[0].Some? && slots.value[0].value.slotName == slotName then true
    else
      var rest := slots.value[1..];
      assert forall i :: 1 <= i < |slots.value| ==> slots.value[i] == rest[i - 1];
      HasSlot(Some(rest), slotName)
  }

  /** The assets the loop of addWardrobeSlotAssets keeps from a loaded slot
      list: null slots, blend-shape sources and slots without an asset are
      skipped. */
  function LoadedAssets(slots: seq<Option<RecipeSlot>>): seq<Option<SlotAsset>>
    decreases |slots|
  {
    if slots == [] then []
    else
      var s := slots[|slots| - 1];
      LoadedAssets(slots[..|slots| - 1])
      + if s.Some? && !s.value.isBlendShapeSource && s.value.asset.Some? then [s.value.asset] else []
  }

  /** A loaded slot is usable: not null, not a blend-shape source, with an asset. */
  predicate Usable(s: Option<RecipeSlot>) {
    s.Some? && !s.value.isBlendShapeSource && s.value.asset.Some?
  }

  /** addWardrobeSlotAssets for one wardrobe slot. */
  function RecipeAssets(wardrobe: Wardrobe, wardrobeSlot: string): seq<Option<SlotAsset>> {
    if wardrobeSlot in wardrobe && wardrobe[wardrobeSlot].Some? then LoadedAssets(wardrobe[wardrobeSlot].value) else []
  }

  /** _wardrobeSlotAssets after the loop over an element's wardrobe slots. */
  function WardrobeAssets(wardrobe: Wardrobe, wardrobeSlots: seq<string>): seq<Option<SlotAsset>>
    decreases |wardrobeSlots|
  {
    if wardrobeSlots == [] then []
    else WardrobeAssets(wardrobe, wardrobeSlots[..|wardrobeSlots| - 1]) + RecipeAssets(wardrobe, wardrobeSlots[|wardrobeSlots| - 1])
  }

  /** A collected asset list never holds a null, and holds an asset iff a
      usable loaded slot carries it. */
  lemma {:induction false} LoadedAssetsKeepsUsable(slots: seq<Option<RecipeSlot>>)
    ensures var r := LoadedAssets(slots);
            && (forall k :: 0 <= k < |r| ==> r[k].Some?)
            && forall a :: Some(a) in r <==> exists j :: 0 <= j < |slots| && Usable(slots[j]) && slots[j].value.asset == Some(a)
    decreases |slots|
  {
    if slots != [] {
      var front := slots[..|slots| - 1];
      LoadedAssetsKeepsUsable(front);
      forall j | 0 <= j < |front| ensures front[j] == slots[j] { }
      var r := LoadedAssets(slots);
      forall a | exists j :: 0 <= j < |slots| && Usable(slots[j]) && slots[j].value.asset == Some(a)
        ensures Some(a) in r
      {
        var j :| 0 <= j < |slots| && Usable(slots[j]) && slots[j].value.asset == Some(a);
        if j < |front| {
          assert Usable(front[j]) && front[j].value.asset == Some(a);
        }
      }
    }
  }

  // ---------------------------------------------------------------------------
  // The copies
  // ---------------------------------------------------------------------------

  /** The innermost loop: one copy of slot per renderer asset. */
  function Copies(slot: Slot, renderers: seq<int>): seq<Slot>
    decreases |renderers|
  {
    if renderers == [] then []
    else Copies(slot, renderers[..|renderers| - 1]) + [slot.(rendererAsset := Some(renderers[|renderers| - 1]))]
  }

  /** A matching slot yields exactly one copy per renderer asset, the k-th
      copy carrying the k-th asset and otherwise equal to the slot. */
  lemma {:induction false} CopiesCarryAssets(slot: Slot, renderers: seq<int>)
    ensures var r := Copies(slot, renderers);
            |r| == |renderers| && forall k :: 0 <= k < |r| ==> r[k] == slot.(rendererAsset := Some(renderers[k]))
    decreases |renderers|
  {
    if renderers != [] {
      CopiesCarryAssets(slot, renderers[..|renderers| - 1]);
    }
  }

  /** The test of the middle loop: a slot named directly by the element, or
      by one of its wardrobe recipes. */
  predicate Matches(e: RendererElement, wardrobe: Wardrobe, slot: Slot) {
    HasSlot(e.slotAssets, slot.slotName) || HasSlot(Some(WardrobeAssets(wardrobe, e.wardrobeSlots)), slot.slotName)
  }

  /** The copies one element adds, in recipe order. */
  function ElementCopies(e: RendererElement, wardrobe: Wardrobe, current: seq<Slot>): seq<Slot>
    requires e.rendererAssets.Some?
    decreases |current|
  {
    if current == [] then []
    else
      var slot := current[|current| - 1];
      ElementCopies(e, wardrobe, current[..|current| - 1])
      + if Matches(e, wardrobe, slot) then Copies(slot, e.rendererAssets.value) else []
  }

  /** An element takes part iff its renderer list is neither null nor empty. */
  predicate Active(e: RendererElement) {
    e.rendererAssets.Some? && |e.rendererAssets.value| > 0
  }

  /** _slotsToAdd after the outer loop. */
  function AllCopies(elements: seq<RendererElement>, wardrobe: Wardrobe, current: seq<Slot>): seq<Slot>
    decreases |elements|
  {
    if elements == [] then []
    else
      var e := elements[|elements| - 1];
      AllCopies(elements[..|elements| - 1], wardrobe, current)
      + if Active(e) then ElementCopies(e, wardrobe, current) else []
  }

  /** The recipe's slot list after addSlotsForRenderers. */
  function WithCopies(elements: seq<RendererElement>, wardrobe: Wardrobe, current: seq<Slot>): seq<Slot> {
    var copies := AllCopies(elements, wardrobe, current);
    if |copies| > 0 then copies + current else current
  }

  /** How many recipe slots an element matches. */
  function MatchCount(e: RendererElement, wardrobe: Wardrobe, current: seq<Slot>): nat
    decreases |current|
  {
    if current == [] then 0
    else MatchCount(e, wardrobe, current[..|current| - 1]) + if Matches(e, wardrobe, current[|current| - 1]) then 1 else 0
  }

  /** An element adds |rendererAssets| copies per matching slot. */
  lemma {:induction false} ElementCopiesCount(e: RendererElement, wardrobe: Wardrobe, current: seq<Slot>)
    requires e.rendererAssets.Some?
    ensures |ElementCopies(e, wardrobe, current)| == |e.rendererAssets.value| * MatchCount(e, wardrobe, current)
    decreases |current|
  {
    if current != [] {
      var front := current[..|current| - 1];
      var n := |e.rendererAssets.value|;
      ElementCopiesCount(e, wardrobe, front);
      CopiesCarryAssets(current[|current| - 1], e.rendererAssets.value);
      assert n * (MatchCount(e, wardrobe, front) + 1) == n * MatchCount(e, wardrobe, front) + n;
    }
  }

  /** Every copy an element adds is a matching slot of the recipe carrying
      one of the element's renderer assets. */
  lemma {:induction false} ElementCopiesFromMatches(e: RendererElement, wardrobe: Wardrobe, current: seq<Slot>)
    requires e.rendererAssets.Some?
    ensures forall c :: c in ElementCopies(e, wardrobe, current) ==>
              exists j, k :: 0 <= j < |current| && 0 <= k < |e.rendererAssets.value| && Matches(e, wardrobe, current[j])
                             && c == current[j].(rendererAsset := Some(e.rendererAssets.value[k]))
    decreases |current|
  {
    if current != [] {
      var front := current[..|current| - 1];
      var slot := current[|current| - 1];
      var rs := e.rendererAssets.value;
      ElementCopiesFromMatches(e, wardrobe, front);
      CopiesCarryAssets(slot, rs);
      forall c | c in ElementCopies(e, wardrobe, current)
        ensures exists j, k :: 0 <= j < |current| && 0 <= k < |rs| && Matches(e, wardrobe, current[j])
                               && c == current[j].(rendererAsset := Some(rs[k]))
      {
        if c in ElementCopies(e, wardrobe, front) {
          var j, k :| 0 <= j < |front| && 0 <= k < |rs| && Matches(e, wardrobe, front[j])
                      && c == front[j].(rendererAsset := Some(rs[k]));
          assert current[j] == front[j];
        } else {
          var cs := Copies(slot, rs);
          var k :| 0 <= k < |cs| && cs[k] == c;
          assert current[|current| - 1] == slot;
        }
      }
    }
  }

  /** A wardrobe slot's recipe offers an asset: it is loaded, its slot list
      is not null, and one of its usable slots carries the asset. */
  ghost predicate Offers(wardrobe: Wardrobe, wardrobeSlot: string, a: SlotAsset) {
    && wardrobeSlot in wardrobe && wardrobe[wardrobeSlot].Some?
    && exists j :: 0 <= j < |wardrobe[wardrobeSlot].value|
                   && Usable(wardrobe[wardrobeSlot].value[j]) && wardrobe[wardrobeSlot].value[j].value.asset == Some(a)
  }

  /** _wardrobeSlotAssets never holds a null. */
  lemma {:induction false} WardrobeAssetsNonNull(wardrobe: Wardrobe, wardrobeSlots: seq<string>)
    ensures forall k :: 0 <= k < |WardrobeAssets(wardrobe, wardrobeSlots)| ==> WardrobeAssets(wardrobe, wardrobeSlots)[k].Some?
    decreases |wardrobeSlots|
  {
    if wardrobeSlots != [] {
      var front := wardrobeSlots[..|wardrobeSlots| - 1];
      var last := wardrobeSlots[|wardrobeSlots| - 1];
      WardrobeAssetsNonNull(wardrobe, front);
      if last in wardrobe && wardrobe[last].Some? {
        LoadedAssetsKeepsUsable(wardrobe[last].value);
      }
      var f: seq<Option<SlotAsset>>, l: seq<Option<SlotAsset>> := WardrobeAssets(wardrobe, front), RecipeAssets(wardrobe, last);
      forall k | 0 <= k < |f + l| ensures (f + l)[k].Some? {
        if k < |f| { assert (f + l)[k] == f[k]; }
      }
    }
  }

  /** _wardrobeSlotAssets holds an asset iff one of the element's wardrobe
      recipes offers it. */
  lemma {:induction false} WardrobeAssetsOffered(wardrobe: Wardrobe, wardrobeSlots: seq<string>, a: SlotAsset)
    ensures Some(a) in WardrobeAssets(wardrobe, wardrobeSlots) <==> exists i :: 0 <= i < |wardrobeSlots| && Offers(wardrobe, wardrobeSlots[i], a)
    decreases |wardrobeSlots|
  {
    if wardrobeSlots != [] {
      var front := wardrobeSlots[..|wardrobeSlots| - 1];
      var last := wardrobeSlots[|wardrobeSlots| - 1];
      WardrobeAssetsOffered(wardrobe, front, a);
      if last in wardrobe && wardrobe[last].Some? {
        LoadedAssetsKeepsUsable(wardrobe[last].value);
      }
      assert Some(a) in RecipeAssets(wardrobe, last) <==> Offers(wardrobe, last, a);
      if exists i :: 0 <= i < |wardrobeSlots| && Offers(wardrobe, wardrobeSlots[i], a) {
        var i :| 0 <= i < |wardrobeSlots| && Offers(wardrobe, wardrobeSlots[i], a);
        if i < |front| {
          assert front[i] == wardrobeSlots[i];
        }
      }
      if Some(a) in WardrobeAssets(wardrobe, front) {
        var i :| 0 <= i < |front| && Offers(wardrobe, front[i], a);
        assert wardrobeSlots[i] == front[i];
      }
    }
  }
  /** Every copy comes from an element with a non-empty renderer list, is
      one of the recipe's slots that element matches, and carries one of that
      element's renderer assets. */
  lemma {:induction false} AllCopiesFromActive(elements: seq<RendererElement>, wardrobe: Wardrobe, current: seq<Slot>)
    ensures forall c :: c in AllCopies(elements, wardrobe, current) ==>
              exists i, j, k :: 0 <= i < |elements| && Active(elements[i]) && 0 <= j < |current| && Matches(elements[i], wardrobe, current[j])
                                && 0 <= k < |elements[i].rendererAssets.value|
                                && c == current[j].(rendererAsset := Some(elements[i].rendererAssets.value[k]))
    decreases |elements|
  {
    if elements != [] {
      var front := elements[..|elements| - 1];
      var e := elements[|elements| - 1];
      AllCopiesFromActive(front, wardrobe, current);
      if Active(e) {
        ElementCopiesFromMatches(e, wardrobe, current);
      }
      forall c | c in AllCopies(elements, wardrobe, current)
        ensures exists i, j, k :: 0 <= i < |elements| && Active(elements[i]) && 0 <= j < |current| && Matches(elements[i], wardrobe, current[j])
                                  && 0 <= k < |elements[i].rendererAssets.value|
                                  && c == current[j].(rendererAsset := Some(elements[i].rendererAssets.value[k]))
      {
        if c in AllCopies(front, wardrobe, current) {
          var i, j, k :| 0 <= i < |front| && Active(front[i]) && 0 <= j < |current| && Matches(front[i], wardrobe, current[j])
                         && 0 <= k < |front[i].rendererAssets.value|
                         && c == current[j].(rendererAsset := Some(front[i].rendererAssets.value[k]));
          assert elements[i] == front[i];
        } else {
          var j, k :| 0 <= j < |current| && 0 <= k < |e.rendererAssets.value| && Matches(e, wardrobe, current[j])
                      && c == current[j].(rendererAsset := Some(e.rendererAssets.value[k]));
          assert elements[|elements| - 1] == e;
        }
      }
    }
  }

  // ---------------------------------------------------------------------------
  // The component
  // ---------------------------------------------------------------------------

  /** DcaRendererManager on one DynamicCharacterAvatar: its settings, its two
      flags, its two scratch lists, and the avatar state it reads and writes
      (the wardrobe it loads recipes from, the recipe's slot list it
      replaces, and the rebuilds it requests). */
  class RendererManager {
    const elements: seq<RendererElement>
    const wardrobe: Wardrobe
    var renderersEnabled: bool
    var lastRenderersEnabled: bool
    var areCustomRenderSlotsAdded: bool
    var slotsToAdd: seq<Slot>
    var wardrobeSlotAssets: seq<Option<SlotAsset>>
    /** umaData.umaRecipe.slotDataList. */
    var recipe: seq<Slot>
    /** How many times BuildCharacter was requested. */
    var buildRequests: nat

    /** The component after Start: the last value is the current one, so
        only a change triggers a rebuild. */
    constructor (elements: seq<RendererElement>, wardrobe: Wardrobe, renderersEnabled: bool, recipe: seq<Slot>)
      ensures this.elements == elements && this.wardrobe == wardrobe && this.recipe == recipe
      ensures this.renderersEnabled == renderersEnabled && lastRenderersEnabled == renderersEnabled
      ensures !areCustomRenderSlotsAdded && slotsToAdd == [] && wardrobeSlotAssets == [] && buildRequests == 0
    {
      this.elements := elements;
      this.wardrobe := wardrobe;
      this.renderersEnabled := renderersEnabled;
      this.recipe := recipe;
      lastRenderersEnabled := renderersEnabled;
      areCustomRenderSlotsAdded := false;
      slotsToAdd := [];
      wardrobeSlotAssets := [];
      buildRequests := 0;
    }

    /** Update: a changed RenderersEnabled asks for one rebuild and is then
        recorded, unless the race is invalid, an update is pending or the
        avatar is hidden, in which case nothing happens this frame. */
    method Update(raceValid: bool, updatePending: bool, hidden: bool)
      modifies this`lastRenderersEnabled, this`buildRequests
      ensures old(renderersEnabled != lastRenderersEnabled) && raceValid && !updatePending && !hidden ==>
                lastRenderersEnabled == renderersEnabled && buildRequests == old(buildRequests) + 1
      ensures !(old(renderersEnabled != lastRenderersEnabled) && raceValid && !updatePending && !hidden) ==>
                lastRenderersEnabled == old(lastRenderersEnabled) && buildRequests == old(buildRequests)
    {
      if renderersEnabled != lastRenderersEnabled {
        if !raceValid || updatePending || hidden {
          return;
        }
        lastRenderersEnabled := renderersEnabled;
        buildRequests := buildRequests + 1;
      }
    }

    /** addWardrobeSlotAssets: appends what the wardrobe recipe of one slot
        offers. */
    method AddWardrobeSlotAssets(wardrobeSlot: string)
      modifies this`wardrobeSlotAssets
      ensures wardrobeSlotAssets == old(wardrobeSlotAssets) + RecipeAssets(wardrobe, wardrobeSlot)
    {
      if wardrobeSlot in wardrobe && wardrobe[wardrobeSlot].Some? {
        var loaded := wardrobe[wardrobeSlot].value;
        ghost var w0 := wardrobeSlotAssets;
        var k := 0;
        while k < |loaded|
          invariant 0 <= k <= |loaded|
          invariant wardrobeSlotAssets == w0 + LoadedAssets(loaded[..k])
        {
          var slotData := loaded[k];
          assert loaded[..k + 1][..k] == loaded[..k];
          if slotData.Some? && !slotData.value.isBlendShapeSource && slotData.value.asset.Some? {
            wardrobeSlotAssets := wardrobeSlotAssets + [slotData.value.asset];
          }
          k := k + 1;
        }
        assert loaded[..k] == loaded;
      }
    }

    /** The loop that refills _wardrobeSlotAssets for one element. */
    method CollectWardrobeAssets(e: RendererElement)
      modifies this`wardrobeSlotAssets
      ensures wardrobeSlotAssets == WardrobeAssets(wardrobe, e.wardrobeSlots)
    {
      wardrobeSlotAssets := [];
      var j := 0;
      while j < |e.wardrobeSlots|
        invariant 0 <= j <= |e.wardrobeSlots|
        invariant wardrobeSlotAssets == WardrobeAssets(wardrobe, e.wardrobeSlots[..j])
      {
        assert e.wardrobeSlots[..j + 1][..j] == e.wardrobeSlots[..j];
        AddWardrobeSlotAssets(e.wardrobeSlots[j]);
        j := j + 1;
      }
      assert e.wardrobeSlots[..j] == e.wardrobeSlots;
    }

    /** The innermost loop: one copy of the slot per renderer asset. */
    method AddCopies(slot: Slot, renderers: seq<int>)
      modifies this`slotsToAdd
      ensures slotsToAdd == old(slotsToAdd) + Copies(slot, renderers)
    {
      ghost var s0 := slotsToAdd;
      var k := 0;
      while k < |renderers|
        invariant 0 <= k <= |renderers|
        invariant slotsToAdd == s0 + Copies(slot, renderers[..k])
      {
        assert renderers[..k + 1][..k] == renderers[..k];
        slotsToAdd := slotsToAdd + [slot.(rendererAsset := Some(renderers[k]))];
        k := k + 1;
      }
      assert renderers[..k] == renderers;
    }

    /** The middle loop for one active element. */
    method AddElementCopies(e: RendererElement, currentSlots: seq<Slot>)
      requires e.rendererAssets.Some?
      requires wardrobeSlotAssets == WardrobeAssets(wardrobe, e.wardrobeSlots)
      modifies this`slotsToAdd
      ensures slotsToAdd == old(slotsToAdd) + ElementCopies(e, wardrobe, currentSlots)
    {
      ghost var s0 := slotsToAdd;
      var j := 0;
      while j < |currentSlots|
        invariant 0 <= j <= |currentSlots|
        invariant slotsToAdd == s0 + ElementCopies(e, wardrobe, currentSlots[..j])
      {
        var slot := currentSlots[j];
        assert currentSlots[..j + 1][..j] == currentSlots[..j];
        if HasSlot(e.slotAssets, slot.slotName) || HasSlot(Some(wardrobeSlotAssets), slot.slotName) {
          AddCopies(slot, e.rendererAssets.value);
        }
        j := j + 1;
      }
      assert currentSlots[..j] == currentSlots;
    }

    /** addSlotsForRenderers: the recipe becomes the copies followed by its
        original slots when there are copies, and is untouched otherwise;
        both scratch lists end empty. */
    method AddSlotsForRenderers()
      modifies this`slotsToAdd, this`wardrobeSlotAssets, this`recipe
      ensures |AllCopies(elements, wardrobe, old(recipe))| > 0 ==> recipe == AllCopies(elements, wardrobe, old(recipe)) + old(recipe)
      ensures |AllCopies(elements, wardrobe, old(recipe))| == 0 ==> recipe == old(recipe)
      ensures slotsToAdd == [] && wardrobeSlotAssets == []
    {
      var currentSlots := recipe;
      slotsToAdd := [];
      var i := 0;
      while i < |elements|
        invariant 0 <= i <= |elements|
        invariant recipe == currentSlots
        invariant slotsToAdd == AllCopies(elements[..i], wardrobe, currentSlots)
      {
        var element := elements[i];
        assert elements[..i + 1][..i] == elements[..i];
        if element.rendererAssets.Some? && |element.rendererAssets.value| > 0 {
          CollectWardrobeAssets(element);
          AddElementCopies(element, currentSlots);
        }
        i := i + 1;
      }
      assert elements[..i] == elements;
      if |slotsToAdd| > 0 {
        slotsToAdd := slotsToAdd + currentSlots;
        recipe := slotsToAdd;
        slotsToAdd := [];
      }
      wardrobeSlotAssets := [];
    }

    /** CharacterBegun: adds the slots at most once, when renderers are on
        and the mesh is dirty, and then sets the flag for good. */
    method CharacterBegun(isMeshDirty: bool)
      modifies this`slotsToAdd, this`wardrobeSlotAssets, this`recipe, this`areCustomRenderSlotsAdded
      ensures old(areCustomRenderSlotsAdded) || !renderersEnabled || !isMeshDirty ==>
                recipe == old(recipe) && areCustomRenderSlotsAdded == old(areCustomRenderSlotsAdded)
                && slotsToAdd == old(slotsToAdd) && wardrobeSlotAssets == old(wardrobeSlotAssets)
      ensures !old(areCustomRenderSlotsAdded) && renderersEnabled && isMeshDirty ==>
                recipe == WithCopies(elements, wardrobe, old(recipe)) && areCustomRenderSlotsAdded
                && slotsToAdd == [] && wardrobeSlotAssets == []
      ensures old(areCustomRenderSlotsAdded) ==> areCustomRenderSlotsAdded
    {
      if areCustomRenderSlotsAdded || !renderersEnabled || !isMeshDirty {
        return;
      }
      AddSlotsForRenderers();
      areCustomRenderSlotsAdded := true;
    }
  }
}
