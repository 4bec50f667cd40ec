/** Random patient generation (UmaRandomPatient): a randomizer is chosen, one
    of its random avatars sets the race and the DNA, shared colors are drawn,
    and for every slot group one wardrobe entry is chosen by weight and put on
    the avatar with its colors.

    Every random number is taken from an explicit stream `draw`, read from a
    cursor that each operation advances by the draws it consumes. */
module RandomPatient {
  import opened Common

  /** An OverlayColorData, an opaque id. */
  type Color = int

  /** What RandomAvatar.GetRandomDNA returned, opaque. */
  type Dna = int

  /** A wardrobe recipe (UMATextRecipe): its name and the wardrobe slot it
      dresses. */
  datatype Recipe = Recipe(name: string, wardrobeSlot: string)

  /** RandomColors: a color name and a color table, None when the table is null. */
  datatype RandomColors = RandomColors(colorName: string, colorTable: Option<seq<Color>>)

  /** RandomWardrobeSlot: a recipe (None when null), its weight and its colors
      (None when the list is null). */
  datatype RandomWardrobeSlot = RandomWardrobeSlot(wardrobeSlot: Option<Recipe>, chance: int, colors: Option<seq<RandomColors>>)

  /** The random avatar a randomizer hands out, with its random DNA and random
      slot groups already drawn; the groups are listed in the order the
      dictionary returns its keys. */
  datatype RandomAvatar = RandomAvatar(
    raceName: string,
    dna: Dna,
    sharedColors: Option<seq<RandomColors>>,
    randomSlots: seq<(string, seq<RandomWardrobeSlot>)>)

  /** An UMARandomizer asset, known by its id. */
  datatype Randomizer = Randomizer(id: int)

  /** What Randomize sets on a DynamicCharacterAvatar. */
  datatype AvatarState = AvatarState(raceName: string, dna: Dna, recipes: map<string, Recipe>, colors: map<string, Color>)

  // ---------------------------------------------------------------------------
  // Draws
  // ---------------------------------------------------------------------------

  /** Random.Range(lo, hi) for integers, fed the raw draw d: a value in
      [lo, hi) when the range is not empty. An empty range gives lo; it only
      arises from a non-positive weight total, which the 1..100 chance
      sliders rule out. */
  function Range(lo: int, hi: int, d: nat): (r: int)
    ensures lo < hi ==> lo <= r < hi
    ensures hi <= lo ==> r == lo
  {
    if lo < hi then lo + d % (hi - lo) else lo
  }

  // ---------------------------------------------------------------------------
  // Weighted choice
  // ---------------------------------------------------------------------------

  /** The sum of the weights. */
  function Total(slots: seq<RandomWardrobeSlot>): int
    decreases |slots|
  {
    if slots == [] then 0 else Total(slots[..|slots| - 1]) + slots[|slots| - 1].chance
  }

  /** The draw taken at step j of the search falls under slot j's weight. */
  predicate Hit(slots: seq<RandomWardrobeSlot>, total: int, draw: nat -> nat, at: nat, j: nat)
    requires j < |slots|
  {
    Range(0, total, draw(at + j)) < slots[j].chance
  }

  /** The index the search settles on when it reaches step i: the first step
      from i on that hits, or the last slot when none does. */
  function PickFrom(slots: seq<RandomWardrobeSlot>, total: int, draw: nat -> nat, at: nat, i: nat): (r: nat)
    requires i < |slots|
    ensures i <= r < |slots|
    ensures forall j :: i <= j < r ==> !Hit(slots, total, draw, at, j)
    ensures Hit(slots, total, draw, at, r) || r == |slots| - 1
    decreases |slots| - i
  {
    if Hit(slots, total, draw, at, i) || i == |slots| - 1 then i
    else PickFrom(slots, total, draw, at, i + 1)
  }

  /** The index GetRandomWardrobe returns; it consumes Pick + 1 draws. */
  function Pick(slots: seq<RandomWardrobeSlot>, draw: nat -> nat, at: nat): nat
    requires |slots| > 0
  {
    PickFrom(slots, Total(slots), draw, at, 0)
  }

  /** Every slot before a slot whose weight covers the whole (positive)
      total is never chosen over it: the search stops there at the latest. */
  lemma {:induction false} CertainSlotStopsSearch(slots: seq<RandomWardrobeSlot>, draw: nat -> nat, at: nat, j: nat)
    requires j < |slots|
    requires Total(slots) > 0 && slots[j].chance >= Total(slots)
    ensures Pick(slots, draw, at) <= j
  {
    assert Hit(slots, Total(slots), draw, at, j);
  }

  /** A slot of weight zero or less is never hit by a draw: the search only
      returns it as the fallback for the last slot. */
  lemma ZeroChanceOnlyAsFallback(slots: seq<RandomWardrobeSlot>, draw: nat -> nat, at: nat)
    requires |slots| > 0
    ensures var r := Pick(slots, draw, at);
            slots[r].chance <= 0 ==> r == |slots| - 1
  {
    var r := Pick(slots, draw, at);
    assert slots[r].chance <= 0 ==> !Hit(slots, Total(slots), draw, at, r);
  }

  // ---------------------------------------------------------------------------
  // The outcome as values
  // ---------------------------------------------------------------------------

  /** GetRandomColor's index into a non-empty color table. */
  function ColorIndex(colors: seq<Color>, d: nat): (r: nat)
    requires |colors| > 0
    ensures r < |colors|
  {
    Range(0, |colors|, d)
  }

  /** Every color table that is present is not empty: GetRandomColor indexes it. */
  predicate TablesFilled(rcs: seq<RandomColors>) {
    forall i :: 0 <= i < |rcs| ==> rcs[i].colorTable.Some? ==> |rcs[i].colorTable.value| > 0
  }

  /** The number of entries with a color table: one draw each. */
  function ColorDraws(rcs: seq<RandomColors>): nat
    decreases |rcs|
  {
    if rcs == [] then 0 else (if rcs[0].colorTable.Some? then 1 else 0) + ColorDraws(rcs[1..])
  }

  /** The color loop: a random color for every entry whose table is not
      null, one draw each. */
  function SetColors(st: AvatarState, rcs: seq<RandomColors>, draw: nat -> nat, at: nat): (r: (AvatarState, nat))
    requires TablesFilled(rcs)
    ensures r.1 == at + ColorDraws(rcs)
    decreases |rcs|
  {
    if rcs == [] then (st, at)
    else
      var rc := rcs[0];
      assert TablesFilled(rcs[1..]) by {
        forall i | 0 <= i < |rcs[1..]| ensures rcs[1..][i].colorTable.Some? ==> |rcs[1..][i].colorTable.value| > 0 {
          assert rcs[1..][i] == rcs[i + 1];
        }
      }
      if rc.colorTable.Some? then
        var c := rc.colorTable.value[ColorIndex(rc.colorTable.value, draw(at))];
        SetColors(st.(colors := st.colors[rc.colorName := c]), rcs[1..], draw, at + 1)
      else SetColors(st, rcs[1..], draw, at)
  }

  /** The colors of a wardrobe entry, a null list being no colors. */
  function EntryColors(uwr: RandomWardrobeSlot): seq<RandomColors> {
    if uwr.colors.Some? then uwr.colors.value else []
  }

  /** AddRandomSlot: the recipe goes on the avatar, then its colors. */
  function AddSlot(st: AvatarState, uwr: RandomWardrobeSlot, draw: nat -> nat, at: nat): (AvatarState, nat)
    requires uwr.wardrobeSlot.Some? && TablesFilled(EntryColors(uwr))
  {
    var recipe := uwr.wardrobeSlot.value;
    SetColors(st.(recipes := st.recipes[recipe.wardrobeSlot := recipe]), EntryColors(uwr), draw, at)
  }

  /** A slot group can be drawn from with the draws from at on: it is not
      empty, and the entry chosen, when its recipe is put on, has only color
      tables that can be indexed. */
  predicate GroupDrawable(slots: seq<RandomWardrobeSlot>, draw: nat -> nat, at: nat) {
    && |slots| > 0
    && var uwr := slots[Pick(slots, draw, at)];
       uwr.wardrobeSlot.Some? ==> TablesFilled(EntryColors(uwr))
  }

  /** The cursor after dressing a group: the choice's draws, then one per
      color table of the entry chosen when it is put on. */
  function GroupEnd(slots: seq<RandomWardrobeSlot>, draw: nat -> nat, at: nat): nat
    requires |slots| > 0
  {
    var idx := Pick(slots, draw, at);
    at + idx + 1 + (if slots[idx].wardrobeSlot.Some? then ColorDraws(EntryColors(slots[idx])) else 0)
  }

  /** Every group is drawable at the cursor where the loop reaches it. */
  predicate GroupsDrawable(groups: seq<(string, seq<RandomWardrobeSlot>)>, draw: nat -> nat, at: nat)
    decreases |groups|
  {
    groups == [] ||
      (GroupDrawable(groups[0].1, draw, at) && GroupsDrawable(groups[1..], draw, GroupEnd(groups[0].1, draw, at)))
  }

  /** Groups that are all non-empty and whose entries all have indexable
      tables are drawable whatever the draws: the requirement only narrows
      that to the entries the draws choose. */
  lemma {:induction false} FilledGroupsDrawable(groups: seq<(string, seq<RandomWardrobeSlot>)>, draw: nat -> nat, at: nat)
    requires forall g :: 0 <= g < |groups| ==> |groups[g].1| > 0
    requires forall g, e :: 0 <= g < |groups| && 0 <= e < |groups[g].1| ==> TablesFilled(EntryColors(groups[g].1[e]))
    ensures GroupsDrawable(groups, draw, at)
    decreases |groups|
  {
    if groups != [] {
      var rest := groups[1..];
      forall g, e | 0 <= g < |rest| && 0 <= e < |rest[g].1| ensures TablesFilled(EntryColors(rest[g].1[e])) {
        assert rest[g] == groups[g + 1];
      }
      forall g | 0 <= g < |rest| ensures |rest[g].1| > 0 {
        assert rest[g] == groups[g + 1];
      }
      FilledGroupsDrawable(rest, draw, GroupEnd(groups[0].1, draw, at));
    }
  }

  /** One group: one entry chosen, put on when its recipe is not null. */
  function DressGroup(st: AvatarState, slots: seq<RandomWardrobeSlot>, draw: nat -> nat, at: nat): (r: (AvatarState, nat))
    requires GroupDrawable(slots, draw, at)
    ensures r.1 == GroupEnd(slots, draw, at)
  {
    var idx := Pick(slots, draw, at);
    var uwr := slots[idx];
    if uwr.wardrobeSlot.Some? then AddSlot(st, uwr, draw, at + idx + 1) else (st, at + idx + 1)
  }

  /** The slot-group loop. */
  function SetGroups(st: AvatarState, groups: seq<(string, seq<RandomWardrobeSlot>)>, draw: nat -> nat, at: nat): (AvatarState, nat)
    requires GroupsDrawable(groups, draw, at)
    decreases |groups|
  {
    if groups == [] then (st, at)
    else
      var (st', next) := DressGroup(st, groups[0].1, draw, at);
      SetGroups(st', groups[1..], draw, next)
  }

  /** A random avatar Randomize can dress with the draws from at on: its
      shared color tables can be indexed, and its groups are drawable after
      the shared colors' draws. */
  predicate Drawable(ra: RandomAvatar, draw: nat -> nat, at: nat) {
    && TablesFilled(Shared(ra))
    && GroupsDrawable(ra.randomSlots, draw, at + ColorDraws(Shared(ra)))
  }

  /** The shared colors, a null list being no colors. */
  function Shared(ra: RandomAvatar): seq<RandomColors> {
    if ra.sharedColors.Some? then ra.sharedColors.value else []
  }

  /** The randomizer Randomize chooses, if any, hands out a random avatar
      it can dress. */
  predicate ListedDrawable(randomizers: Option<seq<Option<Randomizer>>>, avatarOf: Randomizer -> RandomAvatar,
                           draw: nat -> nat, at: nat) {
    var (chosen, at1) := ChooseRandomizer(randomizers, draw, at);
    chosen.Some? ==> Drawable(avatarOf(chosen.value), draw, at1)
  }

  /** The randomizer Randomize uses, with the cursor after choosing it:
      none without a list or with an empty one, the only one without a draw,
      and one drawn in [0, Count) otherwise. */
  function ChooseRandomizer(randomizers: Option<seq<Option<Randomizer>>>, draw: nat -> nat, at: nat): (r: (Option<Randomizer>, nat))
    ensures randomizers.None? || |randomizers.value| == 0 ==> r == (None, at)
    ensures randomizers.Some? && |randomizers.value| == 1 ==> r == (randomizers.value[0], at)
    ensures randomizers.Some? && |randomizers.value| > 1 ==>
              r.1 == at + 1 && exists i :: 0 <= i < |randomizers.value| && r.0 == randomizers.value[i]
  {
    if randomizers.None? || |randomizers.value| == 0 then (None, at)
    else if |randomizers.value| == 1 then (randomizers.value[0], at)
    else (randomizers.value[Range(0, |randomizers.value|, draw(at))], at + 1)
  }

  /** Randomize as a value: the wardrobe is always emptied; then, when a
      randomizer is chosen, the race and DNA of its random avatar are set,
      the shared colors drawn and the slot groups dressed. */
  function RandomizeOutcome(st: AvatarState, randomizers: Option<seq<Option<Randomizer>>>,
                            avatarOf: Randomizer -> RandomAvatar, draw: nat -> nat, at: nat): (AvatarState, nat)
    requires ListedDrawable(randomizers, avatarOf, draw, at)
  {
    var cleared := st.(recipes := map[]);
    var (chosen, at1) := ChooseRandomizer(randomizers, draw, at);
    if chosen.None? then (cleared, at1)
    else
      var ra := avatarOf(chosen.value);
      var (st1, at2) := SetColors(cleared.(raceName := ra.raceName, dna := ra.dna), Shared(ra), draw, at1);
      SetGroups(st1, ra.randomSlots, draw, at2)
  }

  // ---------------------------------------------------------------------------
  // Properties of the outcome
  // ---------------------------------------------------------------------------

  /** The color loop only sets colors, sets one for every entry whose table
      is not null, and every color it changes is drawn from a table of that
      name; draws advance by one per such entry. */
  lemma {:induction false} SetColorsFromTables(st: AvatarState, rcs: seq<RandomColors>, draw: nat -> nat, at: nat)
    requires TablesFilled(rcs)
    ensures var (r, next) := SetColors(st, rcs, draw, at);
            && r.raceName == st.raceName && r.dna == st.dna && r.recipes == st.recipes
            && next >= at
            && (forall i :: 0 <= i < |rcs| && rcs[i].colorTable.Some? ==> rcs[i].colorName in r.colors)
            && (forall n :: n in st.colors ==> n in r.colors)
            && (forall n :: n in r.colors && (n !in st.colors || r.colors[n] != st.colors[n]) ==>
                  exists i :: 0 <= i < |rcs| && rcs[i].colorName == n && rcs[i].colorTable.Some? && r.colors[n] in rcs[i].colorTable.value)
    decreases |rcs|
  {
    if rcs != [] {
      var rc := rcs[0];
      var rest := rcs[1..];
      assert TablesFilled(rest) by {
        forall i | 0 <= i < |rest| ensures rest[i].colorTable.Some? ==> |rest[i].colorTable.value| > 0 {
          assert rest[i] == rcs[i + 1];
        }
      }
      var st' := if rc.colorTable.Some? then st.(colors := st.colors[rc.colorName := rc.colorTable.value[ColorIndex(rc.colorTable.value, draw(at))]]) else st;
      var at' := if rc.colorTable.Some? then at + 1 else at;
      assert SetColors(st, rcs, draw, at) == SetColors(st', rest, draw, at');
      SetColorsFromTables(st', rest, draw, at');
      var (r, next) := SetColors(st, rcs, draw, at);
      forall i | 0 <= i < |rcs| && rcs[i].colorTable.Some? ensures rcs[i].colorName in r.colors {
        if i > 0 { assert rcs[i] == rest[i - 1]; }
      }
      forall n | n in r.colors && (n !in st.colors || r.colors[n] != st.colors[n])
        ensures exists i :: 0 <= i < |rcs| && rcs[i].colorName == n && rcs[i].colorTable.Some? && r.colors[n] in rcs[i].colorTable.value
      {
        if n in st'.colors && r.colors[n] == st'.colors[n] {
          assert rcs[0].colorName == n && rcs[0].colorTable.Some? && r.colors[n] in rcs[0].colorTable.value;
        } else {
          var i :| 0 <= i < |rest| && rest[i].colorName == n && rest[i].colorTable.Some? && r.colors[n] in rest[i].colorTable.value;
          assert rcs[i + 1] == rest[i];
        }
      }
    }
  }

  /** Dressing one group keeps race, DNA and every slot already dressed,
      and any recipe it puts on is that of an entry of the group. */
  lemma DressGroupFromEntries(st: AvatarState, slots: seq<RandomWardrobeSlot>, draw: nat -> nat, at: nat)
    requires GroupDrawable(slots, draw, at)
    ensures var (r, next) := DressGroup(st, slots, draw, at);
            && r.raceName == st.raceName && r.dna == st.dna
            && next > at
            && (forall k :: k in st.recipes ==> k in r.recipes)
            && (forall k :: k in r.recipes && (k !in st.recipes || r.recipes[k] != st.recipes[k]) ==>
                  r.recipes[k].wardrobeSlot == k
                  && exists e :: 0 <= e < |slots| && slots[e].wardrobeSlot == Some(r.recipes[k]))
  {
    var idx := Pick(slots, draw, at);
    var uwr := slots[idx];
    if uwr.wardrobeSlot.Some? {
      var recipe := uwr.wardrobeSlot.value;
      SetColorsFromTables(st.(recipes := st.recipes[recipe.wardrobeSlot := recipe]), EntryColors(uwr), draw, at + idx + 1);
    }
  }

  /** Dressing the slot groups keeps race, DNA and every slot already
      dressed, and every recipe it puts on is that of an entry of one of the
      groups, under its own wardrobe slot. */
  lemma {:induction false} SetGroupsFromEntries(st: AvatarState, groups: seq<(string, seq<RandomWardrobeSlot>)>, draw: nat -> nat, at: nat)
    requires GroupsDrawable(groups, draw, at)
    ensures var (r, next) := SetGroups(st, groups, draw, at);
            && r.raceName == st.raceName && r.dna == st.dna
            && next >= at
            && (forall k :: k in st.recipes ==> k in r.recipes)
            && (forall k :: k in r.recipes && (k !in st.recipes || r.recipes[k] != st.recipes[k]) ==>
                  r.recipes[k].wardrobeSlot == k
                  && exists g, e :: 0 <= g < |groups| && 0 <= e < |groups[g].1| && groups[g].1[e].wardrobeSlot == Some(r.recipes[k]))
    decreases |groups|
  {
    if groups != [] {
      var rest := groups[1..];
      var (st', next') := DressGroup(st, groups[0].1, draw, at);
      DressGroupFromEntries(st, groups[0].1, draw, at);
      SetGroupsFromEntries(st', rest, draw, next');
      var (r, next) := SetGroups(st, groups, draw, at);
      assert (r, next) == SetGroups(st', rest, draw, next');
      forall k | k in r.recipes && (k !in st.recipes || r.recipes[k] != st.recipes[k])
        ensures exists g, e :: 0 <= g < |groups| && 0 <= e < |groups[g].1| && groups[g].1[e].wardrobeSlot == Some(r.recipes[k])
      {
        if k in st'.recipes && r.recipes[k] == st'.recipes[k] {
          var e :| 0 <= e < |groups[0].1| && groups[0].1[e].wardrobeSlot == Some(r.recipes[k]);
        } else {
          var g, e :| 0 <= g < |rest| && 0 <= e < |rest[g].1| && rest[g].1[e].wardrobeSlot == Some(r.recipes[k]);
          assert groups[g + 1] == rest[g];
        }
      }
    }
  }

  /** After Randomize the wardrobe holds only recipes of the chosen random
      avatar's slot groups, each under its own wardrobe slot; without a
      randomizer it is empty. */
  lemma RandomizeDressesFromGroups(st: AvatarState, randomizers: Option<seq<Option<Randomizer>>>,
                                   avatarOf: Randomizer -> RandomAvatar, draw: nat -> nat, at: nat)
    requires ListedDrawable(randomizers, avatarOf, draw, at)
    ensures var (r, _) := RandomizeOutcome(st, randomizers, avatarOf, draw, at);
            var (chosen, _) := ChooseRandomizer(randomizers, draw, at);
            && (chosen.None? ==> r.recipes == map[] && r.raceName == st.raceName && r.colors == st.colors)
            && (chosen.Some? ==>
                  var ra := avatarOf(chosen.value);
                  && r.raceName == ra.raceName && r.dna == ra.dna
                  && forall k :: k in r.recipes ==>
                       r.recipes[k].wardrobeSlot == k
                       && exists g, e :: 0 <= g < |ra.randomSlots| && 0 <= e < |ra.randomSlots[g].1|
                                         && ra.randomSlots[g].1[e].wardrobeSlot == Some(r.recipes[k]))
  {
    var (chosen, at1) := ChooseRandomizer(randomizers, draw, at);
    if chosen.Some? {
      var ra := avatarOf(chosen.value);
      var cleared := st.(recipes := map[]).(raceName := ra.raceName, dna := ra.dna);
      SetColorsFromTables(cleared, Shared(ra), draw, at1);
      var (st1, at2) := SetColors(cleared, Shared(ra), draw, at1);
      SetGroupsFromEntries(st1, ra.randomSlots, draw, at2);
    }
  }

  // ---------------------------------------------------------------------------
  // The component
  // ---------------------------------------------------------------------------

  /** A DynamicCharacterAvatar as Randomize sees it. */
  class Avatar {
    var raceName: string
    var predefinedDna: Dna
    var wardrobeRecipes: map<string, Recipe>
    var colors: map<string, Color>

    function State(): AvatarState
      reads this
    {
      AvatarState(raceName, predefinedDna, wardrobeRecipes, colors)
    }

    constructor (st: AvatarState)
      ensures State() == st
    {
      raceName := st.raceName;
      predefinedDna := st.dna;
      wardrobeRecipes := st.recipes;
      colors := st.colors;
    }
  }

  /** UmaRandomPatient: its list of randomizers (None when null). */
  class RandomPatientGenerator {
    const randomizers: Option<seq<Option<Randomizer>>>

    constructor (randomizers: Option<seq<Option<Randomizer>>>)
      ensures this.randomizers == randomizers
    {
      this.randomizers := randomizers;
    }

    /** GetRandomWardrobe: sums the weights, then draws once per slot until
        a draw falls under the slot's weight, falling back to the last slot.
        The choice is Pick, and Pick + 1 draws are consumed. */
    method GetRandomWardrobe(wardrobeSlots: seq<RandomWardrobeSlot>, draw: nat -> nat, at: nat) returns (r: RandomWardrobeSlot, next: nat)
      requires |wardrobeSlots| > 0
      ensures r == wardrobeSlots[Pick(wardrobeSlots, draw, at)]
      ensures next == at + Pick(wardrobeSlots, draw, at) + 1
    {
      var total := 0;
      var i := 0;
      while i < |wardrobeSlots|
        invariant 0 <= i <= |wardrobeSlots|
        invariant total == Total(wardrobeSlots[..i])
      {
        assert wardrobeSlots[..i + 1][..i] == wardrobeSlots[..i];
        total := total + wardrobeSlots[i].chance;
        i := i + 1;
      }
      assert wardrobeSlots[..i] == wardrobeSlots;
      i := 0;
      while i < |wardrobeSlots|
        invariant 0 <= i <= |wardrobeSlots|
        invariant i < |wardrobeSlots| ==> Pick(wardrobeSlots, draw, at) == PickFrom(wardrobeSlots, total, draw, at, i)
        invariant i == |wardrobeSlots| ==> Pick(wardrobeSlots, draw, at) == |wardrobeSlots| - 1
      {
        if Range(0, total, draw(at + i)) < wardrobeSlots[i].chance {
          return wardrobeSlots[i], at + i + 1;
        }
        i := i + 1;
      }
      return wardrobeSlots[|wardrobeSlots| - 1], at + |wardrobeSlots|;
    }

    /** GetRandomColor: an entry of the table, consuming one draw. */
    method GetRandomColor(rc: RandomColors, draw: nat -> nat, at: nat) returns (c: Color)
      requires rc.colorTable.Some? && |rc.colorTable.value| > 0
      ensures c in rc.colorTable.value
      ensures c == rc.colorTable.value[ColorIndex(rc.colorTable.value, draw(at))]
    {
      var inx := Range(0, |rc.colorTable.value|, draw(at));
      c := rc.colorTable.value[inx];
    }

    /** The loop that sets a random color for every entry with a table. */
    method SetRandomColors(avatar: Avatar, rcs: seq<RandomColors>, draw: nat -> nat, at: nat) returns (next: nat)
      requires TablesFilled(rcs)
      modifies avatar
      ensures (avatar.State(), next) == SetColors(old(avatar.State()), rcs, draw, at)
    {
      next := at;
      var i := 0;
      while i < |rcs|
        invariant 0 <= i <= |rcs|
        invariant TablesFilled(rcs[i..])
        invariant SetColors(old(avatar.State()), rcs, draw, at) == SetColors(avatar.State(), rcs[i..], draw, next)
      {
        var rc := rcs[i];
        assert rcs[i..][1..] == rcs[i + 1..];
        assert rcs[i..][0] == rc;
        if rc.colorTable.Some? {
          var ocd := GetRandomColor(rc, draw, next);
          avatar.colors := avatar.colors[rc.colorName := ocd];
          next := next + 1;
        }
        i := i + 1;
      }
    }

    /** AddRandomSlot: puts the recipe on, then its colors. */
    method AddRandomSlot(avatar: Avatar, uwr: RandomWardrobeSlot, draw: nat -> nat, at: nat) returns (next: nat)
      requires uwr.wardrobeSlot.Some? && TablesFilled(EntryColors(uwr))
      modifies avatar
      ensures (avatar.State(), next) == AddSlot(old(avatar.State()), uwr, draw, at)
    {
      var recipe := uwr.wardrobeSlot.value;
      avatar.wardrobeRecipes := avatar.wardrobeRecipes[recipe.wardrobeSlot := recipe];
      next := at;
      if uwr.colors.Some? {
        next := SetRandomColors(avatar, uwr.colors.value, draw, at);
      }
    }

    /** The body of the loop over the slot groups. */
    method DressOneGroup(avatar: Avatar, slots: seq<RandomWardrobeSlot>, draw: nat -> nat, at: nat) returns (next: nat)
      requires GroupDrawable(slots, draw, at)
      modifies avatar
      ensures (avatar.State(), next) == DressGroup(old(avatar.State()), slots, draw, at)
    {
      var uwr;
      uwr, next := GetRandomWardrobe(slots, draw, at);
      if uwr.wardrobeSlot.Some? {
        next := AddRandomSlot(avatar, uwr, draw, next);
      }
    }

    /** The loop over the random avatar's slot groups. */
    method DressGroups(avatar: Avatar, groups: seq<(string, seq<RandomWardrobeSlot>)>, draw: nat -> nat, at: nat) returns (next: nat)
      requires GroupsDrawable(groups, draw, at)
      modifies avatar
      ensures (avatar.State(), next) == SetGroups(old(avatar.State()), groups, draw, at)
    {
      next := at;
      var i := 0;
      while i < |groups|
        invariant 0 <= i <= |groups|
        invariant GroupsDrawable(groups[i..], draw, next)
        invariant SetGroups(old(avatar.State()), groups, draw, at) == SetGroups(avatar.State(), groups[i..], draw, next)
      {
        assert groups[i..][1..] == groups[i + 1..];
        assert groups[i..][0] == groups[i];
        next := DressOneGroup(avatar, groups[i].1, draw, next);
        i := i + 1;
      }
    }

    /** Randomize: empties the wardrobe, then, when a randomizer is found,
        dresses the avatar from one of its random avatars. */
    method Randomize(avatar: Avatar, avatarOf: Randomizer -> RandomAvatar, draw: nat -> nat, at: nat) returns (next: nat)
      requires ListedDrawable(randomizers, avatarOf, draw, at)
      modifies avatar
      ensures (avatar.State(), next) == RandomizeOutcome(old(avatar.State()), randomizers, avatarOf, draw, at)
    {
      avatar.wardrobeRecipes := map[];
      next := at;
      var randomizer: Option<Randomizer> := None;
      if randomizers.Some? {
        if |randomizers.value| == 0 {
          return;
        }
        if |randomizers.value| == 1 {
          randomizer := randomizers.value[0];
        } else {
          randomizer := randomizers.value[Range(0, |randomizers.value|, draw(next))];
          next := next + 1;
        }
      }
      if randomizer.Some? {
        var ra := avatarOf(randomizer.value);
        avatar.raceName := ra.raceName;
        avatar.predefinedDna := ra.dna;
        if ra.sharedColors.Some? && |ra.sharedColors.value| > 0 {
          next := SetRandomColors(avatar, ra.sharedColors.value, draw, next);
        }
        next := DressGroups(avatar, ra.randomSlots, draw, next);
      }
    }
  }
}
