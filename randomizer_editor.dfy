/** The bookkeeping of the randomizer asset editor (UMARandomizerEditor):
    wardrobe recipes dropped on the inspector are added to the random avatar
    of the current race, items flagged for deletion are removed, pending
    additions are applied, and the asset is saved when anything changed.

    The random avatars and their entries are values: an in-place change to
    one of them is a new list with that entry replaced. */
module RandomizerBookkeeping {
  import opened Common

  /** RaceData: its name and the races it is cross-compatible with. */
  datatype RaceData = RaceData(raceName: string, crossCompatibleRaces: seq<string>)

  /** An UMAWardrobeRecipe: its name, its wardrobe slot and the races it fits. */
  datatype WardrobeRecipe = WardrobeRecipe(name: string, wardrobeSlot: string, compatibleRaces: seq<string>)

  /** RandomDNA: a DNA name and its delete flag. */
  datatype RandomDna = RandomDna(dnaName: string, delete: bool)

  /** RandomColors: an existing entry (by id) or one the editor created, with
      its delete flag. */
  datatype RandomColors = RandomColors(id: Option<int>, delete: bool)

  /** RandomWardrobeSlot. */
  datatype RandomWardrobeSlot = RandomWardrobeSlot(
    recipe: WardrobeRecipe, sortName: string, guiFoldout: bool, delete: bool,
    colors: seq<RandomColors>, addColorTable: bool)

  /** RandomAvatar; dnaAdd "" stands for both a null and an empty name. */
  datatype RandomAvatar = RandomAvatar(
    raceName: string, guiFoldout: bool, delete: bool, dnaAdd: string, dnaChanged: bool,
    randomDna: seq<RandomDna>, sharedColors: seq<RandomColors>, slots: seq<RandomWardrobeSlot>)

  // ---------------------------------------------------------------------------
  // Compatibility and lookup
  // ---------------------------------------------------------------------------

  /** RaceData.IsCrossCompatibleWith. */
  predicate CrossCompatible(race: RaceData, other: string) {
    other in race.crossCompatibleRaces
  }

  /** RecipeCompatible over the races listed from position i on. */
  function CompatibleFrom(races: seq<string>, race: RaceData, i: nat): (r: bool)
    requires i <= |races|
    ensures r <==> exists j :: i <= j < |races| && (races[j] == race.raceName || CrossCompatible(race, races[j]))
    decreases |races| - i
  {
    if i == |races| then false
    else if races[i] == race.raceName || CrossCompatible(race, races[i]) then true
    else CompatibleFrom(races, race, i + 1)
  }

  /** RecipeCompatible: some race the recipe lists is the race itself or one
      it is cross-compatible with. */
  function Compatible(uwr: WardrobeRecipe, race: RaceData): (r: bool)
    ensures r <==> exists j :: 0 <= j < |uwr.compatibleRaces| && (uwr.compatibleRaces[j] == race.raceName || CrossCompatible(race, uwr.compatibleRaces[j]))
  {
    CompatibleFrom(uwr.compatibleRaces, race, 0)
  }

  /** The random avatar FindAvatar creates for a race not yet listed. */
  function NewAvatar(race: RaceData): RandomAvatar {
    RandomAvatar(race.raceName, false, false, "", false, [], [], [])
  }

  /** The entry a dropped recipe becomes, sorted under its wardrobe slot. */
  function NewSlot(uwr: WardrobeRecipe): RandomWardrobeSlot {
    RandomWardrobeSlot(uwr, uwr.wardrobeSlot, false, false, [], false)
  }

  // ---------------------------------------------------------------------------
  // Sorting by SortName
  // ---------------------------------------------------------------------------

  /** The order of SortName.CompareTo, taken as ordinal character order. */
  predicate NameLe(a: string, b: string)
    decreases |a|
  {
    a == [] || (b != [] && (a[0] < b[0] || (a[0] == b[0] && NameLe(a[1..], b[1..]))))
  }

  lemma {:induction false} NameLeTotal(a: string, b: string)
    ensures NameLe(a, b) || NameLe(b, a)
    decreases |a|
  {
    if a != [] && b != [] && a[0] == b[0] {
      NameLeTotal(a[1..], b[1..]);
    }
  }

  lemma {:induction false} NameLeTrans(a: string, b: string, c: string)
    requires NameLe(a, b) && NameLe(b, c)
    ensures NameLe(a, c)
    decreases |a|
  {
    if a != [] && b != [] && c != [] && a[0] == b[0] && b[0] == c[0] {
      NameLeTrans(a[1..], b[1..], c[1..]);
    }
  }

  predicate SortedByName(s: seq<RandomWardrobeSlot>) {
    forall i, j :: 0 <= i < j < |s| ==> NameLe(s[i].sortName, s[j].sortName)
  }

  /** Every entry of s sorts at or after the name b. */
  predicate AllFrom(b: string, s: seq<RandomWardrobeSlot>) {
    forall k :: 0 <= k < |s| ==> NameLe(b, s[k].sortName)
  }

  /** Inserting one entry into a sorted list, before the first entry it
      does not sort after. */
  function Insert(x: RandomWardrobeSlot, s: seq<RandomWardrobeSlot>): (r: seq<RandomWardrobeSlot>)
    ensures multiset(r) == multiset(s) + multiset{x}
    decreases |s|
  {
    if s == [] || NameLe(x.sortName, s[0].sortName) then [x] + s
    else
      assert s == [s[0]] + s[1..];
      [s[0]] + Insert(x, s[1..])
  }

  /** A lower bound of the list and of the new entry bounds the result. */
  lemma {:induction false} InsertFrom(b: string, x: RandomWardrobeSlot, s: seq<RandomWardrobeSlot>)
    requires AllFrom(b, s) && NameLe(b, x.sortName)
    ensures AllFrom(b, Insert(x, s))
    decreases |s|
  {
    if !(s == [] || NameLe(x.sortName, s[0].sortName)) {
      InsertFrom(b, x, s[1..]);
      var r := Insert(x, s);
      assert r == [s[0]] + Insert(x, s[1..]);
      forall k | 0 <= k < |r| ensures NameLe(b, r[k].sortName) {
        if k == 0 { assert r[0] == s[0]; } else { assert r[k] == Insert(x, s[1..])[k - 1]; }
      }
    }
  }

  /** A sorted list is its head, then a sorted tail that sorts after it. */
  lemma SortedCons(y: RandomWardrobeSlot, t: seq<RandomWardrobeSlot>)
    ensures SortedByName([y] + t) <==> AllFrom(y.sortName, t) && SortedByName(t)
  {
    var r := [y] + t;
    if AllFrom(y.sortName, t) && SortedByName(t) {
      forall i, j | 0 <= i < j < |r| ensures NameLe(r[i].sortName, r[j].sortName) {
        if i > 0 { assert r[i] == t[i - 1] && r[j] == t[j - 1]; }
      }
    }
    if SortedByName(r) {
      forall k | 0 <= k < |t| ensures NameLe(y.sortName, t[k].sortName) { assert r[0] == y && r[k + 1] == t[k]; }
      forall i, j | 0 <= i < j < |t| ensures NameLe(t[i].sortName, t[j].sortName) { assert r[i + 1] == t[i] && r[j + 1] == t[j]; }
    }
  }

  /** Insertion keeps a list sorted. */
  lemma {:induction false} InsertSorted(x: RandomWardrobeSlot, s: seq<RandomWardrobeSlot>)
    requires SortedByName(s)
    ensures SortedByName(Insert(x, s))
    decreases |s|
  {
    if s == [] {
      SortedCons(x, s);
    } else if NameLe(x.sortName, s[0].sortName) {
      assert s == [s[0]] + s[1..];
      SortedCons(s[0], s[1..]);
      forall k | 0 <= k < |s| ensures NameLe(x.sortName, s[k].sortName) {
        if k > 0 { NameLeTrans(x.sortName, s[0].sortName, s[k].sortName); }
      }
      SortedCons(x, s);
    } else {
      assert s == [s[0]] + s[1..];
      SortedCons(s[0], s[1..]);
      NameLeTotal(x.sortName, s[0].sortName);
      InsertSorted(x, s[1..]);
      InsertFrom(s[0].sortName, x, s[1..]);
      SortedCons(s[0], Insert(x, s[1..]));
    }
  }

  /** List.Sort by SortName, as an insertion sort: one sorted arrangement of
      the entries. */
  function SortByName(s: seq<RandomWardrobeSlot>): (r: seq<RandomWardrobeSlot>)
    ensures SortedByName(r) && multiset(r) == multiset(s)
    decreases |s|
  {
    if s == [] then []
    else
      assert s == s[..|s| - 1] + [s[|s| - 1]];
      var front := SortByName(s[..|s| - 1]);
      InsertSorted(s[|s| - 1], front);
      Insert(s[|s| - 1], front)
  }

  // ---------------------------------------------------------------------------
  // Dropped items
  // ---------------------------------------------------------------------------

  /** Every foldout of a slot list closed. */
  function CollapseSlots(slots: seq<RandomWardrobeSlot>): seq<RandomWardrobeSlot>
    decreases |slots|
  {
    if slots == [] then []
    else CollapseSlots(slots[..|slots| - 1]) + [slots[|slots| - 1].(guiFoldout := false)]
  }

  /** Every foldout of an avatar and of its slots closed. */
  function Collapse(ra: RandomAvatar): RandomAvatar {
    ra.(guiFoldout := false, slots := CollapseSlots(ra.slots))
  }

  function CollapseAll(avatars: seq<RandomAvatar>): seq<RandomAvatar>
    decreases |avatars|
  {
    if avatars == [] then []
    else CollapseAll(avatars[..|avatars| - 1]) + [Collapse(avatars[|avatars| - 1])]
  }

  /** The entries the dropped recipes compatible with the race become, in
      drop order. */
  function AddedSlots(dropped: seq<WardrobeRecipe>, race: RaceData): seq<RandomWardrobeSlot>
    decreases |dropped|
  {
    if dropped == [] then []
    else AddedSlots(dropped[..|dropped| - 1], race)
         + if Compatible(dropped[|dropped| - 1], race) then [NewSlot(dropped[|dropped| - 1])] else []
  }

  /** FindAvatar as a value: the list, grown by one new avatar when no avatar
      has the race, and the position of the avatar found or created. */
  function Found(avatars: seq<RandomAvatar>, race: RaceData): (seq<RandomAvatar>, nat) {
    match RaceIndex(avatars, race.raceName, 0)
    case Some(i) => (avatars, i)
    case None => (avatars + [NewAvatar(race)], |avatars|)
  }

  /** The search of FindAvatar from position i on. */
  function RaceIndex(avatars: seq<RandomAvatar>, raceName: string, i: nat): (r: Option<nat>)
    requires i <= |avatars|
    ensures r.Some? ==> i <= r.value < |avatars| && avatars[r.value].raceName == raceName
    ensures r.Some? ==> forall j :: i <= j < r.value ==> avatars[j].raceName != raceName
    ensures r.None? <==> forall j :: i <= j < |avatars| ==> avatars[j].raceName != raceName
    decreases |avatars| - i
  {
    if i == |avatars| then None
    else if avatars[i].raceName == raceName then Some(i)
    else RaceIndex(avatars, raceName, i + 1)
  }

  /** The search only looks at race names. */
  lemma {:induction false} RaceIndexByNames(a: seq<RandomAvatar>, b: seq<RandomAvatar>, raceName: string, i: nat)
    requires |a| == |b| && i <= |a|
    requires forall k :: 0 <= k < |a| ==> a[k].raceName == b[k].raceName
    ensures RaceIndex(a, raceName, i) == RaceIndex(b, raceName, i)
    decreases |a| - i
  {
    if i < |a| {
      RaceIndexByNames(a, b, raceName, i + 1);
    }
  }

  /** The dropped-items block of UpdateObject: all foldouts closed, the
      compatible recipes added to the race's avatar (opened when any is
      added) and that avatar's slots sorted. */
  function DropItems(avatars: seq<RandomAvatar>, dropped: seq<WardrobeRecipe>, race: RaceData): seq<RandomAvatar> {
    var (avs, i) := Found(CollapseAll(avatars), race);
    AddRecipes(avs, i, dropped, race)
  }

  /** The compatible dropped recipes added to avatar i, which is opened
      when any is added, and its slots sorted. */
  function AddRecipes(avs: seq<RandomAvatar>, i: nat, dropped: seq<WardrobeRecipe>, race: RaceData): seq<RandomAvatar>
    requires i < |avs|
  {
    var added := AddedSlots(dropped, race);
    var ra := avs[i];
    avs[i := ra.(guiFoldout := ra.guiFoldout || |added| > 0, slots := SortByName(ra.slots + added))]
  }

  /** The race UpdateObject adds dropped items for; it is only looked up
      when there are dropped items. */
  function CurrentRace(raceDatas: seq<RaceData>, currentRace: int): RaceData {
    if 0 <= currentRace < |raceDatas| then raceDatas[currentRace] else RaceData("", [])
  }

  // ---------------------------------------------------------------------------
  // Deletions and pending additions
  // ---------------------------------------------------------------------------

  /** The Delete flags RemoveAll tests. */
  predicate ColorFlagged(c: RandomColors) { c.delete }
  predicate DnaFlagged(d: RandomDna) { d.delete }
  predicate SlotFlagged(s: RandomWardrobeSlot) { s.delete }
  predicate AvatarFlagged(a: RandomAvatar) { a.delete }

  /** The loop body for one surviving slot: flagged colors removed, a
      requested color table added; with the changes it counts. */
  function CleanSlot(rws: RandomWardrobeSlot): (RandomWardrobeSlot, nat) {
    var colors := Keep(rws.colors, ColorFlagged);
    var removed := Dropped(rws.colors, ColorFlagged);
    if rws.addColorTable then (rws.(colors := colors + [RandomColors(None, false)], addColorTable := false), removed + 1)
    else (rws.(colors := colors), removed)
  }

  /** A loop that updates every element of a list in place and adds up the
      changes each update counts. */
  function Sweep<T>(xs: seq<T>, step: T -> (T, nat)): (seq<T>, nat)
    decreases |xs|
  {
    if xs == [] then ([], 0)
    else
      var front := Sweep(xs[..|xs| - 1], step);
      var last := step(xs[|xs| - 1]);
      (front.0 + [last.0], front.1 + last.1)
  }

  /** A sweep updates each element on its own. */
  lemma {:induction false} SweepPointwise<T>(xs: seq<T>, step: T -> (T, nat))
    ensures var r := Sweep(xs, step).0;
            |r| == |xs| && forall k :: 0 <= k < |r| ==> r[k] == step(xs[k]).0
    decreases |xs|
  {
    if xs != [] {
      SweepPointwise(xs[..|xs| - 1], step);
    }
  }

  /** A sweep counts nothing iff no update counts anything. */
  lemma {:induction false} SweepZero<T>(xs: seq<T>, step: T -> (T, nat))
    ensures Sweep(xs, step).1 == 0 <==> forall k :: 0 <= k < |xs| ==> step(xs[k]).1 == 0
    decreases |xs|
  {
    if xs != [] {
      var front := xs[..|xs| - 1];
      SweepZero(front, step);
      assert forall k :: 0 <= k < |front| ==> front[k] == xs[k];
    }
  }

  /** The loop over an avatar's surviving slots. */
  function CleanSlots(slots: seq<RandomWardrobeSlot>): (seq<RandomWardrobeSlot>, nat) {
    Sweep(slots, CleanSlot)
  }

  /** The DNA steps: a pending DNAAdd becomes an entry and is reset; flagged
      entries are removed; either marks the DNA changed and counts once. */
  function CleanDna(ra: RandomAvatar): (RandomAvatar, nat) {
    var ra1 := if ra.dnaAdd != "" then
                 ra.(dnaChanged := true, randomDna := ra.randomDna + [RandomDna(ra.dnaAdd, false)], dnaAdd := "")
               else ra;
    var n1 := if ra.dnaAdd != "" then 1 else 0;
    var removed := Dropped(ra1.randomDna, DnaFlagged);
    var ra2 := ra1.(randomDna := Keep(ra1.randomDna, DnaFlagged));
    if removed > 0 then (ra2.(dnaChanged := true), n1 + 1) else (ra2, n1)
  }

  /** The loop body for one surviving avatar, with the changes it counts. */
  function CleanAvatar(ra: RandomAvatar): (RandomAvatar, nat) {
    var dna := CleanDna(ra);
    var ra1 := dna.0;
    var slots := CleanSlots(Keep(ra1.slots, SlotFlagged));
    (ra1.(sharedColors := Keep(ra1.sharedColors, ColorFlagged), slots := slots.0),
     dna.1 + Dropped(ra1.sharedColors, ColorFlagged) + Dropped(ra1.slots, SlotFlagged) + slots.1)
  }

  /** The foreach over the surviving avatars. */
  function CleanAvatars(avatars: seq<RandomAvatar>): (seq<RandomAvatar>, nat) {
    Sweep(avatars, CleanAvatar)
  }

  /** Everything after the dropped items: flagged avatars removed, the rest
      cleaned, with the changes counted. */
  function CleanAll(avatars: seq<RandomAvatar>): (seq<RandomAvatar>, nat) {
    var cleaned := CleanAvatars(Keep(avatars, AvatarFlagged));
    (cleaned.0, Dropped(avatars, AvatarFlagged) + cleaned.1)
  }

  /** UpdateObject as a value: the new avatar list and ChangeCount. */
  function UpdateOutcome(avatars: seq<RandomAvatar>, dropped: seq<WardrobeRecipe>, race: RaceData): (seq<RandomAvatar>, nat) {
    var avs := if |dropped| > 0 then DropItems(avatars, dropped, race) else avatars;
    var cleaned := CleanAll(avs);
    (cleaned.0, |dropped| + cleaned.1)
  }

  // ---------------------------------------------------------------------------
  // Properties
  // ---------------------------------------------------------------------------

  /** FindAvatar finds the first avatar of the race; without one it appends
      exactly one new avatar of that race and returns it. */
  lemma FoundIsFirstOrNew(avatars: seq<RandomAvatar>, race: RaceData)
    ensures var (avs, i) := Found(avatars, race);
            && i < |avs| && avs[i].raceName == race.raceName
            && (forall j :: 0 <= j < i && j < |avatars| ==> avatars[j].raceName != race.raceName)
            && ((exists j :: 0 <= j < |avatars| && avatars[j].raceName == race.raceName) ==> avs == avatars)
            && ((forall j :: 0 <= j < |avatars| ==> avatars[j].raceName != race.raceName) ==>
                  avs == avatars + [NewAvatar(race)] && i == |avatars|)
  {
  }

  lemma {:induction false} CollapseSlotsShape(slots: seq<RandomWardrobeSlot>)
    ensures var r := CollapseSlots(slots);
            |r| == |slots| && forall k :: 0 <= k < |r| ==> r[k] == slots[k].(guiFoldout := false)
    decreases |slots|
  {
    if slots != [] {
      CollapseSlotsShape(slots[..|slots| - 1]);
    }
  }

  lemma {:induction false} CollapseAllShape(avatars: seq<RandomAvatar>)
    ensures var r := CollapseAll(avatars);
            |r| == |avatars| && forall k :: 0 <= k < |r| ==> r[k] == Collapse(avatars[k])
    decreases |avatars|
  {
    if avatars != [] {
      CollapseAllShape(avatars[..|avatars| - 1]);
    }
  }

  /** The entries added are exactly the compatible dropped recipes. */
  lemma {:induction false} AddedSlotsAreCompatible(dropped: seq<WardrobeRecipe>, race: RaceData)
    ensures forall s :: s in AddedSlots(dropped, race) <==>
              exists k :: 0 <= k < |dropped| && Compatible(dropped[k], race) && s == NewSlot(dropped[k])
    decreases |dropped|
  {
    if dropped != [] {
      var front := dropped[..|dropped| - 1];
      AddedSlotsAreCompatible(front, race);
      forall s ensures s in AddedSlots(dropped, race) <==>
                       exists k :: 0 <= k < |dropped| && Compatible(dropped[k], race) && s == NewSlot(dropped[k])
      {
        if exists k :: 0 <= k < |dropped| && Compatible(dropped[k], race) && s == NewSlot(dropped[k]) {
          var k :| 0 <= k < |dropped| && Compatible(dropped[k], race) && s == NewSlot(dropped[k]);
          if k < |front| { assert front[k] == dropped[k]; }
        }
        if s in AddedSlots(front, race) {
          var k :| 0 <= k < |front| && Compatible(front[k], race) && s == NewSlot(front[k]);
          assert dropped[k] == front[k];
        }
      }
    }
  }

  /** With dropped items: every avatar but the race's one only has its
      foldouts closed; the race's avatar holds its former slots (closed) and
      the compatible dropped recipes, sorted by SortName, and is open iff
      something was added. */
  lemma DropItemsEffect(avatars: seq<RandomAvatar>, dropped: seq<WardrobeRecipe>, race: RaceData)
    ensures var r := DropItems(avatars, dropped, race);
            var (_, i) := Found(avatars, race);
            var added := AddedSlots(dropped, race);
            && i < |r| && r[i].raceName == race.raceName
            && |r| == |Found(avatars, race).0|
            && (forall k :: 0 <= k < |avatars| && k != i ==> r[k] == Collapse(avatars[k]))
            && (forall k :: 0 <= k < |r| ==> r[k].delete == (k < |avatars| && avatars[k].delete))
            && SortedByName(r[i].slots)
            && multiset(r[i].slots) == multiset(CollapseSlots(Found(avatars, race).0[i].slots) + added)
            && (r[i].guiFoldout <==> |added| > 0)
  {
    FoundAfterCollapse(avatars, race);
  }

  /** Closing the foldouts does not change which avatar FindAvatar picks. */
  lemma FoundAfterCollapse(avatars: seq<RandomAvatar>, race: RaceData)
    ensures var (avs, i) := Found(avatars, race);
            var (cavs, ci) := Found(CollapseAll(avatars), race);
            && ci == i && |cavs| == |avs| && i < |avs|
            && cavs[i] == Collapse(avs[i])
            && !cavs[i].guiFoldout
            && forall k :: 0 <= k < |avatars| && k != i ==> cavs[k] == Collapse(avatars[k])
  {
    var c := CollapseAll(avatars);
    CollapseAllShape(avatars);
    RaceIndexByNames(avatars, c, race.raceName, 0);
    var r := RaceIndex(avatars, race.raceName, 0);
    if r.None? {
      assert Found(avatars, race) == (avatars + [NewAvatar(race)], |avatars|);
      assert Found(c, race) == (c + [NewAvatar(race)], |avatars|);
    } else {
      assert Found(avatars, race) == (avatars, r.value);
      assert Found(c, race) == (c, r.value);
    }
  }

  /** Nothing flagged, nothing pending on a slot. */
  predicate SlotSettled(rws: RandomWardrobeSlot) {
    !rws.addColorTable && forall c :: c in rws.colors ==> !c.delete
  }

  /** Nothing flagged, nothing pending on an avatar or its slots. */
  predicate AvatarSettled(ra: RandomAvatar) {
    && ra.dnaAdd == ""
    && (forall d :: d in ra.randomDna ==> !d.delete)
    && (forall c :: c in ra.sharedColors ==> !c.delete)
    && (forall s :: s in ra.slots ==> !s.delete && SlotSettled(s))
  }

  /** A cleaned slot is settled; its count is zero iff it was settled, and
      then it is unchanged. */
  lemma CleanSlotSettles(rws: RandomWardrobeSlot)
    ensures var (r, n) := CleanSlot(rws);
            && SlotSettled(r)
            && r.(colors := rws.colors, addColorTable := rws.addColorTable) == rws
            && (forall c :: c in rws.colors && !c.delete ==> c in r.colors)
            && (forall c :: c in r.colors ==> (c in rws.colors && !c.delete) || c == RandomColors(None, false))
            && (rws.addColorTable ==> RandomColors(None, false) in r.colors)
            && (n == 0 <==> SlotSettled(rws))
            && (SlotSettled(rws) ==> r == rws)
  {
    var drop := ColorFlagged;
    var kept := Keep(rws.colors, drop);
    if SlotSettled(rws) {
      KeepAll(rws.colors, drop);
    }
    assert Dropped(rws.colors, drop) == 0 <==> forall i :: 0 <= i < |rws.colors| ==> !drop(rws.colors[i]);
  }

  /** RemoveAll with nothing to remove leaves the list as it is. */
  lemma {:induction false} KeepAll<T>(s: seq<T>, drop: T -> bool)
    requires forall x :: x in s ==> !drop(x)
    ensures Keep(s, drop) == s
    decreases |s|
  {
    if s != [] {
      KeepAll(s[1..], drop);
      assert s == [s[0]] + s[1..];
    }
  }

  /** The slot loop settles every slot; its count is zero iff every slot
      was settled, and then the slots are unchanged. */
  lemma CleanSlotsSettles(slots: seq<RandomWardrobeSlot>)
    ensures var (r, n) := CleanSlots(slots);
            && |r| == |slots|
            && (forall k :: 0 <= k < |r| ==> SlotSettled(r[k]) && r[k].delete == slots[k].delete)
            && (forall k :: 0 <= k < |r| && SlotSettled(slots[k]) ==> r[k] == slots[k])
            && (n == 0 <==> forall k :: 0 <= k < |slots| ==> SlotSettled(slots[k]))
            && ((forall k :: 0 <= k < |slots| ==> SlotSettled(slots[k])) ==> r == slots)
  {
    SweepPointwise(slots, CleanSlot);
    SweepZero(slots, CleanSlot);
    forall k | 0 <= k < |slots| ensures var (r, n) := CleanSlot(slots[k]); SlotSettled(r) && (n == 0 <==> SlotSettled(slots[k])) && (SlotSettled(slots[k]) ==> r == slots[k]) {
      CleanSlotSettles(slots[k]);
    }
  }

  /** The DNA steps leave no pending name and no flagged entry: a pending
      name becomes an entry, unflagged entries stay, and the DNA is marked
      changed iff anything was counted; nothing is counted iff nothing was
      pending or flagged, and then the avatar is unchanged. */
  lemma CleanDnaSettles(ra: RandomAvatar)
    ensures var (r, n) := CleanDna(ra);
            && r.dnaAdd == ""
            && (forall d :: d in r.randomDna ==> !d.delete)
            && (ra.dnaAdd != "" ==> RandomDna(ra.dnaAdd, false) in r.randomDna)
            && (forall d :: d in ra.randomDna && !d.delete ==> d in r.randomDna)
            && (forall d :: d in r.randomDna ==> d in ra.randomDna || d == RandomDna(ra.dnaAdd, false))
            && r.(randomDna := ra.randomDna, dnaAdd := ra.dnaAdd, dnaChanged := ra.dnaChanged) == ra
            && (r.dnaChanged <==> ra.dnaChanged || n > 0)
            && (n == 0 <==> ra.dnaAdd == "" && forall d :: d in ra.randomDna ==> !d.delete)
            && (n == 0 ==> r == ra)
  {
    var drop := DnaFlagged;
    if ra.dnaAdd == "" && forall d :: d in ra.randomDna ==> !d.delete {
      KeepAll(ra.randomDna, drop);
    }
  }

  /** A cleaned avatar is settled and keeps its race, foldout and delete
      flag; its count is zero iff it was settled, and then it is unchanged. */
  lemma CleanAvatarSettles(ra: RandomAvatar)
    ensures var r := CleanAvatar(ra).0;
            && AvatarSettled(r)
            && r.raceName == ra.raceName && r.guiFoldout == ra.guiFoldout && r.delete == ra.delete
            && (forall c :: c in ra.sharedColors && !c.delete ==> c in r.sharedColors)
            && (forall s :: s in ra.slots && !s.delete && SlotSettled(s) ==> s in r.slots)
  {
    CleanDnaSettles(ra);
    SlotRemovalSettles(CleanDna(ra).0.slots);
  }

  /** A cleaned avatar counts nothing iff it was settled, and then it is
      unchanged. */
  lemma CleanAvatarCount(ra: RandomAvatar)
    ensures CleanAvatar(ra).1 == 0 <==> AvatarSettled(ra)
    ensures AvatarSettled(ra) ==> CleanAvatar(ra).0 == ra
  {
    CleanDnaSettles(ra);
    var ra1 := CleanDna(ra).0;
    SlotRemovalCount(ra1.slots);
    if AvatarSettled(ra) {
      KeepAll(ra1.sharedColors, ColorFlagged);
    }
  }

  /** Removing the flagged slots and cleaning the rest settles the slot
      list and keeps every slot that was already settled. */
  lemma SlotRemovalSettles(slots: seq<RandomWardrobeSlot>)
    ensures var r := CleanSlots(Keep(slots, SlotFlagged)).0;
            && (forall s :: s in r ==> !s.delete && SlotSettled(s))
            && (forall s :: s in slots && !s.delete && SlotSettled(s) ==> s in r)
  {
    var kept := Keep(slots, SlotFlagged);
    CleanSlotsSettles(kept);
    var r := CleanSlots(kept).0;
    forall s | s in r ensures !s.delete && SlotSettled(s) {
      var k :| 0 <= k < |r| && r[k] == s;
      assert kept[k] in kept;
    }
    forall s | s in slots && !s.delete && SlotSettled(s) ensures s in r {
      assert s in kept;
      var k :| 0 <= k < |kept| && kept[k] == s;
      assert r[k] == s;
    }
  }

  /** Removing the flagged slots and cleaning the rest counts nothing iff
      the list was settled, and then it is unchanged. */
  lemma SlotRemovalCount(slots: seq<RandomWardrobeSlot>)
    ensures var c := CleanSlots(Keep(slots, SlotFlagged));
            && (Dropped(slots, SlotFlagged) + c.1 == 0 <==> forall s :: s in slots ==> !s.delete && SlotSettled(s))
            && ((forall s :: s in slots ==> !s.delete && SlotSettled(s)) ==> c.0 == slots)
  {
    var kept := Keep(slots, SlotFlagged);
    CleanSlotsSettles(kept);
    if forall s :: s in slots ==> !s.delete && SlotSettled(s) {
      KeepAll(slots, SlotFlagged);
    }
    if Dropped(slots, SlotFlagged) + CleanSlots(kept).1 == 0 {
      forall s | s in slots ensures !s.delete && SlotSettled(s) {
        var k :| 0 <= k < |slots| && slots[k] == s;
        assert !SlotFlagged(slots[k]);
        assert s in kept;
        var j :| 0 <= j < |kept| && kept[j] == s;
      }
    }
  }

  /** The avatar loop settles every avatar, keeps each one's race and
      leaves a settled one as it was. */
  lemma CleanAvatarsSettles(avatars: seq<RandomAvatar>)
    ensures var r := CleanAvatars(avatars).0;
            && |r| == |avatars|
            && (forall k :: 0 <= k < |r| ==> AvatarSettled(r[k]) && r[k].raceName == avatars[k].raceName && r[k].delete == avatars[k].delete)
            && (forall k :: 0 <= k < |r| && AvatarSettled(avatars[k]) ==> r[k] == avatars[k])
  {
    SweepPointwise(avatars, CleanAvatar);
    forall k | 0 <= k < |avatars|
      ensures var r := CleanAvatar(avatars[k]).0;
              && AvatarSettled(r) && r.raceName == avatars[k].raceName && r.delete == avatars[k].delete
              && (AvatarSettled(avatars[k]) ==> r == avatars[k])
    {
      CleanAvatarSettles(avatars[k]);
      CleanAvatarCount(avatars[k]);
    }
  }

  /** The avatar loop counts nothing iff every avatar was settled. */
  lemma CleanAvatarsCount(avatars: seq<RandomAvatar>)
    ensures CleanAvatars(avatars).1 == 0 <==> forall k :: 0 <= k < |avatars| ==> AvatarSettled(avatars[k])
  {
    SweepZero(avatars, CleanAvatar);
    forall k | 0 <= k < |avatars|
      ensures CleanAvatar(avatars[k]).1 == 0 <==> AvatarSettled(avatars[k])
    {
      CleanAvatarCount(avatars[k]);
    }
  }

  /** After the deletions and pending additions no avatar is flagged and
      every one is settled, the survivors in their order. */
  lemma CleanAllSettles(avatars: seq<RandomAvatar>)
    ensures var kept := Keep(avatars, AvatarFlagged);
            var r := CleanAll(avatars).0;
            && |r| == |kept|
            && (forall k :: 0 <= k < |r| ==> r[k].raceName == kept[k].raceName)
            && (forall a :: a in r ==> !a.delete && AvatarSettled(a))
  {
    var kept := Keep(avatars, AvatarFlagged);
    CleanAvatarsSettles(kept);
    var r := CleanAvatars(kept).0;
    forall a | a in r ensures !a.delete && AvatarSettled(a) {
      var k :| 0 <= k < |r| && r[k] == a;
      assert kept[k] in kept;
    }
  }

  /** The deletions and pending additions count nothing iff nothing was
      flagged or pending, and then the list is unchanged. */
  lemma CleanAllCount(avatars: seq<RandomAvatar>)
    ensures var (r, n) := CleanAll(avatars);
            && (n == 0 <==> forall a :: a in avatars ==> !a.delete && AvatarSettled(a))
            && ((forall a :: a in avatars ==> !a.delete && AvatarSettled(a)) ==> r == avatars)
  {
    var drop := AvatarFlagged;
    var kept := Keep(avatars, drop);
    CleanAvatarsCount(kept);
    if forall a :: a in avatars ==> !a.delete && AvatarSettled(a) {
      KeepAll(avatars, drop);
      CleanAvatarsSettles(kept);
    }
    if CleanAll(avatars).1 == 0 {
      forall a | a in avatars ensures !a.delete && AvatarSettled(a) {
        var k :| 0 <= k < |avatars| && avatars[k] == a;
        assert !drop(avatars[k]);
        assert a in kept;
        var j :| 0 <= j < |kept| && kept[j] == a;
      }
    }
  }

  /** UpdateObject leaves no flagged or pending item behind; ChangeCount is
      zero, so the asset is not saved, iff nothing was dropped, flagged or
      pending, and then the avatars are unchanged. */
  lemma UpdateOutcomeSettles(avatars: seq<RandomAvatar>, dropped: seq<WardrobeRecipe>, race: RaceData)
    ensures var (r, n) := UpdateOutcome(avatars, dropped, race);
            && (forall a :: a in r ==> !a.delete && AvatarSettled(a))
            && (n == 0 <==> dropped == [] && forall a :: a in avatars ==> !a.delete && AvatarSettled(a))
            && (n == 0 ==> r == avatars)
  {
    var avs := if |dropped| > 0 then DropItems(avatars, dropped, race) else avatars;
    CleanAllSettles(avs);
    CleanAllCount(avs);
  }

  /** Adding dropped items flags nothing for deletion. */
  lemma DropItemsFlagNothing(avatars: seq<RandomAvatar>, dropped: seq<WardrobeRecipe>, race: RaceData)
    requires forall a :: a in avatars ==> !a.delete
    ensures forall a :: a in DropItems(avatars, dropped, race) ==> !a.delete
  {
    var d := DropItems(avatars, dropped, race);
    DropItemsEffect(avatars, dropped, race);
    forall k | 0 <= k < |d| ensures !d[k].delete {
      if k < |avatars| { assert avatars[k] in avatars; }
    }
  }

  /** A compatible dropped recipe becomes an entry of the race's avatar. */
  lemma DropItemsAddRecipe(avatars: seq<RandomAvatar>, dropped: seq<WardrobeRecipe>, race: RaceData, u: WardrobeRecipe)
    requires u in dropped && Compatible(u, race)
    ensures var d := DropItems(avatars, dropped, race);
            var i := Found(avatars, race).1;
            i < |d| && d[i].raceName == race.raceName && NewSlot(u) in d[i].slots
  {
    var d := DropItems(avatars, dropped, race);
    var i := Found(avatars, race).1;
    DropItemsEffect(avatars, dropped, race);
    AddedSlotsAreCompatible(dropped, race);
    var k :| 0 <= k < |dropped| && dropped[k] == u;
    assert NewSlot(u) in AddedSlots(dropped, race);
    assert NewSlot(u) in multiset(d[i].slots);
  }

  /** When no avatar is flagged, every compatible dropped recipe ends up as
      an entry of the race's avatar, at the place FindAvatar gave it. */
  lemma DroppedRecipesArrive(avatars: seq<RandomAvatar>, dropped: seq<WardrobeRecipe>, race: RaceData, u: WardrobeRecipe)
    requires forall a :: a in avatars ==> !a.delete
    requires u in dropped && Compatible(u, race)
    ensures var r := UpdateOutcome(avatars, dropped, race).0;
            var i := Found(avatars, race).1;
            i < |r| && r[i].raceName == race.raceName && NewSlot(u) in r[i].slots
  {
    var d := DropItems(avatars, dropped, race);
    var i := Found(avatars, race).1;
    DropItemsFlagNothing(avatars, dropped, race);
    DropItemsAddRecipe(avatars, dropped, race, u);
    KeepAll(d, AvatarFlagged);
    SweepPointwise(d, CleanAvatar);
    CleanSlotSettles(NewSlot(u));
    CleanAvatarSettles(d[i]);
  }

  /** One step of a sweep. */
  lemma SweepSnoc<T>(xs: seq<T>, k: nat, step: T -> (T, nat))
    requires k < |xs|
    ensures Sweep(xs[..k + 1], step) == (Sweep(xs[..k], step).0 + [step(xs[k]).0], Sweep(xs[..k], step).1 + step(xs[k]).1)
  {
    assert xs[..k + 1][..k] == xs[..k];
  }

  // ---------------------------------------------------------------------------
  // The asset and its editor
  // ---------------------------------------------------------------------------

  /** The UMARandomizer asset: its random avatars, the recipes dropped on
      the inspector, the known races and the race selected. */
  class Randomizer {
    var randomAvatars: seq<RandomAvatar>
    var droppedItems: seq<WardrobeRecipe>
    var raceDatas: seq<RaceData>
    var currentRace: int
    /** How often the asset has been marked dirty and re-imported. */
    var imports: nat

    constructor(raceDatas: seq<RaceData>, randomAvatars: seq<RandomAvatar>)
      ensures this.raceDatas == raceDatas && this.randomAvatars == randomAvatars
      ensures droppedItems == [] && currentRace == 0 && imports == 0
    {
      this.raceDatas := raceDatas;
      this.randomAvatars := randomAvatars;
      droppedItems := [];
      currentRace := 0;
      imports := 0;
    }
  }

  /** UMARandomizerEditor: the bookkeeping it does on its target. */
  class RandomizerEditor {
    const currentTarget: Randomizer

    constructor(target: Randomizer)
      ensures currentTarget == target
    {
      currentTarget := target;
    }

    /** RecipeCompatible: whether some race the recipe lists is the race
        itself or one it is cross-compatible with. */
    static method RecipeCompatible(uwr: WardrobeRecipe, raceData: RaceData) returns (r: bool)
      ensures r <==> exists j :: 0 <= j < |uwr.compatibleRaces| &&
                      (uwr.compatibleRaces[j] == raceData.raceName || CrossCompatible(raceData, uwr.compatibleRaces[j]))
      ensures r == Compatible(uwr, raceData)
    {
      var i := 0;
      while i < |uwr.compatibleRaces|
        invariant 0 <= i <= |uwr.compatibleRaces|
        invariant forall j :: 0 <= j < i ==> !(uwr.compatibleRaces[j] == raceData.raceName || CrossCompatible(raceData, uwr.compatibleRaces[j]))
      {
        var s := uwr.compatibleRaces[i];
        if s == raceData.raceName {
          return true;
        }
        if CrossCompatible(raceData, s) {
          return true;
        }
        i := i + 1;
      }
      return false;
    }

    /** FindAvatar: the position of the first avatar of the race; without
        one, a new avatar of the race is appended and its position returned. */
    method FindAvatar(raceData: RaceData) returns (i: nat)
      modifies currentTarget`randomAvatars
      ensures (currentTarget.randomAvatars, i) == Found(old(currentTarget.randomAvatars), raceData)
    {
      var avatars := currentTarget.randomAvatars;
      i := 0;
      while i < |avatars|
        invariant 0 <= i <= |avatars|
        invariant RaceIndex(avatars, raceData.raceName, 0) == RaceIndex(avatars, raceData.raceName, i)
      {
        var ra := avatars[i];
        if raceData.raceName == ra.raceName {
          return;
        }
        i := i + 1;
      }
      var rav := NewAvatar(raceData);
      currentTarget.randomAvatars := avatars + [rav];
    }

    /** The inner loop of the foldout pass: every slot closed. */
    static method CollapseSlotList(slots: seq<RandomWardrobeSlot>) returns (r: seq<RandomWardrobeSlot>)
      ensures r == CollapseSlots(slots)
    {
      r := slots;
      var i1 := 0;
      while i1 < |r|
        invariant 0 <= i1 <= |r| == |slots|
        invariant r[..i1] == CollapseSlots(slots[..i1]) && r[i1..] == slots[i1..]
      {
        assert slots[..i1 + 1][..i1] == slots[..i1];
        r := r[i1 := r[i1].(guiFoldout := false)];
        i1 := i1 + 1;
      }
      assert slots[..|slots|] == slots;
    }

    /** The foldout pass: every avatar and every slot closed. */
    method CollapseFoldouts()
      modifies currentTarget`randomAvatars
      ensures currentTarget.randomAvatars == CollapseAll(old(currentTarget.randomAvatars))
    {
      var avatars := currentTarget.randomAvatars;
      var avs := avatars;
      var i := 0;
      while i < |avs|
        invariant 0 <= i <= |avs| == |avatars|
        invariant avs[..i] == CollapseAll(avatars[..i]) && avs[i..] == avatars[i..]
      {
        assert avatars[..i + 1][..i] == avatars[..i];
        var rv := avs[i].(guiFoldout := false);
        var slots := CollapseSlotList(rv.slots);
        avs := avs[i := rv.(slots := slots)];
        i := i + 1;
      }
      assert avatars[..|avatars|] == avatars;
      currentTarget.randomAvatars := avs;
    }

    /** The loop over the dropped items for avatar i, the sort of its
        slots and the clearing of the dropped items. */
    method AddDroppedItems(i: nat, raceData: RaceData)
      requires i < |currentTarget.randomAvatars|
      modifies currentTarget`randomAvatars, currentTarget`droppedItems
      ensures currentTarget.randomAvatars == AddRecipes(old(currentTarget.randomAvatars), i, old(currentTarget.droppedItems), raceData)
      ensures currentTarget.droppedItems == []
    {
      var ra := AddCompatible(currentTarget.randomAvatars[i], currentTarget.droppedItems, raceData);
      ra := ra.(slots := SortByName(ra.slots));
      currentTarget.randomAvatars := currentTarget.randomAvatars[i := ra];
      currentTarget.droppedItems := [];
    }

    /** The loop over the dropped items: each one compatible with the race
        becomes a new slot of the avatar, which is then opened. */
    static method AddCompatible(ra0: RandomAvatar, dropped: seq<WardrobeRecipe>, raceData: RaceData) returns (ra: RandomAvatar)
      ensures ra.slots == ra0.slots + AddedSlots(dropped, raceData)
      ensures ra.guiFoldout == (ra0.guiFoldout || |AddedSlots(dropped, raceData)| > 0)
      ensures ra == ra0.(guiFoldout := ra.guiFoldout, slots := ra.slots)
    {
      ra := ra0;
      var j := 0;
      while j < |dropped|
        invariant 0 <= j <= |dropped|
        invariant ra == ra0.(guiFoldout := ra0.guiFoldout || |AddedSlots(dropped[..j], raceData)| > 0,
                             slots := ra0.slots + AddedSlots(dropped[..j], raceData))
      {
        assert dropped[..j + 1][..j] == dropped[..j];
        var uwr := dropped[j];
        var ok := RecipeCompatible(uwr, raceData);
        if ok {
          var rws := NewSlot(uwr);
          ra := ra.(guiFoldout := true, slots := ra.slots + [rws]);
        }
        j := j + 1;
      }
      assert dropped[..|dropped|] == dropped;
    }

    /** The body of the slot loop: flagged colors removed, a requested color
        table added, the changes counted. */
    static method CleanOneSlot(rws0: RandomWardrobeSlot) returns (rws: RandomWardrobeSlot, count: nat)
      ensures rws == CleanSlot(rws0).0 && count == CleanSlot(rws0).1
    {
      count := Dropped(rws0.colors, ColorFlagged);
      rws := rws0.(colors := Keep(rws0.colors, ColorFlagged));
      if rws.addColorTable {
        rws := rws.(colors := rws.colors + [RandomColors(None, false)], addColorTable := false);
        count := count + 1;
      }
    }

    /** The loop over one avatar's slots: flagged colors removed, requested
        color tables added, the changes counted. */
    static method CleanSlotList(slots: seq<RandomWardrobeSlot>) returns (r: seq<RandomWardrobeSlot>, count: nat)
      ensures r == CleanSlots(slots).0 && count == CleanSlots(slots).1
    {
      r := [];
      count := 0;
      var i := 0;
      while i < |slots|
        invariant 0 <= i <= |slots|
        invariant r == Sweep(slots[..i], CleanSlot).0 && count == Sweep(slots[..i], CleanSlot).1
      {
        SweepSnoc(slots, i, CleanSlot);
        var rws, removed := CleanOneSlot(slots[i]);
        count := count + removed;
        r := r + [rws];
        i := i + 1;
      }
      assert slots[..|slots|] == slots;
    }

    /** The DNA steps of the avatar loop: a pending DNAAdd added and reset,
        flagged entries removed, each marking the DNA changed and counting. */
    static method CleanDnaSteps(ra0: RandomAvatar) returns (ra: RandomAvatar, count: nat)
      ensures ra == CleanDna(ra0).0 && count == CleanDna(ra0).1
    {
      ra := ra0;
      count := 0;
      if ra.dnaAdd != "" {
        ra := ra.(dnaChanged := true, randomDna := ra.randomDna + [RandomDna(ra.dnaAdd, false)], dnaAdd := "");
        count := count + 1;
      }
      var dnaChangeCount := Dropped(ra.randomDna, DnaFlagged);
      ra := ra.(randomDna := Keep(ra.randomDna, DnaFlagged));
      if dnaChangeCount > 0 {
        ra := ra.(dnaChanged := true);
        count := count + 1;
      }
    }

    /** The body of the avatar loop: the DNA steps, the removals and the slot
        loop, with the changes counted. */
    static method CleanOneAvatar(ra0: RandomAvatar) returns (ra: RandomAvatar, count: nat)
      ensures ra == CleanAvatar(ra0).0 && count == CleanAvatar(ra0).1
    {
      ra, count := CleanDnaSteps(ra0);
      count := count + Dropped(ra.sharedColors, ColorFlagged);
      ra := ra.(sharedColors := Keep(ra.sharedColors, ColorFlagged));
      count := count + Dropped(ra.slots, SlotFlagged);
      var slots, n := CleanSlotList(Keep(ra.slots, SlotFlagged));
      ra := ra.(slots := slots);
      count := count + n;
    }

    /** The deletions and pending additions over the whole avatar list. */
    method CleanAvatarList() returns (count: nat)
      modifies currentTarget`randomAvatars
      ensures currentTarget.randomAvatars == CleanAll(old(currentTarget.randomAvatars)).0
      ensures count == CleanAll(old(currentTarget.randomAvatars)).1
    {
      var removed := Dropped(currentTarget.randomAvatars, AvatarFlagged);
      var kept := Keep(currentTarget.randomAvatars, AvatarFlagged);
      var avs := [];
      var changes := 0;
      var k := 0;
      while k < |kept|
        invariant 0 <= k <= |kept|
        invariant avs == Sweep(kept[..k], CleanAvatar).0 && changes == Sweep(kept[..k], CleanAvatar).1
      {
        SweepSnoc(kept, k, CleanAvatar);
        var ra, n := CleanOneAvatar(kept[k]);
        changes := changes + n;
        avs := avs + [ra];
        k := k + 1;
      }
      assert kept[..|kept|] == kept;
      currentTarget.randomAvatars := avs;
      count := removed + changes;
    }

    /** UpdateObject: the dropped items added, flagged items removed, pending
        additions applied, and the asset saved iff anything was counted. */
    method UpdateObject()
      requires |currentTarget.droppedItems| > 0 ==> 0 <= currentTarget.currentRace < |currentTarget.raceDatas|
      modifies currentTarget`randomAvatars, currentTarget`droppedItems, currentTarget`imports
      ensures currentTarget.randomAvatars == UpdateOutcome(old(currentTarget.randomAvatars), old(currentTarget.droppedItems),
                                                           CurrentRace(old(currentTarget.raceDatas), old(currentTarget.currentRace))).0
      ensures currentTarget.imports == old(currentTarget.imports) +
                (if UpdateOutcome(old(currentTarget.randomAvatars), old(currentTarget.droppedItems),
                                  CurrentRace(old(currentTarget.raceDatas), old(currentTarget.currentRace))).1 > 0 then 1 else 0)
      ensures currentTarget.droppedItems == []
    {
      ghost var avatars0, dropped0 := currentTarget.randomAvatars, currentTarget.droppedItems;
      ghost var race0 := CurrentRace(currentTarget.raceDatas, currentTarget.currentRace);
      var changeCount := |currentTarget.droppedItems|;
      if |currentTarget.droppedItems| > 0 {
        CollapseFoldouts();
        var race := currentTarget.raceDatas[currentTarget.currentRace];
        var i := FindAvatar(race);
        AddDroppedItems(i, race);
      }
      ghost var avs := currentTarget.randomAvatars;
      assert avs == if |dropped0| > 0 then DropItems(avatars0, dropped0, race0) else avatars0;
      var n := CleanAvatarList();
      changeCount := changeCount + n;
      assert currentTarget.randomAvatars == UpdateOutcome(avatars0, dropped0, race0).0;
      assert changeCount == UpdateOutcome(avatars0, dropped0, race0).1;
      if changeCount > 0 {
        currentTarget.imports := currentTarget.imports + 1;
      }
    }
  }
}
