/**
  Worn items. What the items give their owner is kept in sums of sixteen bits and in an
  array of visible indexes that are changed item by item; both have to stay what one
  would compute from the items that are worn.
*/
module Inventories {

  const WORD := 0x1_0000

  /** The bonuses that add up. */
  datatype Field =
    | Strength | Health | Intelligence | Wisdom | Dexterity
    | Hp | Mp | Defense | Hit | Dodge | Absorb
    | MinAttack | MaxAttack | MinMagic | MaxMagic
    | Curse | Fire | Ice | Lightning | Palsy

  datatype Specialty = Specialty(
    strength: nat, health: nat, intelligence: nat, wisdom: nat, dexterity: nat,
    hp: nat, mp: nat, defense: nat, hit: nat, dodge: nat, absorb: nat,
    minAttack: nat, maxAttack: nat, minMagic: nat, maxMagic: nat,
    curse: nat, fire: nat, ice: nat, lightning: nat, palsy: nat)
  {
    function Of(f: Field): nat {
      match f
      case Strength => strength
      case Health => health
      case Intelligence => intelligence
      case Wisdom => wisdom
      case Dexterity => dexterity
      case Hp => hp
      case Mp => mp
      case Defense => defense
      case Hit => hit
      case Dodge => dodge
      case Absorb => absorb
      case MinAttack => minAttack
      case MaxAttack => maxAttack
      case MinMagic => minMagic
      case MaxMagic => maxMagic
      case Curse => curse
      case Fire => fire
      case Ice => ice
      case Lightning => lightning
      case Palsy => palsy
    }
  }

  const NOTHING := Specialty(0, 0, 0, 0, 0, 0, 0, 0, 0, 0, 0, 0, 0, 0, 0, 0, 0, 0, 0, 0)

  const EQUIPMENT_SIZE := 37
  const WS_LAST := 28

  const WS_WEAPON := 0
  const WS_SHIELD := 1

  datatype Kind =
    | Sword | Sword2Hand | Wand | Bow | Dagger | Soul
    | Shield
    | Helmet | UpperArmor | LowerArmor | Gauntlet | Boots
    | Ring | Necklace | ResistNecklace2 | Trinket
    | Cocoon | Egg
    | OtherKind

  datatype Class = Weapon | Ride | OtherClass

  /** The slot for a kind of item, or minus one. */
  function WearId(kind: Kind): (slot: int)
    ensures -1 <= slot < WS_LAST
    ensures kind == Sword2Hand ==> slot == WS_WEAPON
    ensures slot == WS_SHIELD <==> kind == Shield
  {
    match kind
    case Sword => WS_WEAPON
    case Sword2Hand => WS_WEAPON
    case Wand => WS_WEAPON
    case Bow => WS_WEAPON
    case Dagger => WS_WEAPON
    case Soul => WS_WEAPON
    case Shield => WS_SHIELD
    case Helmet => 2
    case UpperArmor => 3
    case LowerArmor => 4
    case Gauntlet => 5
    case Boots => 6
    case Egg => 7
    case Ring => 20
    case Necklace => 21
    case Trinket => 22
    case ResistNecklace2 => 23
    case Cocoon => 24
    case OtherKind => -1
  }

  /** Weapons share the first slot; every other kind that is worn has a slot of its own. */
  lemma SlotsAreThose(a: Kind, b: Kind)
    ensures WearId(a) == WearId(b) >= 0 && a != b ==> WearId(a) == 0
    ensures WearId(a) == 0 <==> a in {Sword, Sword2Hand, Wand, Bow, Dagger, Soul}
    ensures WearId(Shield) == 1 && WearId(Helmet) == 2 && WearId(UpperArmor) == 3 && WearId(LowerArmor) == 4
    ensures WearId(Gauntlet) == 5 && WearId(Boots) == 6 && WearId(Egg) == 7 && WearId(Ring) == 20
    ensures WearId(Necklace) == 21 && WearId(Trinket) == 22 && WearId(ResistNecklace2) == 23 && WearId(Cocoon) == 24
    ensures WearId(OtherKind) == -1
  {
  }

  datatype InitItem = InitItem(index: nat, form: Class, kind: Kind, wearable: bool, specialty: Specialty, attackSpeed: nat)

  /** An item the tables can hold: rides are not worn, and what is worn as a weapon is in the weapon's slot. */
  predicate WellMade(init: InitItem) {
    && 0 < init.index < WORD
    && (init.form == Ride ==> !init.wearable)
    && (init.form == Weapon && init.wearable ==> WearId(init.kind) == WS_WEAPON)
  }

  /** Items with the same index are the same item of the tables. */
  predicate FromTables(a: InitItem, b: InitItem) {
    WellMade(a) && WellMade(b) && (a.index == b.index ==> a == b)
  }

  // ------------------------------------------------------------- what is worn

  datatype Mount = OnFoot | Riding(local: nat)

  /** The items someone owns, by their local ids, the one worn in each slot, and the one ridden. */
  datatype Closet = Closet(owned: map<nat, InitItem>, worn: map<int, nat>, mount: Mount)

  predicate IsOn(c: Closet, l: nat) {
    (exists s <- c.worn :: c.worn[s] == l) || c.mount == Riding(l)
  }

  predicate Occupied(c: Closet, kind: Kind)
    requires Proper(c)
  {
    || WearId(kind) in c.worn
    || (kind == Sword2Hand && WS_SHIELD in c.worn)
    || (kind == Shield && WS_WEAPON in c.worn && c.owned[c.worn[WS_WEAPON]].kind == Sword2Hand)
  }

  /** Whether an item that is not on can be put on. */
  predicate Fits(c: Closet, init: InitItem)
    requires Proper(c)
  {
    if init.form == Ride then
      c.mount == OnFoot
    else
      init.wearable && WearId(init.kind) >= 0 && !Occupied(c, init.kind)
  }

  function Dressed(c: Closet, l: nat, init: InitItem): Closet {
    if init.form == Ride then c.(mount := Riding(l)) else c.(worn := c.worn[WearId(init.kind) := l])
  }

  function PutOnTo(c: Closet, l: nat): Closet
    requires Proper(c)
  {
    if l in c.owned && !IsOn(c, l) && Fits(c, c.owned[l]) then Dressed(c, l, c.owned[l]) else c
  }

  function PutOffFrom(c: Closet, l: nat): Closet
    requires Proper(c)
  {
    if l !in c.owned || !IsOn(c, l) then
      c
    else if c.owned[l].form == Ride then
      c.(mount := OnFoot)
    else
      c.(worn := c.worn - {WearId(c.owned[l].kind)})
  }

  function Trashed(c: Closet, l: nat): Closet {
    if l in c.owned && !IsOn(c, l) then c.(owned := c.owned - {l}) else c
  }

  /** A row loaded from the database, with the bit that says whether the item is on. */
  function Inserted(c: Closet, l: nat, init: InitItem, putOn: bool): Closet {
    var more := c.(owned := c.owned[l := init]);
    if putOn then Dressed(more, l, init) else more
  }

  predicate Proper(c: Closet) {
    && (forall l <- c.owned :: WellMade(c.owned[l]))
    && (forall k <- c.owned, l <- c.owned :: FromTables(c.owned[k], c.owned[l]))
    && (forall s <- c.worn ::
          && c.worn[s] in c.owned
          && var init := c.owned[c.worn[s]]; 0 <= s == WearId(init.kind) && init.wearable)
    && (c.mount.Riding? ==> c.mount.local in c.owned && c.owned[c.mount.local].form == Ride)
  }

  /** A two-handed sword leaves no hand for a shield. */
  predicate HandsSuffice(c: Closet)
    requires Proper(c)
  {
    !(WS_WEAPON in c.worn && c.owned[c.worn[WS_WEAPON]].kind == Sword2Hand && WS_SHIELD in c.worn)
  }

  predicate Sane(c: Closet) {
    Proper(c) && HandsSuffice(c)
  }

  lemma PutOnIsSane(c: Closet, l: nat)
    requires Sane(c)
    ensures Sane(PutOnTo(c, l))
  {
  }

  lemma PutOffIsSane(c: Closet, l: nat)
    requires Sane(c)
    ensures Sane(PutOffFrom(c, l))
  {
  }

  lemma TrashedIsSane(c: Closet, l: nat)
    requires Sane(c)
    ensures Sane(Trashed(c, l))
  {
  }

  lemma InsertedIsSane(c: Closet, l: nat, init: InitItem, putOn: bool)
    requires Sane(c) && l !in c.owned && WellMade(init)
    requires forall k <- c.owned :: FromTables(c.owned[k], init)
    requires putOn ==> Fits(c, init)
    ensures Sane(Inserted(c, l, init, putOn))
  {
  }

  /** Putting off undoes putting on. */
  lemma PuttingOffUndoes(c: Closet, l: nat)
    requires Sane(c) && l in c.owned && !IsOn(c, l) && Fits(c, c.owned[l])
    ensures IsOn(PutOnTo(c, l), l)
    ensures PutOffFrom(PutOnTo(c, l), l) == c
  {
    PutOnIsSane(c, l);
    var after := PutOnTo(c, l);
    if c.owned[l].form != Ride {
      var s := WearId(c.owned[l].kind);
      assert s in after.worn && after.worn[s] == l;
      assert after.worn - {s} == c.worn;
    }
  }

  // ------------------------------------------------------------------ bonuses

  function SlotBonus(c: Closet, s: int, f: Field): nat
    requires Proper(c)
  {
    if s in c.worn then c.owned[c.worn[s]].specialty.Of(f) else 0
  }

  /** One bonus, summed over the items in the first slots. */
  function Sum(c: Closet, slots: nat, f: Field): nat
    requires Proper(c)
  {
    if slots == 0 then 0 else Sum(c, slots - 1, f) + SlotBonus(c, slots - 1, f)
  }

  function AttackSpeedOf(c: Closet): nat
    requires Proper(c)
  {
    if WS_WEAPON in c.worn && c.owned[c.worn[WS_WEAPON]].form == Weapon then
      c.owned[c.worn[WS_WEAPON]].attackSpeed % WORD
    else
      0
  }

  lemma {:induction false} SumWithout(c: Closet, d: Closet, s: int, slots: nat, f: Field)
    requires Proper(c) && Proper(d)
    requires forall k :: 0 <= k < WS_LAST && k != s ==> SlotBonus(c, k, f) == SlotBonus(d, k, f)
    requires slots <= WS_LAST
    ensures Sum(d, slots, f) + (if 0 <= s < slots then SlotBonus(c, s, f) else 0)
         == Sum(c, slots, f) + (if 0 <= s < slots then SlotBonus(d, s, f) else 0)
  {
    if slots > 0 {
      SumWithout(c, d, s, slots - 1, f);
    }
  }

  /** Putting on adds the bonuses of the item to the sums, and nothing else. */
  lemma SumAfterPutOn(c: Closet, l: nat, f: Field)
    requires Sane(c) && l in c.owned && !IsOn(c, l) && Fits(c, c.owned[l])
    ensures Sane(PutOnTo(c, l))
    ensures Sum(PutOnTo(c, l), WS_LAST, f)
         == Sum(c, WS_LAST, f) + if c.owned[l].form == Ride then 0 else c.owned[l].specialty.Of(f)
  {
    PutOnIsSane(c, l);
    var d := PutOnTo(c, l);
    var s := if c.owned[l].form == Ride then -1 else WearId(c.owned[l].kind);
    SumWithout(c, d, s, WS_LAST, f);
  }

  lemma WornInItsSlot(c: Closet, l: nat)
    requires Sane(c) && l in c.owned && IsOn(c, l) && c.owned[l].form != Ride
    ensures WearId(c.owned[l].kind) in c.worn && c.worn[WearId(c.owned[l].kind)] == l
  {
    var s :| s in c.worn && c.worn[s] == l;
  }

  lemma SumAfterPutOff(c: Closet, l: nat, f: Field)
    requires Sane(c) && l in c.owned && IsOn(c, l)
    ensures Sane(PutOffFrom(c, l))
    ensures Sum(c, WS_LAST, f)
         == Sum(PutOffFrom(c, l), WS_LAST, f) + if c.owned[l].form == Ride then 0 else c.owned[l].specialty.Of(f)
  {
    PutOffIsSane(c, l);
    var d := PutOffFrom(c, l);
    var s := if c.owned[l].form == Ride then -1 else WearId(c.owned[l].kind);
    if c.owned[l].form != Ride {
      WornInItsSlot(c, l);
    }
    SumWithout(c, d, s, WS_LAST, f);
  }

  /** Sums of sixteen bits can be kept up item by item, also where they overflow. */
  lemma WordSums(a: nat, b: nat)
    ensures (a % WORD + b) % WORD == (a + b) % WORD
    ensures ((a + b) % WORD - b) % WORD == a % WORD
  {
    var q, r := a / WORD, a % WORD;
    assert a + b == q * WORD + (r + b);
    ModOfMultiple(q, r + b);
    var p := (a + b) / WORD;
    assert (a + b) % WORD - b == a + (-p) * WORD;
    ModOfMultiple(-p, a);
  }

  lemma ModOfMultiple(q: int, x: int)
    ensures (q * WORD + x) % WORD == x % WORD
  {
    var k := x / WORD;
    assert q * WORD + x == (q + k) * WORD + x % WORD;
  }

  // ------------------------------------------------------------ visible items

  /** The indexes of the items that are on. */
  function Visible(c: Closet): set<nat>
    requires Proper(c)
  {
    (set s | s in c.worn :: c.owned[c.worn[s]].index)
    + if c.mount.Riding? then {c.owned[c.mount.local].index} else {}
  }

  /** The cells show these indexes, each once, and are empty otherwise. */
  predicate Shows(cells: seq<nat>, indexes: set<nat>) {
    && (forall i, j :: 0 <= i < j < |cells| && cells[i] == cells[j] ==> cells[i] == 0)
    && (forall i :: 0 <= i < |cells| && cells[i] != 0 ==> cells[i] in indexes)
    && (forall x <- indexes :: x != 0 && x in cells)
  }

  /** What can be put on is not visible yet. */
  lemma VisibleAfterPutOn(c: Closet, l: nat)
    requires Sane(c) && l in c.owned && !IsOn(c, l) && Fits(c, c.owned[l])
    ensures Sane(PutOnTo(c, l))
    ensures c.owned[l].index !in Visible(c)
    ensures Visible(PutOnTo(c, l)) == Visible(c) + {c.owned[l].index}
  {
    PutOnIsSane(c, l);
    var d, init := PutOnTo(c, l), c.owned[l];
    if init.form != Ride {
      var s := WearId(init.kind);
      assert d.worn[s] == l;
      forall k | k in c.worn ensures k in d.worn && d.worn[k] == c.worn[k] {
      }
    }
    assert Visible(d) == Visible(c) + {init.index};
  }

  /** What is put off is visible no more, and everything else still is. */
  lemma VisibleAfterPutOff(c: Closet, l: nat)
    requires Sane(c) && l in c.owned && IsOn(c, l)
    ensures Sane(PutOffFrom(c, l))
    ensures c.owned[l].index in Visible(c)
    ensures Visible(PutOffFrom(c, l)) == Visible(c) - {c.owned[l].index}
  {
    PutOffIsSane(c, l);
    var d, init := PutOffFrom(c, l), c.owned[l];
    var s := WearId(init.kind);
    forall k | k in d.worn ensures d.worn[k] == c.worn[k] && c.owned[c.worn[k]].index != init.index {
      assert FromTables(c.owned[c.worn[k]], init);
    }
    if init.form != Ride {
      WornInItsSlot(c, l);
      assert c.mount.Riding? ==> FromTables(c.owned[c.mount.local], init);
    }
    assert Visible(d) == Visible(c) - {init.index};
  }

  lemma {:induction false} SmallSet(s: set<int>, n: nat)
    requires forall x <- s :: 0 <= x < n
    ensures |s| <= n
    decreases n
  {
    if n == 0 {
      forall x ensures x !in s {
        assert x in s ==> 0 <= x < n;
      }
      assert s == {};
    } else {
      SmallSet(s - {n - 1}, n - 1);
    }
  }

  lemma {:induction false} ImageIsSmall(f: map<int, nat>, image: set<nat>)
    requires forall x <- image :: exists k :: k in f && f[k] == x
    ensures |image| <= |f|
    decreases |image|
  {
    if image != {} {
      var x :| x in image;
      var k :| k in f && f[k] == x;
      var rest := f - {k};
      forall y | y in image - {x} ensures exists i :: i in rest && rest[i] == y {
        var i :| i in f && f[i] == y;
        assert i in rest;
      }
      ImageIsSmall(rest, image - {x});
      assert |rest| == |f| - 1 by {
        assert rest.Keys == f.Keys - {k};
      }
    }
  }

  lemma VisibleIsSmall(c: Closet)
    requires Sane(c)
    ensures |Visible(c)| <= WS_LAST + 1
  {
    var f := map s | s in c.worn :: c.owned[c.worn[s]].index;
    var image := set s | s in c.worn :: c.owned[c.worn[s]].index;
    forall x | x in image ensures exists k :: k in f && f[k] == x {
      var s :| s in c.worn && c.owned[c.worn[s]].index == x;
      assert s in f && f[s] == x;
    }
    ImageIsSmall(f, image);
    assert f.Keys == c.worn.Keys;
    SmallSet(c.worn.Keys, WS_LAST);
  }

  lemma {:induction false} FullCellsAreMany(cells: seq<nat>, indexes: set<nat>)
    requires Shows(cells, indexes) && 0 !in cells
    ensures |indexes| >= |cells|
    decreases |cells|
  {
    if cells != [] {
      var last, rest := cells[|cells| - 1], cells[..|cells| - 1];
      assert last != 0;
      assert forall i :: 0 <= i < |rest| ==> rest[i] == cells[i];
      forall x | x in indexes - {last} ensures x != 0 && x in rest {
        var i :| 0 <= i < |cells| && cells[i] == x;
        assert rest[i] == x;
      }
      FullCellsAreMany(rest, indexes - {last});
    }
  }

  /** There are more cells than things that can be on, so a free one is always found. */
  lemma FreeCell(c: Closet, cells: seq<nat>)
    requires Sane(c) && Shows(cells, Visible(c)) && |cells| == EQUIPMENT_SIZE
    ensures 0 in cells
  {
    VisibleIsSmall(c);
    if 0 !in cells {
      FullCellsAreMany(cells, Visible(c));
    }
  }

  // ------------------------------------------------------------------ objects

  class Item {
    const local: nat
    const init: InitItem
    var putOn: bool

    constructor (local: nat, init: InitItem, putOn: bool)
      ensures this.local == local && this.init == init && this.putOn == putOn
    {
      this.local, this.init, this.putOn := local, init, putOn;
    }
  }

  /** Numbers of sixteen bits. */
  function Plus(a: nat, b: nat): nat { (a + b) % WORD }

  function Minus(a: nat, b: nat): nat { (a - b) % WORD }

  /** The twenty names tell everything. */
  lemma NamesAreAll(a: Specialty, b: Specialty)
    ensures (forall f: Field :: a.Of(f) == b.Of(f)) ==> a == b
  {
    if forall f: Field :: a.Of(f) == b.Of(f) {
      assert a.Of(Strength) == b.Of(Strength) && a.Of(Health) == b.Of(Health) && a.Of(Intelligence) == b.Of(Intelligence);
      assert a.Of(Wisdom) == b.Of(Wisdom) && a.Of(Dexterity) == b.Of(Dexterity) && a.Of(Hp) == b.Of(Hp) && a.Of(Mp) == b.Of(Mp);
      assert a.Of(Defense) == b.Of(Defense) && a.Of(Hit) == b.Of(Hit) && a.Of(Dodge) == b.Of(Dodge) && a.Of(Absorb) == b.Of(Absorb);
      assert a.Of(MinAttack) == b.Of(MinAttack) && a.Of(MaxAttack) == b.Of(MaxAttack);
      assert a.Of(MinMagic) == b.Of(MinMagic) && a.Of(MaxMagic) == b.Of(MaxMagic) && a.Of(Curse) == b.Of(Curse);
      assert a.Of(Fire) == b.Of(Fire) && a.Of(Ice) == b.Of(Ice) && a.Of(Lightning) == b.Of(Lightning) && a.Of(Palsy) == b.Of(Palsy);
    }
  }

  /** Every sum grows by the bonus of the same name. */
  ghost predicate Adds(before: Specialty, bonus: Specialty, after: Specialty) {
    forall f: Field :: after.Of(f) == Plus(before.Of(f), bonus.Of(f))
  }

  ghost predicate Subtracts(before: Specialty, bonus: Specialty, after: Specialty) {
    forall f: Field :: after.Of(f) == Minus(before.Of(f), bonus.Of(f))
  }

  /** The sums modulo 2^16, the attack speed of the weapon, and the visible indexes. */
  ghost predicate Computed(c: Closet, sums: Specialty, attackSpeed: nat, cells: seq<nat>)
    requires Proper(c)
  {
    && (forall f: Field :: sums.Of(f) == Sum(c, WS_LAST, f) % WORD)
    && attackSpeed == AttackSpeedOf(c)
    && |cells| == EQUIPMENT_SIZE
    && Shows(cells, Visible(c))
  }

  lemma ComputedAfterPutOn(c: Closet, l: nat, sums: Specialty, sums': Specialty, attackSpeed: nat, cells: seq<nat>, cells': seq<nat>)
    requires Sane(c) && l in c.owned && !IsOn(c, l) && Fits(c, c.owned[l])
    requires Computed(c, sums, attackSpeed, cells) && |cells'| == EQUIPMENT_SIZE
    requires Shows(cells', Visible(c) + {c.owned[l].index})
    requires if c.owned[l].form == Ride then sums' == sums else Adds(sums, c.owned[l].specialty, sums')
    ensures Sane(PutOnTo(c, l))
    ensures var init := c.owned[l];
      Computed(PutOnTo(c, l), sums', if init.form == Weapon then init.attackSpeed % WORD else attackSpeed, cells')
  {
    PutOnIsSane(c, l);
    VisibleAfterPutOn(c, l);
    hide Visible, Shows;
    forall f: Field ensures sums'.Of(f) == Sum(PutOnTo(c, l), WS_LAST, f) % WORD {
      SumAfterPutOn(c, l, f);
      WordSums(Sum(c, WS_LAST, f), if c.owned[l].form == Ride then 0 else c.owned[l].specialty.Of(f));
    }
  }

  lemma ComputedAfterPutOff(c: Closet, l: nat, sums: Specialty, sums': Specialty, attackSpeed: nat, cells: seq<nat>, cells': seq<nat>)
    requires Sane(c) && l in c.owned && IsOn(c, l)
    requires Computed(c, sums, attackSpeed, cells) && |cells'| == EQUIPMENT_SIZE
    requires Shows(cells', Visible(c) - {c.owned[l].index})
    requires if c.owned[l].form == Ride then sums' == sums else Subtracts(sums, c.owned[l].specialty, sums')
    ensures Sane(PutOffFrom(c, l))
    ensures Computed(PutOffFrom(c, l), sums', if c.owned[l].form == Weapon then 0 else attackSpeed, cells')
  {
    PutOffIsSane(c, l);
    VisibleAfterPutOff(c, l);
    if c.owned[l].form != Ride {
      WornInItsSlot(c, l);
    }
    hide Visible, Shows;
    forall f: Field ensures sums'.Of(f) == Sum(PutOffFrom(c, l), WS_LAST, f) % WORD {
      SumAfterPutOff(c, l, f);
      WordSums(Sum(PutOffFrom(c, l), WS_LAST, f), if c.owned[l].form == Ride then 0 else c.owned[l].specialty.Of(f));
    }
  }

  /** Where an item goes that is put on. */
  predicate Wears(init: InitItem) {
    init.form == Ride || WearId(init.kind) >= 0
  }

  /** Putting an item on changes the ride or one slot. */
  ghost predicate On(item: Item, ride: Item?, worn: seq<Item?>, ride': Item?, worn': seq<Item?>)
    requires |worn| == WS_LAST && Wears(item.init)
  {
    if item.init.form == Ride then
      ride' == item && worn' == worn
    else
      ride' == ride && worn' == worn[WearId(item.init.kind) := item]
  }

  ghost predicate Gains(init: InitItem, sums: Specialty, attackSpeed: nat, sums': Specialty, attackSpeed': nat) {
    if init.form == Ride then
      sums' == sums && attackSpeed' == attackSpeed
    else
      Adds(sums, init.specialty, sums') && attackSpeed' == if init.form == Weapon then init.attackSpeed % WORD else attackSpeed
  }

  ghost predicate Off(item: Item, ride: Item?, worn: seq<Item?>, ride': Item?, worn': seq<Item?>)
    requires |worn| == WS_LAST && Wears(item.init)
  {
    if item.init.form == Ride then
      ride' == null && worn' == worn
    else
      ride' == ride && worn' == worn[WearId(item.init.kind) := null]
  }

  ghost predicate Loses(init: InitItem, sums: Specialty, attackSpeed: nat, sums': Specialty, attackSpeed': nat) {
    if init.form == Ride then
      sums' == sums && attackSpeed' == attackSpeed
    else
      Subtracts(sums, init.specialty, sums') && attackSpeed' == if init.form == Weapon then 0 else attackSpeed
  }

  /** The index goes into the first free cell. */
  function Marked(cells: seq<nat>, index: nat): seq<nat> {
    if 0 in cells then cells[FirstFree(cells) := index] else cells
  }

  function FirstFree(cells: seq<nat>): (i: nat)
    requires 0 in cells
    ensures i < |cells| && cells[i] == 0 && 0 !in cells[..i]
  {
    if cells[0] == 0 then 0
    else
      assert cells == [cells[0]] + cells[1..];
      var i := 1 + FirstFree(cells[1..]);
      assert cells[..i] == [cells[0]] + cells[1..][..i - 1];
      i
  }

  lemma FirstFreeIs(cells: seq<nat>, i: nat)
    requires i < |cells| && cells[i] == 0 && 0 !in cells[..i]
    ensures 0 in cells && FirstFree(cells) == i
  {
    var k := FirstFree(cells);
    FreeBefore(cells, i, k);
    FreeBefore(cells, k, i);
  }

  lemma FreeBefore(cells: seq<nat>, i: nat, k: nat)
    ensures k < i <= |cells| && cells[k] == 0 ==> 0 in cells[..i]
  {
    if k < i <= |cells| {
      assert cells[..i][k] == cells[k];
    }
  }

  lemma ShowsMarked(cells: seq<nat>, index: nat, shown: set<nat>)
    requires 0 in cells && index != 0 && Shows(cells, shown) && index !in shown
    ensures Shows(Marked(cells, index), shown + {index}) && |Marked(cells, index)| == |cells|
  {
    ShowsMore(cells, FirstFree(cells), index);
  }

  class Inventory {
    var items: map<nat, Item>
    const equipment: array<nat>
    const wearItems: array<Item?>
    var ride: Item?
    var sums: Specialty
    var attackSpeed: nat
    ghost var closet: Closet

    /** The objects are the closet. */
    ghost predicate Mirrors()
      reads `items, `ride, `closet, wearItems, items.Values
    {
      && items.Keys == closet.owned.Keys
      && (forall l <- items :: items[l].local == l && items[l].init == closet.owned[l])
      && (forall l <- items :: items[l].putOn <==> IsOn(closet, l))
      && wearItems.Length == WS_LAST
      && (forall s <- closet.worn :: closet.worn[s] in items && 0 <= s < WS_LAST)
      && (forall s :: 0 <= s < WS_LAST ==> wearItems[s] == if s in closet.worn then items[closet.worn[s]] else null)
      && (closet.mount.Riding? ==> closet.mount.local in items)
      && ride == if closet.mount.Riding? then items[closet.mount.local] else null
    }

    /** What is kept up is what one would compute. */
    ghost predicate Valid()
      reads this, wearItems, items.Values, equipment
    {
      Sane(closet) && Mirrors() && Computed(closet, sums, attackSpeed, equipment[..])
    }

    constructor ()
      ensures Valid() && closet == Closet(map[], map[], OnFoot)
      ensures fresh(equipment) && fresh(wearItems)
    {
      items, ride := map[], null;
      equipment := new nat[EQUIPMENT_SIZE](i => 0);
      wearItems := new Item?[WS_LAST](i => null);
      sums, attackSpeed := NOTHING, 0;
      closet := Closet(map[], map[], OnFoot);
      new;
      assert Sane(closet) && Visible(closet) == {} && AttackSpeedOf(closet) == 0;
      forall f: Field ensures Sum(closet, WS_LAST, f) == 0 {
        NothingToSum(closet, WS_LAST, f);
      }
      assert forall i :: 0 <= i < EQUIPMENT_SIZE ==> equipment[i] == 0;
      hide Proper, Visible, AttackSpeedOf, Sum;
    }

    method AddVisibleIndex(index: nat)
      requires index != 0
      modifies equipment
      ensures equipment[..] == Marked(old(equipment[..]), index)
    {
      var i := 0;
      while i < equipment.Length
        invariant 0 <= i <= equipment.Length
        invariant equipment[..] == old(equipment[..])
        invariant 0 !in equipment[..i]
      {
        if equipment[i] == 0 {
          FirstFreeIs(equipment[..], i);
          equipment[i] := index;
          assert equipment[..] == old(equipment[..])[i := index];
          return;
        }
        i := i + 1;
      }
      assert equipment[..i] == equipment[..];
    }

    method RemoveVisibleIndex(index: nat)
      requires index != 0
      modifies equipment
      ensures forall k | 0 <= k < equipment.Length :: equipment[k] == if old(equipment[k]) == index then 0 else old(equipment[k])
      ensures forall shown :: Shows(old(equipment[..]), shown) ==> Shows(equipment[..], shown - {index})
    {
      var i := 0;
      while i < equipment.Length
        invariant 0 <= i <= equipment.Length
        invariant forall k :: 0 <= k < i ==> equipment[k] == if old(equipment[k]) == index then 0 else old(equipment[k])
        invariant forall k :: i <= k < equipment.Length ==> equipment[k] == old(equipment[k])
      {
        if equipment[i] == index {
          equipment[i] := 0;
        }
        i := i + 1;
      }
      ShowsLess(old(equipment[..]), equipment[..], index);
    }

    method ApplySpecialty(init: InitItem)
      modifies `sums, `attackSpeed
      ensures Adds(old(sums), init.specialty, sums)
      ensures attackSpeed == if init.form == Weapon then init.attackSpeed % WORD else old(attackSpeed)
    {
      hide Plus;
      var bonus := init.specialty;
      sums := sums.(strength := Plus(sums.strength, bonus.strength), health := Plus(sums.health, bonus.health),
                    intelligence := Plus(sums.intelligence, bonus.intelligence), wisdom := Plus(sums.wisdom, bonus.wisdom),
                    dexterity := Plus(sums.dexterity, bonus.dexterity));
      sums := sums.(hp := Plus(sums.hp, bonus.hp), mp := Plus(sums.mp, bonus.mp),
                    defense := Plus(sums.defense, bonus.defense), hit := Plus(sums.hit, bonus.hit),
                    dodge := Plus(sums.dodge, bonus.dodge), absorb := Plus(sums.absorb, bonus.absorb));
      if init.form == Weapon {
        attackSpeed := init.attackSpeed % WORD;
      }
      sums := sums.(minAttack := Plus(sums.minAttack, bonus.minAttack), maxAttack := Plus(sums.maxAttack, bonus.maxAttack),
                    minMagic := Plus(sums.minMagic, bonus.minMagic), maxMagic := Plus(sums.maxMagic, bonus.maxMagic));
      sums := sums.(curse := Plus(sums.curse, bonus.curse), fire := Plus(sums.fire, bonus.fire),
                    ice := Plus(sums.ice, bonus.ice), lightning := Plus(sums.lightning, bonus.lightning),
                    palsy := Plus(sums.palsy, bonus.palsy));
    }

    method FreeSpecialty(init: InitItem)
      modifies `sums, `attackSpeed
      ensures Subtracts(old(sums), init.specialty, sums)
      ensures attackSpeed == if init.form == Weapon then 0 else old(attackSpeed)
    {
      hide Minus;
      var bonus := init.specialty;
      sums := sums.(strength := Minus(sums.strength, bonus.strength), health := Minus(sums.health, bonus.health),
                    intelligence := Minus(sums.intelligence, bonus.intelligence), wisdom := Minus(sums.wisdom, bonus.wisdom),
                    dexterity := Minus(sums.dexterity, bonus.dexterity));
      sums := sums.(hp := Minus(sums.hp, bonus.hp), mp := Minus(sums.mp, bonus.mp),
                    defense := Minus(sums.defense, bonus.defense), hit := Minus(sums.hit, bonus.hit),
                    dodge := Minus(sums.dodge, bonus.dodge), absorb := Minus(sums.absorb, bonus.absorb));
      if init.form == Weapon {
        attackSpeed := 0;
      }
      sums := sums.(minAttack := Minus(sums.minAttack, bonus.minAttack), maxAttack := Minus(sums.maxAttack, bonus.maxAttack),
                    minMagic := Minus(sums.minMagic, bonus.minMagic), maxMagic := Minus(sums.maxMagic, bonus.maxMagic));
      sums := sums.(curse := Minus(sums.curse, bonus.curse), fire := Minus(sums.fire, bonus.fire),
                    ice := Minus(sums.ice, bonus.ice), lightning := Minus(sums.lightning, bonus.lightning),
                    palsy := Minus(sums.palsy, bonus.palsy));
    }

    ghost predicate Same(ride: Item?, worn: seq<Item?>, cells: seq<nat>, sums: Specialty, attackSpeed: nat)
      reads this, wearItems, equipment
    {
      this.ride == ride && wearItems[..] == worn && equipment[..] == cells && this.sums == sums && this.attackSpeed == attackSpeed
    }

    /** Whether the slots allow an item, as the code asks them. */
    predicate Allows(init: InitItem)
      requires wearItems.Length == WS_LAST
      reads this, wearItems
    {
      if init.form == Ride then
        ride == null
      else
        && init.wearable
        && WearId(init.kind) != -1
        && (init.kind == Sword2Hand ==> wearItems[WS_SHIELD] == null)
        && (init.kind == Shield ==> wearItems[WS_WEAPON] == null || wearItems[WS_WEAPON].init.kind != Sword2Hand)
        && wearItems[WearId(init.kind)] == null
    }

    lemma AllowsIsFits(l: nat)
      requires Mirrors() && Sane(closet) && l in items
      ensures Allows(items[l].init) <==> Fits(closet, closet.owned[l])
      ensures items[l].init == closet.owned[l] && (items[l].putOn <==> IsOn(closet, l))
      ensures items[l].init.index != 0 && (Allows(items[l].init) ==> Wears(items[l].init))
    {
    }

    /** The objects are the closet, and there is room for an item that is not on. */
    ghost predicate CanDress(l: nat)
      reads `items, `ride, `closet, wearItems, items.Values
    {
      Mirrors() && Sane(closet) && l in closet.owned && !IsOn(closet, l) && Fits(closet, closet.owned[l])
    }

    method Dress(l: nat)
      requires wearItems.Length == WS_LAST && l in items && Wears(items[l].init)
      modifies `ride, `closet, wearItems, items[l]
      ensures items[l].putOn && On(items[l], old(ride), old(wearItems[..]), ride, wearItems[..])
      ensures old(CanDress(l)) ==> Mirrors() && closet == PutOnTo(old(closet), l)
    {
      hide IsOn;
      var item := items[l];
      if item.init.form == Ride {
        ride := item;
      } else {
        wearItems[WearId(item.init.kind)] := item;
      }
      item.putOn := true;
      if old(CanDress(l)) {
        closet := Dressed(closet, l, item.init);
        OnAfterDressing(old(closet), l);
      }
    }

    method Undress(l: nat)
      requires Mirrors() && Sane(closet) && l in items && IsOn(closet, l)
      modifies `ride, `closet, wearItems, items[l]
      ensures Mirrors() && closet == PutOffFrom(old(closet), l)
      ensures !items[l].putOn && Wears(items[l].init) && Off(items[l], old(ride), old(wearItems[..]), ride, wearItems[..])
    {
      hide IsOn, Proper, PutOffFrom, HandsSuffice;
      var item := items[l];
      OnAfterUndressing(closet, l);
      PutOffShape(closet, l);
      if item.init.form == Ride {
        ride := null;
      } else {
        wearItems[WearId(item.init.kind)] := null;
      }
      item.putOn := false;
      closet := PutOffFrom(closet, l);
    }

    method PutOn(l: nat) returns (item: Item?)
      requires Valid()
      modifies this, wearItems, items.Values, equipment
      ensures Valid() && items == old(items) && closet == PutOnTo(old(closet), l) == Next(old(closet), PutsOn(l))
      ensures item == if l in items && !old(items[l].putOn) && old(Allows(items[l].init)) then items[l] else null
      ensures item != null <==>
        && l in items && !old(items[l].putOn)
        && var init, worn := items[l].init, old(wearItems[..]);
           if init.form == Ride then
             old(ride) == null
           else
             && init.wearable && WearId(init.kind) >= 0 && worn[WearId(init.kind)] == null
             && (init.kind == Sword2Hand ==> worn[WearId(Shield)] == null)
             && (init.kind == Shield ==> worn[WearId(Sword)] == null || worn[WearId(Sword)].init.kind != Sword2Hand)
      ensures item == null ==> Same(old(ride), old(wearItems[..]), old(equipment[..]), old(sums), old(attackSpeed))
      ensures item != null ==>
        && item == items[l] && item.putOn && Wears(item.init)
        && On(item, old(ride), old(wearItems[..]), ride, wearItems[..])
        && equipment[..] == Marked(old(equipment[..]), item.init.index)
        && Gains(item.init, old(sums), old(attackSpeed), sums, attackSpeed)
    {
      hide Sane, Computed, Allows, Mirrors, PutOnTo, Fits, IsOn;
      KeysMirror();
      if l !in items {
        NothingToPutOn(closet, l);
        return null;
      }
      item := items[l];
      AllowsIsFits(l);
      NothingToPutOn(closet, l);
      var allowed := MayPutOn(item);
      if !allowed {
        return null;
      }
      Equip(l);
    }

    lemma KeysMirror()
      requires Mirrors()
      ensures items.Keys == closet.owned.Keys && wearItems.Length == WS_LAST
      ensures forall l <- items :: items[l].init == closet.owned[l]
    {
    }

    lemma DressingKeeps(l: nat)
      requires Valid() && CanDress(l)
      ensures Computed(closet, sums, attackSpeed, equipment[..]) && |equipment[..]| == EQUIPMENT_SIZE
      ensures Shows(Marked(equipment[..], closet.owned[l].index), Visible(closet) + {closet.owned[l].index})
      ensures Sane(closet) && l in closet.owned && !IsOn(closet, l) && Fits(closet, closet.owned[l])
      ensures l in items && items[l].init == closet.owned[l]
    {
      hide Fits, IsOn, Visible, Shows, Marked, Computed;
      KeysMirror();
      ComputedParts(closet, l, sums, attackSpeed, equipment[..]);
      FreeCell(closet, equipment[..]);
      VisibleAfterPutOn(closet, l);
      ShowsMarked(equipment[..], closet.owned[l].index, Visible(closet));
    }

    /** Puts an item on without asking whether there is room. If there is, everything stays as one would compute it. */
    method Equip(l: nat)
      requires wearItems.Length == WS_LAST && l in items && Wears(items[l].init) && items[l].init.index != 0
      modifies `ride, `closet, `sums, `attackSpeed, wearItems, items[l], equipment
      ensures items[l].putOn && On(items[l], old(ride), old(wearItems[..]), ride, wearItems[..])
      ensures equipment[..] == Marked(old(equipment[..]), items[l].init.index)
      ensures Gains(items[l].init, old(sums), old(attackSpeed), sums, attackSpeed)
      ensures old(Valid() && CanDress(l)) ==> Valid() && closet == PutOnTo(old(closet), l)
    {
      hide Sane, Computed, Mirrors, PutOnTo, Fits, IsOn, Shows, Visible, Marked, Adds;
      ghost var roomy := Valid() && CanDress(l);
      if roomy {
        DressingKeeps(l);
      }
      var item := items[l];
      Dress(l);
      AddVisibleIndex(item.init.index);
      if item.init.form != Ride {
        ApplySpecialty(item.init);
      }
      if roomy {
        ComputedAfterPutOn(old(closet), l, old(sums), sums, old(attackSpeed), old(equipment[..]), equipment[..]);
      }
    }

    method Unequip(l: nat)
      requires Valid() && l in items && IsOn(closet, l)
      modifies `ride, `closet, `sums, `attackSpeed, wearItems, items[l], equipment
      ensures Valid() && closet == PutOffFrom(old(closet), l)
      ensures !items[l].putOn && Wears(items[l].init) && Off(items[l], old(ride), old(wearItems[..]), ride, wearItems[..])
      ensures forall k | 0 <= k < EQUIPMENT_SIZE ::
        equipment[k] == if old(equipment[k]) == items[l].init.index then 0 else old(equipment[k])
      ensures Loses(items[l].init, old(sums), old(attackSpeed), sums, attackSpeed)
    {
      hide Sane, Computed, Mirrors, PutOffFrom, IsOn, Shows, Visible;
      KeysMirror();
      ComputedParts(closet, l, sums, attackSpeed, equipment[..]);
      VisibleAfterPutOff(closet, l);
      var item := items[l];
      Undress(l);
      RemoveVisibleIndex(item.init.index);
      if item.init.form != Ride {
        FreeSpecialty(item.init);
      }
      ComputedAfterPutOff(old(closet), l, old(sums), sums, old(attackSpeed), old(equipment[..]), equipment[..]);
    }

    /** The refusals, one after the other. */
    method MayPutOn(item: Item) returns (allowed: bool)
      requires wearItems.Length == WS_LAST
      ensures allowed <==> !item.putOn && Allows(item.init)
      ensures allowed <==>
        && !item.putOn
        && var init, worn := item.init, wearItems[..];
           if init.form == Ride then
             ride == null
           else
             && init.wearable && WearId(init.kind) >= 0 && worn[WearId(init.kind)] == null
             && (init.kind == Sword2Hand ==> worn[WearId(Shield)] == null)
             && (init.kind == Shield ==> worn[WearId(Sword)] == null || worn[WearId(Sword)].init.kind != Sword2Hand)
    {
      if item.putOn {
        return false;
      }
      if item.init.form == Ride {
        return ride == null;
      }
      if !item.init.wearable {
        return false;
      }
      if WearId(item.init.kind) == -1 {
        return false;
      }
      if item.init.kind == Sword2Hand && wearItems[WS_SHIELD] != null {
        return false;
      }
      if item.init.kind == Shield && wearItems[WS_WEAPON] != null && wearItems[WS_WEAPON].init.kind == Sword2Hand {
        return false;
      }
      return wearItems[WearId(item.init.kind)] == null;
    }

    method PutOff(l: nat) returns (item: Item?)
      requires Valid()
      modifies this, wearItems, items.Values, equipment
      ensures Valid() && items == old(items) && closet == PutOffFrom(old(closet), l) == Next(old(closet), PutsOff(l))
      ensures item == if l in items && old(items[l].putOn) then items[l] else null
      ensures item == null ==> Same(old(ride), old(wearItems[..]), old(equipment[..]), old(sums), old(attackSpeed))
      ensures item != null ==>
        && !item.putOn && Wears(item.init)
        && Off(item, old(ride), old(wearItems[..]), ride, wearItems[..])
        && (forall k | 0 <= k < EQUIPMENT_SIZE ::
              equipment[k] == if old(equipment[k]) == item.init.index then 0 else old(equipment[k]))
        && Loses(item.init, old(sums), old(attackSpeed), sums, attackSpeed)
    {
      hide Sane, Computed, Allows, Mirrors, PutOffFrom, IsOn;
      KeysMirror();
      NothingToPutOff(closet, l);
      if l !in items {
        return null;
      }
      item := items[l];
      AllowsIsFits(l);
      if !item.putOn {
        return null;
      }
      Unequip(l);
    }

    method Trash(l: nat) returns (trashed: bool)
      requires Valid()
      modifies this
      ensures Valid() && closet == Trashed(old(closet), l) == Next(old(closet), Trashes(l))
      ensures trashed <==> l in old(items) && !old(items[l].putOn)
      ensures items == if trashed then old(items) - {l} else old(items)
    {
      hide Proper, Computed, IsOn;
      if l !in items || items[l].putOn {
        return false;
      }
      ComputedAfterTrash(closet, l, sums, attackSpeed, equipment[..]);
      items := items - {l};
      closet := Trashed(closet, l);
      TrashingKeepsOn(old(closet), l);
      return true;
    }

    /**
      A row of the database: an item that is not in the tables, or whose local id is taken, is
      refused. One that is on is put on without asking; if there is room for it, everything
      stays as one would compute it. That a wearable item has a slot is asserted.
    */
    method Insert(local: nat, index: nat, tables: map<nat, InitItem>, putOn: bool) returns (item: Item?)
      requires Valid()
      requires forall i <- tables :: tables[i].index == i && WellMade(tables[i])
      requires forall l <- closet.owned, i <- tables :: FromTables(closet.owned[l], tables[i])
      requires putOn && index in tables && local !in items && tables[index].wearable ==> WearId(tables[index].kind) >= 0
      modifies this, wearItems, equipment
      ensures item == null <==> index !in tables || local in old(items)
      ensures item == null ==> Valid() && closet == old(closet) && items == old(items)
      ensures item != null ==> fresh(item) && items == old(items)[local := item]
      ensures item != null ==> item.init == tables[index] && item.putOn == putOn
      ensures item != null && (putOn ==> old(Fits(closet, tables[index]))) ==>
        Valid() && closet == Inserted(old(closet), local, tables[index], putOn)
      ensures item != null && old(Possible(closet, Loads(local, tables[index], putOn))) ==>
        closet == Next(old(closet), Loads(local, tables[index], putOn))
      ensures item != null && putOn && (tables[index].form == Ride || tables[index].wearable) ==>
        && On(item, old(ride), old(wearItems[..]), ride, wearItems[..])
        && equipment[..] == Marked(old(equipment[..]), index)
        && Gains(tables[index], old(sums), old(attackSpeed), sums, attackSpeed)
    {
      hide Proper, Computed, IsOn, Fits, Mirrors, Marked, Gains, Adds;
      KeysMirror();
      if index !in tables || local in items {
        return null;
      }
      var init := tables[index];
      InsertingKeeps(closet, local, init, sums, attackSpeed, equipment[..]);
      item := Own(local, init);
      if putOn {
        if init.wearable || init.form == Ride {
          Equip(local);
        } else {
          item.putOn := true;
        }
      }
    }

    method Own(local: nat, init: InitItem) returns (item: Item)
      requires Mirrors() && local !in items
      requires forall k :: IsOn(closet.(owned := closet.owned[local := init]), k) <==> IsOn(closet, k)
      requires !IsOn(closet, local)
      modifies `items, `closet
      ensures Mirrors() && fresh(item) && items == old(items)[local := item] && item.init == init && !item.putOn
      ensures closet == old(closet).(owned := old(closet).owned[local := init])
    {
      hide IsOn;
      item := new Item(local, init, false);
      items := items[local := item];
      closet := closet.(owned := closet.owned[local := init]);
    }
  }

  lemma {:induction false} NothingToSum(c: Closet, slots: nat, f: Field)
    requires Proper(c) && c.worn == map[]
    ensures Sum(c, slots, f) == 0
  {
    if slots > 0 {
      NothingToSum(c, slots - 1, f);
    }
  }

  lemma OnAfterDressing(c: Closet, l: nat)
    requires Sane(c) && l in c.owned && !IsOn(c, l) && Fits(c, c.owned[l])
    ensures Sane(PutOnTo(c, l))
    ensures forall k :: IsOn(PutOnTo(c, l), k) <==> k == l || IsOn(c, k)
  {
    PutOnIsSane(c, l);
    var d := PutOnTo(c, l);
    if c.owned[l].form != Ride {
      assert d.worn[WearId(c.owned[l].kind)] == l;
      forall k ensures IsOn(d, k) <==> k == l || IsOn(c, k) {
        if s :| s in c.worn && c.worn[s] == k {
          assert s in d.worn && d.worn[s] == k;
        }
      }
    }
  }

  lemma OnAfterUndressing(c: Closet, l: nat)
    requires Sane(c) && l in c.owned && IsOn(c, l)
    ensures Sane(PutOffFrom(c, l))
    ensures forall k :: IsOn(PutOffFrom(c, l), k) <==> k != l && IsOn(c, k)
  {
    PutOffIsSane(c, l);
    var d := PutOffFrom(c, l);
    if c.owned[l].form != Ride {
      WornInItsSlot(c, l);
      forall k ensures IsOn(d, k) <==> k != l && IsOn(c, k) {
        if s :| s in c.worn && c.worn[s] == k && k != l {
          assert s in d.worn && d.worn[s] == k;
        }
      }
    }
  }

  lemma PutOffShape(c: Closet, l: nat)
    requires Sane(c) && l in c.owned && IsOn(c, l)
    ensures var s := WearId(c.owned[l].kind);
      if c.owned[l].form == Ride then
        PutOffFrom(c, l) == c.(mount := OnFoot)
      else
        s in c.worn && c.worn[s] == l && PutOffFrom(c, l) == c.(worn := c.worn - {s})
  {
    if c.owned[l].form != Ride {
      WornInItsSlot(c, l);
    }
  }

  lemma NothingToPutOn(c: Closet, l: nat)
    requires Sane(c)
    ensures !(l in c.owned && !IsOn(c, l) && Fits(c, c.owned[l])) ==> PutOnTo(c, l) == c
  {
  }

  lemma NothingToPutOff(c: Closet, l: nat)
    requires Sane(c)
    ensures !(l in c.owned && IsOn(c, l)) ==> PutOffFrom(c, l) == c
  {
  }

  lemma TrashingKeepsOn(c: Closet, l: nat)
    requires Sane(c) && l in c.owned && !IsOn(c, l)
    ensures forall k :: IsOn(Trashed(c, l), k) <==> IsOn(c, k)
    ensures forall s <- c.worn :: c.worn[s] != l
    ensures c.mount != Riding(l)
  {
  }

  lemma {:induction false} SumOfSame(c: Closet, d: Closet, slots: nat, f: Field)
    requires Proper(c) && Proper(d) && c.worn == d.worn
    requires forall s <- c.worn :: c.owned[c.worn[s]] == d.owned[d.worn[s]]
    ensures Sum(c, slots, f) == Sum(d, slots, f)
  {
    if slots > 0 {
      SumOfSame(c, d, slots - 1, f);
    }
  }

  /** What is owned but not on does not count. */
  lemma ComputedFromOn(c: Closet, d: Closet, sums: Specialty, attackSpeed: nat, cells: seq<nat>)
    requires Sane(c) && Sane(d) && c.worn == d.worn && c.mount == d.mount
    requires forall s <- c.worn :: c.owned[c.worn[s]] == d.owned[d.worn[s]]
    requires c.mount.Riding? ==> c.owned[c.mount.local] == d.owned[c.mount.local]
    requires Computed(c, sums, attackSpeed, cells)
    ensures Computed(d, sums, attackSpeed, cells)
  {
    forall f: Field ensures Sum(c, WS_LAST, f) == Sum(d, WS_LAST, f) {
      SumOfSame(c, d, WS_LAST, f);
    }
    assert Visible(c) == Visible(d);
  }

  lemma ComputedAfterTrash(c: Closet, l: nat, sums: Specialty, attackSpeed: nat, cells: seq<nat>)
    requires Sane(c) && l in c.owned && !IsOn(c, l) && Computed(c, sums, attackSpeed, cells)
    ensures Sane(Trashed(c, l)) && Computed(Trashed(c, l), sums, attackSpeed, cells)
  {
    TrashedIsSane(c, l);
    TrashingKeepsOn(c, l);
    ComputedFromOn(c, Trashed(c, l), sums, attackSpeed, cells);
  }

  lemma InsertingKeeps(c: Closet, l: nat, init: InitItem, sums: Specialty, attackSpeed: nat, cells: seq<nat>)
    requires Sane(c) && l !in c.owned && WellMade(init) && Computed(c, sums, attackSpeed, cells)
    requires forall k <- c.owned :: FromTables(c.owned[k], init)
    ensures var d := Inserted(c, l, init, false);
      && d == c.(owned := c.owned[l := init])
      && Sane(d) && Computed(d, sums, attackSpeed, cells)
      && (forall k :: IsOn(d, k) <==> IsOn(c, k)) && !IsOn(d, l)
      && (Fits(c, init) ==> Fits(d, init) && PutOnTo(d, l) == Inserted(c, l, init, true))
  {
    InsertedIsSane(c, l, init, false);
    ComputedFromOn(c, Inserted(c, l, init, false), sums, attackSpeed, cells);
  }

  lemma ComputedParts(c: Closet, l: nat, sums: Specialty, attackSpeed: nat, cells: seq<nat>)
    requires Sane(c) && Computed(c, sums, attackSpeed, cells) && l in c.owned
    ensures |cells| == EQUIPMENT_SIZE && Shows(cells, Visible(c))
    ensures WellMade(c.owned[l])
  {
  }

  lemma ShowsMore(cells: seq<nat>, i: nat, index: nat)
    requires i < |cells| && cells[i] == 0 && index != 0
    ensures forall shown :: Shows(cells, shown) && index !in shown ==> Shows(cells[i := index], shown + {index})
  {
    var after := cells[i := index];
    forall shown | Shows(cells, shown) && index !in shown ensures Shows(after, shown + {index}) {
      forall x | x in shown + {index} ensures x != 0 && x in after {
        if x == index {
          assert after[i] == x;
        } else {
          var k :| 0 <= k < |cells| && cells[k] == x;
          assert after[k] == x;
        }
      }
    }
  }

  lemma ShowsLess(cells: seq<nat>, after: seq<nat>, index: nat)
    requires |after| == |cells|
    requires forall k :: 0 <= k < |cells| ==> after[k] == if cells[k] == index then 0 else cells[k]
    ensures forall shown :: Shows(cells, shown) ==> Shows(after, shown - {index})
  {
    forall shown | Shows(cells, shown) ensures Shows(after, shown - {index}) {
      forall x | x in shown - {index} ensures x != 0 && x in after {
        var k :| 0 <= k < |cells| && cells[k] == x;
        assert after[k] == x;
      }
    }
  }

  // --------------------------------------------------------------------- runs

  datatype Event = PutsOn(l: nat) | PutsOff(l: nat) | Trashes(l: nat) | Loads(l: nat, init: InitItem, putOn: bool)

  const NAKED := Closet(map[], map[], OnFoot)

  /** Rows come from the tables, and those whose items are on can be on together. */
  predicate Possible(c: Closet, e: Event)
    requires Sane(c)
  {
    e.Loads? ==>
      && e.l !in c.owned
      && WellMade(e.init) && (forall k <- c.owned :: FromTables(c.owned[k], e.init))
      && (e.putOn ==> Fits(c, e.init))
  }

  function Next(c: Closet, e: Event): Closet
    requires Sane(c) && Possible(c, e)
  {
    match e
    case PutsOn(l) => PutOnTo(c, l)
    case PutsOff(l) => PutOffFrom(c, l)
    case Trashes(l) => Trashed(c, l)
    case Loads(l, init, putOn) => Inserted(c, l, init, putOn)
  }

  predicate Run(c: Closet, es: seq<Event>)
    decreases |es|
  {
    es != [] ==> Sane(c) && Possible(c, es[0]) && Run(Next(c, es[0]), es[1..])
  }

  function After(c: Closet, es: seq<Event>): Closet
    requires Run(c, es)
    decreases |es|
  {
    if es == [] then c else After(Next(c, es[0]), es[1..])
  }

  lemma NextIsSane(c: Closet, e: Event)
    requires Sane(c) && Possible(c, e)
    ensures Sane(Next(c, e))
  {
    match e
    case PutsOn(l) => PutOnIsSane(c, l);
    case PutsOff(l) => PutOffIsSane(c, l);
    case Trashes(l) => TrashedIsSane(c, l);
    case Loads(l, init, putOn) => InsertedIsSane(c, l, init, putOn);
  }

  /** One more event. */
  lemma {:induction false} RunGoesOn(c: Closet, es: seq<Event>, e: Event)
    requires Sane(c) && Run(c, es)
    ensures Sane(After(c, es))
    ensures Possible(After(c, es), e) ==> Run(c, es + [e]) && After(c, es + [e]) == Next(After(c, es), e)
    decreases |es|
  {
    hide Next, Possible, Sane;
    RunsAreSane(c, es);
    if es == [] {
      assert es + [e] == [e] && [e][1..] == [];
      assert Possible(c, e) ==> Run(Next(c, e), []) && After(Next(c, e), []) == Next(c, e);
    } else {
      NextIsSane(c, es[0]);
      RunGoesOn(Next(c, es[0]), es[1..], e);
      assert (es + [e])[1..] == es[1..] + [e];
    }
  }

  lemma {:induction false} RunsAreSane(c: Closet, es: seq<Event>)
    requires Sane(c) && Run(c, es)
    ensures Sane(After(c, es))
    decreases |es|
  {
    if es != [] {
      NextIsSane(c, es[0]);
      RunsAreSane(Next(c, es[0]), es[1..]);
    }
  }

  lemma SameIndexIsSameItem(c: Closet, k: nat, l: nat)
    requires Sane(c) && k in c.owned && l in c.owned && IsOn(c, k) && IsOn(c, l)
    requires c.owned[k].index == c.owned[l].index
    ensures k == l
  {
    assert FromTables(c.owned[k], c.owned[l]);
    if c.owned[k].form != Ride {
      WornInItsSlot(c, k);
      WornInItsSlot(c, l);
    }
  }

  lemma SwordOrShield(c: Closet, k: nat, l: nat)
    requires Sane(c) && k in c.owned && l in c.owned && IsOn(c, k) && IsOn(c, l)
    requires c.owned[k].form != Ride && c.owned[l].form != Ride
    ensures !(c.owned[k].kind == Sword2Hand && c.owned[l].kind == Shield)
  {
    WornInItsSlot(c, k);
    WornInItsSlot(c, l);
  }

  /**
    After any run, what is on is owned, no two things that are on have the same index, a
    two-handed sword and a shield are never both worn, and there is a cell for everything.
  */
  lemma WornItemsAgree(es: seq<Event>, k: nat, l: nat)
    requires Run(NAKED, es) && IsOn(After(NAKED, es), k) && IsOn(After(NAKED, es), l)
    ensures var c := After(NAKED, es);
      && Sane(c)
      && k in c.owned && l in c.owned
      && (k != l ==> c.owned[k].index != c.owned[l].index)
      && (c.owned[k].form != Ride && c.owned[l].form != Ride ==>
            !(c.owned[k].kind == Sword2Hand && c.owned[l].kind == Shield))
      && |Visible(c)| < EQUIPMENT_SIZE
  {
    RunsAreSane(NAKED, es);
    var c := After(NAKED, es);
    VisibleIsSmall(c);
    if k != l && c.owned[k].index == c.owned[l].index {
      SameIndexIsSameItem(c, k, l);
    }
    if c.owned[k].form != Ride && c.owned[l].form != Ride {
      SwordOrShield(c, k, l);
    }
  }

  /**
    A loaded row that is on in a slot where another item is already worn replaces that
    item without taking its bonuses away. A sum stays right exactly when there was nothing
    to take away.
  */
  lemma LoadingOverWornIsRightIff(c: Closet, l: nat, init: InitItem, sum: nat, f: Field)
    requires Sane(c) && l !in c.owned && WellMade(init) && (forall k <- c.owned :: FromTables(c.owned[k], init))
    requires init.form != Ride && init.wearable && WearId(init.kind) in c.worn
    requires sum == Sum(c, WS_LAST, f) % WORD
    ensures Proper(Inserted(c, l, init, true))
    ensures (sum + init.specialty.Of(f)) % WORD == Sum(Inserted(c, l, init, true), WS_LAST, f) % WORD
       <==> c.owned[c.worn[WearId(init.kind)]].specialty.Of(f) % WORD == 0
  {
    var d, s := Inserted(c, l, init, true), WearId(init.kind);
    SumWithout(c, d, s, WS_LAST, f);
    hide Sum, Specialty.Of;
    LossShowsIff(Sum(c, WS_LAST, f), Sum(d, WS_LAST, f), init.specialty.Of(f), c.owned[c.worn[s]].specialty.Of(f));
  }

  lemma LossShowsIff(before: nat, after: nat, gained: nat, lost: nat)
    requires before + gained == after + lost
    ensures (before % WORD + gained) % WORD == after % WORD <==> lost % WORD == 0
  {
    WordSums(before, gained);
    if lost % WORD == 0 {
      ModOfMultiple(lost / WORD, after);
    } else if (after + lost) % WORD == after % WORD {
      var q, r := (after + lost) / WORD, after / WORD;
      assert lost == (q - r) * WORD + 0;
      ModOfMultiple(q - r, 0);
      assert false;
    }
  }
}
