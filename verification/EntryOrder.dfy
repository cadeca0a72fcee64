/** The hedge-first transport order of a four-leg box: every BUY before any SELL, otherwise canonical. */
module EntryOrder {

  datatype Role = K1Ce | K2Ce | K2Pe | K1Pe
  datatype Side = Buy | Sell
  datatype Direction = LongBox | ShortBox

  const ROLES: seq<Role> := [K1Ce, K2Ce, K2Pe, K1Pe]

  function SideOf(d: Direction, r: Role): Side {
    var long := if r == K1Ce || r == K2Pe then Buy else Sell;
    if d == LongBox then long else if long == Buy then Sell else Buy
  }

  datatype Slot = Slot(role: Role, side: Side, rank: int)

  function Sides(slots: seq<Slot>): seq<Side> { seq(|slots|, i requires 0 <= i < |slots| => slots[i].side) }

  /** No BUY follows a SELL. */
  predicate HedgeFirst(sides: seq<Side>) {
    forall i, j :: 0 <= i < j < |sides| ==> !(sides[i] == Sell && sides[j] == Buy)
  }

  function Of(d: Direction, side: Side, roles: seq<Role>): seq<Role> {
    if roles == [] then []
    else
      var rest := Of(d, side, roles[..|roles| - 1]);
      if SideOf(d, roles[|roles| - 1]) == side then rest + [roles[|roles| - 1]] else rest
  }

  function EntrySlots(d: Direction): seq<Slot> {
    var roles := Of(d, Buy, ROLES) + Of(d, Sell, ROLES);
    seq(|roles|, i requires 0 <= i < |roles| => Slot(roles[i], SideOf(d, roles[i]), i))
  }

  method EntrySubmissionOrder(d: Direction) returns (slots: seq<Slot>)
    ensures slots == EntrySlots(d)
  {
    var buys: seq<Role>, sells: seq<Role> := [], [];
    for i := 0 to |ROLES|
      invariant buys == Of(d, Buy, ROLES[..i]) && sells == Of(d, Sell, ROLES[..i])
    {
      assert ROLES[..i + 1][..i] == ROLES[..i];
      if SideOf(d, ROLES[i]) == Buy {
        buys := buys + [ROLES[i]];
      } else {
        sells := sells + [ROLES[i]];
      }
    }
    assert ROLES[..|ROLES|] == ROLES;
    var roles := buys + sells;
    slots := seq(|roles|, i requires 0 <= i < |roles| => Slot(roles[i], SideOf(d, roles[i]), i));
  }

  lemma OfAppend(d: Direction, side: Side, roles: seq<Role>, r: Role)
    ensures Of(d, side, roles + [r]) == if SideOf(d, r) == side then Of(d, side, roles) + [r] else Of(d, side, roles)
  {
    assert (roles + [r])[..|roles|] == roles;
  }

  lemma RolesOfSide(d: Direction, side: Side)
    ensures Of(d, side, ROLES) == if (d == LongBox) == (side == Buy) then [K1Ce, K2Pe] else [K2Ce, K1Pe]
  {
    OfAppend(d, side, [], K1Ce);
    OfAppend(d, side, [K1Ce], K2Ce);
    OfAppend(d, side, [K1Ce, K2Ce], K2Pe);
    OfAppend(d, side, [K1Ce, K2Ce, K2Pe], K1Pe);
    assert [] + [K1Ce] == [K1Ce] && [K1Ce] + [K2Ce] == [K1Ce, K2Ce];
    assert [K1Ce, K2Ce] + [K2Pe] == [K1Ce, K2Ce, K2Pe] && [K1Ce, K2Ce, K2Pe] + [K1Pe] == ROLES;
  }

  /** The two sequences, written out. */
  lemma EntrySlotsAre(d: Direction)
    ensures EntrySlots(d) ==
            if d == LongBox then [Slot(K1Ce, Buy, 0), Slot(K2Pe, Buy, 1), Slot(K2Ce, Sell, 2), Slot(K1Pe, Sell, 3)]
            else [Slot(K2Ce, Buy, 0), Slot(K1Pe, Buy, 1), Slot(K1Ce, Sell, 2), Slot(K2Pe, Sell, 3)]
  {
    RolesOfSide(d, Buy);
    RolesOfSide(d, Sell);
    var roles := Of(d, Buy, ROLES) + Of(d, Sell, ROLES);
    assert roles == if d == LongBox then [K1Ce, K2Pe, K2Ce, K1Pe] else [K2Ce, K1Pe, K1Ce, K2Pe];
  }

  /** All four legs, each once, hedges first, ranked by position. */
  lemma EntryOrderIsHedgeFirst(d: Direction)
    ensures var slots := EntrySlots(d);
            && |slots| == 4 && HedgeFirst(Sides(slots))
            && (forall i, j :: 0 <= i < j < 4 ==> slots[i].role != slots[j].role)
            && (forall i :: 0 <= i < 4 ==> slots[i].rank == i && slots[i].side == SideOf(d, slots[i].role))
  {
    EntrySlotsAre(d);
  }

  /** The place of a role in the canonical order. */
  function Canonical(r: Role): nat {
    match r
    case K1Ce => 0
    case K2Ce => 1
    case K2Pe => 2
    case K1Pe => 3
  }

  /** Within each side the canonical order is kept. */
  lemma CanonicalWithinSide(d: Direction)
    ensures var slots := EntrySlots(d);
            && |slots| == 4
            && (forall i :: 0 <= i < 4 ==> ROLES[Canonical(slots[i].role)] == slots[i].role)
            && (forall i, j :: 0 <= i < j < 4 && slots[i].side == slots[j].side ==>
                  Canonical(slots[i].role) < Canonical(slots[j].role))
  {
    EntrySlotsAre(d);
  }

  /** The independent oracle over a transmitted sequence of sides. */
  method IsHedgeFirstSequence(sides: seq<Side>) returns (ok: bool)
    ensures ok <==> HedgeFirst(sides)
  {
    var seenSell := false;
    for i := 0 to |sides|
      invariant seenSell <==> Sell in sides[..i]
      invariant HedgeFirst(sides[..i])
    {
      assert sides[..i + 1] == sides[..i] + [sides[i]];
      if sides[i] == Sell {
        seenSell := true;
      } else if seenSell {
        var k :| 0 <= k < i && sides[k] == Sell;
        assert !HedgeFirst(sides);
        return false;
      }
    }
    assert sides[..|sides|] == sides;
    return true;
  }
}
