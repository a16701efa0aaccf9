/** Machine widths shared by the models. */
module Words {
  const U16_RANGE := 0x1_0000

  /** `unsigned short`: router ids, ports and link costs. */
  type u16 = x: int | 0 <= x < U16_RANGE

  type Id = u16
  type Port = u16

  ghost predicate HasAll(ids: set<Id>) {
    forall x: Id :: x in ids
  }

  /** Router ids are finitely many. */
  ghost function AllIds(): (ids: set<Id>)
    ensures HasAll(ids)
  {
    IdsAreFinite();
    var ids :| HasAll(ids);
    ids
  }

  lemma IdsAreFinite()
    ensures exists ids :: HasAll(ids)
  {
    var ids := IdsBelow(U16_RANGE);
    assert HasAll(ids);
  }

  ghost function IdsBelow(n: nat): (ids: set<Id>)
    requires n <= U16_RANGE
    ensures forall x: Id :: x in ids <==> x < n
  {
    if n == 0 then {} else IdsBelow(n - 1) + {n - 1}
  }

  /** What storing an `int` into an `unsigned short` keeps. */
  function Truncate(x: int): (t: u16)
    ensures 0 <= x < U16_RANGE ==> t == x
  {
    x % U16_RANGE
  }
}
