/** The menu: the fixed seed catalog, lookup of an item by id, and the
    start-up rule that seeds an empty menu. */
module Menu {
  import opened Domain

  /** The twenty dishes inserted into an empty menu, in insertion order. */
  const Catalog: seq<MenuItem> := [
    MenuItem("1", "Idli", "\U{1F965}", 40, 46),
    MenuItem("2", "Dosa", "\U{1FAD3}", 60, 48),
    MenuItem("3", "Vada", "\U{1F369}", 30, 45),
    MenuItem("4", "Upma", "\U{1F35A}", 50, 42),
    MenuItem("5", "Pongal", "\U{1F372}", 70, 44),
    MenuItem("6", "Uttapam", "\U{1F355}", 80, 43),
    MenuItem("7", "Appam", "\U{1F95E}", 65, 46),
    MenuItem("8", "Puttu", "\U{1F33E}", 55, 44),
    MenuItem("9", "Rava Dosa", "\U{1FAD3}", 75, 47),
    MenuItem("10", "Masala Dosa", "\U{1F959}", 90, 49),
    MenuItem("11", "Medu Vada", "\U{1F369}", 35, 45),
    MenuItem("12", "Thayir Sadam", "\U{1F376}", 50, 46),
    MenuItem("13", "Sambar Rice", "\U{1F35B}", 70, 45),
    MenuItem("14", "Lemon Rice", "\U{1F34B}", 60, 44),
    MenuItem("15", "Tamarind Rice", "\U{1F330}", 65, 43),
    MenuItem("16", "Kootu", "\U{1F957}", 55, 42),
    MenuItem("17", "Avial", "\U{1F966}", 60, 44),
    MenuItem("18", "Rasam", "\U{1F375}", 45, 46),
    MenuItem("19", "Filter Coffee", "\U{2615}", 30, 49),
    MenuItem("20", "Kesari", "\U{1F36E}", 40, 47)
  ]

  /** Some menu item has id `id`. */
  predicate OnMenu(menu: seq<MenuItem>, id: string) {
    exists j :: 0 <= j < |menu| && menu[j].id == id
  }

  /** No two menu items share an id. */
  predicate DistinctIds(menu: seq<MenuItem>) {
    forall i, j :: 0 <= i < j < |menu| ==> menu[i].id != menu[j].id
  }

  /** The decimal spelling of a natural number, as the catalog's ids use. */
  function Decimal(n: nat): (r: string)
    ensures |r| >= 1
    ensures forall k :: 0 <= k < |r| ==> '0' <= r[k] <= '9'
    ensures (n < 10 <==> |r| == 1) && (10 <= n < 100 <==> |r| == 2)
  {
    if n < 10 then [Digit(n)] else Decimal(n / 10) + [Digit(n % 10)]
  }

  function Digit(d: nat): (c: char)
    requires d < 10
    ensures '0' <= c <= '9'
  {
    ['0', '1', '2', '3', '4', '5', '6', '7', '8', '9'][d]
  }

  /** The first menu item with id `id`, as `findOne({ id })` returns it. */
  function Lookup(menu: seq<MenuItem>, id: string): (r: Option<MenuItem>)
    ensures r.None? <==> !OnMenu(menu, id)
    ensures r.Some? ==> r.value.id == id && r.value in menu
    ensures r.Some? ==> exists i :: 0 <= i < |menu| && menu[i] == r.value
                                && forall j :: 0 <= j < i ==> menu[j].id != id
  {
    if |menu| == 0 then None
    else if menu[0].id == id then Some(menu[0])
    else
      var r := Lookup(menu[1..], id);
      if r.Some? then
        ghost var i :| 0 <= i < |menu[1..]| && menu[1..][i] == r.value
                       && forall j :: 0 <= j < i ==> menu[1..][j].id != id;
        assert menu[i + 1] == r.value;
        r
      else r
  }

  /** The start-up rule: an empty menu is filled with the catalog; a menu
      that already holds anything is left as it is. Users and orders are
      never touched. */
  function Initialize(s: Store): (r: Store)
    ensures r.users == s.users && r.orders == s.orders
    ensures |s.menu| > 0 ==> r.menu == s.menu
    ensures |s.menu| == 0 ==> r.menu == Catalog
  {
    if |s.menu| == 0 then s.(menu := Catalog) else s
  }

  /** The catalog's ids are "1" to "20", in insertion order. */
  lemma CatalogIds()
    ensures |Catalog| == 20
    ensures forall i :: 0 <= i < |Catalog| ==> Catalog[i].id == Decimal(i + 1)
  {
    CatalogIdsOneDigit();
    CatalogIdsTwoDigits();
  }

  lemma CatalogIdsOneDigit()
    ensures forall i :: 0 <= i < 9 ==> Catalog[i].id == Decimal(i + 1)
  {
    forall i | 0 <= i < 9 ensures Catalog[i].id == Decimal(i + 1) {
      assert Decimal(i + 1) == [Digit(i + 1)];
    }
  }

  lemma CatalogIdsTwoDigits()
    ensures forall i :: 9 <= i < 20 ==> Catalog[i].id == Decimal(i + 1)
  {
    forall i | 9 <= i < 20 ensures Catalog[i].id == Decimal(i + 1) {
      assert Decimal((i + 1) / 10) == [Digit((i + 1) / 10)];
      assert Decimal(i + 1) == [Digit((i + 1) / 10), Digit((i + 1) % 10)];
    }
  }

  /** The catalog has twenty items with distinct ids, and every price is
      positive. */
  lemma CatalogShape()
    ensures |Catalog| == 20
    ensures forall i :: 0 <= i < |Catalog| ==> Catalog[i].price > 0
    ensures DistinctIds(Catalog)
  {
    CatalogIds();
    forall i, j | 0 <= i < j < |Catalog| ensures Catalog[i].id != Catalog[j].id {
      if Catalog[i].id == Catalog[j].id {
        DecimalInjective(i + 1, j + 1);
      }
    }
  }

  /** Distinct numbers have distinct decimal spellings. */
  lemma {:induction false} DecimalInjective(a: nat, b: nat)
    requires Decimal(a) == Decimal(b)
    ensures a == b
    decreases a
  {
    var da, db := Decimal(a), Decimal(b);
    if a < 10 || b < 10 {
      assert |da| == 1 && |db| == 1;
      DigitInjective(a, b);
    } else {
      assert da[..|da| - 1] == Decimal(a / 10) && da[|da| - 1] == Digit(a % 10);
      assert db[..|db| - 1] == Decimal(b / 10) && db[|db| - 1] == Digit(b % 10);
      DecimalInjective(a / 10, b / 10);
      DigitInjective(a % 10, b % 10);
    }
  }

  lemma DigitInjective(a: nat, b: nat)
    requires a < 10 && b < 10 && Digit(a) == Digit(b)
    ensures a == b
  {
  }

  /** Seeding twice is the same as seeding once, and the result is never
      empty. */
  lemma InitializeIdempotent(s: Store)
    ensures Initialize(Initialize(s)) == Initialize(s)
    ensures |Initialize(s).menu| > 0
  {
  }
}
