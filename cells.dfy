/**
 * A grid cell as both calendar grids draw it: a drop-target id, the first `cap` of the
 * cell's events, and a "+n" badge for the ones that do not fit.
 */
module Cells {
  import opened Wrappers

  datatype Cell<T> = Cell(id: string, shown: seq<T>, more: Option<nat>)

  /** `items.slice(0, cap)`. */
  function Visible<T>(items: seq<T>, cap: nat): (r: seq<T>)
    ensures |r| <= cap && |r| <= |items|
    ensures r == items[..|r|]
    ensures |items| <= cap ==> r == items
  {
    if |items| <= cap then items else items[..cap]
  }

  /** The "+n" badge: present exactly when more than `cap` items exist. */
  function Overflow<T>(items: seq<T>, cap: nat): (r: Option<nat>)
    ensures r.Some? <==> |items| > cap
  {
    if |items| > cap then Some(|items| - cap) else None
  }

  function MakeCell<T>(id: string, items: seq<T>, cap: nat): Cell<T> {
    Cell(id, Visible(items, cap), Overflow(items, cap))
  }

  /** Every item of a cell is either drawn or counted in its badge, never both, and the
      drawn ones are the first ones. */
  lemma CellAccounts<T>(id: string, items: seq<T>, cap: nat)
    ensures var c := MakeCell(id, items, cap);
      |c.shown| + c.more.GetOr(0) == |items| && c.shown == items[..|c.shown|]
      && (c.more.Some? ==> |c.shown| == cap && c.more.value > 0)
  {
  }
}
