/** `toggleAccordion` (script.js:2-26): the FAQ items, of which a click opens one and closes
    all the others. */
module Accordion {

  /** One `.accordion-item`: whether the item and its `.accordion-content` carry the `active`
      class, and the text of its `.accordion-icon`. */
  datatype Panel = Panel(active: bool, contentActive: bool, icon: string)

  const OpenIcon := "−"   // U+2212 MINUS SIGN
  const ClosedIcon := "+"

  /** Another item after the click: both classes removed, icon "+". */
  const Closed := Panel(false, false, ClosedIcon)

  /** The clicked item: both classes toggled, each on its own, and the icon chosen from the
      item's new state. */
  function Flip(p: Panel): (q: Panel)
    ensures q.active == !p.active && q.contentActive == !p.contentActive
    ensures q.icon == (if q.active then OpenIcon else ClosedIcon)
  {
    var active := !p.active;
    Panel(active, !p.contentActive, if active then OpenIcon else ClosedIcon)
  }

  /** All items after a click on item `k`. */
  function Toggled(panels: seq<Panel>, k: nat): (r: seq<Panel>)
    requires k < |panels|
    ensures |r| == |panels|
  {
    seq(|panels|, j requires 0 <= j < |panels| => if j == k then Flip(panels[k]) else Closed)
  }

  /** The item's icon tells whether the item is open, and the content is open with it. */
  predicate InSync(p: Panel) {
    p.contentActive == p.active && p.icon == (if p.active then OpenIcon else ClosedIcon)
  }

  /** After a click on `k`, an item is open exactly when it is `k` and `k` was closed: at most
      one item is ever open, and a click on the open item closes every item. */
  lemma OnlyClickedOpens(panels: seq<Panel>, k: nat, j: nat)
    requires k < |panels| && j < |panels|
    ensures Toggled(panels, k)[j].active <==> j == k && !panels[k].active
  {
  }

  /** Two items are never open together after a click. */
  lemma AtMostOneOpen(panels: seq<Panel>, k: nat, i: nat, j: nat)
    requires k < |panels| && i < j < |panels|
    ensures !(Toggled(panels, k)[i].active && Toggled(panels, k)[j].active)
  {
    OnlyClickedOpens(panels, k, i);
    OnlyClickedOpens(panels, k, j);
  }

  /** A click keeps every item's content and icon in step with the item, when the clicked one
      was; the other items are reset, so they are in step whatever they were. */
  lemma ToggleKeepsSync(panels: seq<Panel>, k: nat)
    requires k < |panels| && InSync(panels[k])
    ensures forall j :: 0 <= j < |panels| ==> InSync(Toggled(panels, k)[j])
  {
  }

  /** A second click on the same item brings it back to its state before the first, with every
      other item closed. */
  lemma ToggleTwice(panels: seq<Panel>, k: nat)
    requires k < |panels| && InSync(panels[k])
    ensures Toggled(Toggled(panels, k), k)[k] == panels[k]
    ensures forall j :: 0 <= j < |panels| && j != k ==> Toggled(Toggled(panels, k), k)[j] == Closed
  {
  }

  class Page {
    var panels: array<Panel>

    constructor (initial: seq<Panel>)
      ensures fresh(panels) && panels[..] == initial
    {
      panels := new Panel[|initial|](j requires 0 <= j < |initial| => initial[j]);
    }

    /** A click on the header of item `k`: the `forEach` over the other items, then the toggle
        of item `k`. */
    method Toggle(k: nat)
      requires k < panels.Length
      modifies panels
      ensures panels[..] == Toggled(old(panels[..]), k)
    {
      var clicked := panels[k];
      for j := 0 to panels.Length
        invariant forall i :: 0 <= i < j && i != k ==> panels[i] == Closed
        invariant forall i :: j <= i < panels.Length ==> panels[i] == old(panels[i])
        invariant panels[k] == clicked
      {
        if j != k {
          panels[j] := Closed;
        }
      }
      panels[k] := Flip(clicked);
    }
  }
}
