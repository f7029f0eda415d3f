/**
 The variant picker's click handler (lines 97-108 of both scripts): every
 `.image-option` loses its `selected` attribute, the clicked one gains it,
 and its `value` becomes the selected type.
 */
module Picker {

  /** One `.image-option` element: its `value` attribute and whether it carries `selected`. */
  datatype Item = Item(value: string, selected: bool)

  /** The number of items that carry `selected`. */
  function CountSelected(s: seq<Item>): nat
  {
    if s == [] then 0
    else CountSelected(s[..|s| - 1]) + (if s[|s| - 1].selected then 1 else 0)
  }

  /** The options after a click on option k. */
  function SelectAt(s: seq<Item>, k: nat): (r: seq<Item>)
    requires k < |s|
    ensures |r| == |s|
    ensures forall i :: 0 <= i < |s| ==> r[i].value == s[i].value && (r[i].selected <==> i == k)
  {
    seq(|s|, i requires 0 <= i < |s| => Item(s[i].value, i == k))
  }

  lemma {:induction false} CountNone(s: seq<Item>)
    requires forall i :: 0 <= i < |s| ==> !s[i].selected
    ensures CountSelected(s) == 0
  {
    if s != [] {
      CountNone(s[..|s| - 1]);
    }
  }

  /** A sequence in which exactly position k is marked has one marked item. */
  lemma {:induction false} CountOnlyAt(s: seq<Item>, k: nat)
    requires k < |s|
    requires forall i :: 0 <= i < |s| ==> (s[i].selected <==> i == k)
    ensures CountSelected(s) == 1
  {
    if k == |s| - 1 {
      CountNone(s[..|s| - 1]);
    } else {
      CountOnlyAt(s[..|s| - 1], k);
    }
  }

  /** After a click exactly one option is selected, it is the clicked one, and
      no option's value changed. */
  lemma SelectAtMarksOnlyClicked(s: seq<Item>, k: nat)
    requires k < |s|
    ensures |SelectAt(s, k)| == |s|
    ensures CountSelected(SelectAt(s, k)) == 1
    ensures SelectAt(s, k)[k].selected && SelectAt(s, k)[k].value == s[k].value
    ensures forall i :: 0 <= i < |s| ==> SelectAt(s, k)[i].value == s[i].value
  {
    CountOnlyAt(SelectAt(s, k), k);
  }

  /** Clicking the same option twice is the same as clicking it once, and the
      outcome of a click does not depend on what was selected before. */
  lemma SelectAtForgetsPast(s: seq<Item>, j: nat, k: nat)
    requires j < |s| && k < |s|
    ensures SelectAt(SelectAt(s, j), k) == SelectAt(s, k)
  {
  }

  /** The click handler's loop and assignment; returns `this.getAttribute("value")`. */
  method Select(items: array<Item>, k: nat) returns (value: string)
    requires k < items.Length
    modifies items
    ensures items[..] == SelectAt(old(items[..]), k)
    ensures value == old(items[k].value)
  {
    for i := 0 to items.Length
      invariant forall j :: 0 <= j < i ==> items[j] == Item(old(items[j].value), false)
      invariant forall j :: i <= j < items.Length ==> items[j] == old(items[j])
    {
      items[i] := items[i].(selected := false);
    }
    items[k] := items[k].(selected := true);
    value := items[k].value;
  }
}
