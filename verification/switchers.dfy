/** The toolbar controls: the locale and currency dropdowns (which entry the
    trigger shows, which item is highlighted, when the control appears at all)
    and the cart badge. */
module Switchers {
  import opened Options

  /** A dropdown entry; both locales and currencies are `{ id, label }`. */
  datatype Choice = Choice(id: string, name: string)

  /** `choices.find(c => c.id === activeId)`; an absent id matches nothing. */
  function FindActive(choices: seq<Choice>, activeId: Option<string>): (r: Option<Choice>)
    ensures r.Some? ==> activeId == Some(r.value.id) && r.value in choices
    ensures r.None? <==> forall i :: 0 <= i < |choices| ==> activeId != Some(choices[i].id)
    ensures r.Some? ==> exists k :: 0 <= k < |choices| && choices[k] == r.value
                          && forall i :: 0 <= i < k ==> activeId != Some(choices[i].id)
  {
    if choices == [] then None
    else if activeId == Some(choices[0].id) then Some(choices[0])
    else
      var rest := FindActive(choices[1..], activeId);
      assert forall i :: 1 <= i < |choices| ==> choices[i] == choices[1..][i - 1];
      rest
  }

  /** One dropdown item; `selected` is the highlighted styling. */
  datatype Item = Item(id: string, name: string, selected: bool)

  function ItemsFor(choices: seq<Choice>, activeId: Option<string>): (items: seq<Item>)
    ensures |items| == |choices|
    ensures forall i :: 0 <= i < |choices| ==>
              items[i].id == choices[i].id && items[i].name == choices[i].name
              && (items[i].selected <==> activeId == Some(choices[i].id))
  {
    if choices == [] then []
    else [Item(choices[0].id, choices[0].name, activeId == Some(choices[0].id))] + ItemsFor(choices[1..], activeId)
  }

  /** A rendered dropdown: the trigger text over the items. */
  datatype Dropdown = Dropdown(trigger: string, items: seq<Item>)

  /** The locale dropdown: its trigger shows the active locale's id, or the first
      locale's id when none is active. */
  function LocaleDropdown(locales: seq<Choice>, activeId: Option<string>): (d: Dropdown)
    requires |locales| > 0
    ensures FindActive(locales, activeId).Some? ==> d.trigger == FindActive(locales, activeId).value.id
    ensures FindActive(locales, activeId).None? ==> d.trigger == locales[0].id
    ensures d.items == ItemsFor(locales, activeId)
  {
    var shown := FindActive(locales, activeId).GetOr(locales[0]);
    Dropdown(shown.id, ItemsFor(locales, activeId))
  }

  /** The currency dropdown: its trigger shows the active currency's label, or the
      first currency's label when none is active. */
  function CurrencyDropdown(currencies: seq<Choice>, activeId: Option<string>): (d: Dropdown)
    requires |currencies| > 0
    ensures FindActive(currencies, activeId).Some? ==> d.trigger == FindActive(currencies, activeId).value.name
    ensures FindActive(currencies, activeId).None? ==> d.trigger == currencies[0].name
    ensures d.items == ItemsFor(currencies, activeId)
  {
    var shown := FindActive(currencies, activeId).GetOr(currencies[0]);
    Dropdown(shown.name, ItemsFor(currencies, activeId))
  }

  /** The locale control appears only with more than one locale. */
  function LocaleControl(locales: Option<seq<Choice>>, activeId: Option<string>): (c: Option<Dropdown>)
    ensures c.Some? <==> locales.Some? && |locales.value| > 1
    ensures c.Some? ==> c.value == LocaleDropdown(locales.value, activeId)
  {
    if locales.Some? && |locales.value| > 1 then Some(LocaleDropdown(locales.value, activeId)) else None
  }

  /** The currency control appears only with more than one currency and a
      currency action to submit to. */
  function CurrencyControl(currencies: Option<seq<Choice>>, activeId: Option<string>, hasAction: bool): (c: Option<Dropdown>)
    ensures c.Some? <==> currencies.Some? && |currencies.value| > 1 && hasAction
    ensures c.Some? ==> c.value == CurrencyDropdown(currencies.value, activeId)
  {
    if currencies.Some? && |currencies.value| > 1 && hasAction then Some(CurrencyDropdown(currencies.value, activeId))
    else None
  }

  /** The trigger always names one of the offered entries, and it is the
      highlighted item whenever the active id is among them. */
  lemma TriggerIsOffered(choices: seq<Choice>, activeId: Option<string>)
    requires |choices| > 0
    ensures exists i :: 0 <= i < |choices| && LocaleDropdown(choices, activeId).trigger == choices[i].id
    ensures exists i :: 0 <= i < |choices| && CurrencyDropdown(choices, activeId).trigger == choices[i].name
    ensures (exists i :: 0 <= i < |choices| && activeId == Some(choices[i].id)) ==>
              exists i :: 0 <= i < |choices| && LocaleDropdown(choices, activeId).items[i].selected
                          && LocaleDropdown(choices, activeId).items[i].id == LocaleDropdown(choices, activeId).trigger
  {
  }

  /** With distinct ids, at most one item is highlighted. */
  lemma AtMostOneSelected(choices: seq<Choice>, activeId: Option<string>, i: nat, j: nat)
    requires forall a, b :: 0 <= a < b < |choices| ==> choices[a].id != choices[b].id
    requires i < |choices| && j < |choices|
    requires ItemsFor(choices, activeId)[i].selected && ItemsFor(choices, activeId)[j].selected
    ensures i == j
  {
  }

  /** Two currencies with the second one active: the trigger shows it, it is the
      highlighted item and the other is not. */
  lemma SecondCurrencyActiveExample()
    ensures var d := CurrencyDropdown([Choice("usd", "USD"), Choice("eur", "EUR")], Some("eur"));
            && d.trigger == "EUR"
            && d.items == [Item("usd", "USD", false), Item("eur", "EUR", true)]
  {
  }

  /** The cart badge shows the count iff it is present and positive. */
  function CartBadge(count: Option<int>): (badge: Option<int>)
    ensures badge.Some? <==> count.Some? && count.value > 0
    ensures badge.Some? ==> badge.value == count.value
  {
    if count.Some? && count.value > 0 then count else None
  }
}
