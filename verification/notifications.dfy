/** `showNotification` (script.js:164-231): one toast at a time, coloured by its type, removed
    by a click or by its five-second timer. */
module Notifications {

  /** One notification element: the id stands for the element's identity in the page. */
  datatype Toast = Toast(id: nat, text: string, className: string, color: string)

  const SuccessColor := "#10b981"
  const ErrorColor := "#ef4444"
  const InfoColor := "#3b82f6"

  /** `colors[type] || colors.info` */
  function ToastColor(kind: string): (color: string)
    ensures color == SuccessColor || color == ErrorColor || color == InfoColor
    ensures color == SuccessColor <==> kind == "success"
    ensures color == ErrorColor <==> kind == "error"
  {
    if kind == "success" then SuccessColor
    else if kind == "error" then ErrorColor
    else InfoColor
  }

  /** The element `showNotification(text, kind)` creates: its class names the kind and its
      background is the kind's colour. */
  function ToastOf(id: nat, text: string, kind: string): Toast {
    Toast(id, text, "notification notification-" + kind, ToastColor(kind))
  }

  /** The toasts left once the element `id` is removed; removing one that is gone changes
      nothing. */
  function Without(toasts: seq<Toast>, id: nat): (r: seq<Toast>)
    ensures forall t :: t in r <==> t in toasts && t.id != id
    ensures |r| <= |toasts|
    ensures (forall t :: t in toasts ==> t.id != id) ==> r == toasts
  {
    if toasts == [] then []
    else if toasts[0].id == id then Without(toasts[1..], id)
    else [toasts[0]] + Without(toasts[1..], id)
  }

  /** The notifications shown in the page. */
  class Notifier {
    var toasts: seq<Toast>
    /** The identity the next element gets. */
    var nextId: nat

    ghost predicate Valid()
      reads this
    {
      |toasts| <= 1 && forall t :: t in toasts ==> t.id < nextId
    }

    constructor ()
      ensures Valid() && toasts == [] && nextId == 0
    {
      toasts := [];
      nextId := 0;
    }

    /** Removes every notification in the page, then shows `text` with the class and colour of
        `kind`. */
    method Show(text: string, kind: string) returns (id: nat)
      requires Valid()
      modifies this
      ensures Valid()
      ensures id == old(nextId) && nextId == old(nextId) + 1
      ensures toasts == [ToastOf(id, text, kind)]
    {
      while toasts != []
        invariant |toasts| <= |old(toasts)| && nextId == old(nextId)
        invariant toasts == old(toasts)[|old(toasts)| - |toasts|..]
        decreases |toasts|
      {
        toasts := toasts[1..];
      }
      id := nextId;
      toasts := toasts + [ToastOf(id, text, kind)];
      nextId := nextId + 1;
    }

    /** `notification.remove()`, run 300 ms after a click or after the five-second timer. */
    method Dismiss(id: nat)
      requires Valid()
      modifies this
      ensures Valid()
      ensures toasts == Without(old(toasts), id) && nextId == old(nextId)
    {
      toasts := Without(toasts, id);
    }
  }
}
