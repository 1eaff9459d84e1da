/** The toast notification list held by the toast provider: `addToast` appends one entry, and the
    timer it schedules later removes every entry carrying that entry's id. */
module Toasts {
  import opened Arrays
  import opened Types

  /** `toasts.filter(t => t.id !== id)`. */
  function Dismissed(toasts: seq<Toast>, id: string): seq<Toast>
  {
    Filter(toasts, (t: Toast) => t.id != id)
  }

  class ToastProvider {
    var toasts: seq<Toast>

    constructor ()
      ensures toasts == []
    {
      toasts := [];
    }

    /** `addToast(type, message)`; `id` is the `Date.now()` string the source generates. */
    method AddToast(kind: ToastType, message: string, id: string)
      modifies this
      ensures toasts == old(toasts) + [Toast(id, kind, message)]
    {
      toasts := toasts + [Toast(id, kind, message)];
    }

    /** The state update the three-second timer performs. */
    method Dismiss(id: string)
      modifies this
      ensures toasts == Dismissed(old(toasts), id)
    {
      toasts := Dismissed(toasts, id);
    }
  }

  /** Dismissing removes every toast with the id, keeps each other toast as often as it was there,
      and keeps their order. */
  lemma DismissedRemovesExactlyId(toasts: seq<Toast>, id: string)
    ensures forall t :: t in Dismissed(toasts, id) ==> t in toasts && t.id != id
    ensures forall t: Toast :: t.id != id ==> multiset(Dismissed(toasts, id))[t] == multiset(toasts)[t]
    ensures IsSubsequence(Dismissed(toasts, id), toasts)
  {
    FilterMultiplicity(toasts, (t: Toast) => t.id != id);
    FilterIsSubsequence(toasts, (t: Toast) => t.id != id);
  }

  /** Adding a toast with an id no earlier toast has and then dismissing that id restores the list. */
  lemma AddThenDismiss(toasts: seq<Toast>, kind: ToastType, message: string, id: string)
    requires forall t :: t in toasts ==> t.id != id
    ensures Dismissed(toasts + [Toast(id, kind, message)], id) == toasts
  {
    var keep := (t: Toast) => t.id != id;
    FilterAppend(toasts, [Toast(id, kind, message)], keep);
    FilterKeepsAll(toasts, keep);
    assert Filter([Toast(id, kind, message)], keep) == [];
  }

  /** A dismissal is not disturbed by toasts added after the dismissed one. */
  lemma DismissAfterAdd(toasts: seq<Toast>, t: Toast, id: string)
    ensures Dismissed(toasts + [t], id) == Dismissed(toasts, id) + (if t.id != id then [t] else [])
  {
    FilterAppend(toasts, [t], (u: Toast) => u.id != id);
    assert [t][1..] == [];
  }

  /** Dismissing the same id twice is dismissing it once. */
  lemma DismissIdempotent(toasts: seq<Toast>, id: string)
    ensures Dismissed(Dismissed(toasts, id), id) == Dismissed(toasts, id)
  {
    FilterIdempotent(toasts, (t: Toast) => t.id != id);
  }
}
