/**
 * The module-level toast list of `client/src/hooks/use-toast.ts`. `toast` appends an entry;
 * the entry's `dismiss` handle and its timer both remove the first entry carrying its id.
 * The random id is a parameter, and the listeners and the timer itself are not modelled.
 */
module Toasts {
  import opened Optional
  import opened Seqs

  datatype Variant = Default | Destructive

  /** An entry of the list. Every entry the list holds got its variant from `toast`. */
  datatype Toast = Toast(id: string, title: Option<string>, description: Option<string>, variant: Variant)

  /** The argument of `toast`: an entry without its id, every field optional. */
  datatype ToastOptions = ToastOptions(title: Option<string>, description: Option<string>, variant: Option<Variant>)

  /** The entry `toast` builds: the given title and description, the variant defaulting to `Default`. */
  function NewToast(id: string, options: ToastOptions): (t: Toast)
    ensures t.id == id && t.title == options.title && t.description == options.description
    ensures options.variant.None? ==> t.variant == Default
    ensures options.variant.Some? ==> t.variant == options.variant.value
  {
    Toast(id, options.title, options.description, if options.variant.Some? then options.variant.value else Default)
  }

  function HasId(id: string): Toast -> bool {
    (t: Toast) => t.id == id
  }

  function ToastIds(toasts: seq<Toast>): (r: seq<string>)
    ensures |r| == |toasts| && forall i :: 0 <= i < |toasts| ==> r[i] == toasts[i].id
  {
    seq(|toasts|, i requires 0 <= i < |toasts| => toasts[i].id)
  }

  /**
   * The list after `findIndex` + `splice(index, 1)`: the first entry with that id is gone,
   * the others keep their order, and an absent id changes nothing.
   */
  function Without(toasts: seq<Toast>, id: string): (r: seq<Toast>)
    ensures (forall t :: t in toasts ==> t.id != id) ==> r == toasts
    ensures (exists t :: t in toasts && t.id == id) ==> |r| == |toasts| - 1
    ensures |toasts| - 1 <= |r| <= |toasts|
  {
    var index := FindIndex(toasts, HasId(id));
    if index > -1 then RemoveAt(toasts, index)
    else
      assert forall t :: t in toasts ==> t.id != id;
      toasts
  }

  /** The entry removed is the first one with that id; the entries around it are kept in order. */
  lemma WithoutRemovesFirst(toasts: seq<Toast>, id: string, i: nat)
    requires i < |toasts| && toasts[i].id == id
    requires forall k :: 0 <= k < i ==> toasts[k].id != id
    ensures Without(toasts, id) == toasts[..i] + toasts[i + 1..]
  {
    var index := FindIndex(toasts, HasId(id));
    assert HasId(id)(toasts[i]);
    assert index == i;
  }

  /** With distinct ids, a second removal of the same id changes nothing. */
  lemma WithoutTwice(toasts: seq<Toast>, id: string)
    requires NoDup(ToastIds(toasts))
    ensures Without(Without(toasts, id), id) == Without(toasts, id)
    ensures NoDup(ToastIds(Without(toasts, id)))
  {
    var index := FindIndex(toasts, HasId(id));
    if index > -1 {
      var r := Without(toasts, id);
      assert r == RemoveAt(toasts, index);
      forall k | 0 <= k < |r| ensures r[k].id != id && (k < index ==> r[k] == toasts[k]) && (k >= index ==> r[k] == toasts[k + 1]) {
        if k < index {
          assert r[k] == toasts[k];
        } else {
          assert r[k] == toasts[k + 1];
          assert ToastIds(toasts)[k + 1] != ToastIds(toasts)[index];
        }
      }
      forall i, j | 0 <= i < j < |r| ensures ToastIds(r)[i] != ToastIds(r)[j] {
        var i' := if i < index then i else i + 1;
        var j' := if j < index then j else j + 1;
        assert ToastIds(r)[i] == ToastIds(toasts)[i'] && ToastIds(r)[j] == ToastIds(toasts)[j'];
      }
    }
  }

  class ToastQueue {
    var toasts: seq<Toast>

    constructor ()
      ensures toasts == []
    {
      toasts := [];
    }

    /** `toast(options)`: pushes one entry at the end and hands back its id. */
    method AddToast(options: ToastOptions, id: string) returns (handle: string)
      modifies this
      ensures toasts == old(toasts) + [NewToast(id, options)]
      ensures handle == id
    {
      var newToast := NewToast(id, options);
      toasts := toasts + [newToast];
      handle := id;
    }

    /** The `dismiss` handle of the entry with this id. */
    method Dismiss(id: string)
      modifies this
      ensures toasts == Without(old(toasts), id)
    {
      var index := FindIndex(toasts, HasId(id));
      if index > -1 {
        toasts := RemoveAt(toasts, index);
      }
    }

    /** The timer callback scheduled by `toast`: the same find and splice as `Dismiss`. */
    method Expire(id: string)
      modifies this
      ensures toasts == Without(old(toasts), id)
    {
      var index := FindIndex(toasts, HasId(id));
      if index > -1 {
        toasts := RemoveAt(toasts, index);
      }
    }
  }
}
