/**
 * The front end's toast queue: one shared list of notifications and one id
 * counter. Showing a toast appends it with the next id and, when its duration is
 * positive, schedules its removal; removing a toast drops the first one with the
 * given id. Timers are recorded, not run: a timer firing is a call of
 * `RemoveToast` with the id it carries.
 */
module Toasts {
  import Wrappers

  datatype ToastType = Success | Error | Warning | Info

  datatype Toast = Toast(id: int, message: string, kind: ToastType, duration: int)

  /** A pending `setTimeout(() => removeToast(id), delay)`. */
  datatype Timer = Timer(id: int, delay: int)

  const DefaultDuration := 10000

  /** The ids strictly increase along the list, so no two toasts share one. */
  predicate IdsIncreasing(toasts: seq<Toast>) {
    forall i, j :: 0 <= i < j < |toasts| ==> toasts[i].id < toasts[j].id
  }

  /** `findIndex(t => t.id === id)`: the position of the first toast with that id,
      or -1 when there is none. */
  function FindIndex(toasts: seq<Toast>, id: int): (i: int)
    ensures -1 <= i < |toasts|
    ensures i == -1 <==> forall j :: 0 <= j < |toasts| ==> toasts[j].id != id
    ensures i >= 0 ==> toasts[i].id == id && forall j :: 0 <= j < i ==> toasts[j].id != id
    decreases |toasts|
  {
    if |toasts| == 0 then -1
    else if toasts[0].id == id then 0
    else
      var rest := FindIndex(toasts[1..], id);
      if rest == -1 then -1 else rest + 1
  }

  /** The list after `removeToast(id)`: without its first toast carrying `id`, the
      others in their order; unchanged when no toast carries `id`. */
  function Removed(toasts: seq<Toast>, id: int): seq<Toast> {
    var i := FindIndex(toasts, id);
    if i == -1 then toasts else toasts[..i] + toasts[i + 1..]
  }

  /** Removal takes out exactly the first toast with the id: one toast fewer when
      some toast has it, none otherwise, and every other toast keeps its place
      relative to the rest. */
  lemma RemovedDropsFirstMatch(toasts: seq<Toast>, id: int)
    ensures (forall j :: 0 <= j < |toasts| ==> toasts[j].id != id) ==> Removed(toasts, id) == toasts
    ensures (exists j :: 0 <= j < |toasts| && toasts[j].id == id) ==>
      exists i :: 0 <= i < |toasts| && toasts[i].id == id
        && (forall j :: 0 <= j < i ==> toasts[j].id != id)
        && Removed(toasts, id) == toasts[..i] + toasts[i + 1..]
        && |Removed(toasts, id)| == |toasts| - 1
  {
    var i := FindIndex(toasts, id);
    if i != -1 {
      assert |toasts[..i] + toasts[i + 1..]| == |toasts| - 1;
    }
  }

  /** Where an element of a list with one position cut out came from. */
  lemma CutIndex(toasts: seq<Toast>, i: nat, j: nat)
    requires i < |toasts| && j < |toasts| - 1
    ensures (toasts[..i] + toasts[i + 1..])[j] == toasts[if j < i then j else j + 1]
  {
  }

  /** With increasing ids, removal keeps the ids increasing and leaves no toast with
      the removed id. */
  lemma RemovedKeepsIncreasing(toasts: seq<Toast>, id: int)
    requires IdsIncreasing(toasts)
    ensures IdsIncreasing(Removed(toasts, id))
    ensures forall j :: 0 <= j < |Removed(toasts, id)| ==> Removed(toasts, id)[j].id != id
  {
    var i := FindIndex(toasts, id);
    if i != -1 {
      var r := toasts[..i] + toasts[i + 1..];
      forall a, b | 0 <= a < b < |r| ensures r[a].id < r[b].id {
        CutIndex(toasts, i, a);
        CutIndex(toasts, i, b);
      }
      forall j | 0 <= j < |r| ensures r[j].id != id {
        CutIndex(toasts, i, j);
      }
    }
  }

  /** Removing the toast just shown, before anything else happened, gives back the
      list as it was: its id is newer than every id already in the list. */
  lemma {:induction false} RemoveUndoesShow(toasts: seq<Toast>, t: Toast)
    requires forall j :: 0 <= j < |toasts| ==> toasts[j].id < t.id
    ensures Removed(toasts + [t], t.id) == toasts
  {
    var s := toasts + [t];
    assert forall j :: 0 <= j < |toasts| ==> s[j].id != t.id;
    assert s[|toasts|].id == t.id;
    assert FindIndex(s, t.id) == |toasts|;
    assert s[..|toasts|] == toasts;
  }

  /** The toast state every hook instance shares: the `toasts` list, the `nextId`
      counter, and the timers scheduled so far. */
  class ToastQueue {
    var toasts: seq<Toast>
    var nextId: int
    var timers: seq<Timer>

    /** Ids increase along the list and are all below the next id to hand out. */
    ghost predicate Valid()
      reads this
    {
      && IdsIncreasing(toasts)
      && (forall j :: 0 <= j < |toasts| ==> toasts[j].id < nextId)
    }

    /** The module's initial state: no toasts and the counter at 0. */
    constructor()
      ensures Valid()
      ensures toasts == [] && nextId == 0 && timers == []
    {
      toasts := [];
      nextId := 0;
      timers := [];
    }

    /** `showToast`: the type defaults to `info` and the duration to 10000. The
        toast takes the counter's value as its id, the counter moves on by one, the
        toast is appended at the end, and a removal timer is scheduled only for a
        positive duration. Returns the id. */
    method ShowToast(message: string, kind: Wrappers.Option<ToastType>, duration: Wrappers.Option<int>)
      returns (id: int)
      requires Valid()
      modifies this
      ensures Valid()
      ensures id == old(nextId) && nextId == id + 1
      ensures forall j :: 0 <= j < |old(toasts)| ==> old(toasts)[j].id < id
      ensures var d := if duration.Some? then duration.value else DefaultDuration;
        && toasts == old(toasts) + [Toast(id, message, if kind.Some? then kind.value else Info, d)]
        && timers == old(timers) + (if d > 0 then [Timer(id, d)] else [])
    {
      var t := if kind.Some? then kind.value else Info;
      var d := if duration.Some? then duration.value else DefaultDuration;
      id := nextId;
      nextId := nextId + 1;
      toasts := toasts + [Toast(id, message, t, d)];
      if d > 0 {
        timers := timers + [Timer(id, d)];
      }
    }

    /** `removeToast`: drops the first toast with the id, if there is one. */
    method RemoveToast(id: int)
      requires Valid()
      modifies this
      ensures Valid()
      ensures toasts == Removed(old(toasts), id)
      ensures forall j :: 0 <= j < |toasts| ==> toasts[j].id != id
      ensures nextId == old(nextId) && timers == old(timers)
    {
      var index := FindIndex(toasts, id);
      RemovedKeepsIncreasing(toasts, id);
      if index > -1 {
        toasts := toasts[..index] + toasts[index + 1..];
      }
      forall j | 0 <= j < |toasts| ensures toasts[j].id < nextId {
        assert toasts[j] in old(toasts);
      }
    }

    /** `success`: a `success` toast; an omitted duration means 10000. */
    method ShowSuccess(message: string, duration: Wrappers.Option<int>) returns (id: int)
      requires Valid()
      modifies this
      ensures Valid()
      ensures id == old(nextId) && nextId == id + 1
      ensures var d := if duration.Some? then duration.value else DefaultDuration;
        && toasts == old(toasts) + [Toast(id, message, Success, d)]
        && timers == old(timers) + (if d > 0 then [Timer(id, d)] else [])
    {
      id := ShowToast(message, Wrappers.Some(Success), duration);
    }

    /** `error`: an `error` toast; an omitted duration means 10000. */
    method ShowError(message: string, duration: Wrappers.Option<int>) returns (id: int)
      requires Valid()
      modifies this
      ensures Valid()
      ensures id == old(nextId) && nextId == id + 1
      ensures var d := if duration.Some? then duration.value else DefaultDuration;
        && toasts == old(toasts) + [Toast(id, message, Error, d)]
        && timers == old(timers) + (if d > 0 then [Timer(id, d)] else [])
    {
      id := ShowToast(message, Wrappers.Some(Error), duration);
    }

    /** `warning`: a `warning` toast; an omitted duration means 10000. */
    method ShowWarning(message: string, duration: Wrappers.Option<int>) returns (id: int)
      requires Valid()
      modifies this
      ensures Valid()
      ensures id == old(nextId) && nextId == id + 1
      ensures var d := if duration.Some? then duration.value else DefaultDuration;
        && toasts == old(toasts) + [Toast(id, message, Warning, d)]
        && timers == old(timers) + (if d > 0 then [Timer(id, d)] else [])
    {
      id := ShowToast(message, Wrappers.Some(Warning), duration);
    }

    /** `info`: an `info` toast; an omitted duration means 10000. */
    method ShowInfo(message: string, duration: Wrappers.Option<int>) returns (id: int)
      requires Valid()
      modifies this
      ensures Valid()
      ensures id == old(nextId) && nextId == id + 1
      ensures var d := if duration.Some? then duration.value else DefaultDuration;
        && toasts == old(toasts) + [Toast(id, message, Info, d)]
        && timers == old(timers) + (if d > 0 then [Timer(id, d)] else [])
    {
      id := ShowToast(message, Wrappers.Some(Info), duration);
    }
  }
}
