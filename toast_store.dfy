/**
 * The toast notification store: a list of toasts changed by a reducer with
 * four actions, a counter that generates toast ids, a queue of ids whose
 * removal is pending, and a shared state that `dispatch` replaces and hands
 * to every subscribed listener.
 */
module ToastStore {
  import opened Wrappers
  import opened Seqs
  import Text

  /** At most this many toasts are kept. */
  const ToastLimit: nat := 1

  /** `Number.MAX_SAFE_INTEGER`, the modulus of the id counter. */
  const MaxSafeInteger: nat := 9007199254740991

  /** One toast. `title`, `description` and `variant` are optional display fields. */
  datatype ToasterToast = ToasterToast(
    id: string,
    open: bool,
    title: Option<string>,
    description: Option<string>,
    variant: Option<string>)

  /** A partial toast, as UPDATE_TOAST carries it: every field may be left out. */
  datatype ToastPatch = ToastPatch(
    id: Option<string>,
    open: Option<bool>,
    title: Option<string>,
    description: Option<string>,
    variant: Option<string>)

  /** What `toast(...)` is called with: a toast without its id. */
  datatype ToastProps = ToastProps(
    title: Option<string>,
    description: Option<string>,
    variant: Option<string>)

  datatype Action =
    | AddToast(toast: ToasterToast)
    | UpdateToast(patch: ToastPatch)
    | DismissToast(toastId: Option<string>)
    | RemoveToast(toastId: Option<string>)

  /** A field the patch supplies replaces the current one. */
  function Pick<T>(supplied: Option<T>, current: T): T
  {
    if supplied.Some? then supplied.value else current
  }

  /** An optional field the patch supplies replaces the current one. */
  function PickOptional<T>(supplied: Option<T>, current: Option<T>): Option<T>
  {
    if supplied.Some? then supplied else current
  }

  /**
   * The object spread `{ ...t, ...patch }`. Every field the patch leaves
   * out keeps the toast's value; a patch that carries the toast's own id (as
   * every patch UPDATE_TOAST applies does) keeps that id; and the result
   * already holds every value the patch supplies, so applying the same
   * patch again changes nothing more.
   */
  function Patched(t: ToasterToast, p: ToastPatch): (r: ToasterToast)
    ensures p == ToastPatch(None, None, None, None, None) ==> r == t
    ensures p.id.None? ==> r.id == t.id
    ensures p.open.None? ==> r.open == t.open
    ensures p.title.None? ==> r.title == t.title
    ensures p.description.None? ==> r.description == t.description
    ensures p.variant.None? ==> r.variant == t.variant
    ensures p.id == Some(t.id) ==> r.id == t.id
    ensures Pick(p.id, r.id) == r.id && Pick(p.open, r.open) == r.open
    ensures PickOptional(p.title, r.title) == r.title
    ensures PickOptional(p.description, r.description) == r.description
    ensures PickOptional(p.variant, r.variant) == r.variant
  {
    ToasterToast(
      Pick(p.id, t.id),
      Pick(p.open, t.open),
      PickOptional(p.title, t.title),
      PickOptional(p.description, t.description),
      PickOptional(p.variant, t.variant))
  }

  /** ADD_TOAST: the new toast goes in front and the list is cut to `ToastLimit`. */
  function ReduceAdd(toasts: seq<ToasterToast>, t: ToasterToast): (r: seq<ToasterToast>)
    ensures |r| <= ToastLimit
    ensures r == [t]
  {
    ([t] + toasts)[..ToastLimit]
  }

  /**
   * UPDATE_TOAST: the toasts whose id equals the patch's id take the fields
   * the patch supplies; every other toast is kept as it was.
   */
  function ReduceUpdate(toasts: seq<ToasterToast>, p: ToastPatch): (r: seq<ToasterToast>)
    ensures |r| == |toasts|
    ensures forall i :: 0 <= i < |toasts| ==> r[i].id == toasts[i].id
    ensures forall i :: 0 <= i < |toasts| && p.id != Some(toasts[i].id) ==> r[i] == toasts[i]
    ensures forall i :: 0 <= i < |toasts| && p.id == Some(toasts[i].id) ==> r[i] == Patched(toasts[i], p)
  {
    Map(toasts, (t: ToasterToast) => if p.id == Some(t.id) then Patched(t, p) else t)
  }

  /** Applying the same UPDATE_TOAST twice leaves the list as applying it once. */
  lemma UpdateIdempotent(toasts: seq<ToasterToast>, p: ToastPatch)
    ensures ReduceUpdate(ReduceUpdate(toasts, p), p) == ReduceUpdate(toasts, p)
  {
    var once := ReduceUpdate(toasts, p);
    var twice := ReduceUpdate(once, p);
    forall i | 0 <= i < |toasts|
      ensures twice[i] == once[i]
    {
      if p.id == Some(toasts[i].id) {
        assert twice[i] == Patched(once[i], p);
      }
    }
  }

  /**
   * DISMISS_TOAST: with an id, the toasts carrying that id are closed; with
   * no id, every toast is closed. Nothing but `open` changes.
   */
  function ReduceDismiss(toasts: seq<ToasterToast>, toastId: Option<string>): (r: seq<ToasterToast>)
    ensures |r| == |toasts|
    ensures forall i :: 0 <= i < |toasts| ==> r[i] == toasts[i].(open := r[i].open)
    ensures forall i :: 0 <= i < |toasts| ==>
      r[i].open == (toasts[i].open && toastId.Some? && toastId.value != toasts[i].id)
  {
    Map(toasts, (t: ToasterToast) => if toastId.None? || t.id == toastId.value then t.(open := false) else t)
  }

  /**
   * REMOVE_TOAST: with no id, the list is emptied; with an id, exactly the
   * toasts carrying it are dropped and the others stay in order.
   */
  function ReduceRemove(toasts: seq<ToasterToast>, toastId: Option<string>): (r: seq<ToasterToast>)
    ensures toastId.None? ==> r == []
    ensures toastId.Some? ==> IsSubsequence(r, toasts)
    ensures toastId.Some? ==> forall t: ToasterToast :: t in r <==> t in toasts && t.id != toastId.value
    ensures toastId.Some? ==> forall t: ToasterToast :: t.id != toastId.value ==> multiset(r)[t] == multiset(toasts)[t]
  {
    if toastId.None? then []
    else
      var id := toastId.value;
      Filter(toasts, (t: ToasterToast) => t.id != id)
  }

  /**
   * `reducer(state, action).toasts`. Only ADD_TOAST brings in a toast;
   * UPDATE_TOAST and DISMISS_TOAST keep the length, REMOVE_TOAST never
   * grows the list, and no action other than ADD_TOAST introduces an id.
   */
  function Reduce(toasts: seq<ToasterToast>, action: Action): (r: seq<ToasterToast>)
    ensures action.AddToast? ==> r == [action.toast]
    ensures action.UpdateToast? || action.DismissToast? ==> |r| == |toasts|
    ensures action.RemoveToast? ==> |r| <= |toasts|
    ensures !action.AddToast? ==> IdsOf(r) <= IdsOf(toasts)
  {
    match action
    case AddToast(t) => ReduceAdd(toasts, t)
    case UpdateToast(p) => ReduceUpdate(toasts, p)
    case DismissToast(id) => ReduceDismiss(toasts, id)
    case RemoveToast(id) => ReduceRemove(toasts, id)
  }

  /** The reducer never lets the list grow past `ToastLimit`. */
  lemma ReduceKeepsLimit(toasts: seq<ToasterToast>, action: Action)
    requires |toasts| <= ToastLimit
    ensures |Reduce(toasts, action)| <= ToastLimit
  {
  }

  /** The ids of the given toasts. */
  function IdsOf(toasts: seq<ToasterToast>): set<string>
  {
    set i | 0 <= i < |toasts| :: toasts[i].id
  }

  /**
   * The ids pending removal after the reducer has handled `action`:
   * DISMISS_TOAST queues its id when that id is truthy, and every current
   * toast's id otherwise; no other action queues anything.
   */
  function QueuedAfter(pending: set<string>, toasts: seq<ToasterToast>, action: Action): (r: set<string>)
    ensures pending <= r
    ensures !action.DismissToast? ==> r == pending
    ensures action.DismissToast? && Text.Truthy(action.toastId) ==> r == pending + {action.toastId.value}
    ensures action.DismissToast? && !Text.Truthy(action.toastId) ==> r == pending + IdsOf(toasts)
  {
    match action
    case DismissToast(id) => if Text.Truthy(id) then pending + {id.value} else pending + IdsOf(toasts)
    case _ => pending
  }

  /** Dismissing again queues nothing new. */
  lemma DismissQueueIdempotent(pending: set<string>, toasts: seq<ToasterToast>, id: Option<string>)
    ensures var once := QueuedAfter(pending, toasts, DismissToast(id));
            QueuedAfter(once, toasts, DismissToast(id)) == once
  {
  }

  /**
   * A dismiss whose id is the empty string takes the "no id" branch of the
   * queue but the "with id" branch of the map: every toast is queued for
   * removal, and a toast is closed only if its own id is empty.
   */
  lemma DismissEmptyIdQueuesAll(pending: set<string>, toasts: seq<ToasterToast>)
    requires forall i :: 0 <= i < |toasts| ==> toasts[i].id != ""
    ensures QueuedAfter(pending, toasts, DismissToast(Some(""))) == pending + IdsOf(toasts)
    ensures ReduceDismiss(toasts, Some("")) == toasts
  {
    var r := ReduceDismiss(toasts, Some(""));
    assert forall i :: 0 <= i < |toasts| ==> r[i] == toasts[i];
  }

  /** One step of the id counter. */
  function NextCount(count: nat): (r: nat)
    ensures r < MaxSafeInteger
  {
    (count + 1) % MaxSafeInteger
  }

  /** The counter after `n` calls of `genId`, starting from `count`. */
  function CountAfter(count: nat, n: nat): nat
    decreases n
  {
    if n == 0 then count else NextCount(CountAfter(count, n - 1))
  }

  /** `n` calls of `genId` advance the counter by `n`, modulo `MaxSafeInteger`. */
  lemma {:induction false} CountAfterClosedForm(count: nat, n: nat)
    requires count < MaxSafeInteger
    ensures CountAfter(count, n) == (count + n) % MaxSafeInteger
    decreases n
  {
    if n > 0 {
      CountAfterClosedForm(count, n - 1);
      ModSucc(count + n - 1);
    }
  }

  /** Adding one after reducing gives the same remainder as adding one before. */
  lemma ModSucc(k: nat)
    ensures (k % MaxSafeInteger + 1) % MaxSafeInteger == (k + 1) % MaxSafeInteger
  {
    var m := MaxSafeInteger;
    var q, r := k / m, k % m;
    assert k == q * m + r;
    if r + 1 < m {
      assert k + 1 == q * m + (r + 1);
    } else {
      assert k + 1 == (q + 1) * m;
    }
  }

  /** Numbers less than `MaxSafeInteger` apart have different remainders. */
  lemma ModDistinct(a: nat, b: nat)
    requires a < b < a + MaxSafeInteger
    ensures a % MaxSafeInteger != b % MaxSafeInteger
  {
    var m := MaxSafeInteger;
    var qa, qb := a / m, b / m;
    assert a == qa * m + a % m;
    assert b == qb * m + b % m;
  }

  /**
   * Two different calls among fewer than `MaxSafeInteger` consecutive calls
   * of `genId` return different ids.
   */
  lemma ConsecutiveIdsDistinct(count: nat, j: nat, k: nat)
    requires count < MaxSafeInteger
    requires j < k < j + MaxSafeInteger
    ensures Text.DecimalString(CountAfter(count, j)) != Text.DecimalString(CountAfter(count, k))
  {
    var a, b := CountAfter(count, j), CountAfter(count, k);
    assert a != b by {
      CountAfterClosedForm(count, j);
      CountAfterClosedForm(count, k);
      ModDistinct(count + j, count + k);
    }
    assert Text.DigitsValue(Text.DecimalString(a)) != Text.DigitsValue(Text.DecimalString(b));
  }

  /** After `MaxSafeInteger` calls the counter is back where it started: ids repeat. */
  lemma IdsWrapAround(count: nat)
    requires count < MaxSafeInteger
    ensures CountAfter(count, MaxSafeInteger) == count
  {
    CountAfterClosedForm(count, MaxSafeInteger);
    var m := MaxSafeInteger;
    var q := (count + m) / m;
    assert count + m == q * m + (count + m) % m;
    assert q == 1;
  }

  /** A subscriber: the `setState` of one `useToast` instance. */
  class Listener {
    var state: seq<ToasterToast>

    constructor (initial: seq<ToasterToast>)
      ensures state == initial
    {
      state := initial;
    }

    method SetState(s: seq<ToasterToast>)
      modifies this
      ensures state == s
    {
      state := s;
    }
  }

  /** The module-level state of the toast system. */
  class Store {
    var count: nat                    // the id counter of `genId`
    var toasts: seq<ToasterToast>     // `memoryState.toasts`
    var pending: set<string>          // the keys of `toastTimeouts`
    var listeners: seq<Listener>

    ghost predicate Valid()
      reads this
    {
      count < MaxSafeInteger && |toasts| <= ToastLimit
    }

    constructor ()
      ensures Valid()
      ensures count == 0 && toasts == [] && pending == {} && listeners == []
    {
      count, toasts, pending, listeners := 0, [], {}, [];
    }

    /** `genId`: advance the counter and return it as a string. */
    method GenId() returns (id: string)
      requires Valid()
      modifies this`count
      ensures Valid()
      ensures count == NextCount(old(count))
      ensures id == Text.DecimalString(count)
    {
      count := (count + 1) % MaxSafeInteger;
      id := Text.DecimalString(count);
    }

    /** `addToRemoveQueue`: queue an id once; queuing it again changes nothing. */
    method AddToRemoveQueue(id: string)
      modifies this`pending
      ensures pending == old(pending) + {id}
      ensures old(id in pending) ==> pending == old(pending)
    {
      if id in pending {
        return;
      }
      pending := pending + {id};
    }

    /**
     * `reducer(state, action)`: the new list, with the removal queue
     * updated as a side effect of DISMISS_TOAST.
     */
    method Reducer(state: seq<ToasterToast>, action: Action) returns (next: seq<ToasterToast>)
      modifies this`pending
      ensures next == Reduce(state, action)
      ensures pending == QueuedAfter(old(pending), state, action)
    {
      match action {
        case AddToast(t) =>
          next := ReduceAdd(state, t);
        case UpdateToast(p) =>
          next := ReduceUpdate(state, p);
        case DismissToast(toastId) =>
          if Text.Truthy(toastId) {
            AddToRemoveQueue(toastId.value);
          } else {
            for i := 0 to |state|
              invariant pending == old(pending) + IdsOf(state[..i])
            {
              assert IdsOf(state[..i + 1]) == IdsOf(state[..i]) + {state[i].id} by {
                assert forall j :: 0 <= j < i + 1 ==> state[..i + 1][j] == state[j];
                assert forall j :: 0 <= j < i ==> state[..i][j] == state[j];
              }
              AddToRemoveQueue(state[i].id);
            }
            assert state[..|state|] == state;
          }
          next := ReduceDismiss(state, toastId);
        case RemoveToast(toastId) =>
          next := ReduceRemove(state, toastId);
      }
    }

    /**
     * `dispatch`: replace the shared state by the reducer's result and hand
     * that same state to every listener.
     */
    method Dispatch(action: Action)
      requires Valid()
      modifies this`toasts, this`pending, listeners
      ensures Valid()
      ensures toasts == Reduce(old(toasts), action)
      ensures pending == QueuedAfter(old(pending), old(toasts), action)
      ensures forall l :: l in listeners ==> l.state == toasts
    {
      ReduceKeepsLimit(toasts, action);
      var next := Reducer(toasts, action);
      toasts := next;
      ghost var queued := pending;
      for i := 0 to |listeners|
        invariant toasts == next && pending == queued
        invariant forall j :: 0 <= j < i ==> listeners[j].state == toasts
      {
        listeners[i].SetState(toasts);
      }
    }

    /**
     * `toast(props)`: add an open toast with a fresh id; return the id (the
     * returned `update` and `dismiss` are `Dispatch` of UPDATE_TOAST and
     * DISMISS_TOAST with this id).
     */
    method Toast(props: ToastProps) returns (id: string)
      requires Valid()
      modifies this`count, this`toasts, this`pending, listeners
      ensures Valid()
      ensures count == NextCount(old(count)) && id == Text.DecimalString(count)
      ensures toasts == [ToasterToast(id, true, props.title, props.description, props.variant)]
      ensures pending == old(pending)
      ensures forall l :: l in listeners ==> l.state == toasts
    {
      id := GenId();
      Dispatch(AddToast(ToasterToast(id, true, props.title, props.description, props.variant)));
    }

    /** The removal timer of `id` fires: forget it and dispatch REMOVE_TOAST for it. */
    method RemovalTimerFires(id: string)
      requires Valid()
      requires id in pending
      modifies this`toasts, this`pending, listeners
      ensures Valid()
      ensures pending == old(pending) - {id}
      ensures toasts == ReduceRemove(old(toasts), Some(id))
      ensures forall l :: l in listeners ==> l.state == toasts
    {
      pending := pending - {id};
      Dispatch(RemoveToast(Some(id)));
    }

    /** `useToast` subscribing: `listeners.push(setState)`. */
    method Subscribe(l: Listener)
      modifies this`listeners
      ensures listeners == old(listeners) + [l]
    {
      listeners := listeners + [l];
    }

    /** `listeners.indexOf(l)`: the first position of `l`, or -1. */
    method IndexOf(l: Listener) returns (k: int)
      ensures -1 <= k < |listeners|
      ensures k == -1 <==> l !in listeners
      ensures k >= 0 ==> listeners[k] == l && l !in listeners[..k]
    {
      k := 0;
      while k < |listeners|
        invariant 0 <= k <= |listeners|
        invariant l !in listeners[..k]
      {
        if listeners[k] == l {
          return;
        }
        k := k + 1;
      }
      assert listeners[..k] == listeners;
      k := -1;
    }

    /** `useToast` unsubscribing: splice out the first occurrence of `l`, if any. */
    method Unsubscribe(l: Listener)
      modifies this`listeners
      ensures l !in old(listeners) ==> listeners == old(listeners)
      ensures l in old(listeners) ==>
        exists k :: 0 <= k < |old(listeners)| && old(listeners)[k] == l && l !in old(listeners)[..k]
                    && listeners == old(listeners)[..k] + old(listeners)[k + 1..]
    {
      var index := IndexOf(l);
      if index > -1 {
        listeners := listeners[..index] + listeners[index + 1..];
      }
    }
  }
}
