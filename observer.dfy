/**
 * The `observer` package's `TabletopSubject`: a list of observers, and
 * `notifyObservers`, which hands a message to each observer in list order.
 * What an observer's `update` does is outside this model, so each call is
 * recorded as an event in a ghost trace `delivered`. The abstract subject
 * and its one concrete subclass are one class here.
 */
module Observer {
  import opened Lists

  /** A registered observer; only its identity matters here. */
  class TabletopObserver {
    constructor ()
    {
    }
  }

  datatype Update = Update(observer: TabletopObserver, data: string)

  /** The calls one notification makes: `update(data)` on each observer, in order. */
  function Broadcast(obs: seq<TabletopObserver>, data: string): (u: seq<Update>)
    ensures |u| == |obs|
    ensures forall i | 0 <= i < |obs| :: u[i] == Update(obs[i], data)
  {
    if |obs| == 0 then [] else Broadcast(obs[..|obs| - 1], data) + [Update(obs[|obs| - 1], data)]
  }

  /**
   * The list after `attach(o)`: the old observers stay first and in order, the
   * members are the old ones plus `o`, and the list grows exactly when `o` is
   * a new, non-null observer.
   */
  function Attached(obs: seq<TabletopObserver>, o: TabletopObserver?): (r: seq<TabletopObserver>)
    ensures |obs| <= |r| <= |obs| + 1 && r[..|obs|] == obs
    ensures o != null ==> o in r
    ensures forall q | q in r :: q in obs || q == o
    ensures |r| == |obs| + 1 <==> o != null && o !in obs
  {
    if o != null && o !in obs then obs + [o] else obs
  }

  /**
   * The list after `detach(o)`: one copy of a registered observer is taken
   * out and nothing else; an absent or null one leaves the list alone.
   */
  function Detached(obs: seq<TabletopObserver>, o: TabletopObserver?): (r: seq<TabletopObserver>)
    ensures o == null || o !in obs ==> r == obs
    ensures o != null && o in obs ==> |r| == |obs| - 1 && multiset(r) == multiset(obs) - multiset{o}
  {
    if o == null then obs
    else
      if o in obs then RemoveFirstCount(obs, o); RemoveFirst(obs, o)
      else RemoveFirst(obs, o)
  }

  /** `attach` never creates a duplicate, and keeps the earlier observers first. */
  lemma AttachKeepsNoDups(obs: seq<TabletopObserver>, o: TabletopObserver?)
    requires NoDups(obs)
    ensures NoDups(Attached(obs, o))
    ensures Attached(obs, o)[..|obs|] == obs
    ensures o != null ==> o in Attached(obs, o)
  {
  }

  /** On a list without duplicates `detach` takes the observer out entirely. */
  lemma DetachRemoves(obs: seq<TabletopObserver>, o: TabletopObserver)
    requires NoDups(obs)
    ensures o !in Detached(obs, o) && NoDups(Detached(obs, o))
    ensures forall q | q in obs && q != o :: q in Detached(obs, o)
  {
    RemoveFirstNoDups(obs, o);
    if o in obs {
      var i := IndexOf(obs, o);
      assert obs == obs[..i] + [o] + obs[i + 1..];
    }
  }

  /** Under no duplicates, each registered observer receives one notification exactly once, in its list position. */
  lemma {:induction false} NotifiedExactlyOnce(obs: seq<TabletopObserver>, data: string, k: nat)
    requires NoDups(obs) && k < |obs|
    ensures Broadcast(obs, data)[k] == Update(obs[k], data)
    ensures multiset(Broadcast(obs, data))[Update(obs[k], data)] == 1
  {
    var u := Broadcast(obs, data);
    assert NoDups(u) by {
      forall i, j | 0 <= i < j < |u|
        ensures u[i] != u[j]
      {
        assert u[i].observer == obs[i] && u[j].observer == obs[j];
      }
    }
    assert u[k] in u;
    NoDupsOccursOnce(u, u[k]);
  }

  /** The subject together with `TabletopConcreteSubject`'s `state` text. */
  class TabletopSubject {
    var observers: seq<TabletopObserver>
    var state: string
    ghost var delivered: seq<Update>

    constructor (initialState: string)
      ensures observers == [] && state == initialState && delivered == []
    {
      observers := [];
      state := initialState;
      delivered := [];
    }

    function GetState(): (s: string)
      reads this
      ensures s == state
    {
      state
    }

    /** `setState(newState)`: the new text is kept and announced to every observer. */
    method SetState(newState: string)
      modifies this`state, this`delivered
      ensures state == newState
      ensures delivered == old(delivered) + Broadcast(observers, newState)
    {
      state := newState;
      NotifyObservers(state);
    }

    method Attach(o: TabletopObserver?)
      modifies this`observers
      ensures observers == Attached(old(observers), o)
    {
      if o != null && o !in observers {
        observers := observers + [o];
      }
    }

    method Detach(o: TabletopObserver?)
      modifies this`observers
      ensures observers == Detached(old(observers), o)
    {
      if o != null {
        observers := RemoveFirst(observers, o);
      }
    }

    /** `notifyObservers`: one `update(data)` per observer registered at the call, over a copy of the list. */
    method NotifyObservers(data: string)
      modifies this`delivered
      ensures delivered == old(delivered) + Broadcast(observers, data)
    {
      var copy := observers;
      var i := 0;
      while i < |copy|
        invariant 0 <= i <= |copy|
        invariant delivered == old(delivered) + Broadcast(copy[..i], data)
      {
        delivered := delivered + [Update(copy[i], data)];
        assert copy[..i + 1][..i] == copy[..i];
        i := i + 1;
      }
      assert copy[..|copy|] == copy;
    }
  }
}
