/** What the steps of a shared table have done, in order: the events of a run, which of them belong to an
    operation, and the entries that were put in and taken out. */
module History {

  /** What a step means for the abstract map; t is the thread. */
  datatype Event = Internal | Inserted(t: nat, k: nat, v: nat) | Removed(t: nat, k: nat, v: nat)

  ghost predicate By(e: Event, t: nat) { !e.Internal? && e.t == t }

  /** No step of thread t has changed the map since `start`. */
  ghost predicate NoEventSince(events: seq<Event>, start: nat, t: nat)
  {
    forall i :: start <= i < |events| ==> !By(events[i], t)
  }

  /** Exactly one step of thread t has changed the map since `start`, in the given way. */
  ghost predicate OneEventSince(events: seq<Event>, start: nat, t: nat, e: Event)
  {
    exists i :: start <= i < |events| && events[i] == e && forall i' :: start <= i' < |events| && i' != i ==>
        !By(events[i'], t)
  }

  lemma NoEventGrows(events: seq<Event>, e: Event, start: nat, t: nat)
    requires NoEventSince(events, start, t) && start <= |events|
    ensures !By(e, t) ==> NoEventSince(events + [e], start, t)
    ensures By(e, t) ==> OneEventSince(events + [e], start, t, e)
  {
    var es := events + [e];
    assert es[|events|] == e;
    forall i | start <= i < |events| ensures !By(es[i], t) { assert es[i] == events[i]; }
  }

  lemma OneEventGrows(events: seq<Event>, e: Event, start: nat, t: nat, x: Event)
    requires OneEventSince(events, start, t, x) && start <= |events| && !By(e, t)
    ensures OneEventSince(events + [e], start, t, x)
  {
    var es := events + [e];
    var i :| start <= i < |events| && events[i] == x && forall i' :: start <= i' < |events| && i' != i ==>
        !By(events[i'], t);
    assert es[i] == x;
    forall i' | start <= i' < |es| && i' != i ensures !By(es[i'], t) {
      if i' < |events| { assert es[i'] == events[i']; }
    }
  }

  /** The entries that puts have committed. */
  function Inserts(es: seq<Event>): multiset<(nat, nat)>
  {
    if es == [] then multiset{}
    else Inserts(es[..|es| - 1]) + match es[|es| - 1] case Inserted(_, k, v) => multiset{(k, v)} case _ => multiset{}
  }

  /** The entries that removes have taken out. */
  function Removals(es: seq<Event>): multiset<(nat, nat)>
  {
    if es == [] then multiset{}
    else Removals(es[..|es| - 1]) + match es[|es| - 1] case Removed(_, k, v) => multiset{(k, v)} case _ => multiset{}
  }

  lemma EventsGrow(es: seq<Event>, e: Event)
    ensures Inserts(es + [e]) == Inserts(es) + match e case Inserted(_, k, v) => multiset{(k, v)} case _ => multiset{}
    ensures Removals(es + [e]) == Removals(es) + match e case Removed(_, k, v) => multiset{(k, v)} case _ => multiset{}
  {
    assert (es + [e])[..|es + [e]| - 1] == es;
  }
}
