/** The staging directory and the faults of the session: which slots a session holds,
    which files outlive it, and what clearing leaves behind. */
module Staging {
  import opened Wrappers
  import opened Documents

  /** What happens to the n-th session call: it succeeds, fails without an effect, or
      takes effect and still reports a failure. A preparation takes effect when the
      slot it failed to fill could not be cleaned up again. */
  datatype Fault = Clean | Before | After

  const LAST_SLOT: nat := 10

  /** How one artifact's publication ended: whether it took effect, whether a slot was
      prepared for it, and whether the writer still counts that slot as occupied. */
  datatype Published = Published(error: Option<Code>, performed: bool, prepared: bool, occupied: bool)

  ghost predicate CleanFrom(faults: nat -> Fault, from: nat) {
    forall n: nat :: n >= from ==> faults(n).Clean?
  }

  ghost predicate CleanBetween(faults: nat -> Fault, from: nat, to: nat) {
    forall n: nat :: from <= n < to ==> faults(n).Clean?
  }

  /** A redo publishes by pairs of calls from `start` and clears its slots by the calls
      from `begun` to `end`. A file stays in the staging directory exactly when the
      preparation the redo stopped at could not clean up after itself, or a removal
      failed before its unlink. */
  ghost predicate PostsLeaveSlot(faults: nat -> Fault, start: nat, begun: nat, end: nat)
    requires start <= begun
  {
    ((begun - start) % 2 == 1 && faults(begun - 1).After?) || exists n: nat :: begun <= n < end && faults(n).Before?
  }

  /** The head is prepared by call `n` and renamed by the next one. */
  predicate HeadLeavesSlot(faults: nat -> Fault, n: nat) {
    faults(n).After? || (faults(n).Clean? && faults(n + 1).Before?)
  }

  /** Nothing stays in the staging directory when nothing fails. */
  lemma CleanLeavesNothing(faults: nat -> Fault, start: nat)
    requires CleanFrom(faults, start)
    ensures forall begun: nat, end: nat :: start <= begun ==> !PostsLeaveSlot(faults, start, begun, end)
    ensures forall n: nat :: start <= n ==> !HeadLeavesSlot(faults, n)
  {
  }

  lemma ByPairs(pairs: nat, n: nat)
    requires n == 2 * pairs || n == 2 * pairs + 1
    ensures n % 2 == 1 <==> n == 2 * pairs + 1
  {
  }

  // ----- one publication -----

  /** What one publication does to the staging directory: nothing lasting, or a slot the
      session holds, or (`left`) a file that a failed preparation left. */
  predicate SlotUsed(slots: set<nat>, held: set<nat>, slots': set<nat>, held': set<nat>, slot: nat, r: Published, left: bool) {
    && (slots' == if left || slot in held' then slots + {slot} else slots)
    && (held' == if slot in held' then held + {slot} else held)
    && (slot in held' ==> r.occupied && !left)
    && (r.error.None? ==> (r.occupied <==> slot in held') && !left)
  }

  /** The staging directory holds what the session holds, all of it marked occupied,
      and possibly (`stuck`) one more file in the next slot. */
  predicate Accounted(slots: set<nat>, held: set<nat>, occupied: set<nat>, slot: nat, stuck: bool) {
    && held <= occupied && (forall s :: s in occupied ==> s < slot)
    && (slots == if stuck then held + {slot} else held)
  }

  lemma AccountedNext(slots: set<nat>, held: set<nat>, occupied: set<nat>, slots': set<nat>, held': set<nat>, slot: nat, r: Published, left: bool)
    requires Accounted(slots, held, occupied, slot, false) && SlotUsed(slots, held, slots', held', slot, r, left)
    requires r.occupied ==> r.prepared
    requires left ==> !r.prepared
    ensures Accounted(slots', held', if r.occupied then occupied + {slot} else occupied, if r.prepared then slot + 1 else slot, left)
    ensures r.error.None? && occupied == held ==> held' == if r.occupied then occupied + {slot} else occupied
  {
  }

  lemma NothingHeld(slots: set<nat>)
    requires slots == {}
    ensures Accounted(slots, {}, {}, 0, false)
  {
  }

  lemma AccountedAll(slots: set<nat>, held: set<nat>, occupied: set<nat>, slot: nat, stuck: bool)
    requires Accounted(slots, held, occupied, slot, stuck)
    ensures held <= occupied && (slots == held <==> !stuck) && (slot == 0 ==> held == {})
    ensures slot !in slots <==> !stuck
  {
    assert slot !in held;
  }

  // ----- clearing the slots -----

  /** The removal of `s` failed before its unlink, if it was tried; the removals went in
      this order from call `start` on. */
  ghost predicate Stays(order: seq<nat>, faults: nat -> Fault, start: nat, s: nat) {
    forall i: nat :: i < |order| && order[i] == s ==> faults(start + i).Before?
  }

  ghost predicate NotCleared(order: seq<nat>, faults: nat -> Fault, start: nat, s: nat) {
    forall i: nat :: i < |order| && order[i] == s ==> !faults(start + i).Clean?
  }

  predicate Distinct(order: seq<nat>) {
    forall i, j :: 0 <= i < j < |order| ==> order[i] != order[j]
  }

  lemma TriedNext(order: seq<nat>, faults: nat -> Fault, start: nat, s: nat)
    requires s !in order && Distinct(order)
    ensures Distinct(order + [s])
    ensures forall x :: x in order + [s] <==> x in order || x == s
    ensures forall x: nat :: Stays(order + [s], faults, start, x) <==> if x == s then faults(start + |order|).Before? else Stays(order, faults, start, x)
    ensures forall x: nat :: NotCleared(order + [s], faults, start, x) <==> if x == s then !faults(start + |order|).Clean? else NotCleared(order, faults, start, x)
  {
    var next := order + [s];
    forall x: nat ensures Stays(next, faults, start, x) <==> if x == s then faults(start + |order|).Before? else Stays(order, faults, start, x) {
      assert next[|order|] == s;
      assert forall i: nat :: i < |order| ==> next[i] == order[i] && order[i] in order;
    }
    forall x: nat ensures NotCleared(next, faults, start, x) <==> if x == s then !faults(start + |order|).Clean? else NotCleared(order, faults, start, x) {
      assert next[|order|] == s;
      assert forall i: nat :: i < |order| ==> next[i] == order[i] && order[i] in order;
    }
  }

  /** The clearing of a staging directory, with `rest` still to do. */
  ghost predicate Clearing(slots0: set<nat>, held0: set<nat>, occupied: set<nat>, slots: set<nat>, held: set<nat>, rest: set<nat>,
                           failed: set<nat>, order: seq<nat>, faults: nat -> Fault, start: nat, now: nat) {
    && held == held0 * rest && now == start + |order| && Distinct(order)
    && (forall s :: s in order <==> s in held0 && s in occupied && s !in rest)
    && (forall s :: s in slots <==> s in slots0 && Stays(order, faults, start, s))
    && (forall s :: s in failed <==> s in occupied && s !in rest && NotCleared(order, faults, start, s))
  }

  lemma ClearStarts(slots: set<nat>, held: set<nat>, occupied: set<nat>, faults: nat -> Fault, start: nat)
    requires held <= occupied
    ensures Clearing(slots, held, occupied, slots, held, occupied, {}, [], faults, start, start)
  {
  }

  lemma Untried(order: seq<nat>, faults: nat -> Fault, start: nat, s: nat)
    requires s !in order
    ensures Stays(order, faults, start, s) && NotCleared(order, faults, start, s)
  {
  }

  lemma ClearNext(slots0: set<nat>, held0: set<nat>, occupied: set<nat>, slots: set<nat>, held: set<nat>, rest: set<nat>,
                  failed: set<nat>, order: seq<nat>, faults: nat -> Fault, start: nat, now: nat, s: nat, slots': set<nat>, removed: bool)
    requires Clearing(slots0, held0, occupied, slots, held, rest, failed, order, faults, start, now) && s in rest && rest <= occupied
    requires slots' == if s in held && !faults(now).Before? then slots - {s} else slots
    requires removed <==> s in held && faults(now).Clean?
    ensures Clearing(slots0, held0, occupied, slots', held - {s}, rest - {s}, if removed then failed else failed + {s},
                     if s in held then order + [s] else order, faults, start, if s in held then now + 1 else now)
  {
    hide Stays, NotCleared, Distinct;
    Untried(order, faults, start, s);
    TriedNext(order, faults, start, s);
  }

  /** What clearing leaves: the files no session held, and those whose removal failed
      before its unlink. */
  lemma ClearEnds(slots0: set<nat>, held0: set<nat>, occupied: set<nat>, slots: set<nat>, held: set<nat>,
                  failed: set<nat>, order: seq<nat>, faults: nat -> Fault, start: nat, now: nat)
    requires Clearing(slots0, held0, occupied, slots, held, {}, failed, order, faults, start, now) && held0 <= slots0 && held0 <= occupied
    ensures held == {} && now == start + |order| && Distinct(order)
    ensures forall s :: s in order <==> s in held0
    ensures forall s :: s in slots <==> s in slots0 && Stays(order, faults, start, s)
    ensures forall s :: s in failed <==> s in occupied && NotCleared(order, faults, start, s)
    ensures slots != {} <==> slots0 != held0 || exists n: nat :: start <= n < now && faults(n).Before?
    ensures slots <= failed + (slots0 - held0)
    ensures CleanFrom(faults, start) && occupied == held0 ==> failed == {}
  {
    if slots != {} && slots0 == held0 {
      var s :| s in slots;
      var i :| 0 <= i < |order| && order[i] == s;
      assert faults(start + i).Before?;
    }
    if slots0 != held0 {
      var s :| s in slots0 && s !in held0;
      assert s in slots;
    }
    if n: nat :| start <= n < now && faults(n).Before? {
      assert order[n - start] in slots;
    }
  }
}
