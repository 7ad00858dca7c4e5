/** The writer: staging slots, atomic publications that a fault can stop before or
    just after their effect, and the apply and redo that sequence them. Each method
    is tied to the step functions of Publication.dfy. */
module Session {
  import opened Wrappers
  import opened Documents
  import opened Publication
  import opened Commit
  import opened Audit
  import opened Recovery
  import opened Refinement
  import opened Staging
  import opened Progress
  import opened Reports

  class Writer {
    var disk: Disk
    /** The files of the staging directory, some of them left by earlier sessions. */
    var slots: set<nat>
    /** The slots this session prepared and may still publish or remove. */
    var stages: map<nat, File>
    var calls: nat
    const faults: nat -> Fault

    predicate Valid()
      reads this
    {
      stages.Keys <= slots
    }

    constructor (disk: Disk, slots: set<nat>, faults: nat -> Fault)
      ensures Valid() && this.disk == disk && this.slots == slots && this.faults == faults && stages == map[] && calls == 0
    {
      this.disk, this.slots, this.faults, this.stages, this.calls := disk, slots, faults, map[], 0;
    }

    /** Create and fill one staging slot. A preparation that fails removes what it
        created, and when that fails too the file stays, known to no session. */
    method Prepare(slot: nat, data: File) returns (ok: bool)
      requires Valid()
      modifies this`slots, this`stages, this`calls
      ensures Valid() && calls == old(calls) + 1
      ensures ok <==> faults(old(calls)).Clean? && slot <= LAST_SLOT && slot !in old(slots)
      ensures stages == if ok then old(stages)[slot := data] else old(stages)
      ensures slots == if slot <= LAST_SLOT && !faults(old(calls)).Before? then old(slots) + {slot} else old(slots)
    {
      var f := faults(calls);
      calls := calls + 1;
      ok := f.Clean? && slot <= LAST_SLOT && slot !in slots;
      if slot <= LAST_SLOT && !f.Before? { slots := slots + {slot}; }
      if ok { stages := stages[slot := data]; }
    }

    /** link(2): the destination is absent or complete, and never replaced. */
    method Link(slot: nat, target: Path) returns (ok: bool, performed: bool)
      requires slot in stages
      modifies this`disk, this`calls
      ensures calls == old(calls) + 1
      ensures performed <==> !faults(old(calls)).Before? && target !in old(disk)
      ensures disk == if performed then old(disk)[target := stages[slot]] else old(disk)
      ensures ok <==> performed && faults(old(calls)).Clean?
    {
      var f := faults(calls);
      calls := calls + 1;
      performed := !f.Before? && target !in disk;
      if performed { disk := disk[target := stages[slot]]; }
      ok := performed && f.Clean?;
    }

    /** rename(2) under the expected digest. It consumes the slot, except that over a
        destination which already holds the staged bytes it succeeds without an effect
        and keeps the slot. */
    method Replace(slot: nat, target: Path, expected: Digest) returns (ok: bool, performed: bool)
      requires Valid() && slot in stages
      modifies this`disk, this`slots, this`stages, this`calls
      ensures Valid() && calls == old(calls) + 1
      ensures performed <==> !faults(old(calls)).Before? && Mutable(target) && target in old(disk)
                             && Sum(old(disk)[target]) == expected && expected != Sum(old(stages)[slot])
      ensures disk == if performed then old(disk)[target := old(stages)[slot]] else old(disk)
      ensures stages == if performed then old(stages) - {slot} else old(stages)
      ensures slots == if performed then old(slots) - {slot} else old(slots)
      ensures performed ==> (ok <==> faults(old(calls)).Clean?)
      ensures ok && !performed <==> faults(old(calls)).Clean? && Mutable(target) && target in old(disk) && Sum(old(disk)[target]) == Sum(old(stages)[slot])
    {
      var f := faults(calls);
      calls := calls + 1;
      if f.Before? || !Mutable(target) || target !in disk { return false, false; }
      if Sum(disk[target]) == Sum(stages[slot]) { return f.Clean?, false; }
      if Sum(disk[target]) != expected { return false, false; }
      disk := disk[target := stages[slot]];
      stages := stages - {slot};
      slots := slots - {slot};
      return f.Clean?, true;
    }

    /** Unlink one staging file. Whatever comes of it the session has done with the
        slot, and a slot it does not hold is refused without a call. */
    method RemoveStage(slot: nat) returns (ok: bool)
      requires Valid()
      modifies this`slots, this`stages, this`calls
      ensures Valid() && stages == old(stages) - {slot}
      ensures calls == old(calls) + if slot in old(stages) then 1 else 0
      ensures slots == if slot in old(stages) && !faults(old(calls)).Before? then old(slots) - {slot} else old(slots)
      ensures ok <==> slot in old(stages) && faults(old(calls)).Clean?
    {
      if slot !in stages { return false; }
      var f := faults(calls);
      calls := calls + 1;
      stages := stages - {slot};
      if !f.Before? { slots := slots - {slot}; }
      ok := f.Clean?;
    }

    method RemoveBarrier(expected: Digest) returns (ok: bool, performed: bool)
      modifies this`disk, this`calls
      ensures calls == old(calls) + 1
      ensures performed <==> !faults(old(calls)).Before? && Drop(old(disk), expected).Ok?
      ensures disk == if performed then Drop(old(disk), expected).value else old(disk)
      ensures ok <==> performed && faults(old(calls)).Clean?
    {
      var f := faults(calls);
      calls := calls + 1;
      if f.Before? { return false, false; }
      match Drop(disk, expected) {
        case Err(_) => return false, false;
        case Ok(d) =>
          disk := d;
          return f.Clean?, true;
      }
    }

    /** Clear the slots a transaction still occupies, in any order; `order` is the order
        in which those it held were cleared, one call each. A slot stays exactly when
        its removal failed before the unlink. */
    method Cleanup(occupied: set<nat>) returns (failed: set<nat>, ghost order: seq<nat>)
      requires Valid() && stages.Keys <= occupied
      modifies this`slots, this`stages, this`calls
      ensures Valid() && stages == map[]
      ensures calls == old(calls) + |order|
      ensures forall s :: s in order <==> s in old(stages)
      ensures Distinct(order)
      ensures forall s :: s in slots <==> s in old(slots) && Stays(order, faults, old(calls), s)
      ensures forall s :: s in failed <==> s in occupied && NotCleared(order, faults, old(calls), s)
      ensures slots != {} <==> old(slots) != old(stages).Keys || exists n: nat :: old(calls) <= n < calls && faults(n).Before?
      ensures slots <= failed + (old(slots) - old(stages).Keys)
      ensures CleanFrom(faults, old(calls)) && occupied == old(stages).Keys ==> failed == {}
    {
      failed, order := {}, [];
      var rest := occupied;
      ClearStarts(slots, stages.Keys, occupied, faults, calls);
      hide Clearing, Stays, NotCleared, Distinct, CleanFrom;
      while rest != {}
        invariant Valid() && rest <= occupied
        invariant Clearing(old(slots), old(stages).Keys, occupied, slots, stages.Keys, rest, failed, order, faults, old(calls), calls)
        decreases |rest|
      {
        var s :| s in rest;
        ghost var was, held, left, missed, tried, from := slots, stages.Keys, rest, failed, order, calls;
        if s in stages { order := order + [s]; }
        var removed := RemoveStage(s);
        rest := rest - {s};
        if !removed { failed := failed + {s}; }
        ClearNext(old(slots), old(stages).Keys, occupied, was, held, left, missed, tried, faults, old(calls), from, s, slots, removed);
      }
      ClearEnds(old(slots), old(stages).Keys, occupied, slots, stages.Keys, failed, order, faults, old(calls), calls);
    }

    /** Decide, stage and publish one artifact; `full` is the refusal when the slots
        have run out. */
    method PublishOne(rc: ReceiptDoc, a: Artifact, slot: nat, full: Code) returns (r: Published)
      requires Valid() && slot !in slots
      modifies this`disk, this`slots, this`stages, this`calls
      ensures Valid()
      ensures r.performed ==> Perform(old(disk), Put(a), rc) == Result.Ok(disk)
      ensures !r.performed ==> disk == old(disk)
      ensures r.error.None? <==>
        && Perform(old(disk), Put(a), rc).Ok?
        && (Perform(old(disk), Put(a), rc).value != old(disk) ==> slot <= LAST_SLOT)
        && CleanBetween(faults, old(calls), calls)
      ensures r.error.None? ==> r.performed
      ensures r.error.None? ==> (r.prepared <==> disk != old(disk))
      ensures r.occupied ==> r.prepared
      ensures r.prepared ==> calls == old(calls) + 2 && faults(old(calls)).Clean? && slot <= LAST_SLOT
      ensures !r.prepared ==> old(calls) <= calls <= old(calls) + 1
      ensures !r.prepared && calls > old(calls) ==> r.error.Some? && !faults(old(calls)).Clean?
      ensures !r.prepared && r.error.None? ==> calls == old(calls)
      ensures calls > old(calls) && Perform(old(disk), Put(a), rc).Ok? ==> Perform(old(disk), Put(a), rc).value != old(disk)
      ensures SlotUsed(old(slots), old(stages).Keys, slots, stages.Keys, slot, r, !r.prepared && calls > old(calls) && faults(old(calls)).After?)
    {
      var pre := PreOf(rc.entries, a.target);
      SkipsExactly(disk, a, rc);
      match Decide(disk, a, pre) {
        case Err(c) => return Published(Some(c), false, false, false);
        case Ok(how) =>
          if how.Skip? { return Published(None, true, false, false); }
          if slot > LAST_SLOT { return Published(Some(full), false, false, false); }
          var staged := Prepare(slot, a.data);
          if !staged { return Published(Some(SessionFault), false, false, false); }
          assert old(stages)[slot := a.data] - {slot} == old(stages);
          assert old(slots) + {slot} - {slot} == old(slots);
          var ok, performed;
          if how.Create? {
            ok, performed := Link(slot, a.target);
            return Published(if ok then None else Some(SessionFault), performed, true, true);
          }
          ok, performed := Replace(slot, a.target, how.expected);
          return Published(if ok then None else Some(SessionFault), performed, true, !ok);
      }
    }

    /** The artifacts sorted into the four phases of the effect order. */
    method SortPhases(plan: Plan) returns (staged: seq<seq<Artifact>>)
      ensures |staged| == 4 && forall p :: 0 <= p < 4 ==> staged[p] == InPhase(plan.artifacts, p)
    {
      var arts := plan.artifacts;
      staged := [[], [], [], []];
      var i := 0;
      while i < |arts|
        invariant i <= |arts| && |staged| == 4
        invariant forall p :: 0 <= p < 4 ==> staged[p] == InPhase(arts[..i], p)
      {
        var phase := Phase(arts[i]);
        assert arts[..i + 1] == arts[..i] + [arts[i]];
        forall p | 0 <= p < 4 ensures InPhase(arts[..i + 1], p) == InPhase(arts[..i], p) + (if p == phase then [arts[i]] else []) {
          InPhaseAppend(arts[..i], [arts[i]], p);
          InPhaseOne(arts[i]);
        }
        staged := staged[phase := staged[phase] + [arts[i]]];
        i := i + 1;
      }
      assert arts[..i] == arts;
    }

    /** Publish one phase; `done` is how many of its artifacts took effect, and `stuck`
        tells that a failed preparation left its file in the next slot. */
    method PublishPhase(plan: Plan, arts: seq<Artifact>, start: nat, live: set<nat>)
      returns (error: Option<Code>, done: nat, slot: nat, occupied: set<nat>, ghost stuck: bool)
      requires Valid() && Accounted(slots, stages.Keys, live, start, false)
      modifies this`disk, this`slots, this`stages, this`calls
      ensures Valid() && Accounted(slots, stages.Keys, occupied, slot, stuck)
      ensures PhaseEnded(plan, arts, start, old(disk), disk, error, done, slot, faults, old(calls), calls, stuck)
      ensures error.None? && old(stages).Keys == live ==> occupied == stages.Keys
    {
      done, slot, error, occupied, stuck := 0, start, None, live, false;
      assert Puts(arts[..0]) == [];
      while done < |arts|
        invariant Valid() && calls >= old(calls)
        invariant done <= |arts| && error.None? && !stuck && slot <= start + done
        invariant Run(old(disk), Puts(arts[..done]), plan.receipt) == Result.Ok(disk)
        invariant Accounted(slots, stages.Keys, occupied, slot, false)
        invariant old(stages).Keys == live ==> occupied == stages.Keys
      {
        AccountedAll(slots, stages.Keys, occupied, slot, false);
        hide Accounted, SlotUsed, Perform, Run, Puts;
        ghost var before, from, was, held, marked := disk, calls, slots, stages.Keys, occupied;
        var r := PublishOne(plan.receipt, arts[done], slot, LimitExceeded);
        PutNext(old(disk), arts, done, plan.receipt, before);
        stuck := !r.prepared && calls > from && faults(from).After?;
        AccountedNext(was, held, marked, slots, stages.Keys, slot, r, stuck);
        if r.performed { done := done + 1; }
        if r.occupied { occupied := occupied + {slot}; }
        if r.prepared { slot := slot + 1; }
        if r.error.Some? { return r.error, done, slot, occupied, stuck; }
      }
      assert arts[..done] == arts;
    }

    /** One phase, and after the posts the barrier deletion. The apply began with the
        disk `d0` at call `from`, and `soon` of its actions are done. */
    method TakePhase(plan: Plan, phase: nat, arts: seq<Artifact>, soon: nat, start: nat, live: set<nat>, ghost d0: Disk, ghost from: nat)
      returns (error: Option<Code>, done: nat, slot: nat, occupied: set<nat>, ghost stuck: bool)
      requires phase < 4 && arts == InPhase(plan.artifacts, phase) && Valid() && live == stages.Keys
      requires Accounted(slots, stages.Keys, live, start, false)
      requires Phased(plan, phase, soon, d0, disk, start, None, faults, from, calls, false)
      modifies this`disk, this`slots, this`stages, this`calls
      ensures Valid() && Accounted(slots, stages.Keys, occupied, slot, stuck) && (error.None? ==> occupied == stages.Keys)
      ensures Phased(plan, phase + 1, done, d0, disk, slot, error, faults, from, calls, stuck)
    {
      hide InPhase, Puts, Drops, Run, Accounted, PhaseEnded, Phased, PostsPhased;
      ghost var before, was := disk, calls;
      error, done, slot, occupied, stuck := PublishPhase(plan, arts, start, live);
      PhaseAdvances(plan, phase, soon, d0, before, disk, start, done, slot, error, faults, from, was, calls, stuck);
      done := soon + done;
      if phase == 2 && error.None? {
        ghost var posted, mid := disk, calls;
        var dropped;
        error, dropped := RemoveBarrierPost(plan.receipt);
        DropsAdvance(plan, done, d0, posted, disk, slot, error, dropped, faults, from, mid, calls);
        if dropped { done := done + |Drops(plan.receipt.entries)|; }
      }
    }

    /** The four phases and the barrier deletion, up to the first failure. */
    method PublishPhases(plan: Plan) returns (error: Option<Code>, done: nat, occupied: set<nat>, ghost stuck: bool)
      requires Valid() && slots == {}
      modifies this
      ensures Valid() && calls >= old(calls)
      ensures done <= |Actions(plan)| && Run(old(disk), Actions(plan)[..done], plan.receipt) == Result.Ok(disk)
      ensures error.None? ==> done == |Actions(plan)| && occupied == stages.Keys
      ensures stages.Keys <= occupied && (slots == stages.Keys <==> !stuck)
      ensures stuck ==> error.Some? && calls > old(calls) && faults(calls - 1).After?
      ensures Unhindered(plan, old(disk), faults, old(calls)) ==> error.None?
    {
      var staged := SortPhases(plan);
      var slot: nat := 0;
      var phase := 0;
      done, error, occupied, stuck := 0, None, {}, false;
      AtStart(plan, disk, faults, calls);
      NothingHeld(slots);
      hide InPhase, Actions, Run, Accounted, Phased, Unhindered;
      while phase < 4 && error.None?
        invariant phase <= 4 && Valid() && Accounted(slots, stages.Keys, occupied, slot, stuck) && (error.None? ==> occupied == stages.Keys)
        invariant Phased(plan, phase, done, old(disk), disk, slot, error, faults, old(calls), calls, stuck)
        decreases 4 - phase, error.None?
      {
        PhaseGoes(plan, phase, done, old(disk), disk, slot, faults, old(calls), calls, stuck);
        error, done, slot, occupied, stuck := TakePhase(plan, phase, staged[phase], done, slot, occupied, old(disk), old(calls));
        phase := phase + 1;
      }
      AtEnd(plan, phase, done, old(disk), disk, slot, error, faults, old(calls), calls, stuck);
      AccountedAll(slots, stages.Keys, occupied, slot, stuck);
    }

    /** Apply one plan in the effect order. Whatever stops it, the disk is exactly
        the first `done` actions of the plan. A staging file stays exactly when a failed
        preparation left it there (`stuck`) or one of the removals, which are the calls
        from `begun` on, failed before its unlink; and then the apply reports an error. */
    method Apply(plan: Plan) returns (error: Option<Code>, done: nat, failed: set<nat>, ghost begun: nat, ghost stuck: bool)
      requires Valid() && slots == {}
      modifies this
      ensures Valid() && stages == map[]
      ensures done <= |Actions(plan)| && Run(old(disk), Actions(plan)[..done], plan.receipt) == Result.Ok(disk)
      ensures error.None? ==> done == |Actions(plan)| && slots == {}
      ensures old(calls) <= begun <= calls && (failed != {} ==> error.Some?)
      ensures slots != {} <==> stuck || exists n: nat :: begun <= n < calls && faults(n).Before?
      ensures stuck ==> error.Some? && begun > old(calls) && faults(begun - 1).After?
      ensures Unhindered(plan, old(disk), faults, old(calls)) ==> error.None?
    {
      hide Actions, Run;
      var occupied;
      error, done, occupied, stuck := PublishPhases(plan);
      begun := calls;
      ghost var order;
      failed, order := Cleanup(occupied);
      if failed != {} && error.None? { error := Some(SessionFault); }
    }

    /** The barrier deletion of an UNPAUSE, between the posts and the head. */
    method RemoveBarrierPost(rc: ReceiptDoc) returns (error: Option<Code>, done: bool)
      modifies this`disk, this`calls
      ensures calls >= old(calls)
      ensures done ==> Run(old(disk), Drops(rc.entries), rc) == Result.Ok(disk)
      ensures !done ==> disk == old(disk)
      ensures error.None? ==> done
      ensures CleanFrom(faults, old(calls)) && Run(old(disk), Drops(rc.entries), rc).Ok? ==> error.None?
    {
      var i := 0;
      while i < |rc.entries|
        invariant i <= |rc.entries| && disk == old(disk) && calls == old(calls)
        invariant Drops(rc.entries) == Drops(rc.entries[i..])
      {
        var e := rc.entries[i];
        assert rc.entries[i..][0] == e && rc.entries[i..][1..] == rc.entries[i + 1..];
        if Deletes(e) && e.pre.Some? {
          var ok, performed := RemoveBarrier(e.pre.value);
          assert Drops(rc.entries)[1..] == [];
          return if ok then None else Some(SessionFault), performed;
        }
        i := i + 1;
      }
      return None, true;
    }

    // ----- redo -----

    /** One post entry of a pending receipt, from the bytes the receipt gives it. */
    method RedoOne(rc: ReceiptDoc, e: Entry, slot: nat) returns (r: Published)
      requires Valid() && slot !in slots
      modifies this`disk, this`slots, this`stages, this`calls
      ensures Valid()
      ensures EntryRedone(rc, e, old(disk), disk, slot, r, faults, old(calls), calls)
      ensures SlotUsed(old(slots), old(stages).Keys, slots, stages.Keys, slot, r, !r.prepared && calls > old(calls) && faults(old(calls)).After?)
    {
      if Deletes(e) { return Published(Some(Unsupported), false, false, false); }
      var raw := PostBytes(disk, e);
      if raw.Err? { return Published(Some(raw.code), false, false, false); }
      hide Perform;
      r := PublishOne(rc, Artifact(POST, e.path, raw.value), slot, SessionFault);
    }

    /** The loop of a redo over the posts, up to the first failure. A slot is prepared
        for each entry written, so the calls go by pairs. */
    method PublishAgain(rc: ReceiptDoc) returns (error: Option<Code>, done: nat, occupied: set<nat>, ghost stuck: bool)
      requires Valid() && slots == {}
      modifies this
      ensures Valid() && calls >= old(calls)
      ensures done <= |rc.entries| && RedoEntries(old(disk), rc.entries[..done], rc) == Result.Ok(disk)
      ensures error.None? ==> done == |rc.entries| && calls == old(calls) + 2 * Writes(old(disk), rc.entries, rc)
      ensures error.None? <==>
        && RedoEntries(old(disk), rc.entries, rc).Ok? && Writes(old(disk), rc.entries, rc) <= LAST_SLOT + 1
        && CleanBetween(faults, old(calls), calls)
      ensures stages.Keys <= occupied && (slots == stages.Keys <==> !stuck)
      ensures stuck <==> (calls - old(calls)) % 2 == 1 && faults(calls - 1).After?
      ensures RedoEntries(old(disk), rc.entries, rc).Ok? ==> calls <= old(calls) + 2 * Writes(old(disk), rc.entries, rc)
      ensures calls == old(calls) ==> stages == map[]
    {
      var slot: nat := 0;
      done, error, occupied, stuck := 0, None, {}, false;
      RedoStarts(rc, disk, faults, calls);
      NothingHeld(slots);
      hide Republished, EntryRedone, Accounted, SlotUsed, RedoEntries, Writes, CleanBetween;
      while done < |rc.entries| && error.None?
        invariant Valid() && Accounted(slots, stages.Keys, occupied, slot, stuck)
        invariant done <= |rc.entries| && Republished(rc, old(disk), done, disk, slot, error, faults, old(calls), calls, stuck)
        decreases |rc.entries| - done, error.None?
      {
        ghost var before, from, was, held, marked, used := disk, calls, slots, stages.Keys, occupied, slot;
        RedoGoes(rc, old(disk), done, disk, slot, faults, old(calls), calls, stuck);
        AccountedAll(slots, stages.Keys, occupied, slot, stuck);
        var r := RedoOne(rc, rc.entries[done], slot);
        stuck := !r.prepared && calls > from && faults(from).After?;
        AccountedNext(was, held, marked, slots, stages.Keys, slot, r, stuck);
        RedoAdvances(rc, old(disk), done, before, disk, slot, r, faults, old(calls), from, calls);
        if r.performed { done := done + 1; }
        if r.occupied { occupied := occupied + {slot}; }
        if r.prepared { slot := slot + 1; }
        error := r.error;
      }
      AccountedAll(slots, stages.Keys, occupied, slot, stuck);
      RedoEnds(rc, old(disk), done, disk, slot, error, faults, old(calls), calls, stuck);
    }

    /** Republish every post of a pending receipt; a deletion is refused. A slot that
        cannot be removed afterwards is not an error here. The calls up to `begun`
        publish, the others remove. */
    method RedoPosts(rc: ReceiptDoc) returns (error: Option<Code>, done: nat, ghost begun: nat)
      requires Valid() && slots == {}
      modifies this
      ensures Valid() && old(calls) <= begun <= calls
      ensures done <= |rc.entries| && RedoEntries(old(disk), rc.entries[..done], rc) == Result.Ok(disk)
      ensures error.None? ==> done == |rc.entries| && begun == old(calls) + 2 * Writes(old(disk), rc.entries, rc)
      ensures error.None? <==>
        && RedoEntries(old(disk), rc.entries, rc).Ok? && Writes(old(disk), rc.entries, rc) <= LAST_SLOT + 1
        && CleanBetween(faults, old(calls), begun)
      ensures RedoEntries(old(disk), rc.entries, rc).Ok? ==> begun <= old(calls) + 2 * Writes(old(disk), rc.entries, rc)
      ensures begun == old(calls) ==> calls == begun
      ensures slots != {} <==> PostsLeaveSlot(faults, old(calls), begun, calls)
    {
      hide RedoEntries, Writes;
      var occupied;
      ghost var stuck;
      error, done, occupied, stuck := PublishAgain(rc);
      begun := calls;
      var failed;
      ghost var order;
      failed, order := Cleanup(occupied);
      assert order != [] ==> order[0] in order;
    }

    /** Write the head the pending receipt implies. The rename consumes the slot. One
        that fails, or finds the head written already, leaves it, and so does a
        preparation that could not clean up. */
    method AdvanceHeadFile(base: HeadDoc, rc: ReceiptDoc) returns (error: Option<Code>, performed: bool)
      requires Valid()
      modifies this
      ensures Valid() && calls > old(calls) && old(slots) <= slots
      ensures performed ==> disk == AdvanceHead(old(disk), base, rc)
      ensures !performed ==> disk == old(disk)
      ensures error.None? <==> 0 !in old(slots) && CleanBetween(faults, old(calls), old(calls) + 2)
      ensures error.None? ==> performed
      ensures performed ==> faults(old(calls)).Clean? && !faults(old(calls) + 1).Before?
      ensures old(slots) == {} && Path.Head in old(disk) ==>
        (slots != {} <==> HeadLeavesSlot(faults, old(calls)) || (faults(old(calls)).Clean? && old(disk)[Path.Head] == HeadFile(HeadAfter(base, rc))))
      ensures old(slots) == {} && Path.Head !in old(disk) ==>
        (slots != {} <==> faults(old(calls)).After? || (faults(old(calls)).Clean? && faults(old(calls) + 2).Before?))
    {
      var raw := HeadFile(HeadAfter(base, rc));
      var current := DigestAt(disk, Path.Head);
      var staged := Prepare(0, raw);
      if !staged { return Some(SessionFault), false; }
      assert old(slots) + {0} - {0} == old(slots);
      var ok;
      if current.None? {
        ok, performed := Link(0, Path.Head);
        var _ := RemoveStage(0);
        return if ok then None else Some(SessionFault), performed;
      }
      ok, performed := Replace(0, Path.Head, current.value);
      if ok && !performed {
        assert AdvanceHead(disk, base, rc) == disk;
        performed := true;
      }
      return if ok then None else Some(SessionFault), performed;
    }

    /** The audit of the disk. A staging file that no descriptor assigns is refused
        before anything else is looked at. */
    method AuditStore(intent: bool, request: string) returns (f: Finding)
      ensures slots != {} ==> f.code == Some(Malformed)
      ensures f.code == None <==> slots == {} && Fits(disk, None, intent) && !IsPending(disk, HeadOf(disk).value)
      ensures f.code == Some(Code.RedoPending) <==> slots == {} && Fits(disk, None, intent) && IsPending(disk, HeadOf(disk).value)
      ensures f.agreement == Some(PRE_OR_POST) <==> f.code == Some(Code.RedoPending)
      ensures f.code == None ==> f.found == Recorded(disk, History(disk, Retained(disk, HeadOf(disk).value)), request)
    {
      if slots != {} { return Refusal(Malformed); }
      f := Walk(disk, None, intent, request);
    }

    /** Is there a receipt to redo? Exactly a validated PRE_OR_POST audit over empty
        staging authorizes it. */
    method PendingReceiptOf() returns (rc: Option<ReceiptDoc>, code: Option<Code>)
      ensures rc.Some? <==> PreOrPost(disk) && slots == {}
      ensures rc.Some? ==> ReceiptOf(disk, HeadOf(disk).value.lastSeq + 1) == rc && code.None?
      ensures PreOrPost(disk) && slots != {} ==> code == Some(Malformed)
      ensures rc.None? && code.None? ==> HeadOf(disk).Some? && !IsPending(disk, HeadOf(disk).value)
      ensures Agrees(disk) ==> rc.None? && code.None?
    {
      PendingReceipt(disk);
      AgreeingReceipts(disk);
      hide Fits;
      var head := HeadOf(disk);
      if head.None? { return None, Some(Malformed); }
      var base := head.value;
      if Receipt(base.lastSeq) !in disk || Sum(disk[Receipt(base.lastSeq)]) != base.lastReceipt { return None, Some(JournalForked); }
      if Receipt(base.lastSeq + 2) in disk { return None, Some(JournalForked); }
      if Receipt(base.lastSeq + 1) !in disk { return None, None; }
      var proof := AuditStore(true, "");
      if proof.code != Some(Code.RedoPending) || proof.agreement != Some(PRE_OR_POST) {
        return None, if proof.code.Some? then proof.code else Some(SnapshotMoved);
      }
      return ReceiptOf(disk, base.lastSeq + 1), None;
    }

    /** Complete a transaction whose receipt was linked and whose posts or head were
        not written. Whatever stops it, the disk is a prefix of that redo. The calls up
        to `begun` publish posts, those up to `ended` clear their slots, and the rest
        advance the head. */
    method RedoPending() returns (redone: bool, error: Option<Code>, done: nat, ghost begun: nat, ghost ended: nat)
      requires Valid()
      modifies this
      ensures Valid() && calls >= old(calls)
      ensures error.None? && !redone ==> disk == old(disk) && HeadOf(disk).Some? && !IsPending(disk, HeadOf(disk).value)
      ensures redone ==> error.None?
      ensures done == 0 ==> disk == old(disk)
      ensures !PreOrPost(old(disk)) || old(slots) != {} ==> done == 0 && !redone && slots == old(slots) && calls == old(calls)
      ensures PreOrPost(old(disk)) ==> RedoneTo(old(disk), disk, done, redone)
      ensures PreOrPost(old(disk)) && old(slots) != {} ==> error == Some(Malformed)
      ensures Agrees(old(disk)) ==> error.None?
      ensures PreOrPost(old(disk)) && old(slots) == {} ==>
        && old(calls) <= begun <= ended <= calls
        && (ended < calls <==> Redoable(old(disk)) && CleanBetween(faults, old(calls), begun))
        && (slots != {} <==> PostsLeaveSlot(faults, old(calls), begun, ended) || (ended < calls && HeadLeavesSlot(faults, ended)))
        && (HeadReached(old(disk), done) ==> faults(ended).Clean? && !faults(ended + 1).Before?)
        && (Redoable(old(disk)) && AllPosted(old(disk)) ==> begun == ended == old(calls))
      ensures CleanFrom(faults, old(calls)) && PreOrPost(old(disk)) && old(slots) == {} ==> slots == {} && (redone <==> Redoable(old(disk)))
    {
      hide PreOrPost, Agrees, Fits, RedoEntries, Writes, PostsLeaveSlot, HeadLeavesSlot, AdvanceHead;
      redone, done, begun, ended := false, 0, calls, calls;
      var rc;
      rc, error := PendingReceiptOf();
      NothingRedone(disk);
      if CleanFrom(faults, calls) { CleanLeavesNothing(faults, calls); }
      if error.Some? || rc.None? { return; }
      var base := HeadOf(disk).value;
      error, done, begun := RedoPosts(rc.value);
      ended := calls;
      assert rc.value.entries[..0] == [];
      if error.Some? { return; }
      assert rc.value.entries[..done] == rc.value.entries;
      var performed;
      PendingHead(old(disk), disk);
      error, performed := AdvanceHeadFile(base, rc.value);
      if performed { done := done + 1; }
      redone := error.None?;
    }

    // ----- one mutation -----

    /** The composed writer step: finish what is pending, answer a recorded request,
        audit, plan, and apply. `redo` is how the redo ended and `tx` the transaction
        that was planned after it, when one was. */
    method Mutate(q: Asked, planning: Disk -> Result<Planning>) returns (r: Report, ghost redo: Redo, ghost tx: Option<Tx>)
      requires Valid() && Addressed(disk)
      requires forall d :: planning(d).Ok? ==> PlannedPosts(q, planning(d).value.posts, planning(d).value.eff)
      modifies this
      ensures Valid()
      ensures if PreOrPost(old(disk)) then RedoneTo(old(disk), redo.disk, redo.done, redo.redone) else redo.disk == old(disk) && !redo.redone
      ensures redo.error.Some? ==> r == Stopped(redo.error.value) && tx.None? && !redo.redone
      ensures tx.None? ==> disk == redo.disk
      ensures tx.Some? ==> tx.value.q == q && tx.value.d0 == redo.disk && Answer(redo.disk, q.requestId).None? && Attempted(tx.value, disk)
      ensures ReportHolds(r, q, redo.disk, disk, tx)
      ensures redo.error.None? ==>
        (r.Replayed? || r.Conflict? <==> redo.slots == {} && Readable(redo.disk) && Answer(redo.disk, q.requestId).Some?)
      ensures old(slots) != {} ==> r.Stopped? && disk == old(disk) && slots == old(slots)
      ensures CleanFrom(faults, old(calls)) && old(slots) == {} ==>
        && redo.slots == {}
        && (PreOrPost(old(disk)) ==> (redo.redone <==> Redoable(old(disk))))
        && (Agrees(old(disk)) ==> redo.error.None?)
        && (redo.error.None? && Agrees(redo.disk) && Answer(redo.disk, q.requestId).None? && Freezes(q, redo.disk, planning) ==> r.Committed?)
    {
      hide Fits, PreOrPost, Agrees, Readable, Redoable, Freezes, RedoneTo, Answer, Attempted, CommittedAs;
      ghost var d0 := disk;
      var redone, stopped, count, _, _ := RedoPending();
      redo := Redo(disk, slots, count, redone, stopped);
      RedoneAddressed(d0, disk, count, redone);
      AgreeingReads(disk);
      if stopped.Some? {
        r, tx := Stopped(stopped.value), None;
      } else {
        var answer := Lookup(q);
        if answer.Some? {
          r, tx := answer.value, None;
        } else {
          r, tx := Commit(q, planning);
        }
      }
    }

    /** Plan over the audited store and apply the plan. */
    method Commit(q: Asked, planning: Disk -> Result<Planning>) returns (r: Report, ghost tx: Option<Tx>)
      requires Valid() && Addressed(disk)
      requires forall d :: planning(d).Ok? ==> PlannedPosts(q, planning(d).value.posts, planning(d).value.eff)
      modifies this
      ensures Valid()
      ensures r.Stopped? || r.Committed?
      ensures tx.None? ==> disk == old(disk) && slots == old(slots) && r.Stopped?
      ensures tx.Some? <==> old(slots) == {} && Agrees(old(disk)) && Freezes(q, old(disk), planning)
      ensures tx.Some? ==> tx.value.q == q && tx.value.d0 == old(disk) && Attempted(tx.value, disk)
      ensures r.Committed? ==> CommittedAs(r, tx.value, disk) && slots == {}
      ensures tx.Some? && CleanFrom(faults, old(calls)) ==> r.Committed?
    {
      var plan, code;
      code, plan, tx := PlanOver(q, planning);
      if code.Some? { return Stopped(code.value), None; }
      PlanRuns(tx.value);
      var error, done, _, _, _ := Apply(plan);
      AttemptedPrefix(tx.value, done, disk);
      if error.Some? { return Stopped(error.value), tx; }
      CommittedPlan(tx.value, done, disk);
      r := Committed(plan.receipt.seqNo);
    }

    /** Answer a request the journal already records, planning nothing. Every settled
        store is answered for; whatever else stops the lookup. */
    method Lookup(q: Asked) returns (r: Option<Report>)
      ensures slots == {} && Readable(disk) ==> (r.None? <==> Answer(disk, q.requestId).None?)
      ensures r.Some? && r.value.Stopped? <==> !(slots == {} && Readable(disk))
      ensures slots != {} ==> r == Some(Stopped(Malformed))
      ensures r.Some? ==>
        match r.value
        case Stopped(_) => true
        case Conflict => Answer(disk, q.requestId).Some? && Answer(disk, q.requestId).value.mutation != q.mutation
        case Replayed(out) => Answer(disk, q.requestId).Some? && Answer(disk, q.requestId).value.mutation == q.mutation
                              && out == Answer(disk, q.requestId).value.outcome.(replayed := true)
        case Committed(_) => false
    {
      var f := AuditStore(false, q.requestId);
      if f.code.Some? { return Some(Stopped(f.code.value)); }
      if f.found.None? { return None; }
      if f.found.value.mutation != q.mutation { return Some(Conflict); }
      return Some(Replayed(f.found.value.outcome.(replayed := true)));
    }

    /** Audit the store and freeze a plan over it. */
    method PlanOver(q: Asked, planning: Disk -> Result<Planning>) returns (code: Option<Code>, plan: Plan, ghost tx: Option<Tx>)
      requires Addressed(disk)
      requires forall d :: planning(d).Ok? ==> PlannedPosts(q, planning(d).value.posts, planning(d).value.eff)
      ensures code.None? ==> tx.Some? && Planned(tx.value, None) && tx.value.q == q && tx.value.d0 == disk && tx.value.plan == plan
      ensures code.None? ==> slots == {} && plan.receipt.seqNo == tx.value.base.lastSeq + 1
      ensures code.None? <==> Agrees(disk) && slots == {} && Freezes(q, disk, planning)
      ensures code.None? ==> Freeze(q, disk, HeadOf(disk).value, planning(disk).value.posts, planning(disk).value.eff) == Result.Ok(plan)
    {
      tx, plan := None, Plan([], ReceiptDoc(0, None, "", None, None, 0, [], "", []), HeadDoc("", 0, Sum(Raw("")), 0, Sum(Raw("")), "", Sum(Raw(""))));
      var audit := AuditStore(true, "");
      if audit.code.Some? { return audit.code, plan, tx; }
      var base := HeadOf(disk).value;
      if q.queueId != base.queueId { return Some(Malformed), plan, tx; }
      var planned := planning(disk);
      if planned.Err? { return Some(planned.code), plan, tx; }
      var frozen := Freeze(q, disk, base, planned.value.posts, planned.value.eff);
      if frozen.Err? { return Some(frozen.code), plan, tx; }
      plan := frozen.value;
      tx := Some(Tx(q, disk, base, planned.value.posts, planned.value.eff, plan));
      PlannedFrozen(tx.value, None);
      code := None;
    }
  }
}
