/** How far an apply or a redo has got: the actions of the phases before this one, the
    entries already republished, and what stands in the way of the rest. */
module Progress {
  import opened Wrappers
  import opened Documents
  import opened Publication
  import opened Staging

  // ----- the phases of an apply -----

  function ActionsBefore(p: Plan, phase: nat): seq<Action> {
    (if phase > 0 then Puts(InPhase(p.artifacts, 0)) else [])
    + (if phase > 1 then Puts(InPhase(p.artifacts, 1)) else [])
    + (if phase > 2 then Puts(InPhase(p.artifacts, 2)) + Drops(p.receipt.entries) else [])
    + (if phase > 3 then Puts(InPhase(p.artifacts, 3)) else [])
  }

  lemma PartPrefix<T>(a: seq<T>, xs: seq<T>, j: nat, all: seq<T>)
    requires a + xs <= all && j <= |xs|
    ensures a + xs[..j] <= all
  {
    assert a + xs == (a + xs[..j]) + xs[j..];
  }

  lemma NextPhase(p: Plan, phase: nat)
    requires phase < 4
    ensures ActionsBefore(p, phase + 1) ==
      ActionsBefore(p, phase) + Puts(InPhase(p.artifacts, phase)) + if phase == 2 then Drops(p.receipt.entries) else []
    ensures ActionsBefore(p, phase + 1) <= Actions(p)
  {
    hide InPhase, Puts, Drops;
  }

  lemma RunPart(d: Disk, xs: seq<Action>, all: seq<Action>, rc: ReceiptDoc)
    requires xs <= all && Run(d, all, rc).Ok?
    ensures Run(d, xs, rc).Ok?
  {
    assert all == xs + all[|xs|..];
    RunSplit(d, xs, all[|xs|..], rc);
  }

  lemma RunJoin(d0: Disk, xs: seq<Action>, d: Disk, ys: seq<Action>, d': Disk, all: seq<Action>, rc: ReceiptDoc)
    requires Run(d0, xs, rc) == Result.Ok(d) && Run(d, ys, rc) == Result.Ok(d') && xs + ys <= all
    ensures Run(d0, xs + ys, rc) == Result.Ok(d')
    ensures all[..|xs| + |ys|] == xs + ys
  {
    RunSplit(d0, xs, ys, rc);
  }

  /** A put that does not change the disk was not published at all. */
  lemma SkipsExactly(d: Disk, a: Artifact, rc: ReceiptDoc)
    ensures Perform(d, Put(a), rc) == Result.Ok(d) <==> Decide(d, a, PreOf(rc.entries, a.target)) == Result.Ok(Skip)
  {
    assert a.target !in d ==> a.target in d[a.target := a.data];
    assert a.target in d && Sum(d[a.target]) != Sum(a.data) ==> d[a.target := a.data][a.target] != d[a.target];
  }

  /** One more put of a phase. */
  lemma PutNext(d0: Disk, arts: seq<Artifact>, k: nat, rc: ReceiptDoc, d: Disk)
    requires k < |arts| && Run(d0, Puts(arts[..k]), rc) == Result.Ok(d)
    ensures Run(d0, Puts(arts[..k + 1]), rc) == Perform(d, Put(arts[k]), rc)
    ensures Run(d0, Puts(arts), rc).Ok? ==> Perform(d, Put(arts[k]), rc).Ok?
  {
    hide Perform;
    assert Puts(arts[..k + 1]) == Puts(arts[..k]) + [Put(arts[k])];
    RunSplit(d0, Puts(arts[..k]), [Put(arts[k])], rc);
    assert [Put(arts[k])][1..] == [];
    if Run(d0, Puts(arts), rc).Ok? {
      assert Puts(arts) == Puts(arts[..k + 1]) + Puts(arts[k + 1..]);
      RunPart(d0, Puts(arts[..k + 1]), Puts(arts), rc);
    }
  }

  /** The artifacts of a plan are those of its four phases. */
  lemma {:induction false} PhaseSizes(arts: seq<Artifact>)
    ensures |InPhase(arts, 0)| + |InPhase(arts, 1)| + |InPhase(arts, 2)| + |InPhase(arts, 3)| == |arts|
  {
    if arts != [] { PhaseSizes(arts[1..]); }
  }

  function ToCome(arts: seq<Artifact>, phase: nat): nat {
    (if phase <= 0 then |InPhase(arts, 0)| else 0) + (if phase <= 1 then |InPhase(arts, 1)| else 0)
    + (if phase <= 2 then |InPhase(arts, 2)| else 0) + (if phase <= 3 then |InPhase(arts, 3)| else 0)
  }

  lemma PhaseDone(arts: seq<Artifact>, phase: nat)
    requires phase < 4
    ensures ToCome(arts, phase) == |InPhase(arts, phase)| + ToCome(arts, phase + 1)
    ensures ToCome(arts, phase + 1) >= 0
  {
  }

  /** The disk is what the first `done` actions of the plan make of `d0`. */
  ghost predicate Done(p: Plan, done: nat, d0: Disk, d: Disk) {
    done <= |Actions(p)| && Run(d0, Actions(p)[..done], p.receipt) == Result.Ok(d)
  }

  /** And those are the actions of the phases before this one. */
  ghost predicate AtPhase(p: Plan, phase: nat, done: nat, d0: Disk, d: Disk) {
    done == |ActionsBefore(p, phase)| && Run(d0, ActionsBefore(p, phase), p.receipt) == Result.Ok(d)
  }

  /** The posts are published, and the barrier deletion is next. */
  ghost predicate PostsDone(p: Plan, done: nat, d0: Disk, d: Disk) {
    && done == |ActionsBefore(p, 2) + Puts(InPhase(p.artifacts, 2))|
    && Run(d0, ActionsBefore(p, 2) + Puts(InPhase(p.artifacts, 2)), p.receipt) == Result.Ok(d)
  }

  /** The phase's own prefix, published from where the phases before it ended. */
  lemma PhasePart(p: Plan, phase: nat, done: nat, d0: Disk, d: Disk, some: nat, d': Disk)
    requires phase < 4 && AtPhase(p, phase, done, d0, d) && some <= |InPhase(p.artifacts, phase)|
    requires Run(d, Puts(InPhase(p.artifacts, phase)[..some]), p.receipt) == Result.Ok(d')
    ensures Done(p, done + some, d0, d')
    ensures some == |InPhase(p.artifacts, phase)| && phase != 2 ==> AtPhase(p, phase + 1, done + some, d0, d')
    ensures some == |InPhase(p.artifacts, phase)| && phase == 2 ==> PostsDone(p, done + some, d0, d')
  {
    hide InPhase, Drops, Actions, ActionsBefore, Run;
    var arts := InPhase(p.artifacts, phase);
    var xs, ys := ActionsBefore(p, phase), Puts(arts);
    NextPhase(p, phase);
    assert Puts(arts[..some]) == ys[..some];
    assert xs + ys <= Actions(p) by { assert xs + ys <= ActionsBefore(p, phase + 1); }
    PartPrefix(xs, ys, some, Actions(p));
    RunJoin(d0, xs, d, ys[..some], d', Actions(p), p.receipt);
    assert ys[..|ys|] == ys && xs + ys + [] == xs + ys;
  }

  lemma DropsPart(p: Plan, done: nat, d0: Disk, d: Disk, d': Disk)
    requires PostsDone(p, done, d0, d) && Run(d, Drops(p.receipt.entries), p.receipt) == Result.Ok(d')
    ensures Done(p, done + |Drops(p.receipt.entries)|, d0, d') && AtPhase(p, 3, done + |Drops(p.receipt.entries)|, d0, d')
  {
    hide InPhase, Puts, Drops, Actions, ActionsBefore, Run;
    NextPhase(p, 2);
    RunJoin(d0, ActionsBefore(p, 2) + Puts(InPhase(p.artifacts, 2)), d, Drops(p.receipt.entries), d', Actions(p), p.receipt);
  }

  /** Nothing is in the way of the plan: no fault, slots for all its artifacts, and no
      action of it that refuses. */
  ghost predicate Unhindered(p: Plan, d0: Disk, faults: nat -> Fault, from: nat) {
    CleanFrom(faults, from) && |p.artifacts| <= LAST_SLOT + 1 && Run(d0, Actions(p), p.receipt).Ok?
  }

  /** Where nothing is in the way of the plan, nothing is in the way of its phases. */
  lemma PhaseRoom(p: Plan, phase: nat, done: nat, d0: Disk, d: Disk, faults: nat -> Fault, from: nat, now: nat, slot: nat)
    requires phase < 4 && AtPhase(p, phase, done, d0, d) && from <= now && slot + ToCome(p.artifacts, phase) <= |p.artifacts|
    ensures Unhindered(p, d0, faults, from) ==>
      && CleanFrom(faults, now) && slot + |InPhase(p.artifacts, phase)| <= LAST_SLOT + 1
      && Run(d, Puts(InPhase(p.artifacts, phase)), p.receipt).Ok?
  {
    if Unhindered(p, d0, faults, from) {
      hide InPhase, Puts, Drops, Actions, ActionsBefore, Run;
      var xs, ys := ActionsBefore(p, phase), Puts(InPhase(p.artifacts, phase));
      NextPhase(p, phase);
      assert xs + ys <= Actions(p) by { assert xs + ys <= ActionsBefore(p, phase + 1); }
      RunPart(d0, xs + ys, Actions(p), p.receipt);
      RunSplit(d0, xs, ys, p.receipt);
    }
  }

  lemma DropsRoom(p: Plan, done: nat, d0: Disk, d: Disk, faults: nat -> Fault, from: nat, now: nat)
    requires PostsDone(p, done, d0, d) && from <= now
    ensures Unhindered(p, d0, faults, from) ==> CleanFrom(faults, now) && Run(d, Drops(p.receipt.entries), p.receipt).Ok?
  {
    if Unhindered(p, d0, faults, from) {
      hide InPhase, Puts, Drops, Actions, ActionsBefore, Run;
      NextPhase(p, 2);
      RunPart(d0, ActionsBefore(p, 3), Actions(p), p.receipt);
      RunSplit(d0, ActionsBefore(p, 2) + Puts(InPhase(p.artifacts, 2)), Drops(p.receipt.entries), p.receipt);
    }
  }

  // ----- an apply between two phases -----

  /** How one phase ended: `done` of its artifacts took effect, and `slot` is the next
      free slot. */
  ghost predicate PhaseEnded(p: Plan, arts: seq<Artifact>, start: nat, d: Disk, d': Disk, error: Option<Code>, done: nat, slot: nat,
                             faults: nat -> Fault, from: nat, to: nat, stuck: bool) {
    && from <= to && done <= |arts| && Run(d, Puts(arts[..done]), p.receipt) == Result.Ok(d')
    && (error.None? ==> done == |arts| && slot <= start + |arts|)
    && (stuck ==> error.Some? && to > from && faults(to - 1).After?)
    && (CleanFrom(faults, from) && start + |arts| <= LAST_SLOT + 1 && Run(d, Puts(arts), p.receipt).Ok? ==> error.None?)
  }

  /** An apply before this phase, or after the failure that stopped it. */
  ghost predicate Phased(p: Plan, phase: nat, done: nat, d0: Disk, d: Disk, slot: nat, error: Option<Code>,
                         faults: nat -> Fault, from: nat, to: nat, stuck: bool) {
    && from <= to && Done(p, done, d0, d)
    && (error.None? ==> AtPhase(p, phase, done, d0, d) && slot + ToCome(p.artifacts, phase) <= |p.artifacts| && !stuck)
    && (stuck ==> error.Some? && to > from && faults(to - 1).After?)
    && (Unhindered(p, d0, faults, from) ==> error.None?)
  }

  /** The same between the posts and the barrier deletion. */
  ghost predicate PostsPhased(p: Plan, done: nat, d0: Disk, d: Disk, slot: nat, faults: nat -> Fault, from: nat, to: nat) {
    from <= to && Done(p, done, d0, d) && PostsDone(p, done, d0, d) && slot + ToCome(p.artifacts, 3) <= |p.artifacts|
  }

  lemma AtStart(p: Plan, d: Disk, faults: nat -> Fault, from: nat)
    ensures Phased(p, 0, 0, d, d, 0, None, faults, from, from, false)
  {
    hide InPhase, Puts, Drops, Actions;
    PhaseSizes(p.artifacts);
    assert Actions(p)[..0] == [];
  }

  lemma AtEnd(p: Plan, phase: nat, done: nat, d0: Disk, d: Disk, slot: nat, error: Option<Code>, faults: nat -> Fault, from: nat, to: nat, stuck: bool)
    requires Phased(p, phase, done, d0, d, slot, error, faults, from, to, stuck)
    requires phase == 4 || error.Some?
    ensures from <= to && done <= |Actions(p)| && Run(d0, Actions(p)[..done], p.receipt) == Result.Ok(d)
    ensures error.None? ==> done == |Actions(p)|
    ensures stuck ==> error.Some? && to > from && faults(to - 1).After?
    ensures Unhindered(p, d0, faults, from) ==> error.None?
  {
    hide InPhase, Puts, Drops, Run, Unhindered;
  }

  lemma PhaseGoes(p: Plan, phase: nat, done: nat, d0: Disk, d: Disk, slot: nat, faults: nat -> Fault, from: nat, to: nat, stuck: bool)
    requires Phased(p, phase, done, d0, d, slot, None, faults, from, to, stuck)
    ensures !stuck && Phased(p, phase, done, d0, d, slot, None, faults, from, to, false)
  {
  }

  lemma PhaseAdvances(p: Plan, phase: nat, done: nat, d0: Disk, d: Disk, d': Disk, start: nat, some: nat, slot: nat, error: Option<Code>,
                      faults: nat -> Fault, from: nat, mid: nat, to: nat, stuck: bool)
    requires phase < 4 && Phased(p, phase, done, d0, d, start, None, faults, from, mid, false)
    requires PhaseEnded(p, InPhase(p.artifacts, phase), start, d, d', error, some, slot, faults, mid, to, stuck)
    ensures error.Some? || phase != 2 ==> Phased(p, phase + 1, done + some, d0, d', slot, error, faults, from, to, stuck)
    ensures error.None? && phase == 2 ==> PostsPhased(p, done + some, d0, d', slot, faults, from, to) && !stuck
  {
    hide InPhase, Puts, Drops, Actions, ActionsBefore, Run, Done, AtPhase, PostsDone, Unhindered, ToCome;
    PhaseRoom(p, phase, done, d0, d, faults, from, mid, start);
    PhasePart(p, phase, done, d0, d, some, d');
    PhaseDone(p.artifacts, phase);
  }

  lemma DropsAdvance(p: Plan, done: nat, d0: Disk, d: Disk, d': Disk, slot: nat, error: Option<Code>, dropped: bool,
                     faults: nat -> Fault, from: nat, mid: nat, to: nat)
    requires PostsPhased(p, done, d0, d, slot, faults, from, mid) && mid <= to
    requires if dropped then Run(d, Drops(p.receipt.entries), p.receipt) == Result.Ok(d') else d' == d
    requires error.None? ==> dropped
    requires CleanFrom(faults, mid) && Run(d, Drops(p.receipt.entries), p.receipt).Ok? ==> error.None?
    ensures Phased(p, 3, if dropped then done + |Drops(p.receipt.entries)| else done, d0, d', slot, error, faults, from, to, false)
  {
    hide InPhase, Puts, Drops, Actions, ActionsBefore, Run, Done, AtPhase, PostsDone, Unhindered, ToCome;
    DropsRoom(p, done, d0, d, faults, from, mid);
    if dropped { DropsPart(p, done, d0, d, d'); }
  }

  // ----- a redo between two entries -----

  /** How many entries a redo finds unsettled, and therefore stages. */
  function Writes(d: Disk, es: seq<Entry>, rc: ReceiptDoc): nat
    decreases |es|
  {
    if es == [] then 0
    else match RedoEntry(d, es[0], rc)
      case Err(_) => 0
      case Ok(d') => (if d' == d then 0 else 1) + Writes(d', es[1..], rc)
  }

  lemma {:induction false} RedoOneMore(d0: Disk, es: seq<Entry>, e: Entry, rc: ReceiptDoc)
    ensures RedoEntries(d0, es + [e], rc) ==
      (match RedoEntries(d0, es, rc) case Err(c) => Err(c) case Ok(d) => RedoEntry(d, e, rc))
    ensures Writes(d0, es + [e], rc) == Writes(d0, es, rc) +
      (match RedoEntries(d0, es, rc)
       case Err(_) => 0
       case Ok(d) => match RedoEntry(d, e, rc) case Err(_) => 0 case Ok(d') => if d' == d then 0 else 1)
    decreases |es|
  {
    if es == [] {
      assert es + [e] == [e] && [e][1..] == [];
    } else {
      assert (es + [e])[0] == es[0] && (es + [e])[1..] == es[1..] + [e];
      match RedoEntry(d0, es[0], rc)
      case Err(_) =>
      case Ok(d) => RedoOneMore(d, es[1..], e, rc);
    }
  }

  /** Where a redo stops early, the whole redo fails, or writes at least as much. */
  lemma {:induction false} RedoPart(d: Disk, es: seq<Entry>, k: nat, rc: ReceiptDoc)
    requires k <= |es|
    ensures RedoEntries(d, es[..k], rc).Err? ==> RedoEntries(d, es, rc).Err?
    ensures Writes(d, es[..k], rc) <= Writes(d, es, rc) <= |es|
    decreases |es|
  {
    if es != [] {
      match RedoEntry(d, es[0], rc)
      case Err(_) =>
      case Ok(m) =>
        RedoPart(m, es[1..], if k == 0 then 0 else k - 1, rc);
        if k > 0 { assert es[..k][1..] == es[1..][..k - 1]; }
    }
  }

  /** One entry of a redo: it succeeds exactly when it can be redone, a slot is left
      for it, and no call fails; and only an unsettled entry takes calls at all. */
  ghost predicate EntryRedone(rc: ReceiptDoc, e: Entry, d: Disk, d': Disk, slot: nat, r: Published, faults: nat -> Fault, from: nat, to: nat) {
    && from <= to
    && (if r.performed then RedoEntry(d, e, rc) == Result.Ok(d') else d' == d)
    && (r.error.None? <==>
          && RedoEntry(d, e, rc).Ok? && (RedoEntry(d, e, rc).value != d ==> slot <= LAST_SLOT)
          && CleanBetween(faults, from, to))
    && (r.error.None? ==> r.performed && (r.prepared <==> d' != d))
    && (r.occupied ==> r.prepared)
    && (if r.prepared then to == from + 2 && faults(from).Clean? && slot <= LAST_SLOT else to <= from + 1)
    && (!r.prepared && to > from ==> r.error.Some?)
    && (to > from && RedoEntry(d, e, rc).Ok? ==> RedoEntry(d, e, rc).value != d)
  }

  /** A redo after `done` entries, `slot` of which were written; on an error the whole
      redo cannot succeed, and the call after the last pair, if there is one, failed. */
  ghost predicate Republished(rc: ReceiptDoc, d0: Disk, done: nat, d: Disk, slot: nat, error: Option<Code>,
                              faults: nat -> Fault, from: nat, to: nat, stuck: bool) {
    && from <= to && done <= |rc.entries| && RedoEntries(d0, rc.entries[..done], rc) == Result.Ok(d)
    && (error.None? ==> slot == Writes(d0, rc.entries[..done], rc) <= LAST_SLOT + 1 && CleanBetween(faults, from, to))
    && (error.Some? ==>
          !(RedoEntries(d0, rc.entries, rc).Ok? && Writes(d0, rc.entries, rc) <= LAST_SLOT + 1 && CleanBetween(faults, from, to)))
    && (to == from + 2 * slot || (to == from + 2 * slot + 1 && error.Some?))
    && (RedoEntries(d0, rc.entries, rc).Ok? ==> to <= from + 2 * Writes(d0, rc.entries, rc))
    && (stuck <==> to == from + 2 * slot + 1 && faults(to - 1).After?)
  }

  lemma RedoStarts(rc: ReceiptDoc, d: Disk, faults: nat -> Fault, from: nat)
    ensures Republished(rc, d, 0, d, 0, None, faults, from, from, false)
  {
    assert rc.entries[..0] == [];
  }

  lemma RedoGoes(rc: ReceiptDoc, d0: Disk, done: nat, d: Disk, slot: nat, faults: nat -> Fault, from: nat, to: nat, stuck: bool)
    requires Republished(rc, d0, done, d, slot, None, faults, from, to, stuck)
    ensures !stuck && from <= to
  {
  }

  lemma RedoAdvances(rc: ReceiptDoc, d0: Disk, done: nat, d: Disk, d': Disk, slot: nat, r: Published,
                     faults: nat -> Fault, from: nat, mid: nat, to: nat)
    requires done < |rc.entries| && Republished(rc, d0, done, d, slot, None, faults, from, mid, false)
    requires EntryRedone(rc, rc.entries[done], d, d', slot, r, faults, mid, to)
    ensures Republished(rc, d0, if r.performed then done + 1 else done, d', if r.prepared then slot + 1 else slot, r.error,
                        faults, from, to, !r.prepared && to > mid && faults(mid).After?)
  {
    hide RedoEntries, Writes, RedoEntry;
    RedoOneMore(d0, rc.entries[..done], rc.entries[done], rc);
    assert rc.entries[..done + 1] == rc.entries[..done] + [rc.entries[done]];
    RedoPart(d0, rc.entries, done + 1, rc);
  }

  lemma RedoEnds(rc: ReceiptDoc, d0: Disk, done: nat, d: Disk, slot: nat, error: Option<Code>, faults: nat -> Fault, from: nat, to: nat, stuck: bool)
    requires Republished(rc, d0, done, d, slot, error, faults, from, to, stuck)
    requires done == |rc.entries| || error.Some?
    ensures from <= to && done <= |rc.entries| && RedoEntries(d0, rc.entries[..done], rc) == Result.Ok(d)
    ensures error.None? ==> to == from + 2 * Writes(d0, rc.entries, rc)
    ensures error.None? <==> RedoEntries(d0, rc.entries, rc).Ok? && Writes(d0, rc.entries, rc) <= LAST_SLOT + 1 && CleanBetween(faults, from, to)
    ensures stuck <==> (to - from) % 2 == 1 && faults(to - 1).After?
    ensures RedoEntries(d0, rc.entries, rc).Ok? ==> to <= from + 2 * Writes(d0, rc.entries, rc)
    ensures to == from ==> slot == 0
  {
    hide RedoEntries, Writes, CleanBetween;
    assert rc.entries[..|rc.entries|] == rc.entries;
    ByPairs(slot, to - from);
  }
}
