/** The life of one ticket, and of a queue of them, over every run of mutations. */
module Lives {
  import opened Wrappers
  import opened Tickets
  import opened Graph
  import opened Dependencies
  import opened Mutation
  import opened Adopt

  /** One accepted change of one ticket: an envelope operation or an adopted file. */
  datatype Change = Operation(context: Context, payload: Payload) | Adoption(context: Context, file: Record)

  ghost predicate Follows(pre: Record, ch: Change, post: Record) {
    match ch
    case Operation(c, p) => Applies(c, pre, p, post)
    case Adoption(c, f) => Adopts(c, pre, f, post)
  }

  /** A record made by a CREATE and then changed step by step. */
  ghost predicate Life(rs: seq<Record>, chs: seq<Change>) {
    && |rs| == |chs| + 1
    && (exists c :: IsCreated(c, rs[0]))
    && forall i :: 0 <= i < |chs| ==> Follows(rs[i], chs[i], rs[i + 1])
  }

  // ----- one change -----

  /** What every change keeps, and how it chains. */
  lemma ChangeKeeps(pre: Record, ch: Change, post: Record)
    requires Valid(pre) && GrantsInPast(pre) && Follows(pre, ch, post)
    ensures Valid(post) && GrantsInPast(post)
    ensures post.revision == pre.revision + 1 && post.previous == Some(Link(pre)) && post.ticketId == pre.ticketId
    ensures pre.acceptance <= post.acceptance <= pre.acceptance + 1
    ensures AcceptanceOf(post) != AcceptanceOf(pre) ==> post.acceptance == pre.acceptance + 1
    ensures ch.Operation? && Forces(ch.payload) ==> post.acceptance == pre.acceptance + 1
  {
    hide Checked, WellRelated;
    match ch
    case Operation(c, p) =>
      StepCoherent(c, pre, p);
      StepKeepsChain(c, pre, p);
    case Adoption(c, f) =>
      hide Composed, Steps;
      AdoptMeansFile(c, pre, f, post);
  }

  predicate GrantsRun(pre: Record, ch: Change) {
    && ch.Operation? && ch.payload.GrantApproval? && ch.payload.operation == "RUN"
    && ch.payload.targetRevision == pre.acceptance && ch.payload.actor == ch.context.actor
  }

  /** The approvals before, revoked or not, and at most one more: the grant asked for. */
  predicate Grown(before: seq<Approval>, after: seq<Approval>) {
    && |before| <= |after|
    && forall i :: 0 <= i < |before| ==>
         after[i].operation == before[i].operation && after[i].targetRevision == before[i].targetRevision && (before[i].revoked ==> after[i].revoked)
  }

  lemma StepApprovals(c: Context, r: Record, p: Payload)
    requires StepOf(c, r, p).Done?
    ensures var q := StepOf(c, r, p).value;
      && Grown(r.approvals, q.approvals) && |q.approvals| <= |r.approvals| + 1
      && (p.GrantApproval? ==> AcceptanceOf(q) == AcceptanceOf(r))
      && (|q.approvals| > |r.approvals| ==>
            && p.GrantApproval? && p.actor == c.actor && p.targetRevision == r.acceptance
            && q.approvals[|r.approvals|].operation == p.operation)
  {
    hide Permitted, Opens, HasGrant, InForce, HasHold, Live;
  }

  lemma ApprovalsAfter(pre: Record, ch: Change, post: Record)
    requires Valid(pre) && Follows(pre, ch, post)
    ensures Grown(pre.approvals, post.approvals) && |post.approvals| <= |pre.approvals| + 1
    ensures |post.approvals| > |pre.approvals| ==>
              && ch.Operation? && ch.payload.GrantApproval? && ch.payload.actor == ch.context.actor && ch.payload.targetRevision == pre.acceptance
              && post.approvals[|pre.approvals|].operation == ch.payload.operation && post.acceptance == pre.acceptance
  {
    match ch
    case Operation(c, p) =>
      StepApprovals(c, pre, p);
      hide StepOf, Finalizes, Valid, AcceptanceOf;
    case Adoption(c, f) =>
      AdoptMeansFile(c, pre, f, post);
      hide Adopts, Valid, AcceptanceOf, SameFields;
  }

  /** A change that raises the acceptance revision leaves no grant in force. */
  lemma BumpSilences(pre: Record, ch: Change, post: Record)
    requires Valid(pre) && GrantsInPast(pre) && Follows(pre, ch, post) && post.acceptance != pre.acceptance
    ensures !RunGranted(post)
  {
    ChangeKeeps(pre, ch, post);
    ApprovalsAfter(pre, ch, post);
    hide Valid, Follows;
    forall i | 0 <= i < |post.approvals| ensures post.approvals[i].targetRevision < post.acceptance {
      assert pre.approvals[i].targetRevision <= pre.acceptance;
    }
  }

  /** Only a RUN grant at the current acceptance revision, issued by the actor it names,
      makes a ticket granted. */
  lemma OnlyGrantsGrant(pre: Record, ch: Change, post: Record)
    requires Valid(pre) && GrantsInPast(pre) && Follows(pre, ch, post) && RunGranted(post) && !RunGranted(pre)
    ensures GrantsRun(pre, ch) && post.acceptance == pre.acceptance
  {
    if post.acceptance != pre.acceptance { BumpSilences(pre, ch, post); }
    ApprovalsAfter(pre, ch, post);
    hide Valid, Follows;
    var i :| 0 <= i < |post.approvals| && post.approvals[i].operation == "RUN" && post.approvals[i].targetRevision == post.acceptance && !post.approvals[i].revoked;
  }

  predicate Reopens(ch: Change) { ch.Operation? && ch.payload.Reopen? }

  /** Short of a REOPEN, what a completed ticket was accepted on and how it was completed
      stay as they are, behind a tombstone or not. */
  lemma CompletedKeeps(pre: Record, ch: Change, post: Record)
    requires Valid(pre) && Follows(pre, ch, post) && Effective(pre).COMPLETED? && !Reopens(ch)
    ensures Effective(post).COMPLETED? && AcceptanceOf(post) == AcceptanceOf(pre) && post.completion == pre.completion
  {
    hide Checked, WellRelated;
    match ch
    case Operation(c, p) =>
    case Adoption(c, f) =>
      hide Composed, Steps;
      AdoptMeansFile(c, pre, f, post);
      AdoptedExactly(c, pre, f);
  }

  // ----- whole lives -----

  lemma {:induction false} LifeKeeps(rs: seq<Record>, chs: seq<Change>, n: nat)
    requires Life(rs, chs) && n < |rs|
    ensures Valid(rs[n]) && GrantsInPast(rs[n]) && rs[n].revision == n + 1
    ensures rs[n].ticketId == rs[0].ticketId && rs[n].previous == if n == 0 then None else Some(Link(rs[n - 1]))
  {
    hide Follows, Valid, GrantsInPast;
    if n == 0 {
      StartOf(rs[0]);
    } else {
      LifeKeeps(rs, chs, n - 1);
      assert Follows(rs[n - 1], chs[n - 1], rs[n]);
      ChangeKeeps(rs[n - 1], chs[n - 1], rs[n]);
    }
  }

  lemma StartOf(r: Record)
    requires exists c :: IsCreated(c, r)
    ensures Valid(r) && GrantsInPast(r) && !RunGranted(r) && r.revision == 1 && r.previous == None
  {
    hide Checked;
  }

  /** `j` is a RUN grant after which the acceptance revision has not moved up to `k`. */
  ghost predicate StillStands(rs: seq<Record>, chs: seq<Change>, j: nat, k: nat)
    requires |rs| == |chs| + 1
  {
    j < k < |rs| && GrantsRun(rs[j], chs[j]) && forall m :: j <= m <= k ==> rs[m].acceptance == rs[k].acceptance
  }

  /** A ticket that reads as granted was granted since its acceptance revision last moved:
      a stale approval never counts. */
  lemma {:induction false} StaleNeverCounts(rs: seq<Record>, chs: seq<Change>, k: nat)
    requires Life(rs, chs) && k < |rs| && RunGranted(rs[k])
    ensures exists j: nat :: StillStands(rs, chs, j, k)
  {
    hide Follows, Valid, GrantsInPast, RunGranted, GrantsRun;
    LifeKeeps(rs, chs, k);
    if k == 0 {
      StartOf(rs[0]);
      
    } else {
      LifeKeeps(rs, chs, k - 1);
      assert Follows(rs[k - 1], chs[k - 1], rs[k]);
      if rs[k].acceptance != rs[k - 1].acceptance {
        BumpSilences(rs[k - 1], chs[k - 1], rs[k]);
      } else if RunGranted(rs[k - 1]) {
        StaleNeverCounts(rs, chs, k - 1);
        var j: nat :| StillStands(rs, chs, j, k - 1);
        assert StillStands(rs, chs, j, k);
      } else {
        OnlyGrantsGrant(rs[k - 1], chs[k - 1], rs[k]);
        assert StillStands(rs, chs, k - 1, k);
      }
    }
  }

  /** From one completion to the next REOPEN nothing the completion rests on moves. */
  lemma {:induction false} CompletionStands(rs: seq<Record>, chs: seq<Change>, i: nat, k: nat)
    requires Life(rs, chs) && i <= k < |rs| && Effective(rs[i]).COMPLETED?
    requires forall m :: i <= m < k ==> !Reopens(chs[m])
    ensures Effective(rs[k]).COMPLETED? && AcceptanceOf(rs[k]) == AcceptanceOf(rs[i]) && rs[k].completion == rs[i].completion
  {
    hide Follows, Valid, GrantsInPast, AcceptanceOf, Effective, Reopens;
    if i < k {
      CompletionStands(rs, chs, i, k - 1);
      LifeKeeps(rs, chs, k - 1);
      assert Follows(rs[k - 1], chs[k - 1], rs[k]);
      CompletedKeeps(rs[k - 1], chs[k - 1], rs[k]);
    }
  }

  // ----- a queue of tickets -----

  /** Who depends on whom. */
  function EdgesOf(q: map<Id, Record>): map<Id, seq<Id>> { map id | id in q :: Targets(q[id].dependencies) }

  function ContextOf(ch: Change): Context {
    match ch case Operation(c, _) => c case Adoption(c, _) => c
  }

  /** One change of the queue, planned against the queue as it stands. */
  ghost predicate Creates(q: map<Id, Record>, c: Context, r: Record, h: map<Id, Record>) {
    c.inventory == EdgesOf(q) && IsCreated(c, r) && r.ticketId !in q && h == q[r.ticketId := r]
  }

  ghost predicate Replaces(q: map<Id, Record>, id: Id, ch: Change, post: Record, h: map<Id, Record>) {
    id in q && ContextOf(ch).inventory == EdgesOf(q) && Follows(q[id], ch, post) && h == q[id := post]
  }

  ghost predicate QueueStep(q: map<Id, Record>, h: map<Id, Record>) {
    (exists c, r :: Creates(q, c, r, h)) || (exists id, ch, post :: Replaces(q, id, ch, post, h))
  }

  ghost predicate Sound(q: map<Id, Record>) {
    && (forall id :: id in q ==> q[id].ticketId == id && Valid(q[id]) && GrantsInPast(q[id]))
    && Closed(EdgesOf(q)) && Acyclic(EdgesOf(q))
  }

  /** What the plan checked of the dependencies it wrote. */
  lemma ReplacedEdges(q: map<Id, Record>, id: Id, ch: Change, post: Record)
    requires id in q && q[id].ticketId == id && Valid(q[id]) && GrantsInPast(q[id]) && ContextOf(ch).inventory == EdgesOf(q) && Follows(q[id], ch, post)
    ensures Changes(EdgesOf(q), EdgesOf(q[id := post]))
  {
    hide LeadsBack, Valid, GrantsInPast;
    var pre, g, h := q[id], EdgesOf(q), EdgesOf(q[id := post]);
    var ds := Targets(post.dependencies);
    if post.dependencies == pre.dependencies {
      assert h == g;
    } else {
      assert h == Overlay(g, id, ds);
      match ch
      case Operation(c, p) =>
        StepKeepsChain(c, pre, p);
        assert Checked(c, Some(pre), StepOf(c, pre, p).value);
      case Adoption(c, f) =>
        hide Composed, Steps;
        assert Checked(c, Some(pre), Adopted(c, pre, f).value);
        AdoptedExactly(c, pre, f);
    }
  }

  lemma QueueStepSound(q: map<Id, Record>, h: map<Id, Record>)
    requires Sound(q) && QueueStep(q, h)
    ensures (forall id :: id in h ==> h[id].ticketId == id && Valid(h[id]) && GrantsInPast(h[id]))
    ensures Changes(EdgesOf(q), EdgesOf(h)) && forall id :: id in q ==> id in h
  {
    hide Follows, Valid, GrantsInPast, IsCreated, LeadsBack, Acyclic, Closed;
    if exists c, r :: Creates(q, c, r, h) {
      var c, r :| Creates(q, c, r, h);
      StartOf(r);
      CreatedEdges(q, c, r);
    } else {
      var id, ch, post :| Replaces(q, id, ch, post, h);
      ChangeKeeps(q[id], ch, post);
      ReplacedEdges(q, id, ch, post);
    }
  }

  lemma CreatedEdges(q: map<Id, Record>, c: Context, r: Record)
    requires c.inventory == EdgesOf(q) && IsCreated(c, r)
    ensures Changes(EdgesOf(q), EdgesOf(q[r.ticketId := r]))
  {
    hide LeadsBack, Valid;
    assert EdgesOf(q[r.ticketId := r]) == Overlay(EdgesOf(q), r.ticketId, Targets(r.dependencies));
  }

  /** Every run of creations, operations and adoptions keeps every record valid, loses no
      ticket, and keeps the dependency graph closed and acyclic. */
  lemma {:induction false} QueueStaysSound(run: seq<map<Id, Record>>, n: nat)
    requires n < |run| && Sound(run[0])
    requires forall i {:trigger run[i]} :: 0 < i < |run| ==> QueueStep(run[i - 1], run[i])
    ensures Sound(run[n]) && forall id :: id in run[0] ==> id in run[n]
  {
    hide QueueStep, Valid, GrantsInPast, Acyclic, Closed;
    if n > 0 {
      QueueStaysSound(run, n - 1);
      assert QueueStep(run[n - 1], run[n]);
      QueueStepSound(run[n - 1], run[n]);
      RunsStayAcyclic([EdgesOf(run[n - 1]), EdgesOf(run[n])], 1);
    }
  }
}
