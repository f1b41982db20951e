/** What is seen in a database after a run is what its own operations give, whatever else
    was done, if and only if nobody wrote to the keys it holds. */
module Noninterference {
  import opened Ordering
  import opened Values
  import opened KeyMemory
  import opened Serialized
  import opened Branching
  import opened Calls
  import opened Isolation

  // ---- One step ------------------------------------------------------------------------------

  /** A step that is an operation on the database, by value. */
  ghost function OwnCall(w: World, op: WorldOp, p: Place): Option<Call>
    requires Sane(w)
  {
    if op.On? && Callable(w, op) && p == Live(op.db) then
      assert InMemory(w.memory, IdOf(op.op.node));
      Some(CallOf(w.memory, op.op))
    else None
  }

  /** What its own calls alone make of what is seen. */
  function AfterCall(config: Config, v: Shown, call: Option<Call>): Shown {
    if call.None? then v else Called(config, v, call.value).shown
  }

  lemma OwnStepIff(w: World, i: nat, o: DbOp, w': World, reply: Reply)
    requires Sane(w) && Callable(w, On(i, o)) && Steps(w, On(i, o), w', reply)
    ensures Sane(w') && IsPlace(w, Live(i)) && IsPlace(w', Live(i)) && DbAt(w', Live(i)).config == DbAt(w, Live(i)).config
    ensures InMemory(w.memory, IdOf(o.node))
    ensures var e := Called(w.live[i].config, View(w, Live(i)), CallOf(w.memory, o));
            && reply == Wrote(e.err)
            && (View(w', Live(i)) == e.shown <==> Unseen(w, On(i, o), Live(i)))
  {
    var d := w.live[i];
    OnSane(w, i, o);
    assert IsPlace(w, Live(i)) && InMemory(w.memory, IdOf(o.node));
    CalledIff(d.config, d.store, w.memory, o);
    OperationTouches(d.config, d.store, w.memory, o);
    if o.Generate? {
      MovedSeenIff(w, w'.memory, o.node, w'.memory.cells[o.node].id, Live(i));
    }
  }

  /** A step leaves what is seen in a database as the database's own call makes it, or as it
      was if the step is none, if and only if it does not write another id or other fields
      into what the keys stored there lead to. */
  lemma StepFollowsIff(w: World, op: WorldOp, w': World, reply: Reply, p: Place)
    requires Sane(w) && Steps(w, op, w', reply) && IsPlace(w, p) && !(op.ReleaseOf? && p == Frozen(op.checkpoint))
    ensures Sane(w') && IsPlace(w', p) && DbAt(w', p).config == DbAt(w, p).config
    ensures View(w', p) == AfterCall(DbAt(w, p).config, View(w, p), OwnCall(w, op, p)) <==> Unseen(w, op, p)
    ensures OwnCall(w, op, p).Some? ==> reply == Wrote(Called(DbAt(w, p).config, View(w, p), OwnCall(w, op, p).value).err)
  {
    if op.On? && p == Live(op.db) {
      if Callable(w, op) {
        OwnStepIff(w, op.db, op.op, w', reply);
      } else {
        StepKeepsSane(w, op, w', reply);
      }
    } else {
      StepSeenIff(w, op, w', reply, p);
    }
  }

  // ---- Runs -----------------------------------------------------------------------------------

  predicate Releases(ops: seq<WorldOp>, p: Place, n: nat)
    requires n <= |ops|
  {
    exists k | 0 <= k < n :: ops[k].ReleaseOf? && p == Frozen(ops[k].checkpoint)
  }

  /** The database's own calls, in order. */
  ghost function OwnCalls(states: seq<World>, ops: seq<WorldOp>, p: Place, n: nat): seq<Call>
    requires n <= |ops| && PlaceThrough(states, p, n)
  {
    if n == 0 then []
    else
      var call := OwnCall(states[n - 1], ops[n - 1], p);
      OwnCalls(states, ops, p, n - 1) + if call.Some? then [call.value] else []
  }

  /** And what they were answered. */
  ghost function OwnReplies(states: seq<World>, ops: seq<WorldOp>, replies: seq<Reply>, p: Place, n: nat): seq<Reply>
    requires n <= |ops| == |replies| && PlaceThrough(states, p, n)
  {
    if n == 0 then []
    else
      OwnReplies(states, ops, replies, p, n - 1) + if OwnCall(states[n - 1], ops[n - 1], p).Some? then [replies[n - 1]] else []
  }

  /** What calls alone make of what is seen, and what they are answered. */
  function AfterCalls(config: Config, v: Shown, calls: seq<Call>): Shown {
    if calls == [] then v
    else Called(config, AfterCalls(config, v, calls[..|calls| - 1]), calls[|calls| - 1]).shown
  }

  function Answers(config: Config, v: Shown, calls: seq<Call>): seq<Reply> {
    if calls == [] then []
    else
      var n := |calls| - 1;
      Answers(config, v, calls[..n]) + [Wrote(Called(config, AfterCalls(config, v, calls[..n]), calls[n]).err)]
  }

  /** At every step what is seen changes by the database's own calls only. */
  ghost predicate FollowsThrough(states: seq<World>, ops: seq<WorldOp>, p: Place, n: nat)
    requires n <= |ops| && PlaceThrough(states, p, n)
  {
    forall k | 0 <= k < n :: FollowsAt(states, ops, p, k)
  }

  ghost predicate FollowsAt(states: seq<World>, ops: seq<WorldOp>, p: Place, k: nat)
    requires k < |ops| && k + 1 < |states| && Sane(states[k]) && IsPlace(states[k], p) && Sane(states[k + 1]) && IsPlace(states[k + 1], p)
  {
    View(states[k + 1], p) == AfterCall(DbAt(states[k], p).config, View(states[k], p), OwnCall(states[k], ops[k], p))
  }

  /** The run left the database as its calls alone would have, and answered them so. */
  ghost predicate EndsAlone(states: seq<World>, ops: seq<WorldOp>, replies: seq<Reply>, p: Place, n: nat)
    requires n <= |ops| == |replies| && PlaceThrough(states, p, n)
  {
    var config, calls := DbAt(states[0], p).config, OwnCalls(states, ops, p, n);
    && View(states[n], p) == AfterCalls(config, View(states[0], p), calls)
    && OwnReplies(states, ops, replies, p, n) == Answers(config, View(states[0], p), calls)
  }

  lemma NextFollows(states: seq<World>, ops: seq<WorldOp>, replies: seq<Reply>, p: Place, k: nat)
    requires IsRun(states, ops, replies) && k < |ops| && PlaceThrough(states, p, k) && !Releases(ops, p, k + 1)
    ensures PlaceThrough(states, p, k + 1) && DbAt(states[k + 1], p).config == DbAt(states[k], p).config
    ensures FollowsAt(states, ops, p, k) <==> Unseen(states[k], ops[k], p)
    ensures var call := OwnCall(states[k], ops[k], p);
            call.Some? ==> replies[k] == Wrote(Called(DbAt(states[k], p).config, View(states[k], p), call.value).err)
  {
    assert !(ops[k].ReleaseOf? && p == Frozen(ops[k].checkpoint));
    RunSane(states, ops, replies, k);
    StepFollowsIff(states[k], ops[k], states[k + 1], replies[k], p);
  }

  lemma {:induction false} StaysThrough(states: seq<World>, ops: seq<WorldOp>, replies: seq<Reply>, p: Place, n: nat)
    requires IsRun(states, ops, replies) && n <= |ops| && IsPlace(states[0], p) && !Releases(ops, p, n)
    ensures PlaceThrough(states, p, n) && DbAt(states[n], p).config == DbAt(states[0], p).config
  {
    if n > 0 {
      assert !Releases(ops, p, n - 1);
      StaysThrough(states, ops, replies, p, n - 1);
      NextFollows(states, ops, replies, p, n - 1);
    }
  }

  lemma {:induction false} FollowsIff(states: seq<World>, ops: seq<WorldOp>, replies: seq<Reply>, p: Place, n: nat)
    requires IsRun(states, ops, replies) && n <= |ops| && PlaceThrough(states, p, n) && !Releases(ops, p, n)
    ensures FollowsThrough(states, ops, p, n) <==> UnseenThrough(states, ops, p, n)
  {
    if n > 0 {
      assert !Releases(ops, p, n - 1);
      FollowsIff(states, ops, replies, p, n - 1);
      NextFollows(states, ops, replies, p, n - 1);
      UnseenSnoc(states, ops, p, n - 1);
      FollowsSnoc(states, ops, p, n - 1);
    }
  }

  lemma EndsNext(states: seq<World>, ops: seq<WorldOp>, replies: seq<Reply>, p: Place, n: nat, k: nat)
    requires IsRun(states, ops, replies) && k < n <= |ops| && IsPlace(states[0], p) && !Releases(ops, p, n)
    requires PlaceThrough(states, p, n) && FollowsThrough(states, ops, p, n) && EndsAlone(states, ops, replies, p, k)
    ensures EndsAlone(states, ops, replies, p, k + 1)
  {
    assert FollowsAt(states, ops, p, k) && !Releases(ops, p, k + 1) && !Releases(ops, p, k);
    NextFollows(states, ops, replies, p, k);
    StaysThrough(states, ops, replies, p, k);
    CallSnoc(states, ops, replies, p, k);
  }

  lemma {:induction false} Upward(holds: nat -> bool, n: nat)
    requires holds(0) && forall k: nat | k < n && holds(k) :: holds(k + 1)
    ensures holds(n)
  {
    if n > 0 {
      Upward(holds, n - 1);
    }
  }

  lemma FollowingEnds(states: seq<World>, ops: seq<WorldOp>, replies: seq<Reply>, p: Place, n: nat)
    requires IsRun(states, ops, replies) && n <= |ops| && IsPlace(states[0], p) && !Releases(ops, p, n)
    requires PlaceThrough(states, p, n) && FollowsThrough(states, ops, p, n)
    ensures EndsAlone(states, ops, replies, p, n)
  {
    var holds := (k: nat) => k <= n && EndsAlone(states, ops, replies, p, k);
    forall k: nat | k < n && holds(k)
      ensures holds(k + 1)
    {
      EndsNext(states, ops, replies, p, n, k);
    }
    Upward(holds, n);
  }

  /** Noninterference. Over any run what is seen in a database changes by its own calls
      only, if and only if no step, its own calls included, writes another id or other fields
      into what its stored keys lead to. Then it ends as its calls alone would have left it,
      and they were answered as they would have been alone. */
  lemma OwnCallsAlone(states: seq<World>, ops: seq<WorldOp>, replies: seq<Reply>, p: Place, n: nat)
    requires IsRun(states, ops, replies) && n <= |ops| && IsPlace(states[0], p) && !Releases(ops, p, n)
    ensures PlaceThrough(states, p, n)
    ensures FollowsThrough(states, ops, p, n) <==> UnseenThrough(states, ops, p, n)
    ensures UnseenThrough(states, ops, p, n) ==> EndsAlone(states, ops, replies, p, n)
  {
    StaysThrough(states, ops, replies, p, n);
    FollowsIff(states, ops, replies, p, n);
    if UnseenThrough(states, ops, p, n) {
      FollowingEnds(states, ops, replies, p, n);
    }
  }

  lemma FollowsSnoc(states: seq<World>, ops: seq<WorldOp>, p: Place, k: nat)
    requires k < |ops| && PlaceThrough(states, p, k + 1)
    ensures FollowsThrough(states, ops, p, k + 1) <==> FollowsThrough(states, ops, p, k) && FollowsAt(states, ops, p, k)
  {
  }

  lemma OneMoreCall(config: Config, v: Shown, calls: seq<Call>, call: Call)
    ensures AfterCalls(config, v, calls + [call]) == Called(config, AfterCalls(config, v, calls), call).shown
    ensures Answers(config, v, calls + [call]) ==
            Answers(config, v, calls) + [Wrote(Called(config, AfterCalls(config, v, calls), call).err)]
  {
    assert (calls + [call])[..|calls|] == calls;
  }

  lemma CallSnoc(states: seq<World>, ops: seq<WorldOp>, replies: seq<Reply>, p: Place, k: nat)
    requires k < |ops| == |replies| && PlaceThrough(states, p, k + 1)
    requires DbAt(states[k], p).config == DbAt(states[0], p).config && EndsAlone(states, ops, replies, p, k)
    requires FollowsAt(states, ops, p, k)
    requires var call := OwnCall(states[k], ops[k], p);
             call.Some? ==> replies[k] == Wrote(Called(DbAt(states[k], p).config, View(states[k], p), call.value).err)
    ensures EndsAlone(states, ops, replies, p, k + 1)
  {
    var before, call := OwnCalls(states, ops, p, k), OwnCall(states[k], ops[k], p);
    assert OwnCalls(states, ops, p, k + 1) == before + if call.Some? then [call.value] else [];
    if call.Some? {
      OneMoreCall(DbAt(states[0], p).config, View(states[0], p), before, call.value);
    } else {
      assert before + [] == before;
    }
  }

  /** Two runs that make the same calls of a database, starting from the same records, show
      the same in it and are answered the same, whatever else each of them does elsewhere. */
  lemma NoInterference(states: seq<World>, ops: seq<WorldOp>, replies: seq<Reply>, p: Place, n: nat,
                       states': seq<World>, ops': seq<WorldOp>, replies': seq<Reply>, p': Place, n': nat)
    requires IsRun(states, ops, replies) && n <= |ops| && IsPlace(states[0], p) && !Releases(ops, p, n)
    requires IsRun(states', ops', replies') && n' <= |ops'| && IsPlace(states'[0], p') && !Releases(ops', p', n')
    requires PlaceThrough(states, p, n) && PlaceThrough(states', p', n')
    requires UnseenThrough(states, ops, p, n) && UnseenThrough(states', ops', p', n')
    requires DbAt(states[0], p).config == DbAt(states'[0], p').config && View(states[0], p) == View(states'[0], p')
    requires OwnCalls(states, ops, p, n) == OwnCalls(states', ops', p', n')
    ensures View(states[n], p) == View(states'[n'], p')
    ensures OwnReplies(states, ops, replies, p, n) == OwnReplies(states', ops', replies', p', n')
  {
    OwnCallsAlone(states, ops, replies, p, n);
    OwnCallsAlone(states', ops', replies', p', n');
  }

  // ---- Keys kept apart ----------------------------------------------------------------------------

  /** What a step writes to. */
  function Written(w: World, op: WorldOp): Option<Location> {
    if !Callable(w, op) then None
    else if op.AssignId? then Some(IdOf(op.node))
    else if op.Refill? then Some(FieldsOf(op.slice))
    else if op.On? && op.op.Generate? then Some(IdOf(op.op.node))
    else None
  }

  /** Nothing is written to after it was passed to the database: not the key, not a parent
      of it, not an array of an id; nor to what the database held at the start. */
  ghost predicate KeptApart(states: seq<World>, ops: seq<WorldOp>, p: Place, n: nat)
    requires n <= |ops| && n < |states| && Sane(states[0]) && IsPlace(states[0], p)
  {
    forall k | 0 <= k < n && Written(states[k], ops[k]).Some? ::
      var at := Written(states[k], ops[k]).value;
      && !ReachesAt(states[0], p, at)
      && forall j | 0 <= j < k :: !PassedAt(states, ops, p, j, at)
  }

  ghost predicate PassedAt(states: seq<World>, ops: seq<WorldOp>, p: Place, j: nat, at: Location)
    requires j < |ops| && j < |states|
  {
    && Sane(states[j]) && OwnCall(states[j], ops[j], p).Some?
    && InMemory(states[j].memory, IdOf(ops[j].op.node)) && at in Reach(states[j].memory, ops[j].op.node)
  }

  ghost predicate Known(states: seq<World>, ops: seq<WorldOp>, p: Place, n: nat, at: Location)
    requires n <= |ops| && n < |states| && Sane(states[0]) && IsPlace(states[0], p)
  {
    ReachesAt(states[0], p, at) || exists j :: 0 <= j < n && PassedAt(states, ops, p, j, at)
  }

  /** What the stored keys lead to after a step. */
  lemma ReachAfter(w: World, op: WorldOp, w': World, reply: Reply, p: Place, at: Location)
    requires Sane(w) && Steps(w, op, w', reply) && IsPlace(w, p) && Sane(w') && IsPlace(w', p)
    requires ReachesAt(w', p, at) && Unseen(w, op, p) && !(op.ReleaseOf? && p == Frozen(op.checkpoint))
    requires Written(w, op).Some? ==> !ReachesAt(w, p, Written(w, op).value)
    ensures ReachesAt(w, p, at) || (OwnCall(w, op, p).Some? && InMemory(w.memory, IdOf(op.op.node)) && at in Reach(w.memory, op.op.node))
  {
    if Callable(w, op) {
      match op
      case NewSlice(fields) => ExtensionShows(w.memory, w'.memory, DbAt(w, p).store);
      case NewKey(collection, id, parent) => ExtensionShows(w.memory, w'.memory, DbAt(w, p).store);
      case AssignId(node, id) => AssignSane(w, node, id); AssignSeenIff(w.memory, DbAt(w, p).store, node, id);
      case Refill(slice, fields) => RefillSeenIff(w.memory, DbAt(w, p).store, slice, fields);
      case On(i, o) => ReachAfterOn(w, i, o, w', reply, p, at);
      case KeyOf(i, c, id) =>
      case CaptureOf(i) => if w.live[i].foreign == NO_FOREIGN { CaptureSane(w, i, w', reply); }
      case BranchOf(j) => if IsPlace(w, Frozen(j)) { BranchSane(w, j, w', reply); }
      case ReleaseOf(j) =>
    }
  }

  lemma ReachAfterOn(w: World, i: nat, o: DbOp, w': World, reply: Reply, p: Place, at: Location)
    requires Sane(w) && Callable(w, On(i, o)) && Steps(w, On(i, o), w', reply) && IsPlace(w, p) && Sane(w') && IsPlace(w', p)
    requires ReachesAt(w', p, at) && (o.Generate? ==> !ReachesAt(w, p, IdOf(o.node)))
    ensures ReachesAt(w, p, at) || (p == Live(i) && InMemory(w.memory, IdOf(o.node)) && at in Reach(w.memory, o.node))
  {
    var d, m, m' := w.live[i], w.memory, w'.memory;
    OperationTouches(d.config, d.store, m, o);
    assert InMemory(m, IdOf(o.node));
    var c, id :| Has(DbAt(w', p).store, c, id) && at in Reach(m', DbAt(w', p).store[c][id].key);
    var a := DbAt(w', p).store[c][id].key;
    if o.Generate? {
      AssignShowsIff(m, o.node, m'.cells[o.node].id, a);
    }
    assert at in Reach(m, a);
    if p != Live(i) {
      assert Has(DbAt(w, p).store, c, id);
    }
  }

  lemma {:induction false} ReachedIsKnown(states: seq<World>, ops: seq<WorldOp>, replies: seq<Reply>, p: Place, n: nat)
    requires IsRun(states, ops, replies) && n <= |ops| && IsPlace(states[0], p) && !Releases(ops, p, n)
    requires KeptApart(states, ops, p, n)
    ensures PlaceThrough(states, p, n) && UnseenThrough(states, ops, p, n)
    ensures forall at | ReachesAt(states[n], p, at) :: Known(states, ops, p, n, at)
  {
    if n > 0 {
      var k := n - 1;
      ReachedIsKnown(states, ops, replies, p, k);
      NextFollows(states, ops, replies, p, k);
      RunSane(states, ops, replies, k);
      if Written(states[k], ops[k]).Some? {
        assert !Known(states, ops, p, k, Written(states[k], ops[k]).value);
      }
      assert Unseen(states[k], ops[k], p);
      UnseenSnoc(states, ops, p, k);
      forall at | ReachesAt(states[n], p, at)
        ensures Known(states, ops, p, n, at)
      {
        ReachAfter(states[k], ops[k], states[n], replies[k], p, at);
        if !ReachesAt(states[k], p, at) {
          assert PassedAt(states, ops, p, k, at);
        }
      }
    }
  }

  /** Callers who leave keys alone once they passed them to a database see in it exactly what
      their calls alone would give. */
  lemma KeptApartAlone(states: seq<World>, ops: seq<WorldOp>, replies: seq<Reply>, p: Place, n: nat)
    requires IsRun(states, ops, replies) && n <= |ops| && IsPlace(states[0], p) && !Releases(ops, p, n)
    requires KeptApart(states, ops, p, n)
    ensures PlaceThrough(states, p, n) && EndsAlone(states, ops, replies, p, n)
  {
    ReachedIsKnown(states, ops, replies, p, n);
    OwnCallsAlone(states, ops, replies, p, n);
  }

  // ---- A branch and its own calls ----------------------------------------------------------------

  lemma RestIsRun(states: seq<World>, ops: seq<WorldOp>, replies: seq<Reply>, from: nat)
    requires IsRun(states, ops, replies) && from <= |ops|
    ensures IsRun(states[from..], ops[from..], replies[from..])
  {
    RunSane(states, ops, replies, from);
    forall n | 0 <= n < |ops| - from
      ensures StepAt(states[from..], ops[from..], replies[from..], n)
    {
      assert StepAt(states, ops, replies, from + n);
    }
  }

  lemma BranchStarts(w: World, j: nat, w': World, reply: Reply)
    requires Sane(w) && IsPlace(w, Frozen(j)) && Steps(w, BranchOf(j), w', reply)
    ensures var b := Live(|w.live|);
            && Sane(w') && IsPlace(w', b) && DbAt(w', b).config == DbAt(w, Frozen(j)).config && View(w', b) == View(w, Frozen(j))
  {
    BranchSane(w, j, w', reply);
  }

  /** A branch holds what was captured, changed by the calls made of it and by nothing else:
      whatever is done to the source, to sibling branches and to the checkpoint. */
  lemma BranchFollowsItsCalls(states: seq<World>, ops: seq<WorldOp>, replies: seq<Reply>, j: nat, n: nat)
    requires IsRun(states, ops, replies) && 0 < n <= |ops| && IsPlace(states[0], Frozen(j)) && ops[0] == BranchOf(j)
    ensures var b := Live(|states[0].live|);
            && Sane(states[1]) && IsPlace(states[1], b)
            && (KeptApart(states[1..], ops[1..], b, n - 1) ==>
                  && PlaceThrough(states[1..], b, n - 1)
                  && View(states[n], b) == AfterCalls(DbAt(states[0], Frozen(j)).config, View(states[0], Frozen(j)),
                                                      OwnCalls(states[1..], ops[1..], b, n - 1)))
  {
    var b := Live(|states[0].live|);
    RunSane(states, ops, replies, 0);
    BranchStarts(states[0], j, states[1], replies[0]);
    if KeptApart(states[1..], ops[1..], b, n - 1) {
      RestIsRun(states, ops, replies, 1);
      KeptApartAlone(states[1..], ops[1..], replies[1..], b, n - 1);
      assert states[1..][n - 1] == states[n] && states[1..][0] == states[1];
    }
  }
}
