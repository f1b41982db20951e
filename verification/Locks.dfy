/** The lock protocol of one database as steps of a state machine: a reader-writer
    lock around every operation, and inside it a mutex around lazy engine creation. */
module Locks {
  import opened Ordering

  datatype Kind = Reader | Writer | Capturer

  /** One access of a worker: the collection, and for a writer what it leaves there. */
  datatype Act = Act(collection: string, value: nat)

  /** Where a worker stands. Using is the middle of a read or write of engine e;
      Copying is the middle of a capture. */
  datatype Pc =
    | Start
    | Pending
    | Held
    | Looking
    | Missed
    | Using(engine: nat)
    | Copying(todo: set<string>, copied: map<string, nat>)
    | Copied
    | Leaving
    | Done

  datatype Worker = Worker(kind: Kind, script: seq<Act>, pc: Pc)

  /** readers, writer and pending make up mu: a pending writer keeps new readers out.
      owner holds enginesMu. engines maps a collection to its engine, data an engine to
      its contents. lookups and snapshots record what workers were given. */
  datatype State = State(
    workers: seq<Worker>,
    readers: set<nat>,
    writer: Option<nat>,
    pending: Option<nat>,
    owner: Option<nat>,
    engines: map<string, nat>,
    data: seq<nat>,
    lookups: seq<(string, nat)>,
    snapshots: seq<map<string, nat>>)

  function Goes(w: State, t: nat, pc: Pc): State
    requires t < |w.workers|
  {
    w.(workers := w.workers[t := w.workers[t].(pc := pc)])
  }

  /** The next step of worker t, or None when it is blocked or done. pick chooses the
      engine a capture copies next. */
  function Next(w: State, t: nat, pick: string): Option<State>
    requires t < |w.workers|
    requires forall c | c in w.engines :: w.engines[c] < |w.data|
  {
    var me := w.workers[t];
    match me.pc
    case Start =>
      if w.writer.Some? || w.pending.Some? then None
      else if me.kind == Reader then Some(Goes(w, t, Held).(readers := w.readers + {t}))
      else Some(Goes(w, t, Pending).(pending := Some(t)))
    case Pending =>
      if w.readers != {} then None else Some(Goes(w, t, Held).(pending := None, writer := Some(t)))
    case Held =>
      if me.kind != Capturer && me.script == [] then
        Some(if me.kind == Reader then Goes(w, t, Done).(readers := w.readers - {t}) else Goes(w, t, Done).(writer := None))
      else if w.owner.Some? then None
      else Some(Goes(w, t, if me.kind == Capturer then Copying(w.engines.Keys, map[]) else Looking).(owner := Some(t)))
    case Looking =>
      if me.script == [] then None
      else
        var c := me.script[0].collection;
        if c in w.engines then Some(Goes(w, t, Using(w.engines[c])).(owner := None, lookups := w.lookups + [(c, w.engines[c])]))
        else Some(Goes(w, t, Missed))
    case Missed =>
      if me.script == [] then None
      else
        var c, e := me.script[0].collection, |w.data|;
        Some(Goes(w, t, Using(e)).(owner := None, data := w.data + [0], engines := w.engines[c := e], lookups := w.lookups + [(c, e)]))
    case Using(e) =>
      if me.script == [] || e >= |w.data| then None
      else
        var w' := w.(workers := w.workers[t := me.(script := me.script[1..], pc := Held)]);
        Some(if me.kind == Writer then w'.(data := w.data[e := me.script[0].value]) else w')
    case Copying(todo, copied) =>
      if todo == {} then Some(Goes(w, t, Copied).(snapshots := w.snapshots + [copied]))
      else if pick !in todo || pick !in w.engines then None
      else Some(Goes(w, t, Copying(todo - {pick}, copied[pick := w.data[w.engines[pick]]])))
    case Copied => Some(Goes(w, t, Leaving).(owner := None))
    case Leaving => Some(Goes(w, t, Done).(writer := None))
    case Done => None
  }

  /** What every collection's engine holds. */
  function Contents(w: State): map<string, nat>
    requires forall c | c in w.engines :: w.engines[c] < |w.data|
  {
    map c | c in w.engines :: w.data[w.engines[c]]
  }

  // ---- The invariant ----------------------------------------------------------------------

  predicate InEngines(pc: Pc) {
    pc.Looking? || pc.Missed? || pc.Copying? || pc.Copied?
  }

  predicate InMu(pc: Pc) {
    pc.Held? || pc.Using? || pc.Leaving? || InEngines(pc)
  }

  /** What holds of one worker. */
  predicate Stands(w: State, t: nat)
    requires t < |w.workers|
    requires forall c | c in w.engines :: w.engines[c] < |w.data|
  {
    var me := w.workers[t];
    && (t in w.readers <==> me.kind == Reader && InMu(me.pc))
    && (w.writer == Some(t) <==> me.kind != Reader && InMu(me.pc))
    && (w.pending == Some(t) <==> me.pc.Pending?)
    && (me.pc.Pending? ==> me.kind != Reader)
    && (w.owner == Some(t) <==> InEngines(me.pc))
    && (me.kind == Capturer ==> me.pc in {Start, Pending, Held, Copied, Leaving, Done} || me.pc.Copying?)
    && (me.kind != Capturer ==> !me.pc.Copying? && !me.pc.Copied? && !me.pc.Leaving?)
    && (me.pc.Looking? || me.pc.Missed? || me.pc.Using? ==> me.script != [])
    && (me.pc.Missed? ==> me.script[0].collection !in w.engines)
    && (me.pc.Using? ==> me.script[0].collection in w.engines && me.pc.engine == w.engines[me.script[0].collection])
    && (me.pc.Copying? ==>
          && me.pc.todo !! me.pc.copied.Keys && me.pc.todo + me.pc.copied.Keys == w.engines.Keys
          && forall c | c in me.pc.copied :: me.pc.copied[c] == w.data[w.engines[c]])
  }

  ghost predicate Inv(w: State) {
    Shared(w) && forall t | 0 <= t < |w.workers| :: Stands(w, t)
  }

  /** A database nobody has used yet. */
  ghost predicate Initial(w: State) {
    && (forall t | 0 <= t < |w.workers| :: w.workers[t].pc == Start)
    && w.readers == {} && w.writer == None && w.pending == None && w.owner == None
    && w.engines == map[] && w.data == [] && w.lookups == [] && w.snapshots == []
  }

  lemma InitialInv(w: State)
    requires Initial(w)
    ensures Inv(w)
  {
  }

  lemma MoverStands(w: State, t: nat, pick: string)
    requires Inv(w) && t < |w.workers| && Next(w, t, pick).Some?
    ensures var w' := Next(w, t, pick).value;
            |w'.workers| == |w.workers| && (forall c | c in w'.engines :: w'.engines[c] < |w'.data|) && Stands(w', t)
  {
    assert Stands(w, t);
  }

  lemma OtherStands(w: State, t: nat, pick: string, s: nat)
    requires Inv(w) && t < |w.workers| && s < |w.workers| && s != t && Next(w, t, pick).Some?
    ensures var w' := Next(w, t, pick).value;
            |w'.workers| == |w.workers| && (forall c | c in w'.engines :: w'.engines[c] < |w'.data|) && Stands(w', s)
  {
    assert Stands(w, t);
    assert Stands(w, s);
  }

  /** The parts of the invariant that are about no worker in particular. */
  ghost predicate Shared(w: State) {
    EnginesSound(w) && LocksSound(w)
  }

  ghost predicate EnginesSound(w: State) {
    && (forall c | c in w.engines :: w.engines[c] < |w.data|)
    && (forall c, d | c in w.engines && d in w.engines && c != d :: w.engines[c] != w.engines[d])
    && (forall i | 0 <= i < |w.lookups| :: w.lookups[i].0 in w.engines && w.lookups[i].1 == w.engines[w.lookups[i].0])
  }

  ghost predicate LocksSound(w: State) {
    && (w.writer.Some? ==> w.readers == {})
    && (w.writer.Some? ==> w.writer.value < |w.workers| && w.pending == None)
    && (w.pending.Some? ==> w.pending.value < |w.workers|)
    && (w.owner.Some? ==> w.owner.value < |w.workers|)
    && (forall t | t in w.readers :: t < |w.workers|)
  }

  lemma LocksKept(w: State, t: nat, pick: string)
    requires Inv(w) && t < |w.workers| && Next(w, t, pick).Some?
    ensures LocksSound(Next(w, t, pick).value)
  {
    assert Stands(w, t);
  }

  lemma RegisteredSound(w: State, w': State, c: string)
    requires EnginesSound(w) && c !in w.engines
    requires w'.engines == w.engines[c := |w.data|] && |w'.data| == |w.data| + 1 && w'.lookups == w.lookups + [(c, |w.data|)]
    ensures EnginesSound(w')
  {
  }

  lemma LookedUpSound(w: State, w': State, c: string)
    requires EnginesSound(w) && c in w.engines
    requires w'.engines == w.engines && |w'.data| == |w.data| && w'.lookups == w.lookups + [(c, w.engines[c])]
    ensures EnginesSound(w')
  {
  }

  lemma EnginesKept(w: State, t: nat, pick: string)
    requires Inv(w) && t < |w.workers| && Next(w, t, pick).Some?
    ensures EnginesSound(Next(w, t, pick).value)
  {
    assert Stands(w, t);
    var me := w.workers[t];
    if me.pc.Missed? {
      RegisteredSound(w, Next(w, t, pick).value, me.script[0].collection);
    } else if me.pc.Looking? && me.script[0].collection in w.engines {
      LookedUpSound(w, Next(w, t, pick).value, me.script[0].collection);
    }
  }

  /** Every step keeps the invariant, for the worker that moves and for all others. */
  lemma StepKeeps(w: State, t: nat, pick: string)
    requires Inv(w) && t < |w.workers| && Next(w, t, pick).Some?
    ensures Inv(Next(w, t, pick).value)
  {
    var w' := Next(w, t, pick).value;
    LocksKept(w, t, pick);
    EnginesKept(w, t, pick);
    MoverStands(w, t, pick);
    forall s | 0 <= s < |w'.workers| && s != t
      ensures Stands(w', s)
    {
      OtherStands(w, t, pick, s);
    }
  }

  // ---- Safety -------------------------------------------------------------------------------

  predicate Writing(w: State, t: nat)
    requires t < |w.workers|
  {
    w.workers[t].kind == Writer && w.workers[t].pc.Using?
  }

  predicate Accessing(w: State, t: nat)
    requires t < |w.workers|
  {
    w.workers[t].pc.Using? || w.workers[t].pc.Copying?
  }

  /** No write overlaps a read, another write or a capture. */
  lemma WritesAreAlone(w: State, s: nat, t: nat)
    requires Inv(w) && s < |w.workers| && t < |w.workers| && s != t
    ensures !(Writing(w, s) && Accessing(w, t))
  {
    assert Stands(w, s) && Stands(w, t);
  }

  /** Engines are registered once and never replaced. */
  lemma EnginesOnlyGrow(w: State, t: nat, pick: string)
    requires Inv(w) && t < |w.workers| && Next(w, t, pick).Some?
    ensures var w' := Next(w, t, pick).value;
            && |w'.workers| == |w.workers|
            && (forall c | c in w.engines :: c in w'.engines && w'.engines[c] == w.engines[c])
            && w.lookups <= w'.lookups
  {
    assert Stands(w, t);
  }

  /** While a capture copies, no other worker can move, so nothing it copies changes. */
  lemma CaptureIsAlone(w: State, s: nat, t: nat, pick: string)
    requires Inv(w) && s < |w.workers| && t < |w.workers| && s != t && w.workers[s].pc.Copying?
    ensures Next(w, t, pick).None?
  {
    assert Stands(w, s) && Stands(w, t);
  }

  /** A finished snapshot is what the whole database holds at that instant, though it
      was copied engine by engine. */
  lemma SnapshotIsAnInstant(w: State, t: nat, pick: string)
    requires Inv(w) && t < |w.workers| && w.workers[t].pc.Copying? && w.workers[t].pc.todo == {}
    ensures var w' := Next(w, t, pick).value;
            w'.snapshots == w.snapshots + [Contents(w)]
  {
    assert Stands(w, t);
    assert w.workers[t].pc.copied == Contents(w);
  }

  // ---- Runs --------------------------------------------------------------------------------------

  datatype Move = Move(worker: nat, pick: string)

  /** A schedule: one move after another, each possible when it is made. */
  ghost predicate Runs(w: State, moves: seq<Move>, end: State)
    decreases |moves|
  {
    if moves == [] then end == w
    else exists mid :: RunsTo(w, moves, mid, end)
  }

  ghost predicate RunsTo(w: State, moves: seq<Move>, mid: State, end: State)
    requires moves != []
    decreases |moves|, 0
  {
    var n := |moves| - 1;
    && Runs(w, moves[..n], mid)
    && (forall c | c in mid.engines :: mid.engines[c] < |mid.data|)
    && moves[n].worker < |mid.workers| && Next(mid, moves[n].worker, moves[n].pick) == Some(end)
  }

  /** Safety over whole runs: in every reachable state the invariant holds, engines only
      grow, and all lookups of a collection were given the one registered engine. */
  lemma {:induction false} RunsAreSafe(w: State, moves: seq<Move>, end: State)
    requires Inv(w) && Runs(w, moves, end)
    ensures Inv(end) && |end.workers| == |w.workers|
    ensures forall c | c in w.engines :: c in end.engines && end.engines[c] == w.engines[c]
    ensures forall i, j | 0 <= i < |end.lookups| && 0 <= j < |end.lookups| && end.lookups[i].0 == end.lookups[j].0 ::
              end.lookups[i].1 == end.lookups[j].1
    decreases |moves|
  {
    if moves != [] {
      var n := |moves| - 1;
      var mid :| RunsTo(w, moves, mid, end);
      RunsAreSafe(w, moves[..n], mid);
      StepKeeps(mid, moves[n].worker, moves[n].pick);
      EnginesOnlyGrow(mid, moves[n].worker, moves[n].pick);
    }
  }

  lemma SnapshotsGrow(w: State, t: nat, pick: string)
    requires Inv(w) && t < |w.workers| && Next(w, t, pick).Some?
    ensures var after := Next(w, t, pick).value.snapshots;
            after == w.snapshots || after == w.snapshots + [Contents(w)]
  {
    if w.workers[t].pc.Copying? && w.workers[t].pc.todo == {} {
      SnapshotIsAnInstant(w, t, pick);
    }
  }

  /** The run passed through state at, which held just this. */
  ghost predicate WasHeld(w: State, moves: seq<Move>, n: nat, at: State, snapshot: map<string, nat>) {
    && n <= |moves| && Runs(w, moves[..n], at)
    && (forall c | c in at.engines :: at.engines[c] < |at.data|)
    && snapshot == Contents(at)
  }

  /** Every snapshot taken in a run is what the whole database held at some point of
      the run. */
  lemma {:induction false} SnapshotsWereHeld(w: State, moves: seq<Move>, end: State, i: nat) returns (n: nat, at: State)
    requires Inv(w) && w.snapshots == [] && Runs(w, moves, end) && i < |end.snapshots|
    ensures WasHeld(w, moves, n, at, end.snapshots[i])
    decreases |moves|
  {
    var last := |moves| - 1;
    var mid :| RunsTo(w, moves, mid, end);
    RunsAreSafe(w, moves[..last], mid);
    SnapshotsGrow(mid, moves[last].worker, moves[last].pick);
    if i < |mid.snapshots| {
      n, at := SnapshotsWereHeld(w, moves[..last], mid, i);
      assert moves[..last][..n] == moves[..n];
    } else {
      n, at := last, mid;
    }
  }

  // ---- Progress -----------------------------------------------------------------------------------

  predicate CanMove(w: State, t: nat, pick: string)
    requires forall c | c in w.engines :: w.engines[c] < |w.data|
  {
    t < |w.workers| && Next(w, t, pick).Some?
  }

  /** No deadlock: as long as a worker is not done, some worker can move. */
  lemma SomeoneCanMove(w: State, t: nat) returns (s: nat, pick: string)
    requires Inv(w) && t < |w.workers| && w.workers[t].pc != Done
    ensures CanMove(w, s, pick)
  {
    pick := "";
    forall r | r in w.readers
      ensures InMu(w.workers[r].pc)
    {
      assert Stands(w, r);
    }
    if w.owner.Some? {
      s := w.owner.value;
      assert Stands(w, s);
      if w.workers[s].pc.Copying? && w.workers[s].pc.todo != {} {
        pick :| pick in w.workers[s].pc.todo;
      }
    } else if u :| 0 <= u < |w.workers| && InMu(w.workers[u].pc) {
      s := u;
      assert Stands(w, s);
    } else if u :| 0 <= u < |w.workers| && w.workers[u].pc.Pending? {
      s := u;
    } else {
      s := t;
      assert Stands(w, t);
      assert w.writer.Some? ==> Stands(w, w.writer.value);
      assert w.pending.Some? ==> Stands(w, w.pending.value);
    }
  }

  /** How many steps a worker can still take, if no more than size collections ever get
      an engine. */
  function Left(me: Worker, size: nat): nat {
    var held := if me.kind == Capturer then 4 + size else 1 + 4 * |me.script|;
    match me.pc
    case Start => held + 2
    case Pending => held + 1
    case Held => held
    case Looking => 4 * |me.script|
    case Missed => if me.script == [] then 0 else 4 * |me.script| - 1
    case Using(_) => if me.script == [] then 0 else 4 * |me.script| - 2
    case Copying(todo, _) => 3 + |todo|
    case Copied => 2
    case Leaving => 1
    case Done => 0
  }

  function TotalLeft(workers: seq<Worker>, size: nat): nat {
    if workers == [] then 0 else TotalLeft(workers[..|workers| - 1], size) + Left(workers[|workers| - 1], size)
  }

  lemma {:induction false} OneMoved(workers: seq<Worker>, t: nat, me: Worker, size: nat)
    requires t < |workers| && Left(me, size) < Left(workers[t], size)
    ensures TotalLeft(workers[t := me], size) < TotalLeft(workers, size)
    decreases |workers|
  {
    var n := |workers| - 1;
    if t == n {
      assert workers[t := me][..n] == workers[..n];
    } else {
      assert workers[t := me][..n] == workers[..n][t := me];
      OneMoved(workers[..n], t, me, size);
    }
  }

  /** Every collection that has an engine or is still to be used. */
  ghost predicate Named(w: State, names: set<string>) {
    && w.engines.Keys <= names
    && forall t, i | 0 <= t < |w.workers| && 0 <= i < |w.workers[t].script| :: w.workers[t].script[i].collection in names
  }

  lemma SubsetSize(a: set<string>, b: set<string>)
    requires a <= b
    ensures |a| <= |b|
  {
    if a != b {
      assert |b| == |a| + |b - a| by { assert a + (b - a) == b; }
    }
  }

  lemma OnlyMoverChanges(w: State, t: nat, pick: string)
    requires t < |w.workers| && (forall c | c in w.engines :: w.engines[c] < |w.data|) && Next(w, t, pick).Some?
    ensures var w' := Next(w, t, pick).value; |w'.workers| == |w.workers| && w'.workers == w.workers[t := w'.workers[t]]
  {
  }

  /** What a worker's own place says about its script. */
  predicate Scripted(me: Worker) {
    && (me.pc.Looking? || me.pc.Missed? || me.pc.Using? ==> me.script != [] && me.kind != Capturer)
    && (me.pc.Copying? || me.pc.Copied? ==> me.kind == Capturer)
  }

  lemma CopierHasLess(w: State, t: nat, pick: string, size: nat)
    requires t < |w.workers| && (forall c | c in w.engines :: w.engines[c] < |w.data|) && Next(w, t, pick).Some?
    requires w.workers[t].pc.Copying?
    ensures |Next(w, t, pick).value.workers| == |w.workers|
    ensures Left(Next(w, t, pick).value.workers[t], size) < Left(w.workers[t], size)
  {
    var todo := w.workers[t].pc.todo;
    if todo != {} {
      assert |todo - {pick}| == |todo| - 1;
    }
  }

  lemma WorkerHasLess(w: State, t: nat, pick: string, size: nat)
    requires t < |w.workers| && (forall c | c in w.engines :: w.engines[c] < |w.data|) && Next(w, t, pick).Some?
    requires !w.workers[t].pc.Copying? && Scripted(w.workers[t]) && |w.engines.Keys| <= size
    ensures |Next(w, t, pick).value.workers| == |w.workers|
    ensures Left(Next(w, t, pick).value.workers[t], size) < Left(w.workers[t], size)
  {
  }

  lemma MoverHasLess(w: State, t: nat, pick: string, size: nat)
    requires Inv(w) && t < |w.workers| && Next(w, t, pick).Some? && |w.engines.Keys| <= size
    ensures |Next(w, t, pick).value.workers| == |w.workers|
    ensures Left(Next(w, t, pick).value.workers[t], size) < Left(w.workers[t], size)
  {
    assert Stands(w, t);
    if w.workers[t].pc.Copying? {
      CopierHasLess(w, t, pick, size);
    } else {
      WorkerHasLess(w, t, pick, size);
    }
  }

  lemma StaysNamed(w: State, t: nat, pick: string, names: set<string>)
    requires Inv(w) && t < |w.workers| && Next(w, t, pick).Some? && Named(w, names)
    ensures Named(Next(w, t, pick).value, names)
  {
    var w' := Next(w, t, pick).value;
    assert w'.engines.Keys <= names by {
      if w.workers[t].pc.Missed? { assert w.workers[t].script[0].collection in names; }
    }
    forall u, i | 0 <= u < |w'.workers| && 0 <= i < |w'.workers[u].script|
      ensures w'.workers[u].script[i].collection in names
    {
      if u == t && w.workers[t].pc.Using? {
        assert w'.workers[u].script[i] == w.workers[u].script[i + 1];
      } else {
        assert w'.workers[u].script[i] == w.workers[u].script[i];
      }
    }
  }

  /** Every schedule ends: each step uses up some of a fixed total. */
  lemma StepsRunOut(w: State, t: nat, pick: string, names: set<string>)
    requires Inv(w) && t < |w.workers| && Next(w, t, pick).Some? && Named(w, names)
    ensures var w' := Next(w, t, pick).value;
            Named(w', names) && TotalLeft(w'.workers, |names|) < TotalLeft(w.workers, |names|)
  {
    var w' := Next(w, t, pick).value;
    StaysNamed(w, t, pick, names);
    SubsetSize(w.engines.Keys, names);
    OnlyMoverChanges(w, t, pick);
    MoverHasLess(w, t, pick, |names|);
    OneMoved(w.workers, t, w'.workers[t], |names|);
  }

  /** So no run is longer than the work there was to do. */
  lemma {:induction false} RunsAreBounded(w: State, moves: seq<Move>, end: State, names: set<string>)
    requires Inv(w) && Runs(w, moves, end) && Named(w, names)
    ensures Named(end, names) && |moves| + TotalLeft(end.workers, |names|) <= TotalLeft(w.workers, |names|)
    decreases |moves|
  {
    if moves != [] {
      var n := |moves| - 1;
      var mid :| RunsTo(w, moves, mid, end);
      RunsAreSafe(w, moves[..n], mid);
      RunsAreBounded(w, moves[..n], mid, names);
      StepsRunOut(mid, moves[n].worker, moves[n].pick, names);
    }
  }

  /** What holds in every state reachable from a database nobody has used yet: the
      invariant; all lookups of a collection got its one engine; no write overlaps another
      access; and unless all workers are done, some worker can move. And no schedule that
      leads there is longer than the work there was to do. */
  lemma ReachableIsSafe(w: State, moves: seq<Move>, end: State, names: set<string>)
    requires Initial(w) && Runs(w, moves, end) && Named(w, names)
    ensures Inv(end)
    ensures forall i, j | 0 <= i < |end.lookups| && 0 <= j < |end.lookups| && end.lookups[i].0 == end.lookups[j].0 ::
              end.lookups[i].1 == end.lookups[j].1
    ensures forall s, t | 0 <= s < |end.workers| && 0 <= t < |end.workers| && s != t :: !(Writing(end, s) && Accessing(end, t))
    ensures (exists t | 0 <= t < |end.workers| :: end.workers[t].pc != Done) ==> exists s: nat, pick :: CanMove(end, s, pick)
    ensures |moves| <= TotalLeft(w.workers, |names|)
  {
    InitialInv(w);
    RunsAreSafe(w, moves, end);
    RunsAreBounded(w, moves, end, names);
    forall s, t | 0 <= s < |end.workers| && 0 <= t < |end.workers| && s != t
      ensures !(Writing(end, s) && Accessing(end, t))
    {
      WritesAreAlone(end, s, t);
    }
    if t :| 0 <= t < |end.workers| && end.workers[t].pc != Done {
      var s, pick := SomeoneCanMove(end, t);
    }
  }
}
