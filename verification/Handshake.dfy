/**
 Starting and stopping a worker thread through two flags, `enable_thread` and
 `active_thread`.  The pulser of the MCPHA server and the EP6 sender of the HPSDR
 servers use the same protocol; what the main thread writes between stop and start is the
 histogram table in the first and the destination address in the others.

 The threads take turns in any order, one access to shared memory at a time.
 */
module Handshake {

  const SIZE := 4096

  type Table = t: seq<int> | |t| == SIZE witness seq(SIZE, _ => 0)

  /** What the main thread does after it has seen the worker gone. */
  datatype Goal = Stop | Start(table: Table)

  /** Where the main thread is: the access to shared memory it makes next. */
  datatype Main =
    | Serving
    | ClearEnable(goal: Goal)
    | AwaitInactive(goal: Goal)
    | Fill(next: nat, table: Table)
    | SetEnable(table: Table)
    | SetActive(table: Table)
    | Create(table: Table)

  /** Where a worker is.  Only a gone worker has executed its `active_thread = 0`. */
  datatype Place = Test | Work | Leave | Gone

  /** A worker remembers, for the proofs only, the table it was started for. */
  datatype Worker = Worker(place: Place, table: Table)

  datatype State = State(enable: bool, active: bool, table: Table, main: Main, workers: seq<Worker>)

  datatype Action =
    | Command(goal: Goal)   // the main thread takes up a command
    | Abandon               // it finds the new spectrum empty
    | Advance               // it makes its next access
    | Move(worker: nat)     // a worker makes its next access other than reading the table
    | Read(worker: nat, index: nat)

  ghost predicate Initial(s: State) {
    !s.enable && !s.active && s.main == Serving && s.workers == []
  }

  function MoveMain(s: State): State
  {
    match s.main
    case Serving => s
    case ClearEnable(goal) => s.(enable := false, main := AwaitInactive(goal))
    case AwaitInactive(goal) =>
      if s.active then s
      else s.(main := if goal.Stop? then Serving else Fill(0, goal.table))
    case Fill(next, table) =>
      if next < SIZE then s.(table := s.table[next := table[next]], main := Fill(next + 1, table))
      else s.(main := SetEnable(table))
    case SetEnable(table) => s.(enable := true, main := SetActive(table))
    case SetActive(table) => s.(active := true, main := Create(table))
    case Create(table) => s.(workers := s.workers + [Worker(Test, table)], main := Serving)
  }

  function MoveWorker(s: State, w: nat): State
    requires w < |s.workers|
  {
    var worker := s.workers[w];
    match worker.place
    case Test => s.(workers := s.workers[w := worker.(place := if s.enable then Work else Leave)])
    case Work => s.(workers := s.workers[w := worker.(place := Test)])
    case Leave => s.(active := false, workers := s.workers[w := worker.(place := Gone)])
    case Gone => s
  }

  predicate Possible(s: State, a: Action) {
    match a
    case Command(goal) => s.main.Serving?
    case Abandon => s.main.Fill? && s.main.next == 0
    case Advance => true
    case Move(w) => w < |s.workers|
    case Read(w, i) => w < |s.workers| && s.workers[w].place.Work? && i < SIZE
  }

  function Next(s: State, a: Action): State
    requires Possible(s, a)
  {
    match a
    case Command(goal) => s.(main := ClearEnable(goal))
    case Abandon => s.(main := Serving)
    case Advance => MoveMain(s)
    case Move(w) => MoveWorker(s, w)
    case Read(_, _) => s
  }

  /** Every interleaving: any sequence of actions each of which is possible when its turn comes. */
  ghost predicate Reaches(s: State, actions: seq<Action>, t: State) {
    if actions == [] then s == t
    else
      var last := |actions| - 1;
      exists m :: Reaches(s, actions[..last], m) && Possible(m, actions[last]) && t == Next(m, actions[last])
  }

  predicate Live(s: State, w: nat) { w < |s.workers| && !s.workers[w].place.Gone? }

  ghost predicate NoWorker(s: State) { forall w: nat :: !Live(s, w) }

  /** Whether the main thread is between seeing the worker gone and creating the next one. */
  predicate Rebuilding(m: Main) { m.Fill? || m.SetEnable? || m.SetActive? || m.Create? }

  ghost predicate Inv(s: State) {
    && (forall w: nat | Live(s, w) :: s.active && s.workers[w].table == s.table)
    && (forall v: nat, w: nat | Live(s, v) && Live(s, w) :: v == w)
    && (Rebuilding(s.main) ==> NoWorker(s))
    && (s.main.Fill? ==> s.main.next <= SIZE && s.table[..s.main.next] == s.main.table[..s.main.next])
    && (s.main.SetEnable? || s.main.SetActive? || s.main.Create? ==> s.table == s.main.table)
    && (s.main.Create? ==> s.active)
    && (s.active && !s.main.Create? ==> exists w: nat :: Live(s, w))
    && (s.main.AwaitInactive? ==> !s.enable)
    && (s.main.SetActive? || s.main.Create? ==> s.enable)
    && (forall w: nat | Live(s, w) && !s.main.AwaitInactive? :: s.enable)
  }

  lemma MainKeeps(s: State)
    requires Inv(s)
    ensures Inv(MoveMain(s))
  {
    var t := MoveMain(s);
    if s.main.Create? {
      assert forall w: nat | Live(t, w) :: w == |s.workers| || Live(s, w);
      assert Live(t, |s.workers|);
    } else {
      assert forall w: nat :: Live(t, w) <==> Live(s, w);
    }
  }

  lemma WorkerKeeps(s: State, w: nat)
    requires Inv(s) && w < |s.workers|
    ensures Inv(MoveWorker(s, w))
  {
    var t := MoveWorker(s, w);
    assert forall v: nat | Live(t, v) :: Live(s, v) && t.workers[v].table == s.workers[v].table;
    if s.workers[w].place.Leave? {
      assert Live(s, w);
    } else {
      assert forall v: nat | Live(s, v) :: Live(t, v);
    }
  }

  lemma NextKeeps(s: State, a: Action)
    requires Inv(s) && Possible(s, a)
    ensures Inv(Next(s, a))
  {
    match a
    case Advance => MainKeeps(s);
    case Move(w) => WorkerKeeps(s, w);
    case Command(_) => assert forall w: nat :: Live(Next(s, a), w) <==> Live(s, w);
    case Abandon => assert forall w: nat :: Live(Next(s, a), w) <==> Live(s, w);
    case Read(_, _) =>
  }

  lemma {:induction false} ReachesKeeps(s: State, actions: seq<Action>, t: State)
    requires Initial(s) && Reaches(s, actions, t)
    ensures Inv(t)
  {
    if actions != [] {
      var last := |actions| - 1;
      var m :| Reaches(s, actions[..last], m) && Possible(m, actions[last]) && t == Next(m, actions[last]);
      ReachesKeeps(s, actions[..last], m);
      NextKeeps(m, actions[last]);
    }
  }

  /** In every interleaving at most one worker lies between its creation and its `active_thread = 0`. */
  lemma AtMostOneWorker(s: State, actions: seq<Action>, t: State, v: nat, w: nat)
    requires Initial(s) && Reaches(s, actions, t)
    requires Live(t, v) && Live(t, w)
    ensures v == w && t.active
  {
    ReachesKeeps(s, actions, t);
  }

  /** The wait on `active_thread` ends exactly when no worker is left; then the main thread goes on to the goal. */
  lemma StopCompletesIff(s: State, actions: seq<Action>, t: State)
    requires Initial(s) && Reaches(s, actions, t) && t.main.AwaitInactive?
    ensures MoveMain(t).main != t.main <==> NoWorker(t)
    ensures NoWorker(t) ==> MoveMain(t) == t.(main := if t.main.goal.Stop? then Serving else Fill(0, t.main.goal.table))
  {
    ReachesKeeps(s, actions, t);
    if t.active { var w: nat :| Live(t, w); }
  }

  /** If the new spectrum turns out to be empty, the table stays as it is and there is no worker. */
  lemma AbandonedStart(s: State, actions: seq<Action>, t: State)
    requires Initial(s) && Reaches(s, actions, t)
    requires t.main.AwaitInactive? && t.main.goal.Start? && !t.active
    ensures var r := MoveMain(t);
      Possible(r, Abandon) && NoWorker(r) && Next(r, Abandon) == t.(main := Serving)
    ensures Possible(MoveMain(t), Advance) && !Possible(MoveMain(MoveMain(t)), Abandon)
  {
    ReachesKeeps(s, actions, t);
    assert forall w: nat :: Live(MoveMain(t), w) <==> Live(t, w);
  }

  /** The table changes only while no worker can read it. */
  lemma WritesAreExclusive(s: State, actions: seq<Action>, t: State, a: Action)
    requires Initial(s) && Reaches(s, actions, t) && Possible(t, a)
    requires Next(t, a).table != t.table
    ensures NoWorker(t) && NoWorker(Next(t, a))
  {
    ReachesKeeps(s, actions, t);
    assert forall w: nat :: Live(MoveMain(t), w) ==> Live(t, w) || t.main.Create?;
  }

  /** Every value a worker reads is from the complete table it was started for. */
  lemma ReadsAreConsistent(s: State, actions: seq<Action>, t: State, w: nat, i: nat)
    requires Initial(s) && Reaches(s, actions, t) && Possible(t, Read(w, i))
    ensures t.table[i] == t.workers[w].table[i]
  {
    ReachesKeeps(s, actions, t);
    assert Live(t, w);
  }

  /** How many accesses a worker still makes once `enable_thread` is cleared. */
  function Rank(p: Place): nat {
    match p
    case Work => 3
    case Test => 2
    case Leave => 1
    case Gone => 0
  }

  /** While the main thread waits, every access of the worker brings its end closer, and nothing undoes that. */
  lemma StopIsBounded(s: State, actions: seq<Action>, t: State, a: Action, w: nat)
    requires Initial(s) && Reaches(s, actions, t) && Possible(t, a)
    requires t.main.AwaitInactive? && Live(t, w)
    ensures Next(t, a).main == t.main
    ensures a == Move(w) ==> Rank(Next(t, a).workers[w].place) == Rank(t.workers[w].place) - 1
    ensures a != Move(w) ==> w < |Next(t, a).workers| && Next(t, a).workers[w] == t.workers[w]
  {
    ReachesKeeps(s, actions, t);
  }

  /** A worker is told to leave its loop only while the main thread waits for that. */
  lemma WorkersKeepWorking(s: State, actions: seq<Action>, t: State, w: nat)
    requires Initial(s) && Reaches(s, actions, t)
    requires Live(t, w) && t.workers[w].place.Test?
    ensures MoveWorker(t, w).workers[w].place == if t.main.AwaitInactive? then Leave else Work
  {
    ReachesKeeps(s, actions, t);
  }

  /** Once a start command is through, there is a worker for its table, and its first test takes it to work. */
  lemma StartedWorkerWorks(s: State, actions: seq<Action>, t: State)
    requires Initial(s) && Reaches(s, actions, t) && t.main.Create?
    ensures var r, w := MoveMain(t), |t.workers|;
      && r.main.Serving? && Live(r, w) && r.workers[w] == Worker(Test, t.main.table)
      && r.table == t.main.table && |r.table| == 4096
      && MoveWorker(r, w).workers[w].place.Work?
  {
    ReachesKeeps(s, actions, t);
  }

  /** The accesses that the main thread makes for a start command once the worker before is gone. */
  function StartSteps(m: Main): nat
    requires Rebuilding(m)
  {
    match m
    case Fill(next, _) => if next <= SIZE then SIZE - next + 4 else 0
    case SetEnable(_) => 3
    case SetActive(_) => 2
    case Create(_) => 1
  }

  /** Nothing holds the main thread up between the end of the wait and the new worker. */
  lemma StartIsBounded(s: State, actions: seq<Action>, t: State)
    requires Initial(s) && Reaches(s, actions, t) && Rebuilding(t.main)
    ensures Possible(t, Advance)
    ensures var m := MoveMain(t).main;
      if t.main.Create? then m.Serving?
      else Rebuilding(m) && m.table == t.main.table && StartSteps(m) == StartSteps(t.main) - 1
  {
    ReachesKeeps(s, actions, t);
  }
}
