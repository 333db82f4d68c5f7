/**
 Credential validations and supersessions as open transactions whose statements interleave
 (worker/handlers/credential.ts), under the row lock each takes first and the two unique
 indexes of the schema: one active credential per account and type, one credential per
 latched fingerprint.  Other transactions see a transaction's writes only once it commits.
 */
module CredentialTransactions {
  import opened CredentialLifecycle
  import opened Wrappers

  type Tx = nat

  /** The statements a transaction has issued: lock, check, status, latch; then it commits. */
  datatype Pc = Opened | Locked | Checked | Updated | Latched

  datatype Progress = Progress(goal: Event, pc: Pc)

  datatype State = State(committed: Tables, open: map<Tx, Progress>, done: seq<Event>)

  /** A refused statement, a deadlock, a timeout and a crash all abort. */
  datatype Action = Begin(x: Tx, goal: Event) | Step(x: Tx) | Abort(x: Tx)

  function NextStatus(goal: Event): Status {
    match goal
    case Validate(_, v) => StatusOf(v)
    case Supersede(_, _) => Superseded
  }

  /** Holds the lock on its credential's row until it ends. */
  predicate Holds(p: Progress) {
    p.pc != Opened
  }

  /** Has written `active` but not committed it. */
  predicate PendingActive(p: Progress) {
    (p.pc == Updated || p.pc == Latched) && NextStatus(p.goal) == Active
  }

  predicate PendingLatch(s: State, p: Progress) {
    p.pc == Latched && NextStatus(p.goal) == Active && p.goal.id !in s.committed.latches
  }

  predicate LockFree(s: State, x: Tx, id: CredentialId) {
    forall y :: y in s.open && y != x && Holds(s.open[y]) ==> s.open[y].goal.id != id
  }

  /** The index entries of other open transactions: a write that meets one waits. */
  predicate PairFree(s: State, x: Tx, id: CredentialId)
    requires id in s.committed.rows
  {
    forall y :: y in s.open && y != x && PendingActive(s.open[y]) && s.open[y].goal.id in s.committed.rows ==>
      !SamePair(s.committed.rows[s.open[y].goal.id], s.committed.rows[id])
  }

  predicate FingerprintFree(s: State, x: Tx, id: CredentialId)
    requires id in s.committed.rows
  {
    forall y :: y in s.open && y != x && PendingLatch(s, s.open[y]) && s.open[y].goal.id in s.committed.rows ==>
      s.committed.rows[s.open[y].goal.id].fingerprint != s.committed.rows[id].fingerprint
  }

  /** The next statement finds its lock and its index entry free; otherwise it waits or aborts. */
  predicate Unblocked(s: State, x: Tx)
    requires x in s.open
  {
    var t, id := s.committed, s.open[x].goal.id;
    id in t.rows ==>
      match s.open[x].pc
      case Opened => LockFree(s, x, id)
      case Checked => NextStatus(s.open[x].goal) == Active ==> !OtherActive(t, id) && PairFree(s, x, id)
      case Updated =>
        NextStatus(s.open[x].goal) == Active && id !in t.latches ==>
          !FingerprintTaken(t, id, t.rows[id].fingerprint) && FingerprintFree(s, x, id)
      case _ => true
  }

  predicate Enabled(s: State, a: Action) {
    match a
    case Begin(x, _) => x !in s.open
    case Step(x) => x in s.open && Unblocked(s, x)
    case Abort(x) => x in s.open
  }

  function Goto(s: State, x: Tx, pc: Pc): State
    requires x in s.open
  {
    s.(open := s.open[x := s.open[x].(pc := pc)])
  }

  function Drop(s: State, x: Tx): State {
    s.(open := s.open - {x})
  }

  /** The rows and latches a transaction leaves behind. */
  function Written(t: Tables, goal: Event): Tables
    requires goal.id in t.rows
  {
    var row := t.rows[goal.id];
    Tables(t.rows[goal.id := row.(status := NextStatus(goal))],
           if NextStatus(goal) != Active then t.latches - {goal.id}
           else if goal.id in t.latches then t.latches
           else t.latches[goal.id := row.fingerprint])
  }

  function StepOf(s: State, x: Tx): State
    requires x in s.open
  {
    var t, p := s.committed, s.open[x];
    if p.goal.id !in t.rows then Drop(s, x)
    else match p.pc
      case Opened =>
        if p.goal.Supersede? then
          if MaySupersede(t, p.goal.id, p.goal.account) then Goto(s, x, Updated) else Drop(s, x)
        else if t.rows[p.goal.id].status == Superseded then Drop(s, x)
        else Goto(s, x, Locked)
      case Locked =>
        if NextStatus(p.goal) == Active && t.rows[p.goal.id].status != Active && OtherActive(t, p.goal.id)
        then Drop(s, x)
        else Goto(s, x, Checked)
      case Checked => Goto(s, x, Updated)
      case Updated => Goto(s, x, Latched)
      case Latched => Drop(s.(committed := Written(t, p.goal), done := s.done + [p.goal]), x)
  }

  function Next(s: State, a: Action): State
    requires Enabled(s, a)
  {
    match a
    case Begin(x, goal) => s.(open := s.open[x := Progress(goal, Opened)])
    case Step(x) => StepOf(s, x)
    case Abort(x) => Drop(s, x)
  }

  predicate CanRun(s: State, actions: seq<Action>)
    decreases |actions|
  {
    actions == [] || (Enabled(s, actions[0]) && CanRun(Next(s, actions[0]), actions[1..]))
  }

  function Run(s: State, actions: seq<Action>): State
    requires CanRun(s, actions)
    decreases |actions|
  {
    if actions == [] then s else Run(Next(s, actions[0]), actions[1..])
  }

  // ---------------------------------------------------------------------
  // The invariant
  // ---------------------------------------------------------------------

  /** What a transaction that holds its row knows about the committed tables. */
  predicate TxOk(s: State, x: Tx) {
    x in s.open && Holds(s.open[x]) ==>
      var t, goal := s.committed, s.open[x].goal;
      && goal.id in t.rows
      && (goal.Supersede? ==>
            MaySupersede(t, goal.id, goal.account) && s.open[x].pc != Locked && s.open[x].pc != Checked)
      && (goal.Validate? ==> t.rows[goal.id].status != Superseded)
      && (PendingActive(s.open[x]) ==> !OtherActive(t, goal.id))
      && (PendingLatch(s, s.open[x]) ==> !FingerprintTaken(t, goal.id, t.rows[goal.id].fingerprint))
  }

  predicate Apart(s: State, x: Tx, y: Tx) {
    x in s.open && y in s.open && x != y && Holds(s.open[x]) && Holds(s.open[y]) ==>
      var i, j := s.open[x].goal.id, s.open[y].goal.id;
      && i != j
      && (i in s.committed.rows && j in s.committed.rows ==>
            && (PendingActive(s.open[x]) && PendingActive(s.open[y]) ==>
                  !SamePair(s.committed.rows[i], s.committed.rows[j]))
            && (PendingLatch(s, s.open[x]) && PendingLatch(s, s.open[y]) ==>
                  s.committed.rows[i].fingerprint != s.committed.rows[j].fingerprint))
  }

  ghost predicate Inv(s: State) {
    && Consistent(s.committed)
    && (forall x :: TxOk(s, x))
    && (forall x, y :: Apart(s, x, y))
  }

  lemma DropKeepsInv(s: State, x: Tx)
    requires Inv(s)
    ensures Inv(Drop(s, x))
  {
    var t := Drop(s, x);
    forall y ensures TxOk(t, y) { assert TxOk(s, y); }
    forall y, z ensures Apart(t, y, z) { assert Apart(s, y, z); }
  }

  lemma GotoKeepsApart(s: State, x: Tx, pc: Pc, y: Tx, z: Tx)
    requires Inv(s) && x in s.open && Unblocked(s, x) && StepOf(s, x) == Goto(s, x, pc) && s.open[x].pc != pc
    ensures Apart(Goto(s, x, pc), y, z)
  {
    assert Apart(s, y, z) && TxOk(s, y) && TxOk(s, z);
  }

  /** A transaction moves on after finding its lock and its index entry free. */
  lemma GotoKeepsInv(s: State, x: Tx, pc: Pc)
    requires Inv(s) && x in s.open && Unblocked(s, x) && StepOf(s, x) == Goto(s, x, pc) && s.open[x].pc != pc
    ensures Inv(Goto(s, x, pc))
  {
    var t := Goto(s, x, pc);
    forall y ensures TxOk(t, y) { assert TxOk(s, y); }
    forall y, z ensures Apart(t, y, z) { GotoKeepsApart(s, x, pc, y, z); }
  }

  /** At its commit a transaction does what the same event would do all at once. */
  lemma CommitIsApply(s: State, x: Tx)
    requires Inv(s) && x in s.open && s.open[x].pc == Latched
    ensures s.open[x].goal.id in s.committed.rows
    ensures Written(s.committed, s.open[x].goal) == Apply(s.committed, s.open[x].goal)
    ensures TakesEffect(s.committed, s.open[x].goal)
  {
    assert TxOk(s, x);
  }

  /** Another transaction's row, and what it knows, survive a commit. */
  lemma CommitLeavesOthers(s: State, x: Tx, y: Tx)
    requires Inv(s) && x in s.open && s.open[x].pc == Latched && x != y
    ensures TxOk(StepOf(s, x), y)
  {
    assert TxOk(s, x) && TxOk(s, y) && Apart(s, x, y) && Apart(s, y, x);
  }

  lemma CommitKeepsApart(s: State, x: Tx, y: Tx, z: Tx)
    requires Inv(s) && x in s.open && s.open[x].pc == Latched && x != y && x != z
    ensures Apart(StepOf(s, x), y, z)
  {
    assert TxOk(s, x) && TxOk(s, y) && TxOk(s, z);
    assert Apart(s, x, y) && Apart(s, x, z) && Apart(s, y, z);
  }

  lemma CommitKeepsInv(s: State, x: Tx)
    requires Inv(s) && x in s.open && s.open[x].pc == Latched
    ensures Inv(StepOf(s, x))
  {
    CommitIsApply(s, x);
    ApplyKeeps(s.committed, s.open[x].goal);
    var t := StepOf(s, x);
    forall y ensures TxOk(t, y) { if y != x { CommitLeavesOthers(s, x, y); } }
    forall y, z ensures Apart(t, y, z) { if y != x && z != x { CommitKeepsApart(s, x, y, z); } }
  }

  lemma StepKeepsInv(s: State, x: Tx)
    requires Inv(s) && x in s.open && Unblocked(s, x)
    ensures Inv(StepOf(s, x))
  {
    if s.open[x].pc == Latched {
      CommitIsApply(s, x);
      CommitKeepsInv(s, x);
    } else if StepOf(s, x) == Drop(s, x) {
      DropKeepsInv(s, x);
    } else {
      GotoKeepsInv(s, x, StepOf(s, x).open[x].pc);
    }
  }

  lemma NextKeepsInv(s: State, a: Action)
    requires Inv(s) && Enabled(s, a)
    ensures Inv(Next(s, a))
  {
    match a
    case Begin(x, goal) =>
      var t := Next(s, a);
      forall y ensures TxOk(t, y) { assert TxOk(s, y); }
      forall y, z ensures Apart(t, y, z) { assert Apart(s, y, z); }
    case Step(x) => StepKeepsInv(s, x);
    case Abort(x) => DropKeepsInv(s, x);
  }

  // ---------------------------------------------------------------------
  // Interleaved transactions are as good as atomic commits
  // ---------------------------------------------------------------------

  lemma {:induction false} ApplyAllSnoc(t: Tables, events: seq<Event>, e: Event)
    ensures ApplyAll(t, events + [e]) == Apply(ApplyAll(t, events), e)
    decreases |events|
  {
    if events == [] {
      assert [e][1..] == [];
    } else {
      ApplyAllSnoc(Apply(t, events[0]), events[1..], e);
      assert (events + [e])[1..] == events[1..] + [e];
    }
  }

  /** The committed tables are those of the committed events, one after the other. */
  ghost predicate Serial(origin: Tables, s: State) {
    s.committed == ApplyAll(origin, s.done)
  }

  lemma NextIsSerial(origin: Tables, s: State, a: Action)
    requires Inv(s) && Serial(origin, s) && Enabled(s, a)
    ensures Serial(origin, Next(s, a))
  {
    if a.Step? && s.open[a.x].pc == Latched {
      CommitIsApply(s, a.x);
      ApplyAllSnoc(origin, s.done, s.open[a.x].goal);
    }
  }

  lemma {:induction false} RunIsSerial(origin: Tables, s: State, actions: seq<Action>)
    requires Inv(s) && Serial(origin, s) && CanRun(s, actions)
    ensures Inv(Run(s, actions)) && Serial(origin, Run(s, actions))
    decreases |actions|
  {
    if actions != [] {
      NextKeepsInv(s, actions[0]);
      NextIsSerial(origin, s, actions[0]);
      RunIsSerial(origin, Next(s, actions[0]), actions[1..]);
    }
  }

  /**
   However the statements of any number of validations and supersessions interleave, wait,
   abort and crash: the committed tables are what their commits give one at a time, so a
   credential has its latch exactly when it is active, at most one per account and type is
   active, and `superseded` is never left, in every committed state.
   */
  lemma {:induction false} InterleavingsKeepConsistency(origin: Tables, actions: seq<Action>)
    requires Consistent(origin) && CanRun(State(origin, map[], []), actions)
    ensures var s := Run(State(origin, map[], []), actions);
            && s.committed == ApplyAll(origin, s.done)
            && Consistent(s.committed) && Preserves(origin, s.committed)
  {
    var start := State(origin, map[], []);
    RunIsSerial(origin, start, actions);
    CommitsKeepConsistency(origin, Run(start, actions).done);
  }

  /** Statements left until a transaction has committed. */
  function Left(p: Progress): nat {
    match p.pc
    case Opened => if p.goal.Supersede? then 3 else 5
    case Locked => 4
    case Checked => 3
    case Updated => 2
    case Latched => 1
  }

  function Steps(x: Tx, n: nat): seq<Action> {
    if n == 0 then [] else [Step(x)] + Steps(x, n - 1)
  }

  lemma {:induction false} AloneFrom(s: State, x: Tx)
    requires x in s.open && s.open == map[x := s.open[x]] && TakesEffect(s.committed, s.open[x].goal)
    requires s.open[x].goal.Supersede? ==> s.open[x].pc != Locked && s.open[x].pc != Checked
    ensures CanRun(s, Steps(x, Left(s.open[x])))
    ensures Run(s, Steps(x, Left(s.open[x]))) ==
              State(Apply(s.committed, s.open[x].goal), map[], s.done + [s.open[x].goal])
    decreases Left(s.open[x])
  {
    var p, n := s.open[x], Left(s.open[x]);
    assert Steps(x, n)[1..] == Steps(x, n - 1);
    var t := StepOf(s, x);
    if p.pc == Latched {
      assert t.open == map[];
    } else {
      AloneFrom(t, x);
    }
  }

  /** Undisturbed, a transaction whose event can take effect runs to its commit. */
  lemma {:induction false} AloneCommits(t: Tables, x: Tx, goal: Event)
    requires TakesEffect(t, goal)
    ensures var actions := [Begin(x, goal)] + Steps(x, Left(Progress(goal, Opened)));
            var start := State(t, map[], []);
            CanRun(start, actions) && Run(start, actions) == State(Apply(t, goal), map[], [goal])
  {
    var steps := Steps(x, Left(Progress(goal, Opened)));
    var s := State(t, map[x := Progress(goal, Opened)], []);
    assert s == Next(State(t, map[], []), Begin(x, goal));
    AloneFrom(s, x);
    assert ([Begin(x, goal)] + steps)[1..] == steps;
  }
}
