/**
 Many processes appending to one PostgreSQL ledger: each takes the advisory lock, reads the table,
 verifies what it read, signs, inserts under the table's constraints, and commits or aborts.
 */
module LedgerProtocol {
  import opened Wrappers
  import opened Ledger

  /** Where one appender is in its transaction. */
  datatype Phase =
    | Idle
    | Waiting(event: Event, key: string)
    | Locked(event: Event, key: string)
    | HasRead(event: Event, key: string, snapshot: seq<Entry>)
    | Signed(entry: Entry)
    | Inserted(entry: Entry)

  /** `table` holds the committed rows in `sequence_no` order; an inserted row stays with its process until commit. */
  datatype State = State(table: seq<Entry>, lock: Option<nat>, procs: map<nat, Phase>)

  function PhaseOf(s: State, pid: nat): Phase {
    if pid in s.procs then s.procs[pid] else Idle
  }

  function At(s: State, pid: nat, phase: Phase): State {
    s.(procs := s.procs[pid := phase])
  }

  /** The primary key, the unique columns, the genesis check and the foreign key of the table. */
  ghost predicate Accepts(table: seq<Entry>, e: Entry) {
    && e.sequence > 0
    && ((e.sequence == 1) <==> e.previous.None?)
    && (forall i :: 0 <= i < |table| ==>
          && table[i].sequence != e.sequence
          && table[i].entryId != e.entryId
          && table[i].metadata.artifactId != e.metadata.artifactId
          && table[i].previous != e.previous)
    && (e.previous.Some? ==> exists i :: 0 <= i < |table| && Some(table[i].entryId) == e.previous)
  }

  /** A new row takes its place in `sequence_no` order. */
  function InsertRow(table: seq<Entry>, e: Entry): seq<Entry> {
    if table == [] || table[|table| - 1].sequence < e.sequence then table + [e]
    else InsertRow(table[..|table| - 1], e) + [table[|table| - 1]]
  }

  datatype Step =
    | Begin(pid: nat, event: Event, key: string)
    | Lock(pid: nat)
    | Read(pid: nat)
    | Sign(pid: nat)
    | RefuseInvalid(pid: nat)
    | Insert(pid: nat)
    | RejectRow(pid: nat)
    | Commit(pid: nat)
    | Abort(pid: nat)

  /** A transaction that ends gives the advisory lock back if it held it. */
  function Release(s: State, pid: nat): State {
    At(if s.lock == Some(pid) then s.(lock := None) else s, pid, Idle)
  }

  ghost predicate Next(crypto: Crypto, s: State, t: State, step: Step) {
    var phase := PhaseOf(s, step.pid);
    match step
    case Begin(pid, event, key) => phase.Idle? && EventValid(crypto, event) && t == At(s, pid, Waiting(event, key))
    case Lock(pid) => phase.Waiting? && s.lock.None? && t == At(s.(lock := Some(pid)), pid, Locked(phase.event, phase.key))
    case Read(pid) => phase.Locked? && t == At(s, pid, HasRead(phase.event, phase.key, s.table))
    case Sign(pid) => phase.HasRead? && LedgerValid(crypto, phase.snapshot)
                      && t == At(s, pid, Signed(NextEntry(crypto, phase.snapshot, phase.event, phase.key)))
    case RefuseInvalid(pid) => phase.HasRead? && !LedgerValid(crypto, phase.snapshot) && t == Release(s, pid)
    case Insert(pid) => phase.Signed? && Accepts(s.table, phase.entry) && t == At(s, pid, Inserted(phase.entry))
    case RejectRow(pid) => phase.Signed? && !Accepts(s.table, phase.entry) && t == Release(s, pid)
    case Commit(pid) => phase.Inserted? && t == Release(s.(table := InsertRow(s.table, phase.entry)), pid)
    case Abort(pid) => !phase.Idle? && t == Release(s, pid)
  }

  ghost predicate Run(crypto: Crypto, states: seq<State>, steps: seq<Step>) {
    && |states| == |steps| + 1
    && states[0] == State([], None, map[])
    && forall i :: 0 <= i < |steps| ==> Next(crypto, states[i], states[i + 1], steps[i])
  }

  /** Past the lock, a process holds it and what it has read and signed still fits the committed table. */
  ghost predicate PhaseFits(crypto: Crypto, s: State, pid: nat) {
    match PhaseOf(s, pid)
    case Idle => true
    case Waiting(event, _) => EventValid(crypto, event)
    case Locked(event, _) => EventValid(crypto, event) && s.lock == Some(pid)
    case HasRead(event, _, snapshot) => EventValid(crypto, event) && s.lock == Some(pid) && snapshot == s.table
    case Signed(entry) => s.lock == Some(pid) && IsNextOf(crypto, s.table, entry)
    case Inserted(entry) => s.lock == Some(pid) && IsNextOf(crypto, s.table, entry)
                            && !HasArtifact(s.table, entry.metadata.artifactId)
  }

  /** `entry` was built on exactly this table, for some acceptable event and key. */
  ghost predicate IsNextOf(crypto: Crypto, table: seq<Entry>, entry: Entry) {
    EventValid(crypto, entry.event) && exists key :: entry == NextEntry(crypto, table, entry.event, key)
  }

  ghost predicate Invariant(crypto: Crypto, s: State) {
    LedgerValid(crypto, s.table) && forall pid: nat :: PhaseFits(crypto, s, pid)
  }

  lemma HeadExists(crypto: Crypto, table: seq<Entry>)
    requires LedgerValid(crypto, table)
    ensures forall i :: 0 <= i < |table| ==> table[i].sequence == i + 1
    ensures forall i :: 0 <= i < |table| ==> table[i].previous == if i == 0 then None else Some(table[i - 1].entryId)
    ensures forall i, j :: 0 <= i < j < |table| ==> table[i].entryId != table[j].entryId
  {
    forall i | 0 <= i < |table|
      ensures table[i].sequence == i + 1
      ensures table[i].previous == if i == 0 then None else Some(table[i - 1].entryId)
      ensures forall j :: 0 <= j < i ==> table[j].entryId != table[i].entryId
    {
      assert SoundAt(crypto, table, i);
      if i > 0 {
        assert table[..i][i - 1] == table[i - 1];
      }
    }
  }

  /**
   On a table the appender read under the lock, every constraint but one is met by construction: the
   insert is rejected exactly when the artifact is already recorded.
   */
  lemma OnlyArtifactsCollide(crypto: Crypto, table: seq<Entry>, entry: Entry)
    requires Lawful(crypto) && LedgerValid(crypto, table) && IsNextOf(crypto, table, entry)
    ensures Accepts(table, entry) <==> !HasArtifact(table, entry.metadata.artifactId)
  {
    HeadExists(crypto, table);
    var key :| entry == NextEntry(crypto, table, entry.event, key);
    NextEntryIsNew(crypto, table, entry.event, key);
    forall i | 0 <= i < |table| ensures table[i].previous != entry.previous {
      assert entry.previous == Some(table[|table| - 1].entryId);
      assert SoundAt(crypto, table, i);
      if i > 0 {
        assert table[..i][i - 1] == table[i - 1];
        assert table[i - 1].entryId != table[|table| - 1].entryId;
      }
    }
    if table != [] {
      assert Some(table[|table| - 1].entryId) == entry.previous;
    }
  }

  lemma CommitExtends(crypto: Crypto, table: seq<Entry>, entry: Entry)
    requires Lawful(crypto) && LedgerValid(crypto, table) && IsNextOf(crypto, table, entry)
    requires !HasArtifact(table, entry.metadata.artifactId)
    ensures InsertRow(table, entry) == table + [entry] && LedgerValid(crypto, table + [entry])
  {
    HeadExists(crypto, table);
    var key :| entry == NextEntry(crypto, table, entry.event, key);
    AppendValidIff(crypto, table, entry.event, key);
  }

  /** One step of one process keeps the invariant and only ever extends the committed table. */
  lemma StepKeepsInvariant(crypto: Crypto, s: State, t: State, step: Step)
    requires Lawful(crypto) && Invariant(crypto, s) && Next(crypto, s, t, step)
    ensures Invariant(crypto, t) && s.table <= t.table
  {
    var pid := step.pid;
    assert PhaseFits(crypto, s, pid);
    var phase := PhaseOf(s, pid);
    match step {
      case Insert(_) =>
        OnlyArtifactsCollide(crypto, s.table, phase.entry);
      case Commit(_) =>
        CommitExtends(crypto, s.table, phase.entry);
      case Sign(_) =>
        assert NextEntry(crypto, phase.snapshot, phase.event, phase.key).event == phase.event;
        assert IsNextOf(crypto, s.table, NextEntry(crypto, phase.snapshot, phase.event, phase.key));
      case _ =>
    }
    forall other: nat ensures PhaseFits(crypto, t, other) {
      assert PhaseFits(crypto, s, other);
    }
  }

  lemma {:induction false} RunKeepsInvariant(crypto: Crypto, states: seq<State>, steps: seq<Step>, i: nat)
    requires Lawful(crypto) && Run(crypto, states, steps) && i < |states|
    ensures Invariant(crypto, states[i])
  {
    if i > 0 {
      RunKeepsInvariant(crypto, states, steps, i - 1);
      StepKeepsInvariant(crypto, states[i - 1], states[i], steps[i - 1]);
    }
  }

  /** In every interleaving, every committed table is a valid ledger and a prefix of every later one. */
  lemma {:induction false} CommittedTablesAreLedgers(crypto: Crypto, states: seq<State>, steps: seq<Step>, i: nat, j: nat)
    requires Lawful(crypto) && Run(crypto, states, steps) && i <= j < |states|
    ensures LedgerValid(crypto, states[i].table) && states[i].table <= states[j].table
    decreases j - i
  {
    RunKeepsInvariant(crypto, states, steps, i);
    if i < j {
      StepKeepsInvariant(crypto, states[i], states[i + 1], steps[i]);
      CommittedTablesAreLedgers(crypto, states, steps, i + 1, j);
    }
  }

  /** At most one process is past the lock. */
  lemma LockExcludes(crypto: Crypto, states: seq<State>, steps: seq<Step>, i: nat, p: nat, q: nat)
    requires Lawful(crypto) && Run(crypto, states, steps) && i < |states|
    requires !PhaseOf(states[i], p).Idle? && !PhaseOf(states[i], p).Waiting?
    requires !PhaseOf(states[i], q).Idle? && !PhaseOf(states[i], q).Waiting?
    ensures p == q
  {
    RunKeepsInvariant(crypto, states, steps, i);
    assert PhaseFits(crypto, states[i], p) && PhaseFits(crypto, states[i], q);
  }

  /** The refusal to append to an invalid ledger is never taken, and an insert fails only on a repeated artifact. */
  lemma WhyAppendsFail(crypto: Crypto, states: seq<State>, steps: seq<Step>, i: nat)
    requires Lawful(crypto) && Run(crypto, states, steps) && i < |steps|
    ensures !steps[i].RefuseInvalid?
    ensures steps[i].RejectRow? ==>
              var phase := PhaseOf(states[i], steps[i].pid);
              phase.Signed? && HasArtifact(states[i].table, phase.entry.metadata.artifactId)
  {
    RunKeepsInvariant(crypto, states, steps, i);
    var pid := steps[i].pid;
    assert PhaseFits(crypto, states[i], pid) && Next(crypto, states[i], states[i + 1], steps[i]);
    if steps[i].RejectRow? {
      OnlyArtifactsCollide(crypto, states[i].table, PhaseOf(states[i], pid).entry);
    }
  }
}
