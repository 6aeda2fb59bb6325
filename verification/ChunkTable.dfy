/**
  Concurrent replacements of one document's chunks under READ COMMITTED.

  A replacement deletes the rows its DELETE statement saw, waiting for rows that another open
  transaction has deleted, then inserts its output row by row, waiting for or failing on
  UNIQUE(document_id, ordinal).  Row(t, k) is chunk k of the output of transaction t.
 */
module ChunkTable {
  type TxId = nat
  datatype Key = Row(tx: TxId, index: nat)
  datatype Chunk = Chunk(ordinal: nat, body: string)

  /** `base` is the transaction whose committed output the DELETE statement saw. */
  datatype Phase =
    | Reading
    | Deleting(base: TxId, todo: set<Key>)
    | Inserting(base: TxId, next: nat)
    | Committed
    | Aborted

  /** While reading, `output` holds the stored chunks that were listed. */
  datatype Tx = Tx(output: seq<Chunk>, phase: Phase)

  /** `deleter` names the last transaction that deleted a row; `current` the last one to commit. */
  datatype State = State(txs: map<TxId, Tx>, deleter: map<Key, TxId>, current: TxId)

  datatype Step =
    | Read(t: TxId, stored: seq<Chunk>)
    | Rebuild(t: TxId, bodies: seq<string>)
    | Begin(t: TxId, output: seq<Chunk>)
    | DeleteRow(t: TxId, key: Key)
    | DeleteDone(t: TxId)
    | InsertRow(t: TxId)
    | Commit(t: TxId)
    | Abort(t: TxId)

  // ----- Visibility

  predicate IsCommitted(s: State, t: TxId) {
    t in s.txs && s.txs[t].phase.Committed?
  }

  predicate IsOpen(s: State, t: TxId) {
    t in s.txs && (s.txs[t].phase.Deleting? || s.txs[t].phase.Inserting?)
  }

  /** The row belongs to the output of t. */
  predicate RowOf(s: State, t: TxId, key: Key) {
    key.tx == t && t in s.txs && key.index < |s.txs[t].output|
  }

  predicate DeletedForGood(s: State, key: Key) {
    key in s.deleter && IsCommitted(s, s.deleter[key])
  }

  predicate Visible(s: State, key: Key) {
    IsCommitted(s, key.tx) && key.index < |s.txs[key.tx].output| && !DeletedForGood(s, key)
  }

  /** The committed rows of the document, as a statement starting now sees them. */
  ghost predicate Sees(s: State, keys: set<Key>) {
    forall key :: key in keys <==> Visible(s, key)
  }

  /** Row k of t has been written and t did not abort. */
  predicate Written(s: State, key: Key) {
    key.tx in s.txs &&
    var tx := s.txs[key.tx];
    key.index < |tx.output| && (tx.phase.Committed? || (tx.phase.Inserting? && key.index < tx.phase.next))
  }

  /** The row no longer counts for the uniqueness check of t. */
  predicate DeadFor(s: State, t: TxId, key: Key) {
    DeletedForGood(s, key) || (key in s.deleter && s.deleter[key] == t)
  }

  ghost predicate NoConflict(s: State, t: TxId, ordinal: nat) {
    forall key | Written(s, key) && s.txs[key.tx].output[key.index].ordinal == ordinal :: DeadFor(s, t, key)
  }

  // ----- Steps

  /** ListDocumentChunks: the visible chunks in order of their ordinals. */
  ghost predicate Lists(s: State, stored: seq<Chunk>) {
    && (forall i, j | 0 <= i < j < |stored| :: stored[i].ordinal < stored[j].ordinal)
    && (forall i | 0 <= i < |stored| ::
          exists key :: Visible(s, key) && s.txs[key.tx].output[key.index] == stored[i])
    && (forall key | Visible(s, key) :: s.txs[key.tx].output[key.index] in stored)
  }

  ghost predicate Enabled(s: State, step: Step) {
    match step
    case Read(t, stored) => t !in s.txs && Lists(s, stored) && stored != []
    case Rebuild(t, bodies) => t in s.txs && s.txs[t].phase.Reading? && |bodies| == |s.txs[t].output|
    case Begin(t, output) => t !in s.txs
    case DeleteRow(t, key) =>
      && t in s.txs && s.txs[t].phase.Deleting? && key in s.txs[t].phase.todo
      && (key in s.deleter ==> !IsOpen(s, s.deleter[key]))
    case DeleteDone(t) => t in s.txs && s.txs[t].phase.Deleting? && s.txs[t].phase.todo == {}
    case InsertRow(t) =>
      && t in s.txs && s.txs[t].phase.Inserting? && s.txs[t].phase.next < |s.txs[t].output|
      && NoConflict(s, t, s.txs[t].output[s.txs[t].phase.next].ordinal)
    case Commit(t) => t in s.txs && s.txs[t].phase.Inserting? && s.txs[t].phase.next == |s.txs[t].output|
    case Abort(t) => t in s.txs && !s.txs[t].phase.Committed?
  }

  function SetTx(s: State, t: TxId, tx: Tx): State {
    s.(txs := s.txs[t := tx])
  }

  /** The rows the DELETE of a transaction starting now will go through. */
  function Snapshot(s: State): set<Key> {
    set t, k | t in s.txs && 0 <= k < |s.txs[t].output| && Visible(s, Row(t, k)) :: Row(t, k)
  }

  function Rebuilt(stored: seq<Chunk>, bodies: seq<string>): seq<Chunk>
    requires |bodies| == |stored|
  {
    seq(|stored|, i requires 0 <= i < |stored| => Chunk(stored[i].ordinal, bodies[i]))
  }

  ghost function Next(s: State, step: Step): State
    requires Enabled(s, step)
  {
    match step
    case Read(t, stored) => SetTx(s, t, Tx(stored, Reading))
    case Rebuild(t, bodies) =>
      SetTx(s, t, Tx(Rebuilt(s.txs[t].output, bodies), Deleting(s.current, Snapshot(s))))
    case Begin(t, output) => SetTx(s, t, Tx(output, Deleting(s.current, Snapshot(s))))
    case DeleteRow(t, key) =>
      var tx := s.txs[t].(phase := s.txs[t].phase.(todo := s.txs[t].phase.todo - {key}));
      var rest := SetTx(s, t, tx);
      if DeletedForGood(s, key) then rest else rest.(deleter := s.deleter[key := t])
    case DeleteDone(t) => SetTx(s, t, s.txs[t].(phase := Inserting(s.txs[t].phase.base, 0)))
    case InsertRow(t) => SetTx(s, t, s.txs[t].(phase := s.txs[t].phase.(next := s.txs[t].phase.next + 1)))
    case Commit(t) => SetTx(s, t, s.txs[t].(phase := Committed)).(current := t)
    case Abort(t) => SetTx(s, t, s.txs[t].(phase := Aborted))
  }

  ghost predicate Runs(s: State, steps: seq<Step>)
    decreases |steps|
  {
    steps == [] || (Enabled(s, steps[0]) && Runs(Next(s, steps[0]), steps[1..]))
  }

  ghost function Exec(s: State, steps: seq<Step>): State
    requires Runs(s, steps)
    decreases |steps|
  {
    if steps == [] then s else Exec(Next(s, steps[0]), steps[1..])
  }

  // ----- What rebuilding guarantees about its output

  predicate HasZero(output: seq<Chunk>, n: nat)
    requires n <= |output|
  {
    exists k :: 0 <= k < n && output[k].ordinal == 0
  }

  /** Non-empty, with ordinal 0. */
  predicate Good(output: seq<Chunk>) {
    HasZero(output, |output|)
  }

  ghost predicate GoodSteps(steps: seq<Step>) {
    forall i | 0 <= i < |steps| && steps[i].Begin? :: Good(steps[i].output)
  }

  /** The document as CreateDocument left it. */
  function Fresh(output: seq<Chunk>): State {
    State(map[0 := Tx(output, Committed)], map[], 0)
  }

  // ----- The invariant

  /** Exactly the output of `current` is visible. */
  ghost predicate CurrentOk(s: State) {
    && IsCommitted(s, s.current)
    && (forall t | t in s.txs && !s.txs[t].phase.Aborted? :: Good(s.txs[t].output))
    && (forall key :: Visible(s, key) <==> RowOf(s, s.current, key))
    && (forall key | key in s.deleter ::
          IsCommitted(s, key.tx) && s.deleter[key] in s.txs && !s.txs[s.deleter[key]].phase.Reading?)
  }

  /** t has gone through the row: it deleted it, or another transaction did for good. */
  predicate Passed(s: State, t: TxId, key: Key) {
    key in s.deleter && (s.deleter[key] == t || IsCommitted(s, s.deleter[key]))
  }

  ghost predicate OpenOk(s: State, t: TxId)
    requires IsOpen(s, t)
  {
    var phase := s.txs[t].phase;
    && IsCommitted(s, phase.base)
    && (forall key | RowOf(s, phase.base, key) && (phase.Inserting? || key !in phase.todo) :: Passed(s, t, key))
    && (forall key | key in s.deleter && s.deleter[key] == t :: RowOf(s, phase.base, key))
    && (phase.Deleting? ==> forall key | key in phase.todo :: RowOf(s, phase.base, key))
    && (phase.Inserting? ==> phase.next <= |s.txs[t].output|)
  }

  /** A transaction that has written ordinal 0 has deleted the whole current output. */
  ghost predicate ZeroOk(s: State, t: TxId)
    requires IsOpen(s, t)
  {
    var tx := s.txs[t];
    tx.phase.Inserting? && tx.phase.next <= |tx.output| && HasZero(tx.output, tx.phase.next) ==>
      forall key | RowOf(s, s.current, key) :: key in s.deleter && s.deleter[key] == t
  }

  ghost predicate Inv(s: State) {
    CurrentOk(s) && forall t | IsOpen(s, t) :: OpenOk(s, t) && ZeroOk(s, t)
  }

  lemma SnapshotIsVisible(s: State)
    ensures Sees(s, Snapshot(s))
  {
    forall key | Visible(s, key) ensures key in Snapshot(s) {
      assert Visible(s, Row(key.tx, key.index));
    }
  }

  /** From s to s' only t moved, without committing; it deleted at most rows no other transaction holds. */
  ghost predicate LocalTo(s: State, s': State, t: TxId) {
    && s'.current == s.current && t in s'.txs && s'.txs == s.txs[t := s'.txs[t]]
    && !IsCommitted(s, t) && !IsCommitted(s', t)
    && (s'.txs[t].phase.Aborted? || Good(s'.txs[t].output))
    && (s'.txs[t].phase.Reading? ==> t !in s.txs && s'.deleter == s.deleter)
    && (forall key | key in s.deleter :: key in s'.deleter)
    && (forall key | key in s'.deleter ::
          || (key in s.deleter && s'.deleter[key] == s.deleter[key])
          || (s'.deleter[key] == t && IsCommitted(s, key.tx)
              && (key in s.deleter ==> !IsOpen(s, s.deleter[key]) && !IsCommitted(s, s.deleter[key]))))
  }

  lemma LocalKeepsVisible(s: State, s': State, t: TxId, key: Key)
    requires Inv(s) && LocalTo(s, s', t)
    ensures Visible(s', key) <==> Visible(s, key)
    ensures RowOf(s', s'.current, key) <==> RowOf(s, s.current, key)
  {
  }

  lemma LocalKeepsCurrent(s: State, s': State, t: TxId)
    requires Inv(s) && LocalTo(s, s', t)
    ensures CurrentOk(s')
  {
    forall key ensures Visible(s', key) <==> RowOf(s', s'.current, key) {
      LocalKeepsVisible(s, s', t, key);
      assert Visible(s, key) <==> RowOf(s, s.current, key);
    }
  }

  lemma LocalKeepsOthers(s: State, s': State, t: TxId, u: TxId)
    requires Inv(s) && LocalTo(s, s', t) && u != t && IsOpen(s', u)
    ensures OpenOk(s', u) && ZeroOk(s', u)
  {
    assert OpenOk(s, u) && ZeroOk(s, u);
    var phase := s.txs[u].phase;
    forall key | RowOf(s', phase.base, key) && (phase.Inserting? || key !in phase.todo) ensures Passed(s', u, key) {
      assert RowOf(s, phase.base, key);
      assert Passed(s, u, key);
    }
    forall key | key in s'.deleter && s'.deleter[key] == u ensures RowOf(s', phase.base, key) {
      assert s.deleter[key] == u;
    }
    forall key | RowOf(s', s'.current, key) ensures RowOf(s, s.current, key) {
    }
  }

  lemma LocalKeeps(s: State, s': State, t: TxId)
    requires Inv(s) && LocalTo(s, s', t)
    requires IsOpen(s', t) ==> OpenOk(s', t) && ZeroOk(s', t)
    ensures Inv(s')
  {
    LocalKeepsCurrent(s, s', t);
    forall u | IsOpen(s', u) ensures OpenOk(s', u) && ZeroOk(s', u) {
      if u != t {
        LocalKeepsOthers(s, s', t, u);
      }
    }
  }

  lemma KeptByStart(s: State, t: TxId, output: seq<Chunk>)
    requires Inv(s) && Good(output)
    requires t !in s.txs || s.txs[t].phase.Reading?
    requires forall key | key in s.deleter :: s.deleter[key] != t
    ensures Inv(SetTx(s, t, Tx(output, Deleting(s.current, Snapshot(s)))))
  {
    var s' := SetTx(s, t, Tx(output, Deleting(s.current, Snapshot(s))));
    SnapshotIsVisible(s);
    LocalKeeps(s, s', t);
  }

  lemma KeptByRead(s: State, t: TxId, stored: seq<Chunk>)
    requires Inv(s) && Enabled(s, Read(t, stored))
    ensures Inv(Next(s, Read(t, stored)))
  {
    var output := s.txs[s.current].output;
    var k :| 0 <= k < |output| && output[k].ordinal == 0;
    assert RowOf(s, s.current, Row(s.current, k));
    assert output[k] in stored;
    assert Good(stored);
    LocalKeeps(s, Next(s, Read(t, stored)), t);
  }

  lemma KeptByDelete(s: State, t: TxId, key: Key)
    requires Inv(s) && Enabled(s, DeleteRow(t, key))
    ensures Inv(Next(s, DeleteRow(t, key)))
  {
    assert OpenOk(s, t);
    var s' := Next(s, DeleteRow(t, key));
    assert LocalTo(s, s', t);
    forall other | RowOf(s', s.txs[t].phase.base, other) && other !in s'.txs[t].phase.todo ensures Passed(s', t, other) {
      assert other == key || Passed(s, t, other);
    }
    LocalKeeps(s, s', t);
  }

  /** What t has gone through stays so while it only moves on locally. */
  lemma PassedStays(s: State, s': State, t: TxId)
    requires Inv(s) && LocalTo(s, s', t) && s'.deleter == s.deleter && IsOpen(s, t) && IsOpen(s', t)
    requires s.txs[t].phase.Inserting? || s.txs[t].phase.todo == {}
    requires s'.txs[t].phase.base == s.txs[t].phase.base
    ensures forall key | RowOf(s', s.txs[t].phase.base, key) :: Passed(s', t, key)
    ensures forall key | key in s'.deleter && s'.deleter[key] == t :: RowOf(s', s.txs[t].phase.base, key)
  {
    assert OpenOk(s, t);
    forall key | RowOf(s', s.txs[t].phase.base, key) ensures Passed(s', t, key) {
      assert RowOf(s, s.txs[t].phase.base, key);
      assert Passed(s, t, key);
    }
  }

  lemma KeptByDeleteDone(s: State, t: TxId)
    requires Inv(s) && Enabled(s, DeleteDone(t))
    ensures Inv(Next(s, DeleteDone(t)))
  {
    var s' := Next(s, DeleteDone(t));
    assert OpenOk(s, t);
    PassedStays(s, s', t);
    LocalKeeps(s, s', t);
  }

  /** Writing ordinal 0 next to the current ordinal 0 means having deleted it, and all of its output. */
  lemma ZeroIsExclusive(s: State, t: TxId)
    requires Inv(s) && Enabled(s, InsertRow(t)) && s.txs[t].output[s.txs[t].phase.next].ordinal == 0
    ensures forall key | RowOf(s, s.current, key) :: key in s.deleter && s.deleter[key] == t
  {
    assert OpenOk(s, t);
    var output := s.txs[s.current].output;
    var k :| 0 <= k < |output| && output[k].ordinal == 0;
    var zero := Row(s.current, k);
    assert RowOf(s, s.current, zero);
    assert Written(s, zero) && Visible(s, zero);
    assert DeadFor(s, t, zero);
    assert s.txs[t].phase.base == s.current;
    forall key | RowOf(s, s.current, key) ensures key in s.deleter && s.deleter[key] == t {
      assert Passed(s, t, key) && Visible(s, key);
    }
  }

  lemma KeptByInsert(s: State, t: TxId)
    requires Inv(s) && Enabled(s, InsertRow(t))
    ensures Inv(Next(s, InsertRow(t)))
  {
    assert OpenOk(s, t) && ZeroOk(s, t);
    var tx := s.txs[t];
    var s' := Next(s, InsertRow(t));
    if tx.output[tx.phase.next].ordinal == 0 {
      ZeroIsExclusive(s, t);
    } else if HasZero(tx.output, tx.phase.next + 1) {
      assert HasZero(tx.output, tx.phase.next);
    }
    forall key | RowOf(s', s'.current, key) ensures RowOf(s, s.current, key) {
    }
    PassedStays(s, s', t);
    LocalKeeps(s, s', t);
  }

  /** A commit makes its own output, and nothing else, visible. */
  lemma CommitShows(s: State, t: TxId, key: Key)
    requires Inv(s) && Enabled(s, Commit(t))
    ensures Visible(Next(s, Commit(t)), key) <==> RowOf(Next(s, Commit(t)), t, key)
  {
    assert OpenOk(s, t) && ZeroOk(s, t);
    assert HasZero(s.txs[t].output, |s.txs[t].output|);
    var s' := Next(s, Commit(t));
    assert Visible(s, key) <==> RowOf(s, s.current, key);
    assert Visible(s', key) && key.tx != t ==> Visible(s, key);
  }

  lemma KeptByCommit(s: State, t: TxId)
    requires Inv(s) && Enabled(s, Commit(t))
    ensures Inv(Next(s, Commit(t)))
  {
    assert OpenOk(s, t) && ZeroOk(s, t);
    var tx := s.txs[t];
    assert HasZero(tx.output, |tx.output|);
    var s' := Next(s, Commit(t));
    forall key ensures Visible(s', key) <==> RowOf(s', t, key) {
      CommitShows(s, t, key);
    }
    assert CurrentOk(s');
    forall u | IsOpen(s', u) ensures OpenOk(s', u) && ZeroOk(s', u) {
      OthersAfterCommit(s, t, u);
    }
  }

  lemma OthersAfterCommit(s: State, t: TxId, u: TxId)
    requires Inv(s) && Enabled(s, Commit(t)) && IsOpen(s, u) && u != t
    ensures OpenOk(Next(s, Commit(t)), u) && ZeroOk(Next(s, Commit(t)), u)
  {
    var s' := Next(s, Commit(t));
    assert OpenOk(s, u) && ZeroOk(s, u) && ZeroOk(s, t);
    assert HasZero(s.txs[t].output, |s.txs[t].output|);
    var phase := s.txs[u].phase;
    forall key | RowOf(s', phase.base, key) && (phase.Inserting? || key !in phase.todo) ensures Passed(s', u, key) {
      assert RowOf(s, phase.base, key);
      assert Passed(s, u, key);
    }
    var current := s.txs[s.current].output;
    var k :| 0 <= k < |current| && current[k].ordinal == 0;
    assert RowOf(s, s.current, Row(s.current, k));
  }

  lemma KeptByAbort(s: State, t: TxId)
    requires Inv(s) && Enabled(s, Abort(t))
    ensures Inv(Next(s, Abort(t)))
  {
    LocalKeeps(s, Next(s, Abort(t)), t);
  }

  lemma RebuiltIsGood(stored: seq<Chunk>, bodies: seq<string>)
    requires |bodies| == |stored| && Good(stored)
    ensures Good(Rebuilt(stored, bodies))
  {
    var k :| 0 <= k < |stored| && stored[k].ordinal == 0;
    assert Rebuilt(stored, bodies)[k].ordinal == 0;
  }

  lemma InvKept(s: State, step: Step)
    requires Inv(s) && Enabled(s, step) && (step.Begin? ==> Good(step.output))
    ensures Inv(Next(s, step))
  {
    match step
    case Read(t, stored) => KeptByRead(s, t, stored);
    case Rebuild(t, bodies) =>
      RebuiltIsGood(s.txs[t].output, bodies);
      KeptByStart(s, t, Rebuilt(s.txs[t].output, bodies));
    case Begin(t, output) => KeptByStart(s, t, output);
    case DeleteRow(t, key) => KeptByDelete(s, t, key);
    case DeleteDone(t) => KeptByDeleteDone(s, t);
    case InsertRow(t) => KeptByInsert(s, t);
    case Commit(t) => KeptByCommit(s, t);
    case Abort(t) => KeptByAbort(s, t);
  }

  // ----- All or nothing, over all runs

  lemma {:induction false} RunKeepsInv(s: State, steps: seq<Step>)
    requires Inv(s) && Runs(s, steps) && GoodSteps(steps)
    ensures Inv(Exec(s, steps))
    decreases |steps|
  {
    if steps != [] {
      InvKept(s, steps[0]);
      assert forall i | 0 <= i < |steps[1..]| :: steps[1..][i] == steps[i + 1];
      RunKeepsInv(Next(s, steps[0]), steps[1..]);
    }
  }

  lemma FreshIsOk(output: seq<Chunk>)
    requires Good(output)
    ensures Inv(Fresh(output))
  {
  }

  /** The rows visible in s are the whole output of the committed transaction t. */
  ghost predicate ShowsExactly(s: State, t: TxId) {
    IsCommitted(s, t) && forall key :: Visible(s, key) <==> RowOf(s, t, key)
  }

  /**
    However replacements of a document interleave, block and fail, its committed chunks are at
    all times the whole output of exactly one committed rebuild.
   */
  lemma AllOrNothing(output: seq<Chunk>, steps: seq<Step>)
    requires Good(output) && Runs(Fresh(output), steps) && GoodSteps(steps)
    ensures ShowsExactly(Exec(Fresh(output), steps), Exec(Fresh(output), steps).current)
    ensures forall t | ShowsExactly(Exec(Fresh(output), steps), t) :: t == Exec(Fresh(output), steps).current
  {
    FreshIsOk(output);
    RunKeepsInv(Fresh(output), steps);
    var s := Exec(Fresh(output), steps);
    var shown := s.txs[s.current].output;
    var k :| 0 <= k < |shown| && shown[k].ordinal == 0;
    assert RowOf(s, s.current, Row(s.current, k));
  }

  // ----- Why rebuilds must contain ordinal 0

  lemma OneStep(s: State, step: Step, rest: seq<Step>, end: State)
    requires Enabled(s, step) && Runs(Next(s, step), rest) && Exec(Next(s, step), rest) == end
    ensures Runs(s, [step] + rest) && Exec(s, [step] + rest) == end
  {
    assert ([step] + rest)[1..] == rest;
  }

  lemma {:induction false} Append(s: State, first: seq<Step>, second: seq<Step>)
    requires Runs(s, first) && Runs(Exec(s, first), second)
    ensures Runs(s, first + second) && Exec(s, first + second) == Exec(Exec(s, first), second)
    decreases |first|
  {
    if first == [] {
      assert first + second == second;
    } else {
      assert first + second == [first[0]] + (first[1..] + second);
      Append(Next(s, first[0]), first[1..], second);
      OneStep(s, first[0], first[1..] + second, Exec(Exec(s, first), second));
    }
  }

  /** Two rebuilds have started; then the first one finishes. */
  function FirstDone(a: string, b: string): State {
    State(map[0 := Tx([Chunk(0, a)], Committed), 1 := Tx([Chunk(1, a)], Committed),
              2 := Tx([Chunk(2, b)], Deleting(0, {Row(0, 0)}))],
          map[Row(0, 0) := 1], 1)
  }

  function FirstSteps(a: string, b: string): seq<Step> {
    [Begin(1, [Chunk(1, a)]), Begin(2, [Chunk(2, b)]), DeleteRow(1, Row(0, 0)), DeleteDone(1), InsertRow(1), Commit(1)]
  }

  const SECOND_STEPS: seq<Step> := [DeleteRow(2, Row(0, 0)), DeleteDone(2), InsertRow(2), Commit(2)]

  lemma FirstFinishes(a: string, b: string)
    ensures Runs(Fresh([Chunk(0, a)]), FirstSteps(a, b))
    ensures Exec(Fresh([Chunk(0, a)]), FirstSteps(a, b)) == FirstDone(a, b)
  {
    var s0 := Fresh([Chunk(0, a)]);
    assert Visible(s0, Row(0, 0));
    var s1 := Next(s0, Begin(1, [Chunk(1, a)]));
    assert s1.txs[1].phase.todo == {Row(0, 0)};
    assert Visible(s1, Row(0, 0));
    var s2 := Next(s1, Begin(2, [Chunk(2, b)]));
    assert s2.txs[2].phase.todo == {Row(0, 0)};
    var s3 := Next(s2, DeleteRow(1, Row(0, 0)));
    var s4 := Next(s3, DeleteDone(1));
    var s5 := Next(s4, InsertRow(1));
    var s6 := Next(s5, Commit(1));
    assert s6 == FirstDone(a, b);
    OneStep(s5, Commit(1), [], s6);
    OneStep(s4, InsertRow(1), [Commit(1)], s6);
    OneStep(s3, DeleteDone(1), [InsertRow(1), Commit(1)], s6);
    OneStep(s2, DeleteRow(1, Row(0, 0)), [DeleteDone(1), InsertRow(1), Commit(1)], s6);
    OneStep(s1, Begin(2, [Chunk(2, b)]), FirstSteps(a, b)[2..], s6);
    OneStep(s0, Begin(1, [Chunk(1, a)]), FirstSteps(a, b)[1..], s6);
  }

  function BothDone(a: string, b: string): State {
    State(map[0 := Tx([Chunk(0, a)], Committed), 1 := Tx([Chunk(1, a)], Committed), 2 := Tx([Chunk(2, b)], Committed)],
          map[Row(0, 0) := 1], 2)
  }

  lemma SecondFinishes(a: string, b: string)
    ensures Runs(FirstDone(a, b), SECOND_STEPS) && Exec(FirstDone(a, b), SECOND_STEPS) == BothDone(a, b)
  {
    var s6 := FirstDone(a, b);
    var s7 := Next(s6, DeleteRow(2, Row(0, 0)));
    var s8 := Next(s7, DeleteDone(2));
    var s9 := Next(s8, InsertRow(2));
    assert Next(s9, Commit(2)) == BothDone(a, b);
    OneStep(s9, Commit(2), [], BothDone(a, b));
    OneStep(s8, InsertRow(2), [Commit(2)], BothDone(a, b));
    OneStep(s7, DeleteDone(2), SECOND_STEPS[2..], BothDone(a, b));
    OneStep(s6, DeleteRow(2, Row(0, 0)), SECOND_STEPS[1..], BothDone(a, b));
  }

  /**
    Were a rebuild free to leave out ordinal 0, two overlapping ones could both commit and
    leave the document with rows of each.
   */
  lemma WithoutZeroTheyMix(a: string, b: string)
    ensures Runs(Fresh([Chunk(0, a)]), FirstSteps(a, b) + SECOND_STEPS)
    ensures var end := Exec(Fresh([Chunk(0, a)]), FirstSteps(a, b) + SECOND_STEPS);
      Visible(end, Row(1, 0)) && Visible(end, Row(2, 0))
  {
    FirstFinishes(a, b);
    SecondFinishes(a, b);
    Append(Fresh([Chunk(0, a)]), FirstSteps(a, b), SECOND_STEPS);
  }
}
