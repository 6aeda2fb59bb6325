/** A replacement of a document's chunks that runs alone commits, and leaves exactly its output. */
module ChunkProgress {
  import opened ChunkTable

  ghost predicate DistinctOrdinals(output: seq<Chunk>) {
    forall i, j | 0 <= i < j < |output| :: output[i].ordinal != output[j].ordinal
  }

  ghost predicate OthersClosed(s: State, t: TxId) {
    forall u | u in s.txs && u != t :: !IsOpen(s, u)
  }

  /** t is the only open transaction. */
  ghost predicate Alone(s: State, t: TxId) {
    Inv(s) && IsOpen(s, t) && OthersClosed(s, t)
  }

  lemma OthersStayClosed(s: State, s': State, t: TxId)
    requires OthersClosed(s, t) && t in s'.txs && s'.txs == s.txs[t := s'.txs[t]]
    ensures OthersClosed(s', t)
  {
    forall u | u in s'.txs && u != t ensures !IsOpen(s', u) {
      assert u in s.txs && !IsOpen(s, u);
    }
  }

  ghost predicate Deletes(s: State, t: TxId) {
    && Alone(s, t) && s.txs[t].phase.Deleting? && s.txs[t].phase.base == s.current
    && forall key | key in s.txs[t].phase.todo :: key !in s.deleter || s.deleter[key] != t
  }

  /** The last state shows the output of t, and nothing else. */
  ghost predicate EndsWith(s: State, t: TxId, steps: seq<Step>, output: seq<Chunk>) {
    Runs(s, steps) && ShowsExactly(Exec(s, steps), t) && Exec(s, steps).txs[t].output == output
  }

  lemma FirstStep(s: State, t: TxId, step: Step, rest: seq<Step>, output: seq<Chunk>)
    requires Enabled(s, step) && EndsWith(Next(s, step), t, rest, output)
    ensures EndsWith(s, t, [step] + rest, output)
  {
    OneStep(s, step, rest, Exec(Next(s, step), rest));
  }

  lemma CommitsAlone(s: State, t: TxId)
    requires Alone(s, t) && Enabled(s, Commit(t))
    ensures EndsWith(s, t, [Commit(t)], s.txs[t].output)
  {
    var end := Next(s, Commit(t));
    InvKept(s, Commit(t));
    assert end.current == t && ShowsExactly(end, t);
    assert EndsWith(end, t, [], s.txs[t].output);
    FirstStep(s, t, Commit(t), [], s.txs[t].output);
    assert [Commit(t)] + [] == [Commit(t)];
  }

  /** Alone, every row that is not deleted for good or by t itself is one that t has written. */
  lemma OwnOrDead(s: State, t: TxId, key: Key)
    requires Alone(s, t) && s.txs[t].phase.Inserting? && s.txs[t].phase.base == s.current
    requires Written(s, key) && key.tx != t
    ensures DeadFor(s, t, key)
  {
    assert OpenOk(s, t) && !IsOpen(s, key.tx);
    if Visible(s, key) {
      assert RowOf(s, s.current, key);
      assert Passed(s, t, key);
    }
  }

  ghost predicate Inserts(s: State, t: TxId) {
    && Alone(s, t) && s.txs[t].phase.Inserting? && s.txs[t].phase.base == s.current
    && DistinctOrdinals(s.txs[t].output)
  }

  lemma {:induction false} InsertsAlone(s: State, t: TxId) returns (steps: seq<Step>)
    requires Inserts(s, t)
    ensures EndsWith(s, t, steps, s.txs[t].output)
    decreases |s.txs[t].output| - s.txs[t].phase.next
  {
    var output, next := s.txs[t].output, s.txs[t].phase.next;
    assert OpenOk(s, t);
    if next == |output| {
      CommitsAlone(s, t);
      steps := [Commit(t)];
    } else {
      forall key | Written(s, key) && s.txs[key.tx].output[key.index].ordinal == output[next].ordinal
        ensures DeadFor(s, t, key)
      {
        assert key.tx != t;
        OwnOrDead(s, t, key);
      }
      assert Enabled(s, InsertRow(t));
      InvKept(s, InsertRow(t));
      OthersStayClosed(s, Next(s, InsertRow(t)), t);
      var rest := InsertsAlone(Next(s, InsertRow(t)), t);
      FirstStep(s, t, InsertRow(t), rest, output);
      steps := [InsertRow(t)] + rest;
    }
  }

  lemma DeletedOneMore(s: State, t: TxId, key: Key)
    requires Deletes(s, t) && key in s.txs[t].phase.todo
    ensures Enabled(s, DeleteRow(t, key)) && Deletes(Next(s, DeleteRow(t, key)), t)
    ensures var s' := Next(s, DeleteRow(t, key));
      s'.txs[t].output == s.txs[t].output && s'.txs[t].phase.todo == s.txs[t].phase.todo - {key}
  {
    InvKept(s, DeleteRow(t, key));
    OthersStayClosed(s, Next(s, DeleteRow(t, key)), t);
  }

  lemma {:induction false} DeletesAlone(s: State, t: TxId) returns (steps: seq<Step>)
    requires Deletes(s, t) && DistinctOrdinals(s.txs[t].output)
    ensures EndsWith(s, t, steps, s.txs[t].output)
    decreases |s.txs[t].phase.todo|
  {
    var output, todo := s.txs[t].output, s.txs[t].phase.todo;
    if todo == {} {
      InvKept(s, DeleteDone(t));
      OthersStayClosed(s, Next(s, DeleteDone(t)), t);
      var rest := InsertsAlone(Next(s, DeleteDone(t)), t);
      FirstStep(s, t, DeleteDone(t), rest, output);
      steps := [DeleteDone(t)] + rest;
    } else {
      var key :| key in todo;
      DeletedOneMore(s, t, key);
      var rest := DeletesAlone(Next(s, DeleteRow(t, key)), t);
      FirstStep(s, t, DeleteRow(t, key), rest, output);
      steps := [DeleteRow(t, key)] + rest;
    }
  }

  /** With no other replacement open, one with ordinal 0 and without repeated ordinals can commit its whole output. */
  lemma ReplacementCommits(s: State, t: TxId, output: seq<Chunk>) returns (steps: seq<Step>)
    requires Inv(s) && t !in s.txs && OthersClosed(s, t)
    requires Good(output) && DistinctOrdinals(output)
    ensures EndsWith(s, t, [Begin(t, output)] + steps, output)
  {
    InvKept(s, Begin(t, output));
    var s1 := Next(s, Begin(t, output));
    OthersStayClosed(s, s1, t);
    steps := DeletesAlone(s1, t);
    FirstStep(s, t, Begin(t, output), steps, output);
  }

  /** A rebuild of the stored chunks keeps their ordinals and order, and takes the bodies. */
  predicate IsRebuilt(output: seq<Chunk>, stored: seq<Chunk>, bodies: seq<string>) {
    && |output| == |stored| == |bodies|
    && forall i | 0 <= i < |output| :: output[i].ordinal == stored[i].ordinal && output[i].body == bodies[i]
  }

  /** Reading the stored chunks and rebuilding them, with no other replacement open, ends in the rebuilt chunks. */
  lemma RebuildCommits(s: State, t: TxId, stored: seq<Chunk>, bodies: seq<string>)
    returns (steps: seq<Step>, output: seq<Chunk>)
    requires Inv(s) && OthersClosed(s, t) && Enabled(s, Read(t, stored)) && |bodies| == |stored|
    ensures IsRebuilt(output, stored, bodies)
    ensures EndsWith(s, t, [Read(t, stored)] + ([Rebuild(t, bodies)] + steps), output)
  {
    output := Rebuilt(stored, bodies);
    InvKept(s, Read(t, stored));
    var s1 := Next(s, Read(t, stored));
    OthersStayClosed(s, s1, t);
    InvKept(s1, Rebuild(t, bodies));
    var s2 := Next(s1, Rebuild(t, bodies));
    OthersStayClosed(s1, s2, t);
    steps := DeletesAlone(s2, t);
    FirstStep(s1, t, Rebuild(t, bodies), steps, output);
    FirstStep(s, t, Read(t, stored), [Rebuild(t, bodies)] + steps, output);
  }
}
