/**
 When a conversation is acceptable to the model: every assistant batch of tool calls is followed at
 once by one result per call, and no result stands alone.
 */
module ToolPairing {
  import opened Wrappers
  import opened HermesState

  predicate IsBatch(m: MessageRow) {
    m.role.Assistant? && m.toolCalls.Some? && m.toolCalls.value != []
  }

  function BatchSize(m: MessageRow): (n: nat)
    ensures IsBatch(m) ==> n > 0
  {
    if m.toolCalls.Some? then |m.toolCalls.value| else 0
  }

  function CallIds(calls: seq<ToolCall>): seq<string> {
    seq(|calls|, i requires 0 <= i < |calls| => calls[i].id)
  }

  predicate IsResult(m: MessageRow) {
    m.role.Tool? && m.kind.Normal? && m.toolCallId.Some?
  }

  function ResultIds(rows: seq<MessageRow>): seq<string> {
    seq(|rows|, i requires 0 <= i < |rows| => rows[i].toolCallId.GetOr(""))
  }

  /** `rows` are the results of `calls`: as many, in any order, each call answered exactly once. */
  ghost predicate Answers(calls: seq<ToolCall>, rows: seq<MessageRow>) {
    && |rows| == |calls|
    && (forall j :: 0 <= j < |rows| ==> IsResult(rows[j]))
    && multiset(ResultIds(rows)) == multiset(CallIds(calls))
  }

  ghost predicate BatchAnswered(rows: seq<MessageRow>, i: nat)
    requires i < |rows| && rows[i].toolCalls.Some?
  {
    var n := |rows[i].toolCalls.value|;
    i + n < |rows| && Answers(rows[i].toolCalls.value, rows[i + 1..i + 1 + n])
  }

  /** Every batch is followed at once by exactly its results. */
  ghost predicate BatchesAnswered(rows: seq<MessageRow>) {
    forall i :: 0 <= i < |rows| && IsBatch(rows[i]) ==> BatchAnswered(rows, i)
  }

  predicate Owns(rows: seq<MessageRow>, i: int, j: int) {
    0 <= i < j < |rows| && IsBatch(rows[i]) && j <= i + BatchSize(rows[i])
  }

  /** Every tool result belongs to a batch. */
  ghost predicate NoOrphans(rows: seq<MessageRow>) {
    forall j :: 0 <= j < |rows| && rows[j].role.Tool? ==> exists i :: Owns(rows, i, j)
  }

  ghost predicate Paired(rows: seq<MessageRow>) {
    BatchesAnswered(rows) && NoOrphans(rows)
  }

  /** A batch that ends inside `rows` is answered in any longer conversation with the same window. */
  lemma AnsweredWindow(a: seq<MessageRow>, i: nat, b: seq<MessageRow>, j: nat)
    requires i < |a| && a[i].toolCalls.Some? && BatchAnswered(a, i)
    requires j + BatchSize(a[i]) < |b|
    requires a[i..i + 1 + BatchSize(a[i])] == b[j..j + 1 + BatchSize(a[i])]
    ensures b[j] == a[i] && BatchAnswered(b, j)
  {
    var n := BatchSize(a[i]);
    assert a[i] == a[i..i + 1 + n][0] == b[j..j + 1 + n][0];
    assert a[i + 1..i + 1 + n] == a[i..i + 1 + n][1..];
    assert b[j + 1..j + 1 + n] == b[j..j + 1 + n][1..];
  }

  /** Inside the window of an answered batch there are only tool rows. */
  lemma OwnedIsTool(rows: seq<MessageRow>, i: int, j: int)
    requires BatchesAnswered(rows) && Owns(rows, i, j)
    ensures rows[j].role.Tool?
  {
    assert BatchAnswered(rows, i);
    var n := BatchSize(rows[i]);
    assert rows[i + 1..i + 1 + n][j - i - 1] == rows[j];
  }

  lemma AppendPlain(rows: seq<MessageRow>, m: MessageRow)
    requires BatchesAnswered(rows) && !IsBatch(m) && !m.role.Tool?
    ensures BatchesAnswered(rows + [m])
    ensures NoOrphans(rows) ==> NoOrphans(rows + [m])
  {
    var out := rows + [m];
    forall i | 0 <= i < |out| && IsBatch(out[i]) ensures BatchAnswered(out, i) {
      assert BatchAnswered(rows, i);
      AnsweredWindow(rows, i, out, i);
    }
    if NoOrphans(rows) {
      forall j | 0 <= j < |out| && out[j].role.Tool? ensures exists i :: Owns(out, i, j) {
        var i :| Owns(rows, i, j);
        assert Owns(out, i, j);
      }
    }
  }

  lemma ResultsAreTools(calls: seq<ToolCall>, results: seq<MessageRow>, front: seq<MessageRow>)
    requires Answers(calls, results)
    ensures forall i :: |front| <= i < |front + results| ==> (front + results)[i].role.Tool?
  {
    forall i | |front| <= i < |front + results| ensures (front + results)[i].role.Tool? {
      assert IsResult(results[i - |front|]);
    }
  }

  lemma AppendBatch(rows: seq<MessageRow>, batch: MessageRow, results: seq<MessageRow>)
    requires BatchesAnswered(rows) && IsBatch(batch) && Answers(batch.toolCalls.value, results)
    ensures BatchesAnswered(rows + [batch] + results)
  {
    var out := rows + [batch] + results;
    ResultsAreTools(batch.toolCalls.value, results, rows + [batch]);
    forall i | 0 <= i < |out| && IsBatch(out[i]) ensures BatchAnswered(out, i) {
      if i < |rows| {
        assert BatchAnswered(rows, i);
        AnsweredWindow(rows, i, out, i);
      } else {
        assert i == |rows|;
        assert out[i + 1..i + 1 + |results|] == results;
      }
    }
  }

  lemma AppendBatchOwned(rows: seq<MessageRow>, batch: MessageRow, results: seq<MessageRow>)
    requires NoOrphans(rows) && IsBatch(batch) && |results| == BatchSize(batch)
    ensures NoOrphans(rows + [batch] + results)
  {
    var out := rows + [batch] + results;
    forall j | 0 <= j < |out| && out[j].role.Tool? ensures exists i :: Owns(out, i, j) {
      if j < |rows| {
        var i :| Owns(rows, i, j);
        assert Owns(out, i, j);
      } else {
        assert Owns(out, |rows|, j);
      }
    }
  }

  /** Truncating right after a row that is neither a batch nor a result never splits a batch. */
  lemma TruncateAfter(rows: seq<MessageRow>, k: nat)
    requires BatchesAnswered(rows) && k < |rows| && !IsBatch(rows[k]) && !rows[k].role.Tool?
    ensures BatchesAnswered(rows[..k + 1])
    ensures NoOrphans(rows) ==> NoOrphans(rows[..k + 1])
  {
    var out := rows[..k + 1];
    forall i | 0 <= i < |out| && IsBatch(out[i]) ensures BatchAnswered(out, i) {
      assert BatchAnswered(rows, i);
      if i + BatchSize(rows[i]) >= k {
        assert Owns(rows, i, k);
        OwnedIsTool(rows, i, k);
      }
      AnsweredWindow(rows, i, out, i);
    }
    if NoOrphans(rows) {
      forall j | 0 <= j < |out| && out[j].role.Tool? ensures exists i :: Owns(out, i, j) {
        var i :| Owns(rows, i, j);
        assert Owns(out, i, j);
      }
    }
  }

  lemma SuffixAnswered(rows: seq<MessageRow>, k: nat)
    requires BatchesAnswered(rows) && k <= |rows|
    ensures BatchesAnswered(rows[k..])
  {
    var out := rows[k..];
    forall i | 0 <= i < |out| && IsBatch(out[i]) ensures BatchAnswered(out, i) {
      assert BatchAnswered(rows, k + i);
      AnsweredWindow(rows, k + i, out, i);
    }
  }

  /** A cut keeps results and batches together exactly when it does not fall in front of a result. */
  lemma SuffixPairedIff(rows: seq<MessageRow>, k: nat)
    requires Paired(rows) && k < |rows|
    ensures Paired(rows[k..]) <==> !rows[k].role.Tool?
  {
    var out := rows[k..];
    SuffixAnswered(rows, k);
    if rows[k].role.Tool? {
      assert out[0].role.Tool?;
      assert !exists i :: Owns(out, i, 0);
    } else {
      forall j | 0 <= j < |out| && out[j].role.Tool? ensures exists i :: Owns(out, i, j) {
        var i :| Owns(rows, i, k + j);
        if i < k {
          assert Owns(rows, i, k);
          OwnedIsTool(rows, i, k);
        }
        assert Owns(out, i - k, j);
      }
    }
  }

  lemma PrependPlain(m: MessageRow, rows: seq<MessageRow>)
    requires !IsBatch(m) && !m.role.Tool?
    ensures BatchesAnswered([m] + rows) <==> BatchesAnswered(rows)
    ensures NoOrphans([m] + rows) <==> NoOrphans(rows)
  {
    var out := [m] + rows;
    assert out[1..] == rows;
    if BatchesAnswered(rows) {
      forall i | 0 <= i < |out| && IsBatch(out[i]) ensures BatchAnswered(out, i) {
        assert BatchAnswered(rows, i - 1);
        AnsweredWindow(rows, i - 1, out, i);
      }
    }
    if BatchesAnswered(out) {
      SuffixAnswered(out, 1);
    }
    if NoOrphans(rows) {
      forall j | 0 <= j < |out| && out[j].role.Tool? ensures exists i :: Owns(out, i, j) {
        var i :| Owns(rows, i, j - 1);
        assert Owns(out, i + 1, j);
      }
    }
    if NoOrphans(out) {
      forall j | 0 <= j < |rows| && rows[j].role.Tool? ensures exists i :: Owns(rows, i, j) {
        assert out[j + 1].role.Tool?;
        var i :| Owns(out, i, j + 1);
        assert Owns(rows, i - 1, j);
      }
    }
  }
}
