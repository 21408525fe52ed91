/** The copy-truncate retention of the RF log. */
module RfLog {
  import opened Common
  import RfRecord

  // ---------------------------------------------------------------------------
  // Retention: one live file, one previous segment

  /** `prev` is unknown after a failed copy: the segment is opened for overwriting first. */
  datatype Files = Files(live: string, prev: Option<string>)

  datatype Op = Op(line: string, copies: bool, truncates: bool)

  predicate Rolls(live: string, line: string, max: nat) {
    |live| + |line| > max
  }

  function Written(f: Files, op: Op, max: nat): Files {
    if !Rolls(f.live, op.line, max) then f.(live := f.live + op.line)
    else if !op.copies then Files(f.live + op.line, None)
    else Files((if op.truncates then "" else f.live) + op.line, Some(f.live))
  }

  function After(ops: seq<Op>, max: nat): Files {
    if ops == [] then Files("", Some("")) else Written(After(ops[..|ops| - 1], max), ops[|ops| - 1], max)
  }

  /** The full history of the lines. */
  function History(ops: seq<Op>): string {
    if ops == [] then "" else History(ops[..|ops| - 1]) + ops[|ops| - 1].line
  }

  /** A line that fits under the cap is appended and the previous segment is left alone. One that does not
      moves the live file there, if that can be copied, and starts a new one, if that can be truncated. */
  lemma RollsExactlyWhenFull(f: Files, op: Op, max: nat)
    ensures |f.live| + |op.line| <= max ==> Written(f, op, max) == Files(f.live + op.line, f.prev)
    ensures |f.live| + |op.line| > max && op.copies ==>
              Written(f, op, max) == Files(if op.truncates then op.line else f.live + op.line, Some(f.live))
    ensures |f.live| + |op.line| > max && !op.copies ==> Written(f, op, max).live == f.live + op.line
  {
    assert "" + op.line == op.line;
  }

  /** Nothing is ever moved while the whole history fits under the cap. */
  lemma {:induction false} SmallLogsStayWhole(ops: seq<Op>, max: nat)
    requires |History(ops)| <= max
    ensures After(ops, max) == Files(History(ops), Some(""))
  {
    if ops != [] {
      var n := |ops| - 1;
      SmallLogsStayWhole(ops[..n], max);
      RollsExactlyWhenFull(After(ops[..n], max), ops[n], max);
    }
  }

  /** How many of the last lines were written since the last successful truncate, that one included. */
  function Since(ops: seq<Op>, max: nat): nat {
    if ops == [] then 0
    else
      var n := |ops| - 1;
      if Rolls(After(ops[..n], max).live, ops[n].line, max) && ops[n].copies && ops[n].truncates then 1
      else Since(ops[..n], max) + 1
  }

  lemma {:induction false} HistoryConcat(a: seq<Op>, b: seq<Op>)
    ensures History(a + b) == History(a) + History(b)
    decreases |b|
  {
    if b == [] {
      assert a + b == a;
    } else {
      var front, last := b[..|b| - 1], b[|b| - 1];
      HistoryConcat(a, front);
      assert History(a + b) == History(a + front) + last.line by {
        assert (a + b)[..|a + b| - 1] == a + front;
      }
      RfRecord.Associative(History(a), History(front), last.line);
    }
  }

  lemma HistorySnoc(ops: seq<Op>, from: nat)
    requires from < |ops|
    ensures History(ops[from..]) == History(ops[..|ops| - 1][from..]) + ops[|ops| - 1].line
  {
    assert ops[from..][..|ops| - 1 - from] == ops[..|ops| - 1][from..];
  }

  lemma HistoryOne(op: Op)
    ensures History([op]) == op.line
  {
    assert [op][..0] == [] && "" + op.line == op.line;
  }

  /** Whatever copies and truncates fail, the live file holds every line since the last successful
      truncate, in order and whole. */
  lemma {:induction false} LiveHoldsEverything(ops: seq<Op>, max: nat)
    ensures Since(ops, max) <= |ops|
    ensures After(ops, max).live == History(ops[|ops| - Since(ops, max)..])
  {
    if ops != [] {
      var n := |ops| - 1;
      LiveHoldsEverything(ops[..n], max);
      var k := Since(ops, max);
      if k == 1 && Rolls(After(ops[..n], max).live, ops[n].line, max) && ops[n].copies && ops[n].truncates {
        assert ops[n..] == [ops[n]];
        HistoryOne(ops[n]);
      } else {
        HistorySnoc(ops, |ops| - k);
      }
    }
  }

  ghost predicate Reliable(ops: seq<Op>, max: nat) {
    forall op <- ops :: op.copies && op.truncates && 0 < |op.line| <= max
  }

  /** The two boundaries: `.1` holds the lines from `from` to `cut`, the live file those after; and the
      segment is full: the line at the cut would not have fitted any more. */
  ghost predicate CutAt(ops: seq<Op>, max: nat, from: nat, cut: nat) {
    && from <= cut <= |ops|
    && After(ops, max) == Files(History(ops[cut..]), Some(History(ops[from..cut])))
    && |After(ops, max).live| <= max
    && (cut == 0 ==> from == 0)
    && (cut > 0 ==> cut < |ops| && History(ops[from..cut]) != "" && |History(ops[from..cut])| + |ops[cut].line| > max)
  }

  lemma RollCuts(ops: seq<Op>, max: nat, from: nat, cut: nat)
    requires ops != [] && Reliable(ops, max) && CutAt(ops[..|ops| - 1], max, from, cut)
    requires Rolls(After(ops[..|ops| - 1], max).live, ops[|ops| - 1].line, max)
    ensures CutAt(ops, max, cut, |ops| - 1)
  {
    var n := |ops| - 1;
    assert ops[n] in ops;
    assert ops[n..] == [ops[n]];
    assert [ops[n]][..0] == [];
    assert History([ops[n]]) == ops[n].line;
    assert ops[..n][cut..] == ops[cut..n];
    assert After(ops, max) == Files("" + ops[n].line, Some(After(ops[..n], max).live));
  }

  lemma AppendKeepsCut(ops: seq<Op>, max: nat, from: nat, cut: nat)
    requires ops != [] && CutAt(ops[..|ops| - 1], max, from, cut)
    requires !Rolls(After(ops[..|ops| - 1], max).live, ops[|ops| - 1].line, max)
    ensures CutAt(ops, max, from, cut)
  {
    HistorySnoc(ops, cut);
    assert ops[..|ops| - 1][from..cut] == ops[from..cut];
  }

  lemma CutCovers(ops: seq<Op>, max: nat, from: nat, cut: nat)
    requires CutAt(ops, max, from, cut)
    ensures History(ops) == History(ops[..from]) + After(ops, max).prev.value + After(ops, max).live
  {
    HistoryConcat(ops[..from], ops[from..cut]);
    HistoryConcat(ops[..cut], ops[cut..]);
    assert ops[..cut] == ops[..from] + ops[from..cut];
    assert ops == ops[..cut] + ops[cut..];
  }

  lemma {:induction false} CutExists(ops: seq<Op>, max: nat) returns (from: nat, cut: nat)
    requires Reliable(ops, max)
    ensures CutAt(ops, max, from, cut)
  {
    if ops == [] {
      from, cut := 0, 0;
    } else {
      from, cut := CutExists(ops[..|ops| - 1], max);
      if Rolls(After(ops[..|ops| - 1], max).live, ops[|ops| - 1].line, max) {
        RollCuts(ops, max, from, cut);
        from, cut := cut, |ops| - 1;
      } else {
        AppendKeepsCut(ops, max, from, cut);
      }
    }
  }

  /** With file operations succeeding and lines that fit: the live file stays within the cap, `.1` is
      never replaced by an empty segment, `.1` followed by the live file is a suffix of the full history
      cut at line boundaries, and a line is moved or given up only for a segment that is full. */
  lemma Retention(ops: seq<Op>, max: nat)
    requires Reliable(ops, max)
    ensures |After(ops, max).live| <= max
    ensures exists from: nat, cut: nat ::
              && CutAt(ops, max, from, cut)
              && History(ops) == History(ops[..from]) + After(ops, max).prev.value + After(ops, max).live
  {
    var from, cut := CutExists(ops, max);
    CutCovers(ops, max, from, cut);
  }

  /** A rollover puts an empty segment in place of the previous one exactly when the live file is empty
      and the line alone is over the cap. */
  lemma EmptySegmentExactlyWhen(f: Files, op: Op, max: nat)
    requires op.copies && Rolls(f.live, op.line, max)
    ensures Written(f, op, max).prev == Some("") <==> f.live == "" && |op.line| > max
  {
  }

  // ---------------------------------------------------------------------------
  // The object: the copy and write loops

  /** How much of `left` bytes one read or write call takes: at least one, at most all. */
  ghost predicate Progress(chunk: nat -> nat) {
    forall left: nat :: left > 0 ==> 1 <= chunk(left) <= left
  }

  class Log {
    const maxBytes: nat
    var open: bool
    var live: string
    var prev: Option<string>

    function State(): Files
      reads this
    {
      Files(live, prev)
    }

    constructor (maxBytes: nat)
      ensures this.maxBytes == maxBytes && !open && State() == Files("", Some(""))
    {
      this.maxBytes := maxBytes;
      open, live, prev := false, "", Some("");
    }

    /** Copy the live file out, block by block; a failure leaves the previous segment unknown. */
    method CopyToPrevious(chunk: nat -> nat, succeeds: bool) returns (ok: bool)
      requires Progress(chunk)
      modifies this`prev
      ensures ok == succeeds && prev == if ok then Some(live) else None
    {
      if !succeeds {
        prev := None;
        return false;
      }
      var copy, off := "", 0;
      while off < |live|
        invariant 0 <= off <= |live| && copy == live[..off]
      {
        var n := chunk(|live| - off);
        copy := copy + live[off..off + n];
        off := off + n;
      }
      assert live[..|live|] == live;
      prev := Some(copy);
      return true;
    }

    /** Write a line out in any number of pieces. */
    method AppendPieces(line: string, writes: nat -> nat)
      requires Progress(writes)
      modifies this`live
      ensures live == old(live) + line
    {
      var done := 0;
      assert line[..0] == "";
      while done < |line|
        invariant 0 <= done <= |line| && live == old(live) + line[..done]
      {
        var n := writes(|line| - done);
        live := live + line[done..done + n];
        assert line[..done] + line[done..done + n] == line[..done + n];
        done := done + n;
      }
      assert line[..|line|] == line;
    }

    /** One line: roll over when it would pass the cap, then write it. A closed log does nothing. */
    method WriteLine(op: Op, reads_: nat -> nat, writes: nat -> nat)
      requires Progress(reads_) && Progress(writes)
      modifies this
      ensures State() == if old(open) then Written(old(State()), op, maxBytes) else old(State())
      ensures old(open) && |old(live)| + |op.line| <= maxBytes ==> live == old(live) + op.line && prev == old(prev)
      ensures old(open) && |old(live)| + |op.line| > maxBytes && op.copies ==>
                prev == Some(old(live)) && live == if op.truncates then op.line else old(live) + op.line
      ensures old(open) && |old(live)| + |op.line| > maxBytes && !op.copies ==> live == old(live) + op.line
      ensures open == old(open)
    {
      RollsExactlyWhenFull(State(), op, maxBytes);
      if !open {
        return;
      }
      if |live| + |op.line| > maxBytes {
        var copied := CopyToPrevious(reads_, op.copies);
        if copied && op.truncates {
          live := "";
        }
      }
      AppendPieces(op.line, writes);
    }
  }
}
