/** A job's output on its way to the store: the runner keeps the tail of the stream in a bounded
    buffer, the service caps what the runner reports once more. */
module OutputTail {
  import opened Jobs
  import opened JobHistory

  class LimitedBuffer {
    const max: int
    var buf: string
    var truncated: bool
    /** Everything ever written. */
    ghost var stream: string

    ghost predicate Valid() reads this {
      if max <= 0 then buf == stream && !truncated
      else buf == LastBytes(stream, max) && (truncated <==> |stream| > max)
    }

    constructor (max: int)
      ensures Valid() && stream == "" && this.max == max
    {
      this.max := max;
      buf, truncated, stream := "", false, "";
    }

    method Write(p: string) returns (n: nat)
      requires Valid()
      modifies this
      ensures Valid() && n == |p| && stream == old(stream) + p
    {
      LastOfLast(stream, p, if max <= 0 then 0 else max);
      stream := stream + p;
      n := |p|;
      buf := buf + p;
      if max > 0 && |buf| > max {
        truncated := true;
        var trim := |buf| - max;
        buf := buf[trim..];
      }
    }
  }

  lemma LastOfLast(s: string, p: string, n: nat)
    ensures LastBytes(LastBytes(s, n) + p, n) == LastBytes(s + p, n)
  {
    var t := LastBytes(s, n);
    if |s| > n {
      assert (s + p)[|s| - n..] == t + p;
      assert |p| <= n ==> (s + p)[|s + p| - n..] == (t + p)[|t + p| - n..];
      assert |p| > n ==> (s + p)[|s + p| - n..] == (t + p)[|t + p| - n..];
    }
  }

  lemma LastOfLonger(s: string, a: nat, b: nat)
    ensures LastBytes(LastBytes(s, a), b) == LastBytes(s, if a <= b then a else b)
  {
  }

  function Joined(writes: seq<string>): string {
    if writes == [] then "" else Joined(writes[..|writes| - 1]) + writes[|writes| - 1]
  }

  /** What the runner reports for a process that makes these writes. */
  method Capture(writes: seq<string>, max: int) returns (out: string, truncated: bool)
    ensures max > 0 ==> IsTail(out, truncated, Joined(writes), max)
    ensures max <= 0 ==> out == Joined(writes) && !truncated
  {
    var b := new LimitedBuffer(max);
    for i := 0 to |writes|
      invariant fresh(b) && b.Valid() && b.stream == Joined(writes[..i]) && b.max == max
    {
      assert writes[..i + 1][..i] == writes[..i];
      var _ := b.Write(writes[i]);
    }
    assert writes[..|writes|] == writes;
    return b.buf, b.truncated;
  }

  /** `kept` is the last `n` bytes of a stream, `cut` says whether that lost any. */
  predicate IsTail(kept: string, cut: bool, stream: string, n: nat) {
    kept == LastBytes(stream, n) && (cut <==> |stream| > n)
  }

  /** A runner with cap `a` reports these two streams. */
  predicate Reports(result: CompleteInput, out: string, err: string, a: nat) {
    IsTail(result.stdout, result.stdoutTruncated, out, a) && IsTail(result.stderr, result.stderrTruncated, err, a)
  }

  /** For a runner cap `a` and whatever cap the service applies, in every run a job completed
      with the runner's report keeps, of each whole stream, the last min of both caps, and the
      flag says exactly whether something was cut. */
  lemma StoredTail(cfg: Config, r: Run, n: nat, e: Event, out: seq<string>, err: seq<string>, a: nat)
    requires cfg.Valid() && Legal(cfg, r) && n < |r.events| && r.events[n] == e && e.Complete? && a > 0
    requires Reports(e.result, Joined(out), Joined(err), a)
    ensures e.id in r.states[n + 1].jobs
    ensures var j := r.states[n + 1].jobs[e.id]; var keep := if a <= cfg.outputMax then a else cfg.outputMax;
            && IsTail(j.stdout, j.stdoutTruncated, Joined(out), keep)
            && IsTail(j.stderr, j.stderrTruncated, Joined(err), keep)
  {
    hide Sound, Enabled, Apply;
    Reachable(cfg, r, n);
    assert Step(cfg, r, n);
    CompletedTail(cfg, r.states[n], e, Joined(out), Joined(err), a);
  }

  lemma CompletedTail(cfg: Config, s: State, e: Event, out: string, err: string, a: nat)
    requires cfg.Valid() && Sound(s) && e.Complete? && Enabled(cfg, s, e) && a > 0
    requires Reports(e.result, out, err, a)
    ensures e.id in Apply(cfg, s, e).jobs
    ensures var j := Apply(cfg, s, e).jobs[e.id]; var keep := if a <= cfg.outputMax then a else cfg.outputMax;
            IsTail(j.stdout, j.stdoutTruncated, out, keep) && IsTail(j.stderr, j.stderrTruncated, err, keep)
  {
    hide RowsOk, OneRowPerJob, OneJobPerKey, AppendNote;
    assert JobOk(s, e.id);
    LastOfLonger(out, a, cfg.outputMax);
    LastOfLonger(err, a, cfg.outputMax);
  }
}
