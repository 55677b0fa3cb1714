/**
 What is stored about codes in every run: the validity of a code is what the
 processor last answered for it, and every submitted code has one future.
 */
module PrepareCodes {
  import opened Base
  import opened Chain
  import opened Prepare
  import opened PrepareRuns

  type Verdict = (CodeId, bool)

  /** The answer of the processor that a step takes, if it completes a future that runs the processor. */
  function VerdictOf(s: System, step: Step): seq<Verdict> {
    if step.PollStep? && CodeYielded(s, step.codes) && s.processions[step.codes.index].Validating? &&
       step.codes.answer.Processed?
    then [(step.codes.answer.code, step.codes.answer.valid)]
    else []
  }

  /** The answers of the processor in the first `n` steps. */
  function Verdicts(worlds: seq<World>, steps: seq<Step>, n: nat): seq<Verdict>
    requires n <= |steps| < |worlds|
  {
    if n == 0 then [] else Verdicts(worlds, steps, n - 1) + VerdictOf(worlds[n - 1].s, steps[n - 1])
  }

  /** The last answer about a code. */
  function LastVerdict(verdicts: seq<Verdict>, c: CodeId): Option<bool> {
    if verdicts == [] then None
    else if verdicts[|verdicts| - 1].0 == c then Some(verdicts[|verdicts| - 1].1)
    else LastVerdict(verdicts[..|verdicts| - 1], c)
  }

  /** The validity of the code after these answers. */
  function ValidityAfter(before: map<CodeId, bool>, verdicts: seq<Verdict>, c: CodeId): Option<bool> {
    if LastVerdict(verdicts, c).Some? then LastVerdict(verdicts, c) else Lookup(before, c)
  }

  lemma ValidityNext(before: map<CodeId, bool>, verdicts: seq<Verdict>, v: Verdict, c: CodeId)
    ensures ValidityAfter(before, verdicts + [v], c) == if v.0 == c then Some(v.1) else ValidityAfter(before, verdicts, c)
  {
    assert (verdicts + [v])[..|verdicts|] == verdicts;
  }

  /** What is stored about a code: its validity, and its three rows if it was there before or was found valid. */
  ghost predicate CodeStored(before: Db, verdicts: seq<Verdict>, db: Db, c: CodeId) {
    && Lookup(db.codeValid, c) == ValidityAfter(before.codeValid, verdicts, c)
    && (c in db.codeRows.originals <==> c in before.codeRows.originals || (c, true) in verdicts)
    && (c in db.codeRows.instrumented <==> c in before.codeRows.instrumented || (c, true) in verdicts)
    && (c in db.codeRows.metadata <==> c in before.codeRows.metadata || (c, true) in verdicts)
  }

  lemma {:induction false} PrepareAllKeepsCodes(db: Db, chain: seq<BlockData>, orders: Orders)
    ensures var after := PrepareAll(db, chain, orders).0; after.codeValid == db.codeValid && after.codeRows == db.codeRows
    decreases |chain|
  {
    if chain != [] && PrepareOne(db, chain[0], orders).Ok? {
      PrepareAllKeepsCodes(PrepareOne(db, chain[0], orders).value, chain[1..], orders);
    }
  }

  lemma PrepareKeepsCodes(s: System, orders: Orders)
    ensures var after := PollPrepare(s, orders).0;
      after.db.codeValid == s.db.codeValid && after.db.codeRows == s.db.codeRows && after.processions == s.processions
  {
    hide PrepareAll, UnpreparedChain, Missing;
    if s.state.WaitingForCodes? {
      PrepareAllKeepsCodes(s.db, s.state.chain, orders);
    } else if s.input != [] {
      match UnpreparedChain(s.db, s.input[|s.input| - 1]) {
        case Ok(chain) => PrepareAllKeepsCodes(s.db, chain, orders);
        case Err(_) =>
      }
    }
  }

  /** One step stores exactly the answer it takes. */
  lemma StepStoresVerdict(w: World, step: Step, c: CodeId)
    ensures var db, after, v := w.s.db, Next(w, step).s.db, VerdictOf(w.s, step);
      && Lookup(after.codeValid, c) == (if v != [] && v[0].0 == c then Some(v[0].1) else Lookup(db.codeValid, c))
      && (c in after.codeRows.originals <==> c in db.codeRows.originals || v == [(c, true)])
      && (c in after.codeRows.instrumented <==> c in db.codeRows.instrumented || v == [(c, true)])
      && (c in after.codeRows.metadata <==> c in db.codeRows.metadata || v == [(c, true)])
  {
    hide PollPrepare, PreparingFails, NewlyPrepared;
    if step.PollStep? {
      if CodeYielded(w.s, step.codes) {
        var answer := step.codes.answer;
        if w.s.processions[step.codes.index].Validating? && answer.Processed? {
          CodeWritesSoFar(w.s.db, answer.code, answer.valid, |CodeWrites(answer.code, answer.valid)|);
        }
      } else {
        PrepareKeepsCodes(w.s, step.orders);
      }
    }
  }

  /** Main result on codes: in every state of every run the validity of a code is the last answer of the processor about
      it, or else the one it had at the start; and its original bytes, instrumented form and metadata are stored exactly
      if they were at the start or the processor found it valid. */
  lemma {:induction false} CodesExact(roots: set<Hash>, worlds: seq<World>, steps: seq<Step>, n: nat, c: CodeId)
    requires IsRun(roots, worlds, steps) && n < |worlds|
    ensures CodeStored(worlds[0].s.db, Verdicts(worlds, steps, n), worlds[n].s.db, c)
  {
    hide Next, VerdictOf, Initial;
    if n > 0 {
      var k := n - 1;
      CodesExact(roots, worlds, steps, k, c);
      assert Follows(worlds[k], steps[k], worlds[k + 1]);
      StepStoresVerdict(worlds[k], steps[k], c);
      var before, v := Verdicts(worlds, steps, k), VerdictOf(worlds[k].s, steps[k]);
      OneVerdict(worlds[k].s, steps[k]);
      if v == [] {
        assert before + v == before;
      } else {
        ValidityNext(worlds[0].s.db.codeValid, before, v[0], c);
        assert before + v == before + [v[0]];
      }
    }
  }

  lemma OneVerdict(s: System, step: Step)
    ensures |VerdictOf(s, step)| <= 1
  {
  }

  /** In every run a step that reports a processed code reports one of known validity: the code of a future that was done,
      or the one that the processor has just answered for; and it reports a failure exactly when the processor fails,
      which stores nothing. */
  lemma ReportedIsKnown(roots: set<Hash>, worlds: seq<World>, steps: seq<Step>, n: nat, orders: Orders, codes: CodesPoll)
    requires IsRun(roots, worlds, steps) && n < |worlds| && CodeYielded(worlds[n].s, codes)
    ensures var s, future := worlds[n].s, worlds[n].s.processions[codes.index];
      var (after, out) := Poll(s, codes, orders);
      match out
      case Some(CodeProcessed(c)) =>
        && c in after.db.codeValid
        && (future == Ready(c) || VerdictOf(s, PollStep(codes, orders)) == [(c, after.db.codeValid[c])])
      case Some(CodeFailed) => future.Validating? && codes.answer.ProcessorFails? && after.db == s.db
      case _ => false
  {
    EveryRunIsSafe(roots, worlds, steps, n);
    var answer := codes.answer;
    if worlds[n].s.processions[codes.index].Validating? && answer.Processed? {
      CodeWritesSoFar(worlds[n].s.db, answer.code, answer.valid, |CodeWrites(answer.code, answer.valid)|);
    }
  }

  // ---------------------------------------------------------------------
  // Futures

  /** The future of a code that is submitted now: done if its validity is known, and running the processor if not. */
  function SubmittedBy(db: Db, step: Step): multiset<Procession> {
    if step.SubmitCode? then multiset{if step.code in db.codeValid then Ready(step.code) else Validating(step.code)}
    else multiset{}
  }

  function CompletedBy(s: System, step: Step): multiset<Procession> {
    if step.PollStep? && CodeYielded(s, step.codes) then multiset{s.processions[step.codes.index]} else multiset{}
  }

  function Submitted(worlds: seq<World>, steps: seq<Step>, n: nat): multiset<Procession>
    requires n <= |steps| < |worlds|
  {
    if n == 0 then multiset{} else Submitted(worlds, steps, n - 1) + SubmittedBy(worlds[n - 1].s.db, steps[n - 1])
  }

  function Completed(worlds: seq<World>, steps: seq<Step>, n: nat): multiset<Procession>
    requires n <= |steps| < |worlds|
  {
    if n == 0 then multiset{} else Completed(worlds, steps, n - 1) + CompletedBy(worlds[n - 1].s, steps[n - 1])
  }

  lemma WithoutOne<T>(s: seq<T>, i: nat)
    requires i < |s|
    ensures multiset(Without(s, i)) + multiset{s[i]} == multiset(s)
  {
    assert s == s[..i] + [s[i]] + s[i + 1..];
  }

  lemma StepMovesFutures(w: World, step: Step)
    ensures multiset(Next(w, step).s.processions) + CompletedBy(w.s, step) ==
            multiset(w.s.processions) + SubmittedBy(w.s.db, step)
  {
    hide PollPrepare, PreparingFails, NewlyPrepared, CompleteCode, Without;
    if step.PollStep? {
      if CodeYielded(w.s, step.codes) {
        WithoutOne(w.s.processions, step.codes.index);
      } else {
        PrepareKeepsCodes(w.s, step.orders);
      }
    }
  }

  /** In every run each submitted code has one future, which is pending or was completed, each once. */
  lemma {:induction false} FuturesAccounted(roots: set<Hash>, worlds: seq<World>, steps: seq<Step>, n: nat)
    requires IsRun(roots, worlds, steps) && n < |worlds|
    ensures Submitted(worlds, steps, n) == multiset(worlds[n].s.processions) + Completed(worlds, steps, n)
  {
    hide Next, SubmittedBy, CompletedBy;
    if n > 0 {
      var k := n - 1;
      FuturesAccounted(roots, worlds, steps, k);
      assert Follows(worlds[k], steps[k], worlds[k + 1]);
      StepMovesFutures(worlds[k], steps[k]);
      var before, after := multiset(worlds[k].s.processions), multiset(worlds[n].s.processions);
      var done, more := Completed(worlds, steps, k), CompletedBy(worlds[k].s, steps[k]);
      assert before + done + SubmittedBy(worlds[k].s.db, steps[k]) == after + more + done;
    }
  }
}
