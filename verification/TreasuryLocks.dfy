/** Transfers, single-account postings and feed imports interleaved lock by lock: accounts are read FOR UPDATE in id
    order, changed in memory and written back (internal/app/finance/treasury.go). */
module TreasuryLocks {
  import opened Prelude
  import opened Treasury

  datatype Task =
    | Pair(from: nat, to: nat, amount: int, fee: int, textFits: bool, ref: nat)
    | Single(id: nat, draft: Draft)
    | Statement(id: nat, rows: seq<FeedRow>)

  /** The accounts a task locks, in the order it locks them. */
  function Locks(t: Task): seq<nat> {
    match t
    case Single(id, _) => [id]
    case Statement(id, _) => [id]
    case Pair(from, to, _, _, _, _) => if from < to then [from, to] else if to < from then [to, from] else []
  }

  function Perform(b: Books, t: Task): Result<Books, Failure> {
    match t
    case Single(id, draft) => Post(b, id, draft)
    case Statement(id, rows) => (match Feed(b, id, rows) case Err(e) => Err(e) case Ok(f) => Ok(f.books))
    case Pair(from, to, amount, fee, textFits, ref) => MoveBetween(b, from, to, amount, fee, textFits, ref)
  }

  /** A task in flight with the accounts it has locked and read so far. */
  datatype Job = Job(task: Task, seen: seq<Account>, done: bool) {
    function Held(): seq<nat> {
      if done || |seen| > |Locks(task)| then [] else Locks(task)[..|seen|]
    }
  }

  datatype State = State(books: Books, jobs: seq<Job>, committed: seq<Task>)

  predicate Free(s: State, id: nat) {
    forall j :: 0 <= j < |s.jobs| ==> id !in s.jobs[j].Held()
  }

  /** Lock and read the next account; a missing account ends the task. */
  ghost predicate Acquire(s: State, s': State, j: nat)
    requires j < |s.jobs|
  {
    var job := s.jobs[j];
    && !job.done && |job.seen| < |Locks(job.task)|
    && var id := Locks(job.task)[|job.seen|];
       if id !in s.books.accounts then s' == s.(jobs := s.jobs[j := job.(done := true)])
       else Free(s, id) && s' == s.(jobs := s.jobs[j := job.(seen := job.seen + [s.books.accounts[id]])])
  }

  /** The books as this task sees them: its own locked rows, whatever the others did since. */
  function AsSeen(b: Books, locks: seq<nat>, seen: seq<Account>): Books
    requires |seen| <= |locks|
    decreases |seen|
  {
    if seen == [] then b
    else AsSeen(b.(accounts := b.accounts[locks[|seen| - 1] := seen[|seen| - 1]]), locks, seen[..|seen| - 1])
  }

  /** With all locks held: compute from the rows read and commit, or fail and change nothing. */
  ghost predicate Finish(s: State, s': State, j: nat)
    requires j < |s.jobs|
  {
    var job := s.jobs[j];
    && !job.done && |job.seen| == |Locks(job.task)|
    && s'.jobs == s.jobs[j := job.(done := true)]
    && match Perform(AsSeen(s.books, Locks(job.task), job.seen), job.task)
       case Err(_) => s'.books == s.books && s'.committed == s.committed
       case Ok(b) => s'.books == b && s'.committed == s.committed + [job.task]
  }

  ghost predicate Arrive(s: State, s': State, t: Task) {
    s' == s.(jobs := s.jobs + [Job(t, [], false)])
  }

  ghost predicate JobStep(s: State, s': State, j: nat)
    requires j < |s.jobs|
  {
    Acquire(s, s', j) || Finish(s, s', j)
  }

  ghost predicate Next(s: State, s': State) {
    (exists t: Task :: Arrive(s, s', t)) || (exists j: nat :: j < |s.jobs| && JobStep(s, s', j))
  }

  // ---------- invariant ----------

  ghost predicate JobOk(b: Books, job: Job) {
    !job.done ==>
      && |job.seen| <= |Locks(job.task)|
      && forall k :: 0 <= k < |job.seen| ==>
           Locks(job.task)[k] in b.accounts && job.seen[k] == b.accounts[Locks(job.task)[k]]
  }

  ghost predicate Inv(s: State, b0: Books) {
    && (forall j :: 0 <= j < |s.jobs| ==> JobOk(s.books, s.jobs[j]))
    && (forall i, j, id :: 0 <= i < j < |s.jobs| && id in s.jobs[i].Held() ==> id !in s.jobs[j].Held())
    && Replay(b0, s.committed) == Ok(s.books)
  }

  /** The serial reference: the committed tasks, one after another. */
  function Replay(b: Books, ts: seq<Task>): Result<Books, Failure> {
    if ts == [] then Ok(b)
    else
      match Replay(b, ts[..|ts| - 1])
      case Err(e) => Err(e)
      case Ok(b1) => Perform(b1, ts[|ts| - 1])
  }

  lemma {:induction false} SeenIsCurrent(b: Books, locks: seq<nat>, seen: seq<Account>)
    requires |seen| <= |locks|
    requires forall k :: 0 <= k < |seen| ==> locks[k] in b.accounts && seen[k] == b.accounts[locks[k]]
    ensures AsSeen(b, locks, seen) == b
  {
    if seen != [] {
      var n := |seen| - 1;
      assert b.accounts[locks[n] := seen[n]] == b.accounts;
      SeenIsCurrent(b, locks, seen[..n]);
    }
  }

  /** A task changes only the accounts it locks. */
  lemma PerformTouchesLocks(b: Books, t: Task, id: nat)
    requires Perform(b, t).Ok? && id in b.accounts && id !in Locks(t)
    ensures id in Perform(b, t).value.accounts && Perform(b, t).value.accounts[id] == b.accounts[id]
  {
    if t.Statement? && t.id in b.accounts {
      FeedBooksNewRows(b, t.id, t.rows);
    } else if t.Statement? {
      FeedNeedsAccount(b, t.id, t.rows);
    }
  }

  lemma {:induction false} FeedNeedsAccount(b: Books, id: nat, rows: seq<FeedRow>)
    requires id !in b.accounts
    ensures Feed(b, id, rows) == Ok(FeedResult(b, 0, 0)) || Feed(b, id, rows).Err?
  {
    if rows != [] {
      FeedNeedsAccount(b, id, rows[..|rows| - 1]);
    }
  }

  lemma FinishKeepsInv(s: State, s': State, j: nat, b0: Books)
    requires Inv(s, b0) && j < |s.jobs| && Finish(s, s', j)
    ensures Inv(s', b0)
    ensures s'.committed != s.committed ==> Perform(s.books, s.jobs[j].task) == Ok(s'.books)
  {
    var job := s.jobs[j];
    assert JobOk(s.books, job);
    SeenIsCurrent(s.books, Locks(job.task), job.seen);
    assert job.Held() == Locks(job.task);
    if Perform(s.books, job.task).Ok? {
      assert s'.committed[..|s.committed|] == s.committed;
      forall i | 0 <= i < |s.jobs| && i != j
        ensures JobOk(s'.books, s'.jobs[i])
      {
        var other := s.jobs[i];
        assert JobOk(s.books, other);
        if !other.done {
          forall k | 0 <= k < |other.seen|
            ensures Locks(other.task)[k] in s'.books.accounts
            ensures other.seen[k] == s'.books.accounts[Locks(other.task)[k]]
          {
            var id := Locks(other.task)[k];
            assert id == other.Held()[k] && id in other.Held();
            PerformTouchesLocks(s.books, job.task, id);
          }
        }
      }
    }
  }

  lemma AcquireKeepsInv(s: State, s': State, j: nat, b0: Books)
    requires Inv(s, b0) && j < |s.jobs| && Acquire(s, s', j)
    ensures Inv(s', b0)
  {
    var job := s.jobs[j];
    assert JobOk(s.books, job);
    if !s'.jobs[j].done {
      var id := Locks(job.task)[|job.seen|];
      assert s'.jobs[j].Held() == job.Held() + [id];
    }
  }

  lemma NextKeepsInv(s: State, s': State, b0: Books)
    requires Inv(s, b0) && Next(s, s')
    ensures Inv(s', b0)
  {
    if t: Task :| Arrive(s, s', t) {
      assert s'.jobs[|s.jobs|].Held() == [];
    } else {
      var j: nat :| j < |s.jobs| && JobStep(s, s', j);
      if Acquire(s, s', j) { AcquireKeepsInv(s, s', j, b0); } else { FinishKeepsInv(s, s', j, b0); }
    }
  }

  ghost predicate IsRun(run: seq<State>) {
    && |run| > 0 && run[0].jobs == [] && run[0].committed == []
    && forall i :: 0 < i < |run| ==> Next(run[i - 1], run[i])
  }

  /** MAIN: every interleaving is equivalent to running the committed tasks one after another; in particular no
      update is lost and a transfer's two legs commit together. */
  lemma {:induction false} RunsAreSerial(run: seq<State>, i: nat)
    requires IsRun(run) && i < |run|
    ensures Inv(run[i], run[0].books)
    ensures Replay(run[0].books, run[i].committed) == Ok(run[i].books)
  {
    if i > 0 {
      RunsAreSerial(run, i - 1);
      NextKeepsInv(run[i - 1], run[i], run[0].books);
    }
  }

  lemma {:induction false} ReplayKeepsExplained(b: Books, ts: seq<Task>)
    requires Explained(b) && Replay(b, ts).Ok?
    ensures Explained(Replay(b, ts).value)
  {
    if ts != [] {
      ReplayKeepsExplained(b, ts[..|ts| - 1]);
      var b1, t := Replay(b, ts[..|ts| - 1]).value, ts[|ts| - 1];
      match t
      case Single(id, draft) => PostKeepsExplained(b1, id, draft);
      case Statement(id, rows) => FeedKeepsExplained(b1, id, rows);
      case Pair(from, to, amount, fee, textFits, ref) =>
        PostKeepsExplained(b1, from, TransferDraft(Out, amount, fee, textFits, ref));
        PostKeepsExplained(Post(b1, from, TransferDraft(Out, amount, fee, textFits, ref)).value, to,
                           TransferDraft(In, amount, 0, textFits, ref));
    }
  }

  /** Balances stay explained by the ledger under every interleaving. */
  lemma RunsStayExplained(run: seq<State>, i: nat)
    requires IsRun(run) && i < |run| && Explained(run[0].books)
    ensures Explained(run[i].books)
  {
    RunsAreSerial(run, i);
    ReplayKeepsExplained(run[0].books, run[i].committed);
  }

  // ---------- no deadlock ----------

  /** The highest account a job holds, or -1. */
  function Top(job: Job): int {
    var held := job.Held();
    if held == [] then -1 else held[|held| - 1]
  }

  /** The unfinished job holding the highest account. */
  lemma Highest(jobs: seq<Job>) returns (j: nat)
    requires exists i :: 0 <= i < |jobs| && !jobs[i].done
    ensures j < |jobs| && !jobs[j].done
    ensures forall i :: 0 <= i < |jobs| && !jobs[i].done ==> Top(jobs[i]) <= Top(jobs[j])
  {
    j :| 0 <= j < |jobs| && !jobs[j].done;
    for n := 0 to |jobs|
      invariant j < |jobs| && !jobs[j].done
      invariant forall i :: 0 <= i < n && !jobs[i].done ==> Top(jobs[i]) <= Top(jobs[j])
    {
      if !jobs[n].done && Top(jobs[n]) > Top(jobs[j]) {
        j := n;
      }
    }
  }

  lemma HeldBelowTop(job: Job, id: nat)
    requires id in job.Held()
    ensures id <= Top(job)
  {}

  ghost predicate CanStep(s: State, j: nat)
    requires j < |s.jobs|
  {
    exists s' :: JobStep(s, s', j)
  }

  /** MAIN: while any task is unfinished, some task can take its next step: no deadlock. */
  lemma SomeTaskCanStep(s: State, b0: Books) returns (j: nat)
    requires Inv(s, b0) && exists i :: 0 <= i < |s.jobs| && !s.jobs[i].done
    ensures j < |s.jobs| && CanStep(s, j)
  {
    j := Highest(s.jobs);
    var job := s.jobs[j];
    assert JobOk(s.books, job);
    if |job.seen| == |Locks(job.task)| {
      var done := s.jobs[j := job.(done := true)];
      var r := Perform(AsSeen(s.books, Locks(job.task), job.seen), job.task);
      var s' := if r.Ok? then State(r.value, done, s.committed + [job.task]) else s.(jobs := done);
      assert JobStep(s, s', j);
    } else {
      var id := Locks(job.task)[|job.seen|];
      if id !in s.books.accounts {
        var s' := s.(jobs := s.jobs[j := job.(done := true)]);
        assert JobStep(s, s', j);
      } else {
        assert Top(job) < id;
        forall i | 0 <= i < |s.jobs|
          ensures id !in s.jobs[i].Held()
        {
          if id in s.jobs[i].Held() {
            HeldBelowTop(s.jobs[i], id);
          }
        }
        var s' := s.(jobs := s.jobs[j := job.(seen := job.seen + [s.books.accounts[id]])]);
        assert JobStep(s, s', j);
      }
    }
  }

  /** Steps left over all tasks. */
  function Remaining(jobs: seq<Job>): nat {
    if jobs == [] then 0
    else
      var job := jobs[|jobs| - 1];
      Remaining(jobs[..|jobs| - 1]) +
      if job.done || |job.seen| > |Locks(job.task)| then 0 else |Locks(job.task)| - |job.seen| + 1
  }

  lemma {:induction false} RemainingDrops(jobs: seq<Job>, j: nat, job: Job)
    requires j < |jobs| && !jobs[j].done && |jobs[j].seen| <= |Locks(jobs[j].task)| && job.task == jobs[j].task
    requires job.done || |job.seen| == |jobs[j].seen| + 1 <= |Locks(job.task)|
    ensures Remaining(jobs[j := job]) < Remaining(jobs)
  {
    var n := |jobs| - 1;
    if j == n {
      assert jobs[j := job][..n] == jobs[..n];
    } else {
      assert jobs[j := job][..n] == jobs[..n][j := job];
      RemainingDrops(jobs[..n], j, job);
    }
  }

  /** Every step uses up remaining work, so tasks also finish. */
  lemma StepsRunOut(s: State, s': State, j: nat, b0: Books)
    requires Inv(s, b0) && j < |s.jobs| && JobStep(s, s', j)
    ensures Remaining(s'.jobs) < Remaining(s.jobs)
  {
    assert JobOk(s.books, s.jobs[j]);
    RemainingDrops(s.jobs, j, s'.jobs[j]);
    assert s'.jobs == s.jobs[j := s'.jobs[j]];
  }
}
