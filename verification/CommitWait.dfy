/** The handles of a commit that waits for several blocks: a shared counter, a compare-and-swap loop and a
    take-once cell, under every interleaving of the handles' steps. */
module CommitWait {
  import opened Wrappers

  /** How far a handle has come in `wait_completed`. */
  datatype Progress =
    | Idle                   // its block is not imported yet
    | Loaded(last: int)      // the last counter value it has seen
    | Decremented            // swapped the counter and returned nothing
    | Took(released: bool)   // saw itself to be the last one and emptied the cell
    | Mismatched             // its block has another number

  datatype Shared = Shared(counter: int, cell: bool, handles: seq<Progress>)

  ghost function Start(n: nat): Shared {
    Shared(n, true, seq(n, i => Idle))
  }

  /** One atomic step of handle `i`: the load, a compare-and-swap, or emptying the cell. */
  ghost predicate Step(s: Shared, s': Shared, i: int) {
    0 <= i < |s.handles| &&
    match s.handles[i]
    case Idle =>
      || s' == s.(handles := s.handles[i := Mismatched])
      || s' == s.(handles := s.handles[i := Loaded(s.counter)])
    case Loaded(last) =>
      if last == 1 then s' == s.(cell := false, handles := s.handles[i := Took(s.cell)])
      else if s.counter == last then s' == s.(counter := last - 1, handles := s.handles[i := Decremented])
      else s' == s.(handles := s.handles[i := Loaded(s.counter)])
    case _ => false
  }

  ghost predicate Next(s: Shared, s': Shared) {
    exists i :: Step(s, s', i)
  }

  ghost predicate IsRun(n: nat, run: seq<Shared>) {
    && |run| > 0 && run[0] == Start(n)
    && forall k | 0 < k < |run| :: StepAt(run, k)
  }

  ghost predicate StepAt(run: seq<Shared>, k: int)
    requires 0 < k < |run|
  {
    Next(run[k - 1], run[k])
  }

  // ---- What every step keeps ----

  ghost function Decrements(handles: seq<Progress>): nat {
    if handles == [] then 0
    else Decrements(handles[..|handles| - 1]) + (if handles[|handles| - 1].Decremented? then 1 else 0)
  }

  lemma {:induction false} DecrementsUpdate(handles: seq<Progress>, i: nat, p: Progress)
    requires i < |handles| && !handles[i].Decremented?
    ensures Decrements(handles[i := p]) == Decrements(handles) + (if p.Decremented? then 1 else 0)
  {
    var last := |handles| - 1;
    if i == last {
      assert handles[i := p][..last] == handles[..last];
    } else {
      assert handles[i := p][..last] == handles[..last][i := p];
      DecrementsUpdate(handles[..last], i, p);
    }
  }

  lemma {:induction false} DecrementsBound(handles: seq<Progress>)
    ensures Decrements(handles) <= |handles|
    ensures Decrements(handles) == |handles| ==> forall i | 0 <= i < |handles| :: handles[i].Decremented?
  {
    if handles != [] {
      DecrementsBound(handles[..|handles| - 1]);
    }
  }

  /** With all but one decremented, the one that is not is the only one. */
  lemma {:induction false} AllButOne(handles: seq<Progress>, i: nat, j: nat)
    requires i < |handles| && j < |handles| && i != j && Decrements(handles) == |handles| - 1
    requires !handles[i].Decremented?
    ensures handles[j].Decremented?
  {
    var last := |handles| - 1;
    DecrementsBound(handles[..last]);
    if i != last && j != last {
      AllButOne(handles[..last], i, j);
    }
  }

  ghost predicate HandleOk(s: Shared, i: int)
    requires 0 <= i < |s.handles|
  {
    match s.handles[i]
    case Loaded(last) => last >= s.counter && last <= |s.handles|
    case Took(released) => s.counter == 1 && released && !s.cell
    case _ => true
  }

  ghost predicate Inv(s: Shared) {
    && s.counter == |s.handles| - Decrements(s.handles) && s.counter >= 1
    && (forall i | 0 <= i < |s.handles| :: HandleOk(s, i))
    && (s.cell || exists i :: 0 <= i < |s.handles| && s.handles[i].Took?)
  }

  /** Once the counter is down to one, only one handle is left to act. */
  lemma LastOne(s: Shared, i: nat, j: nat)
    requires Inv(s) && s.counter == 1 && i < |s.handles| && j < |s.handles| && i != j && !s.handles[i].Decremented?
    ensures s.handles[j].Decremented?
  {
    AllButOne(s.handles, i, j);
  }

  lemma {:induction false} StartDecrements(n: nat)
    ensures Decrements(Start(n).handles) == 0
  {
    if n > 0 {
      StartDecrements(n - 1);
      assert Start(n).handles[..n - 1] == Start(n - 1).handles;
    }
  }

  lemma StepKeeps(s: Shared, s': Shared, i: nat)
    requires Inv(s) && Step(s, s', i)
    ensures Inv(s')
  {
    DecrementsUpdate(s.handles, i, s'.handles[i]);
    assert HandleOk(s, i);
    var took := s.handles[i].Loaded? && s.handles[i].last == 1;
    if took && !s.cell {
      var j :| 0 <= j < |s.handles| && s.handles[j].Took?;
      LastOne(s, i, j);
    } else {
      forall j | 0 <= j < |s'.handles| ensures HandleOk(s', j) {
        assert HandleOk(s, j);
        if j != i && s.handles[j].Took? {
          LastOne(s, j, i);
        }
      }
      if took {
        assert s'.handles[i].Took?;
      } else if !s.cell {
        var j :| 0 <= j < |s.handles| && s.handles[j].Took?;
        assert s'.handles[j].Took?;
      }
    }
  }

  lemma {:induction false} RunKeeps(n: nat, run: seq<Shared>)
    requires n > 0 && IsRun(n, run)
    ensures Inv(Last(run)) && |Last(run).handles| == n
  {
    var k := |run| - 1;
    if k == 0 {
      StartDecrements(n);
    } else {
      assert StepAt(run, k);
      assert forall m | 0 < m < k :: StepAt(run, m) ==> StepAt(run[..k], m);
      RunKeeps(n, run[..k]);
      var i :| Step(run[k - 1], run[k], i);
      StepKeeps(run[k - 1], run[k], i);
    }
  }

  // ---- Released exactly once, or never ----

  ghost predicate Finished(p: Progress) {
    p.Decremented? || p.Took? || p.Mismatched?
  }

  ghost predicate Released(s: Shared, i: int) {
    0 <= i < |s.handles| && s.handles[i] == Took(true)
  }

  ghost predicate AllMatched(handles: seq<Progress>) {
    forall i | 0 <= i < |handles| :: Finished(handles[i]) && !handles[i].Mismatched?
  }

  ghost predicate ReleasedOnlyBy(s: Shared, i: int) {
    Released(s, i) && forall j | Released(s, j) :: j == i
  }

  /** At any moment of any run at most one handle has released the commit. */
  lemma ReleasedAtMostOnce(n: nat, run: seq<Shared>, i: int, j: int)
    requires n > 0 && IsRun(n, run) && Released(Last(run), i) && Released(Last(run), j)
    ensures i == j
  {
    RunKeeps(n, run);
    var s := Last(run);
    assert HandleOk(s, i);
    if i != j {
      LastOne(s, i, j);
    }
  }

  /** All handles done, all with matching numbers: exactly one of them has released the commit. */
  lemma ReleasedExactlyOnce(n: nat, run: seq<Shared>)
    requires n > 0 && IsRun(n, run) && AllMatched(Last(run).handles)
    ensures exists i :: ReleasedOnlyBy(Last(run), i)
  {
    RunKeeps(n, run);
    var s := Last(run);
    if forall i | 0 <= i < n :: s.handles[i].Decremented? {
      AllDecremented(s.handles);
    }
    var i :| 0 <= i < n && s.handles[i].Took?;
    assert HandleOk(s, i);
    assert Released(s, i);
    forall j | Released(s, j) ensures j == i {
      ReleasedAtMostOnce(n, run, i, j);
    }
    assert ReleasedOnlyBy(s, i);
  }

  lemma {:induction false} AllDecremented(handles: seq<Progress>)
    requires forall i | 0 <= i < |handles| :: handles[i].Decremented?
    ensures Decrements(handles) == |handles|
  {
    if handles != [] {
      AllDecremented(handles[..|handles| - 1]);
    }
  }

  /** A handle that has seen a wrong number blocks the commit: no handle ever releases it. */
  lemma NeverReleased(n: nat, run: seq<Shared>, m: nat, i: int)
    requires n > 0 && IsRun(n, run) && m < n && m < |Last(run).handles| && Last(run).handles[m].Mismatched?
    ensures !Released(Last(run), i)
  {
    RunKeeps(n, run);
    var s := Last(run);
    if Released(s, i) {
      assert HandleOk(s, i);
      LastOne(s, i, m);
    }
  }

  // ---- Every interleaving ends ----

  ghost function Remaining(n: nat, p: Progress): nat {
    match p
    case Idle => n + 1
    case Loaded(last) => if last > 0 then last else 0
    case _ => 0
  }

  ghost function TotalRemaining(n: nat, handles: seq<Progress>): nat {
    if handles == [] then 0 else TotalRemaining(n, handles[..|handles| - 1]) + Remaining(n, handles[|handles| - 1])
  }

  lemma {:induction false} RemainingUpdate(n: nat, handles: seq<Progress>, i: nat, p: Progress)
    requires i < |handles|
    ensures TotalRemaining(n, handles[i := p]) == TotalRemaining(n, handles) - Remaining(n, handles[i])
            + Remaining(n, p)
  {
    var last := |handles| - 1;
    if i == last {
      assert handles[i := p][..last] == handles[..last];
    } else {
      assert handles[i := p][..last] == handles[..last][i := p];
      RemainingUpdate(n, handles[..last], i, p);
    }
  }

  lemma {:induction false} StartRemaining(n: nat, k: nat)
    ensures TotalRemaining(n, seq(k, i => Idle)) == k * (n + 1)
  {
    if k > 0 {
      StartRemaining(n, k - 1);
      assert seq(k, i => Idle)[..k - 1] == seq(k - 1, i => Idle);
    }
  }

  lemma RemainingStep(s: Shared, s': Shared, i: nat)
    requires Inv(s) && Step(s, s', i)
    ensures TotalRemaining(|s.handles|, s'.handles) < TotalRemaining(|s.handles|, s.handles)
  {
    assert HandleOk(s, i);
    RemainingUpdate(|s.handles|, s.handles, i, s'.handles[i]);
  }

  /** A failed swap shows a smaller counter, so no run has more than `n * (n + 1)` steps. */
  lemma {:induction false} RunsEnd(n: nat, run: seq<Shared>)
    requires n > 0 && IsRun(n, run)
    ensures |run| - 1 + TotalRemaining(n, Last(run).handles) <= n * (n + 1)
  {
    var k := |run| - 1;
    if k == 0 {
      StartRemaining(n, n);
    } else {
      assert StepAt(run, k);
      assert forall m | 0 < m < k :: StepAt(run, m) ==> StepAt(run[..k], m);
      RunsEnd(n, run[..k]);
      RunKeeps(n, run[..k]);
      var i :| Step(run[k - 1], run[k], i);
      RemainingStep(run[k - 1], run[k], i);
    }
  }

  /** And a run that cannot go on has finished all its handles. */
  lemma StuckIsFinished(s: Shared, i: nat)
    requires i < |s.handles| && forall s' :: !Next(s, s')
    ensures Finished(s.handles[i])
  {
    var p := match s.handles[i]
      case Loaded(last) =>
        if last == 1 then s.(cell := false, handles := s.handles[i := Took(s.cell)])
        else if s.counter == last then s.(counter := last - 1, handles := s.handles[i := Decremented])
        else s.(handles := s.handles[i := Loaded(s.counter)])
      case _ => s.(handles := s.handles[i := Mismatched]);
    if !Finished(s.handles[i]) {
      assert Step(s, p, i);
      assert Next(s, p);
    }
  }
}
