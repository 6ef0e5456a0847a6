/** Buffering commits until every block they refer to has been imported with the number they claim. */
module WaitBuffer {
  import opened Wrappers
  import opened BlockTree
  import opened Tracker
  import opened Commits
  import opened VoteGraphs

  datatype Incoming = Incoming(round: nat, commit: CompactCommit)

  /** Waits for one block on behalf of the commit with this arrival number. */
  datatype Handle = Handle(cell: nat, number: nat)

  /** The counter and the take-once cell shared by a commit's handles. */
  datatype Cell = Cell(count: int, commit: Option<Incoming>)

  datatype KnownOrUnknown = Known(number: nat) | Unknown(number: nat)

  type Pending = map<Hash, seq<Handle>>

  /** The blocks a commit refers to, in the order they are checked. */
  function References(m: Incoming): seq<Vote> {
    m.commit.precommits + [Vote(m.commit.targetHash, m.commit.targetNumber)]
  }

  // ---- Checking a commit on arrival ----

  /** No reference contradicts a known number or another reference. */
  ghost predicate Coherent(status: map<Hash, nat>, refs: seq<Vote>) {
    forall i | 0 <= i < |refs| :: AgreesWith(status, refs, i)
  }

  ghost predicate AgreesWith(status: map<Hash, nat>, refs: seq<Vote>, i: int)
    requires 0 <= i < |refs|
  {
    if refs[i].targetHash in status then status[refs[i].targetHash] == refs[i].targetNumber
    else forall j | 0 <= j < |refs|
    && refs[j].targetHash == refs[i].targetHash :: refs[j].targetNumber == refs[i].targetNumber
  }

  ghost function UnknownHashes(status: map<Hash, nat>, refs: seq<Vote>): set<Hash> {
    set i | 0 <= i < |refs| && refs[i].targetHash !in status :: refs[i].targetHash
  }

  ghost predicate Mentions(refs: seq<Vote>, h: Hash) {
    exists i :: 0 <= i < |refs| && refs[i].targetHash == h
  }

  ghost predicate CheckedOk(status: map<Hash, nat>, refs: seq<Vote>, checked: map<Hash, KnownOrUnknown>) {
    && (forall h | h in checked :: Mentions(refs, h))
    && (forall h | h in checked && h in status :: checked[h] == Known(status[h]))
    && (forall h | h in checked && h !in status :: checked[h].Unknown?)
    && (forall i | 0 <= i < |refs| ::
          refs[i].targetHash in checked && checked[refs[i].targetHash].number == refs[i].targetNumber)
  }

  /** Looks every reference up; false as soon as one has an unexpected number. */
  method QueryKnown(status: map<Hash, nat>, refs: seq<Vote>) returns (ok: bool, checked: map<Hash, KnownOrUnknown>,
                    unknownCount: nat)
    ensures ok <==> Coherent(status, refs)
    ensures ok ==> CheckedOk(status, refs, checked) && unknownCount == |UnknownHashes(status, refs)|
  {
    checked, unknownCount := map[], 0;
    for n := 0 to |refs|
      invariant CheckedOk(status, refs[..n], checked) && unknownCount == |UnknownHashes(status, refs[..n])|
    {
      var h, perceived := refs[n].targetHash, refs[n].targetNumber;
      UnknownNext(status, refs, n, checked);
      ghost var before := checked;
      var canon: nat;
      if h in checked {
        canon := checked[h].number;
      } else if h in status {
        checked := checked[h := Known(status[h])];
        canon := status[h];
      } else {
        checked := checked[h := Unknown(perceived)];
        unknownCount := unknownCount + 1;
        canon := perceived;
      }
      if canon != perceived {
        Incoherent(status, refs, n, before);
        ok := false;
        return;
      }
      CheckedNext(status, refs, n, before);
    }
    assert refs[..|refs|] == refs;
    ok := true;
    CheckedCoherent(status, refs, checked);
  }

  lemma MentionsNext(refs: seq<Vote>, n: nat, h: Hash)
    requires n < |refs|
    ensures Mentions(refs[..n + 1], h) <==> Mentions(refs[..n], h) || refs[n].targetHash == h
  {
    var s, t := refs[..n], refs[..n + 1];
    if Mentions(s, h) {
      var i :| 0 <= i < |s| && s[i].targetHash == h;
      assert t[i].targetHash == h;
    }
    if Mentions(t, h) && refs[n].targetHash != h {
      var i :| 0 <= i < |t| && t[i].targetHash == h;
      assert s[i].targetHash == h;
    }
    assert t[n] == refs[n];
  }

  lemma UnknownNext(status: map<Hash, nat>, refs: seq<Vote>, n: nat, checked: map<Hash, KnownOrUnknown>)
    requires n < |refs| && CheckedOk(status, refs[..n], checked)
    ensures |UnknownHashes(status, refs[..n + 1])| ==
            |UnknownHashes(status, refs[..n])|
            + (if refs[n].targetHash in checked || refs[n].targetHash in status then 0 else 1)
  {
    var h, s, t := refs[n].targetHash, UnknownHashes(status, refs[..n]), UnknownHashes(status, refs[..n + 1]);
    forall x ensures x in t <==> x in s || (x == h && h !in status) {
      MentionsNext(refs, n, x);
      assert x in s <==> Mentions(refs[..n], x) && x !in status;
      assert x in t <==> Mentions(refs[..n + 1], x) && x !in status;
    }
    if h in status {
      assert t == s;
    } else {
      assert t == s + {h};
      assert h in s <==> Mentions(refs[..n], h);
      assert Mentions(refs[..n], h) <==> h in checked;
    }
  }

  function Findings(status: map<Hash, nat>, ref: Vote, checked: map<Hash, KnownOrUnknown>): map<Hash, KnownOrUnknown> {
    if ref.targetHash in checked then checked
    else checked[ref.targetHash := if ref.targetHash in status then Known(status[ref.targetHash])
                 else Unknown(ref.targetNumber)]
  }

  /** What looking up one more reference makes of the findings. */
  lemma CheckedNext(status: map<Hash, nat>, refs: seq<Vote>, n: nat, checked: map<Hash, KnownOrUnknown>)
    requires n < |refs| && CheckedOk(status, refs[..n], checked)
    requires Findings(status, refs[n], checked)[refs[n].targetHash].number == refs[n].targetNumber
    ensures CheckedOk(status, refs[..n + 1], Findings(status, refs[n], checked))
  {
    var found := Findings(status, refs[n], checked);
    forall h | h in found ensures Mentions(refs[..n + 1], h) {
      MentionsNext(refs, n, h);
    }
    var t := refs[..n + 1];
    forall i | 0 <= i < |t| ensures t[i].targetHash in found && found[t[i].targetHash].number == t[i].targetNumber {
      if i < n {
        assert t[i] == refs[..n][i];
      }
    }
  }

  lemma CheckedCoherent(status: map<Hash, nat>, refs: seq<Vote>, checked: map<Hash, KnownOrUnknown>)
    requires CheckedOk(status, refs, checked)
    ensures Coherent(status, refs)
  {
  }

  lemma Incoherent(status: map<Hash, nat>, refs: seq<Vote>, n: nat, checked: map<Hash, KnownOrUnknown>)
    requires n < |refs| && CheckedOk(status, refs[..n], checked)
    requires Findings(status, refs[n], checked)[refs[n].targetHash].number != refs[n].targetNumber
    ensures !Coherent(status, refs)
  {
    if refs[n].targetHash !in status {
      assert Mentions(refs[..n], refs[n].targetHash);
      var i :| 0 <= i < n && refs[..n][i].targetHash == refs[n].targetHash;
      assert refs[i] == refs[..n][i];
    }
    assert !AgreesWith(status, refs, n);
  }

  // ---- What the buffer keeps ----

  /** The buffer, with everything that has happened to it: all commits in the order of their arrival, every block
      number reported by the client or by a notification, the arrival numbers of the commits made ready, how many
      of them have been handed out, and which commits were discarded on arrival or spoiled by a wrong number. */
  datatype Buffer = Buffer(cells: map<nat, Cell>, pending: Pending, ready: seq<Incoming>,
                           arrivals: seq<Incoming>, reported: set<(Hash, nat)>, released: seq<nat>, emitted: nat,
                           discarded: set<nat>, spoiled: set<nat>)

  ghost predicate HasHandle(handles: seq<Handle>, cell: nat) {
    exists i :: 0 <= i < |handles| && handles[i].cell == cell
  }

  /** The blocks that a commit still waits for. */
  ghost function Waits(pending: Pending, cell: nat): set<Hash> {
    set h | h in pending && HasHandle(pending[h], cell)
  }

  ghost predicate OneEach(handles: seq<Handle>) {
    forall i, j | 0 <= i < j < |handles| :: handles[i].cell != handles[j].cell
  }

  ghost predicate Resolved(b: Buffer, cell: nat, v: Vote) {
    (v.targetHash, v.targetNumber) in b.reported
    || (v.targetHash in b.pending && Handle(cell, v.targetNumber) in b.pending[v.targetHash])
  }

  /** A waiting commit that is not spoiled counts its handles, and every block it refers to has been reported with its
      number or is waited for with it. A spoiled one counts more than its handles. */
  ghost predicate CellOk(b: Buffer, k: nat) {
    && k < |b.arrivals| && k in b.cells && k !in b.discarded
    && match b.cells[k].commit
       case None => Waits(b.pending, k) == {} && k in b.released && k !in b.spoiled
       case Some(m) =>
         && m == b.arrivals[k] && k !in b.released && b.cells[k].count >= 1
         && (if k in b.spoiled then b.cells[k].count > |Waits(b.pending, k)| && Contradicted(b, m)
             else b.cells[k].count == |Waits(b.pending, k)| && forall v | v in References(m) :: Resolved(b, k, v))
  }

  /** Some block the commit refers to was reported with another number. */
  ghost predicate Contradicted(b: Buffer, m: Incoming) {
    exists v, n :: v in References(m) && n != v.targetNumber && (v.targetHash, n) in b.reported
  }

  /** The commit's target and the blocks of all its precommits have been reported with the numbers it claims. */
  ghost predicate AllReported(b: Buffer, m: Incoming) {
    && (m.commit.targetHash, m.commit.targetNumber) in b.reported
    && forall p | p in m.commit.precommits :: (p.targetHash, p.targetNumber) in b.reported
  }

  /** The blocks of a commit, its target and those of its precommits, that are not known. */
  ghost function UnknownBlocks(status: map<Hash, nat>, m: Incoming): set<Hash> {
    (set h | h in {m.commit.targetHash} && h !in status)
    + set p | p in m.commit.precommits && p.targetHash !in status :: p.targetHash
  }

  lemma UnknownReferences(status: map<Hash, nat>, m: Incoming)
    ensures UnknownHashes(status, References(m)) == UnknownBlocks(status, m)
  {
    var refs, target := References(m), Vote(m.commit.targetHash, m.commit.targetNumber);
    forall h ensures h in UnknownHashes(status, refs) <==> h in UnknownBlocks(status, m) {
      if h in UnknownHashes(status, refs) {
        var i :| 0 <= i < |refs| && refs[i].targetHash == h;
        assert refs[i] in refs;
      }
      if h in UnknownBlocks(status, m) {
        var v :| v in refs && v.targetHash == h;
        var i :| 0 <= i < |refs| && refs[i] == v;
      }
    }
  }

  ghost predicate HandleOk(b: Buffer, h: Hash, x: Handle) {
    x.cell in b.cells && x.cell < |b.arrivals| && Vote(h, x.number) in References(b.arrivals[x.cell])
  }

  ghost predicate HandlesOk(b: Buffer, h: Hash)
    requires h in b.pending
  {
    OneEach(b.pending[h]) && forall i | 0 <= i < |b.pending[h]| :: HandleOk(b, h, b.pending[h][i])
  }

  /** The commits made ready are distinct arrivals whose blocks were all reported with the numbers claimed. */
  ghost predicate ReleasedOk(b: Buffer) {
    NoDup(b.released) && forall k | k in b.released :: k < |b.arrivals| && AllReported(b, b.arrivals[k])
  }

  /** The ready queue has what was released and not handed out yet. */
  ghost predicate QueueOk(b: Buffer) {
    b.emitted + |b.ready| == |b.released| && forall i | 0 <= i < |b.ready| :: InQueue(b, i)
  }

  ghost predicate InQueue(b: Buffer, i: nat)
    requires i < |b.ready|
  {
    b.emitted + i < |b.released| && b.released[b.emitted + i] < |b.arrivals|
    && b.ready[i] == b.arrivals[b.released[b.emitted + i]]
  }

  ghost predicate Inv(b: Buffer) {
    && (forall h | h in b.pending :: HandlesOk(b, h))
    && (forall k {:trigger CellOk(b, k)} | k in b.cells :: CellOk(b, k))
    && ReleasedOk(b) && QueueOk(b) && Accounted(b)
  }

  /** Every arrival is waiting or has been made ready or discarded, and none is both of the latter. */
  ghost predicate Accounted(b: Buffer) {
    && (forall k: nat {:trigger b.arrivals[k]} | k < |b.arrivals| ::
          k in b.cells || k in b.released || k in b.discarded)
    && (forall k | k in b.discarded :: k < |b.arrivals| && k !in b.released)
    && b.spoiled <= b.cells.Keys
  }

  /** `Inv`, carried as a single fact. */
  ghost predicate Ordered(b: Buffer) {
    Behind(b, 2)
  }

  ghost predicate Behind(b: Buffer, steps: nat) {
    if steps == 0 then Inv(b) else Behind(b, steps - 1)
  }

  lemma Open(b: Buffer)
    requires Ordered(b)
    ensures Inv(b)
  {
    assert Behind(b, 1);
    assert Behind(b, 0);
  }

  lemma Close(b: Buffer)
    requires Inv(b)
    ensures Ordered(b)
  {
    assert Behind(b, 0);
    assert Behind(b, 1);
  }

  // ---- A wait completes ----

  /** `wait_completed` for one handle, on its shared cell. */
  function Completed(cell: Cell, number: nat, canon: nat): (Cell, Option<Incoming>) {
    if number != canon then (cell, None)
    else if cell.count == 1 then (Cell(1, None), cell.commit)
    else (Cell(cell.count - 1, cell.commit), None)
  }

  ghost function AfterCompletion(b: Buffer, h: Hash, canon: nat): Buffer
    requires h in b.pending && b.pending[h] != [] && b.pending[h][0].cell in b.cells
  {
    var handle := b.pending[h][0];
    var (cell, ready) := Completed(b.cells[handle.cell], handle.number, canon);
    b.(cells := b.cells[handle.cell := cell], pending := b.pending[h := b.pending[h][1..]],
       ready := if ready.Some? then b.ready + [ready.value] else b.ready,
       spoiled := if handle.number == canon then b.spoiled else b.spoiled + {handle.cell},
       released := if ready.Some? then b.released + [handle.cell] else b.released)
  }

  lemma WaitsAfter(b: Buffer, h: Hash, k: nat)
    requires h in b.pending && b.pending[h] != [] && OneEach(b.pending[h])
    ensures var p := b.pending[h := b.pending[h][1..]];
      && Waits(p, k) == (if k == b.pending[h][0].cell then Waits(b.pending, k) - {h} else Waits(b.pending, k))
      && h in Waits(b.pending, b.pending[h][0].cell)
  {
    var hs, p := b.pending[h], b.pending[h := b.pending[h][1..]];
    assert HasHandle(hs, hs[0].cell);
    if HasHandle(hs, k) && k != hs[0].cell {
      var i :| 0 <= i < |hs| && hs[i].cell == k;
      assert hs[1..][i - 1].cell == k;
    }
    if HasHandle(hs[1..], k) {
      var i :| 0 <= i < |hs[1..]| && hs[1..][i].cell == k;
      assert hs[i + 1].cell == k;
    }
    assert HasHandle(p[h], k) <==> HasHandle(hs, k) && k != hs[0].cell;
  }

  /** The handle at the head of its list is the only one of its commit there. */
  lemma HeadOnly(handles: seq<Handle>, x: Handle)
    requires handles != [] && OneEach(handles) && x in handles
    ensures x.cell == handles[0].cell ==> x == handles[0]
    ensures x != handles[0] ==> x in handles[1..]
  {
    var i :| 0 <= i < |handles| && handles[i] == x;
    if i > 0 {
      assert handles[1..][i - 1] == x;
    }
  }

  lemma ResolvedAfter(b: Buffer, h: Hash, canon: nat, k: nat, v: Vote)
    requires h in b.pending && b.pending[h] != [] && OneEach(b.pending[h]) && b.pending[h][0].cell in b.cells
    requires (h, canon) in b.reported && Resolved(b, k, v)
    requires k == b.pending[h][0].cell ==> b.pending[h][0].number == canon
    ensures Resolved(AfterCompletion(b, h, canon), k, v)
  {
    if (v.targetHash, v.targetNumber) !in b.reported && v.targetHash == h {
      HeadOnly(b.pending[h], Handle(k, v.targetNumber));
    }
  }

  /** The last handle finds everything reported. */
  lemma LastHandle(b: Buffer, h: Hash, canon: nat, v: Vote)
    requires h in b.pending && b.pending[h] != [] && OneEach(b.pending[h])
    requires (h, canon) in b.reported && b.pending[h][0].number == canon && Resolved(b, b.pending[h][0].cell, v)
    requires Waits(b.pending, b.pending[h][0].cell) == {h}
    ensures (v.targetHash, v.targetNumber) in b.reported
  {
    var k := b.pending[h][0].cell;
    if (v.targetHash, v.targetNumber) !in b.reported {
      assert HasHandle(b.pending[v.targetHash], k);
      assert v.targetHash in Waits(b.pending, k);
      HeadOnly(b.pending[h], Handle(k, v.targetNumber));
    }
  }

  lemma Contradicts(b: Buffer, b': Buffer, m: Incoming, v: Vote, n: nat)
    requires v in References(m) && n != v.targetNumber && (v.targetHash, n) in b'.reported
    ensures Contradicted(b', m)
  {
  }

  lemma CompletedCell(b: Buffer, h: Hash, canon: nat)
    requires Inv(b) && h in b.pending && b.pending[h] != [] && (h, canon) in b.reported
    ensures HandlesOk(b, h) && b.pending[h][0].cell in b.cells
    ensures CellOk(AfterCompletion(b, h, canon), b.pending[h][0].cell)
    ensures ReleasedOk(AfterCompletion(b, h, canon)) && QueueOk(AfterCompletion(b, h, canon))
  {
    assert HandlesOk(b, h);
    var handle := b.pending[h][0];
    var k := handle.cell;
    assert HandleOk(b, h, handle) && CellOk(b, k);
    WaitsAfter(b, h, k);
    var b' := AfterCompletion(b, h, canon);
    var w := Waits(b.pending, k);
    assert |w - {h}| == |w| - 1;
    if handle.number != canon {
      SameReleased(b, b');
      Contradicts(b, b', b.arrivals[k], Vote(h, handle.number), canon);
    } else if b.cells[k].count == 1 {
      assert |w| == 1 && k !in b.spoiled;
      assert w == {h};
      forall v | v in References(b.arrivals[k]) ensures (v.targetHash, v.targetNumber) in b'.reported {
        LastHandle(b, h, canon, v);
      }
      forall j | j in b'.released ensures j < |b'.arrivals| && AllReported(b', b'.arrivals[j]) {
        if j in b.released {
          assert AllReported(b, b.arrivals[j]);
        }
      }
      forall i | 0 <= i < |b'.ready| ensures InQueue(b', i) {
        if i < |b.ready| {
          assert InQueue(b, i);
        }
      }
    } else {
      SameReleased(b, b');
      forall v | v in References(b.arrivals[k]) && Resolved(b, k, v) ensures Resolved(b', k, v) {
        ResolvedAfter(b, h, canon, k, v);
      }
    }
  }

  lemma SameReleased(b: Buffer, b': Buffer)
    requires ReleasedOk(b) && QueueOk(b) && b.arrivals <= b'.arrivals && b.reported <= b'.reported
    requires b'.released == b.released && b'.ready == b.ready && b'.emitted == b.emitted
    ensures ReleasedOk(b') && QueueOk(b')
  {
    forall k | k in b'.released ensures k < |b'.arrivals| && AllReported(b', b'.arrivals[k]) {
      assert AllReported(b, b.arrivals[k]);
    }
    forall i | 0 <= i < |b'.ready| ensures InQueue(b', i) {
      assert InQueue(b, i);
    }
  }

  /** Handles stay good while commits only arrive. */
  lemma SameHandles(b: Buffer, b': Buffer, h: Hash)
    requires h in b.pending && HandlesOk(b, h) && h in b'.pending && b'.pending[h] == b.pending[h]
    requires b.cells.Keys <= b'.cells.Keys && b.arrivals <= b'.arrivals
    ensures HandlesOk(b', h)
  {
    forall i | 0 <= i < |b'.pending[h]| ensures HandleOk(b', h, b'.pending[h][i]) {
      assert HandleOk(b, h, b.pending[h][i]);
    }
  }

  /** A cell stays good while its commit's waits do and blocks are only reported. */
  lemma SameCell(b: Buffer, b': Buffer, k: nat)
    requires CellOk(b, k) && k in b'.cells && b'.cells[k] == b.cells[k] && b.arrivals <= b'.arrivals
    requires b.reported <= b'.reported
    requires Waits(b'.pending, k) == Waits(b.pending, k) && (k in b'.spoiled <==> k in b.spoiled) && k !in b'.discarded
    requires k in b'.released <==> k in b.released
    requires forall v | v in References(b.arrivals[k]) && Resolved(b, k, v) :: Resolved(b', k, v)
    ensures CellOk(b', k)
  {
    if b.cells[k].commit.Some? && k in b.spoiled {
      var v, n :| v in References(b.arrivals[k]) && n != v.targetNumber && (v.targetHash, n) in b.reported;
      Contradicts(b, b', b.arrivals[k], v, n);
    }
  }

  lemma OtherCell(b: Buffer, h: Hash, canon: nat, k: nat)
    requires Inv(b) && h in b.pending && b.pending[h] != [] && (h, canon) in b.reported && k in b.cells
    requires HandlesOk(b, h) && b.pending[h][0].cell in b.cells && k != b.pending[h][0].cell
    ensures CellOk(AfterCompletion(b, h, canon), k)
  {
    assert CellOk(b, k);
    WaitsAfter(b, h, k);
    var b' := AfterCompletion(b, h, canon);
    forall v | v in References(b.arrivals[k]) && Resolved(b, k, v) ensures Resolved(b', k, v) {
      ResolvedAfter(b, h, canon, k, v);
    }
    SameCell(b, b', k);
  }

  lemma CompletedHandles(b: Buffer, h: Hash, canon: nat, x: Hash)
    requires Inv(b) && h in b.pending && b.pending[h] != [] && b.pending[h][0].cell in b.cells && x in b.pending
    ensures HandlesOk(AfterCompletion(b, h, canon), x)
  {
    var b' := AfterCompletion(b, h, canon);
    assert HandlesOk(b, x);
    if x != h {
      SameHandles(b, b', x);
    } else {
      forall i | 0 <= i < |b'.pending[h]| ensures HandleOk(b', h, b'.pending[h][i]) {
        assert HandleOk(b, h, b.pending[h][i + 1]);
      }
    }
  }

  /** Completing a wait keeps the buffer in order. */
  lemma CompletionKeeps(b: Buffer, h: Hash, canon: nat)
    requires Inv(b) && h in b.pending && b.pending[h] != [] && (h, canon) in b.reported
    ensures b.pending[h][0].cell in b.cells && Inv(AfterCompletion(b, h, canon))
  {
    CompletedCell(b, h, canon);
    var b', k0 := AfterCompletion(b, h, canon), b.pending[h][0].cell;
    forall x | x in b'.pending ensures HandlesOk(b', x) {
      CompletedHandles(b, h, canon, x);
    }
    forall k | k in b'.cells ensures CellOk(b', k) {
      if k != k0 {
        OtherCell(b, h, canon, k);
      }
    }
    assert CellOk(b, k0);
    SameAccount(b, b');
  }

  lemma SameAccount(b: Buffer, b': Buffer)
    requires Accounted(b) && b'.arrivals == b.arrivals && b'.cells.Keys == b.cells.Keys && b'.discarded == b.discarded
    requires b.released <= b'.released
    requires (forall k | k in b'.released && k !in b.released :: k !in b.discarded) && b'.spoiled <= b.cells.Keys
    ensures Accounted(b')
  {
    forall k: nat | k < |b'.arrivals| ensures k in b'.cells || k in b'.released || k in b'.discarded {
      assert b.arrivals[k] == b'.arrivals[k];
    }
  }

  lemma DropEmpty(b: Buffer, h: Hash)
    requires h !in b.pending && Inv(b.(pending := b.pending[h := []]))
    ensures Inv(b)
  {
    var b' := b.(pending := b.pending[h := []]);
    forall x | x in b.pending ensures HandlesOk(b, x) {
      assert HandlesOk(b', x);
      SameHandles(b', b, x);
    }
    forall k | k in b.cells ensures CellOk(b, k) {
      assert CellOk(b', k);
      assert Waits(b.pending, k) == Waits(b'.pending, k);
      SameCell(b', b, k);
    }
    SameReleased(b', b);
    SameAccount(b', b);
  }

  /** More reports change nothing else. */
  lemma ReportKeeps(b: Buffer, reported: set<(Hash, nat)>)
    requires Inv(b) && b.reported <= reported
    ensures Inv(b.(reported := reported))
  {
    var b' := b.(reported := reported);
    forall x | x in b'.pending ensures HandlesOk(b', x) {
      assert HandlesOk(b, x);
      SameHandles(b, b', x);
    }
    forall k | k in b'.cells ensures CellOk(b', k) {
      assert CellOk(b, k);
      SameCell(b, b', k);
    }
    SameReleased(b, b');
    SameAccount(b, b');
  }

  // ---- A commit arrives ----

  function Queue(pending: Pending, h: Hash): seq<Handle> {
    if h in pending then pending[h] else []
  }

  /** One more handle for each of the hashes. */
  ghost function Registered(pending: Pending, cell: nat, numbers: map<Hash, nat>): Pending {
    map h | h in pending.Keys + numbers.Keys ::
      Queue(pending, h) + (if h in numbers then [Handle(cell, numbers[h])] else [])
  }

  /** The claimed numbers of the blocks not known yet. */
  ghost function UnknownNumbers(checked: map<Hash, KnownOrUnknown>): map<Hash, nat> {
    map h | h in checked && checked[h].Unknown? :: checked[h].number
  }

  /** A commit that need not wait, or is discarded, only shows among the arrivals. */
  ghost function AfterPassing(b: Buffer, m: Incoming, release: bool): Buffer {
    b.(arrivals := b.arrivals + [m], ready := if release then b.ready + [m] else b.ready,
       discarded := if release then b.discarded else b.discarded + {|b.arrivals|},
       released := if release then b.released + [|b.arrivals|] else b.released)
  }

  ghost function AfterArrival(b: Buffer, m: Incoming, numbers: map<Hash, nat>): Buffer {
    var k := |b.arrivals|;
    b.(arrivals := b.arrivals + [m], cells := b.cells[k := Cell(|numbers.Keys|, Some(m))],
       pending := Registered(b.pending, k, numbers))
  }

  lemma RegisteredWaits(b: Buffer, numbers: map<Hash, nat>, k: nat)
    requires Inv(b)
    ensures Waits(Registered(b.pending, |b.arrivals|, numbers), k) == if k == |b.arrivals| then numbers.Keys
                                                                      else Waits(b.pending, k)
  {
    var next, p := |b.arrivals|, Registered(b.pending, |b.arrivals|, numbers);
    forall h ensures h in Waits(p, k) <==> if k == next then h in numbers else h in Waits(b.pending, k) {
      if h in b.pending {
        NotNew(b, h);
      }
      if h in numbers {
        HasHandleAppend(Queue(b.pending, h), Handle(next, numbers[h]), k);
      } else if h in p {
        assert p[h] == b.pending[h];
      }
    }
  }

  lemma NotNew(b: Buffer, h: Hash)
    requires Inv(b) && h in b.pending
    ensures !HasHandle(b.pending[h], |b.arrivals|)
  {
    assert HandlesOk(b, h);
    forall i | 0 <= i < |b.pending[h]| ensures b.pending[h][i].cell < |b.arrivals| {
      assert HandleOk(b, h, b.pending[h][i]);
    }
  }

  lemma OneEachAppend(handles: seq<Handle>, x: Handle)
    requires OneEach(handles) && !HasHandle(handles, x.cell)
    ensures OneEach(handles + [x])
  {
  }

  lemma HasHandleAppend(handles: seq<Handle>, x: Handle, k: nat)
    ensures HasHandle(handles + [x], k) <==> HasHandle(handles, k) || x.cell == k
  {
    var both := handles + [x];
    if HasHandle(handles, k) {
      var i :| 0 <= i < |handles| && handles[i].cell == k;
      assert both[i].cell == k;
    }
    if x.cell == k {
      assert both[|handles|].cell == k;
    }
    if HasHandle(both, k) && x.cell != k {
      var i :| 0 <= i < |both| && both[i].cell == k;
      assert handles[i].cell == k;
    }
  }

  /** The claimed numbers are those of the commit's references. */
  ghost predicate Claimed(m: Incoming, numbers: map<Hash, nat>) {
    forall h | h in numbers :: Vote(h, numbers[h]) in References(m)
  }

  lemma RegisteredHandles(b: Buffer, m: Incoming, numbers: map<Hash, nat>, h: Hash)
    requires Inv(b) && h in b.pending.Keys + numbers.Keys && Claimed(m, numbers)
    ensures HandlesOk(AfterArrival(b, m, numbers), h)
  {
    var b' := AfterArrival(b, m, numbers);
    if h in numbers {
      NewHandle(b, m, numbers, h);
    } else {
      assert HandlesOk(b, h) && b'.pending[h] == b.pending[h];
      SameHandles(b, b', h);
    }
  }

  lemma NewHandle(b: Buffer, m: Incoming, numbers: map<Hash, nat>, h: Hash)
    requires Inv(b) && h in numbers && Claimed(m, numbers)
    ensures HandlesOk(AfterArrival(b, m, numbers), h)
  {
    var b', x, queue := AfterArrival(b, m, numbers), Handle(|b.arrivals|, numbers[h]), Queue(b.pending, h);
    assert b'.pending[h] == queue + [x];
    assert OneEach(queue) && !HasHandle(queue, x.cell) by {
      if h in b.pending {
        assert HandlesOk(b, h);
        NotNew(b, h);
      }
    }
    OneEachAppend(queue, x);
    assert HandleOk(b', h, x);
    forall i | 0 <= i < |queue| ensures HandleOk(b', h, queue[i]) {
      assert HandlesOk(b, h);
      assert HandleOk(b, h, queue[i]);
    }
  }

  lemma ArrivedCell(b: Buffer, m: Incoming, numbers: map<Hash, nat>, k: nat)
    requires Inv(b) && k in b.cells
    ensures CellOk(AfterArrival(b, m, numbers), k)
  {
    assert CellOk(b, k);
    RegisteredWaits(b, numbers, k);
    SameCell(b, AfterArrival(b, m, numbers), k);
  }

  lemma NewCell(b: Buffer, m: Incoming, numbers: map<Hash, nat>)
    requires Inv(b) && numbers != map[] && |b.arrivals| !in b.spoiled
    requires forall v | v in References(m) ::
      (v.targetHash, v.targetNumber) in b.reported
      || (v.targetHash in numbers && numbers[v.targetHash] == v.targetNumber)
    ensures CellOk(AfterArrival(b, m, numbers), |b.arrivals|)
  {
    var k, b' := |b.arrivals|, AfterArrival(b, m, numbers);
    RegisteredWaits(b, numbers, k);
    assert k !in b.released && k !in b.discarded;
    assert numbers.Keys != {};
    forall v | v in References(m) ensures Resolved(b', k, v) {
      if (v.targetHash, v.targetNumber) !in b.reported {
        assert b'.pending[v.targetHash][|Queue(b.pending, v.targetHash)|] == Handle(k, v.targetNumber);
      }
    }
  }

  /** Registering a new commit's handles keeps the buffer in order. */
  lemma ArrivalKeeps(b: Buffer, m: Incoming, numbers: map<Hash, nat>)
    requires Inv(b) && numbers != map[] && Claimed(m, numbers)
    requires forall v | v in References(m) ::
      (v.targetHash, v.targetNumber) in b.reported
      || (v.targetHash in numbers && numbers[v.targetHash] == v.targetNumber)
    ensures Inv(AfterArrival(b, m, numbers))
  {
    var b' := AfterArrival(b, m, numbers);
    forall x | x in b'.pending ensures HandlesOk(b', x) {
      RegisteredHandles(b, m, numbers, x);
    }
    forall k | k in b'.cells ensures CellOk(b', k) {
      if k == |b.arrivals| {
        NewNumber(b);
        NewCell(b, m, numbers);
      } else {
        ArrivedCell(b, m, numbers, k);
      }
    }
    SameReleased(b, b');
    NewAccount(b, b');
  }

  lemma NewNumber(b: Buffer)
    requires Inv(b)
    ensures |b.arrivals| !in b.cells && |b.arrivals| !in b.spoiled && |b.arrivals| !in b.released
    ensures |b.arrivals| !in b.discarded
  {
    forall k | k in b.cells ensures k < |b.arrivals| {
      assert CellOk(b, k);
    }
  }

  lemma NewAccount(b: Buffer, b': Buffer)
    requires Accounted(b) && ReleasedOk(b) && |b'.arrivals| == |b.arrivals| + 1 && b.arrivals <= b'.arrivals
    requires b.cells.Keys <= b'.cells.Keys && b.released <= b'.released
    requires b.discarded <= b'.discarded <= b.discarded + {|b.arrivals|}
    requires forall k | k in b'.released :: k in b.released || (k == |b.arrivals| && k !in b'.discarded)
    requires (|b.arrivals| in b'.cells || |b.arrivals| in b'.released || |b.arrivals| in b'.discarded)
    requires b'.spoiled == b.spoiled
    ensures Accounted(b')
  {
    forall k: nat | k < |b'.arrivals| ensures k in b'.cells || k in b'.released || k in b'.discarded {
      if k < |b.arrivals| {
        assert b.arrivals[k] == b'.arrivals[k];
      }
    }
  }

  lemma PassQueue(b: Buffer, m: Incoming, release: bool)
    requires QueueOk(b)
    ensures QueueOk(AfterPassing(b, m, release))
  {
    var b' := AfterPassing(b, m, release);
    forall i | 0 <= i < |b'.ready| ensures InQueue(b', i) {
      if i < |b.ready| {
        assert InQueue(b, i);
      }
    }
  }

  lemma PassKeeps(b: Buffer, m: Incoming, release: bool)
    requires Inv(b) && (release ==> AllReported(b, m))
    ensures Inv(AfterPassing(b, m, release))
  {
    var b' := AfterPassing(b, m, release);
    forall x | x in b'.pending ensures HandlesOk(b', x) {
      assert HandlesOk(b, x);
      SameHandles(b, b', x);
    }
    forall k | k in b'.cells ensures CellOk(b', k) {
      assert CellOk(b, k);
      SameCell(b, b', k);
    }
    forall k | k in b'.released ensures k < |b'.arrivals| && AllReported(b', b'.arrivals[k]) {
      if k in b.released {
        assert AllReported(b, b.arrivals[k]);
      }
    }
    NewNumber(b);
    PassQueue(b, m, release);
    NewAccount(b, b');
  }

  /** What has become of each commit that arrived: made ready, discarded, spoiled by a number other than it claims, or
      waiting for at least one more block. */
  lemma Whereabouts(b: Buffer, k: nat)
    requires Ordered(b) && k < |b.arrivals|
    ensures k in b.released ==> k !in b.discarded && k !in b.spoiled && AllReported(b, b.arrivals[k])
    ensures k in b.spoiled ==> k !in b.discarded && Contradicted(b, b.arrivals[k])
    ensures k !in b.released && k !in b.discarded ==> k in b.cells && (k in b.spoiled || Waits(b.pending, k) != {})
  {
    Open(b);
    assert b.arrivals[k] in b.arrivals;
    if k in b.cells {
      assert CellOk(b, k);
    }
  }

  // ---- The buffer itself ----

  datatype Poll = Item(commit: Incoming) | Finished | NotReady

  /** What a new commit does to the buffer. */
  ghost function AfterScheduling(b: Buffer, m: Incoming, status: map<Hash, nat>, numbers: map<Hash, nat>): Buffer {
    var refs := References(m);
    var b' := b.(reported := b.reported + Seen(status, refs));
    if !Coherent(status, refs) then AfterPassing(b', m, false)
    else if UnknownHashes(status, refs) == {} then AfterPassing(b', m, true)
    else AfterArrival(b', m, numbers)
  }

  lemma SchedulingKeeps(b: Buffer, m: Incoming, status: map<Hash, nat>, checked: map<Hash, KnownOrUnknown>)
    requires Ordered(b) && (Coherent(status, References(m)) ==> CheckedOk(status, References(m), checked))
    ensures Ordered(AfterScheduling(b, m, status, UnknownNumbers(checked)))
    ensures Coherent(status, References(m)) ==> UnknownNumbers(checked).Keys == UnknownHashes(status, References(m))
  {
    var refs := References(m);
    var b' := b.(reported := b.reported + Seen(status, refs));
    Open(b);
    ReportKeeps(b, b'.reported);
    if !Coherent(status, refs) {
      PassKeeps(b', m, false);
    } else {
      UnknownMatches(status, refs, checked);
      if UnknownHashes(status, refs) == {} {
        AllKnown(status, refs, b', m);
        PassKeeps(b', m, true);
      } else {
        ArrivalKeeps(b', m, UnknownNumbers(checked));
      }
    }
    Close(AfterScheduling(b, m, status, UnknownNumbers(checked)));
  }

  ghost function CommitsOf(inputs: seq<(Incoming, map<Hash, nat>)>): (r: seq<Incoming>)
    ensures |r| == |inputs|
  {
    if inputs == [] then [] else CommitsOf(inputs[..|inputs| - 1]) + [Last(inputs).0]
  }

  /** The numbers that the client reports while checking these commits. */
  ghost function SeenWith(inputs: seq<(Incoming, map<Hash, nat>)>): set<(Hash, nat)> {
    if inputs == [] then {}
    else SeenWith(inputs[..|inputs| - 1]) + Seen(Last(inputs).1, References(Last(inputs).0))
  }

  /** Those of the commits, arriving from number `k` on, whose references disagree. */
  ghost function Refused(k: nat, inputs: seq<(Incoming, map<Hash, nat>)>): set<nat> {
    if inputs == [] then {}
    else
      Refused(k, inputs[..|inputs| - 1])
      + if Coherent(Last(inputs).1, References(Last(inputs).0)) then {} else {k + |inputs| - 1}
  }

  class UntilImported {
    const order: set<Hash> -> seq<Hash>
    var cells: map<nat, Cell>
    var pending: Pending
    var ready: seq<Incoming>
    var next: nat  // the arrival number of the next commit
    ghost var arrivals: seq<Incoming>
    ghost var reported: set<(Hash, nat)>
    ghost var released: seq<nat>
    ghost var emitted: nat
    ghost var discarded: set<nat>
    ghost var spoiled: set<nat>

    ghost function View(): Buffer reads this {
      Buffer(cells, pending, ready, arrivals, reported, released, emitted, discarded, spoiled)
    }

    ghost predicate Valid() reads this {
      IsIteration(order) && next == |arrivals| && Ordered(View())
    }

    constructor (order: set<Hash> -> seq<Hash>)
      requires IsIteration(order)
      ensures Valid() && View() == Buffer(map[], map[], [], [], {}, [], 0, {}, {})
    {
      this.order := order;
      cells, pending, ready, next := map[], map[], [], 0;
      arrivals, reported, released, emitted, discarded, spoiled := [], {}, [], 0, {}, {};
      new;
      Close(View());
    }

    /** A new commit: discarded if its references disagree, ready if all their blocks are known, and otherwise
        waiting with exactly one handle for each distinct unknown block. */
    method ScheduleWait(input: Incoming, status: map<Hash, nat>) returns (ghost numbers: map<Hash, nat>)
      requires Valid()
      modifies this
      ensures Valid() && View() == AfterScheduling(old(View()), input, status, numbers)
      ensures Coherent(status, References(input)) ==>
                && numbers.Keys == UnknownBlocks(status, input)
                && forall v | v in References(input) && v.targetHash in numbers ::
                     numbers[v.targetHash] == v.targetNumber
      ensures |arrivals| == |old(arrivals)| + 1 && emitted == old(emitted)
    {
      ghost var b;
      cells, pending, ready, b, numbers := Schedule(View(), cells, pending, ready, next, input, status, order);
      next := next + 1;
      arrivals, reported, released, discarded := b.arrivals, b.reported, b.released, b.discarded;
      assert View() == b;
    }

    /** A block was imported: its list of handles is taken out and every wait in it completed. */
    method CompleteWaits(hash: Hash, number: nat)
      requires Valid()
      modifies this
      ensures Valid() && arrivals == old(arrivals) && reported == old(reported) + {(hash, number)}
      ensures emitted == old(emitted)
      ensures pending == old(pending) - {hash} && old(ready) <= ready && old(released) <= released
      ensures discarded == old(discarded) && spoiled == old(spoiled) + WrongNumbers(old(Queue(pending, hash)), number)
    {
      Report(View(), {(hash, number)});
      reported := reported + {(hash, number)};
      if hash in pending {
        var messages := pending[hash];
        var newCells, done, ids, bad := CompleteList(View(), hash, number, cells, messages);
        pending := pending - {hash};
        cells := newCells;
        ready := ready + done;
        released := released + ids;
        spoiled := bad;
      }
    }

    /** The waits for all blocks that turn out to be known by now. */
    method CheckPending(status: map<Hash, nat>)
      requires Valid()
      modifies this
      ensures Valid() && arrivals == old(arrivals) && emitted == old(emitted)
      ensures reported == old(reported) + set x | x in status.Items && x.0 in old(pending)
      ensures pending == old(pending) - status.Keys && old(ready) <= ready && old(released) <= released
      ensures discarded == old(discarded) && old(spoiled) <= spoiled
      ensures forall k | k in spoiled && k !in old(spoiled) :: exists h ::
                h in old(pending) && h in status && k in WrongNumbers(old(pending)[h], status[h])
    {
      var hashes := order(pending.Keys);
      assert forall h :: h in hashes <==> h in pending.Keys;
      var known: seq<(Hash, nat)> := [];
      for i := 0 to |hashes|
        invariant forall x :: x in known <==> x.0 in hashes[..i] && x.0 in status && x.1 == status[x.0]
      {
        assert hashes[..i + 1] == hashes[..i] + [hashes[i]];
        var h: Hash := hashes[i];
        if h in status {
          known := known + [(h, status[h])];
        }
      }
      assert hashes[..|hashes|] == hashes;
      ghost var start, seen := pending, reported;
      for i := 0 to |known|
        invariant Valid() && arrivals == old(arrivals) && emitted == old(emitted)
        invariant reported == seen + set x | x in known[..i]
        invariant pending == start - set x | x in known[..i] :: x.0
        invariant old(ready) <= ready && old(released) <= released && discarded == old(discarded)
        invariant old(spoiled) <= spoiled
        invariant forall k | k in spoiled && k !in old(spoiled) :: exists h ::
                    h in start && h in status && k in WrongNumbers(start[h], status[h])
      {
        assert known[i] in known;
        assert known[..i + 1] == known[..i] + [known[i]];
        CompleteWaits(known[i].0, known[i].1);
      }
      assert known[..|known|] == known;
      KnownSets(start, status, known);
    }

    /** A new commit, without what becomes of its handles. */
    method ScheduleNext(input: Incoming, status: map<Hash, nat>)
      requires Valid()
      modifies this
      ensures Valid() && arrivals == old(arrivals) + [input]
      ensures reported == old(reported) + Seen(status, References(input))
      ensures discarded == old(discarded) + if Coherent(status, References(input)) then {} else {|old(arrivals)|}
      ensures emitted == old(emitted) && spoiled == old(spoiled) && old(released) <= released
    {
      var _ := ScheduleWait(input, status);
    }

    /** The commits at hand, in their order. */
    method ScheduleAll(inputs: seq<(Incoming, map<Hash, nat>)>)
      requires Valid()
      modifies this
      ensures Valid() && arrivals == old(arrivals) + CommitsOf(inputs) && reported == old(reported) + SeenWith(inputs)
      ensures discarded == old(discarded) + Refused(|old(arrivals)|, inputs)
      ensures emitted == old(emitted) && spoiled == old(spoiled) && old(released) <= released
    {
      for i := 0 to |inputs|
        invariant Valid() && arrivals == old(arrivals) + CommitsOf(inputs[..i])
        invariant reported == old(reported) + SeenWith(inputs[..i])
        invariant discarded == old(discarded) + Refused(|old(arrivals)|, inputs[..i])
        invariant emitted == old(emitted) && spoiled == old(spoiled) && old(released) <= released
      {
        assert inputs[..i + 1][..i] == inputs[..i];
        ScheduleNext(inputs[i].0, inputs[i].1);
      }
      assert inputs[..|inputs|] == inputs;
    }

    /** The import notifications at hand. */
    method CompleteAll(imports: seq<(Hash, nat)>)
      requires Valid()
      modifies this
      ensures Valid() && arrivals == old(arrivals) && reported == old(reported) + set x | x in imports
      ensures pending == old(pending) - set x | x in imports :: x.0
      ensures emitted == old(emitted) && discarded == old(discarded) && old(released) <= released
    {
      for i := 0 to |imports|
        invariant Valid() && arrivals == old(arrivals) && reported == old(reported) + set x | x in imports[..i]
        invariant pending == old(pending) - set x | x in imports[..i] :: x.0
        invariant emitted == old(emitted) && discarded == old(discarded) && old(released) <= released
      {
        assert imports[..i + 1] == imports[..i] + [imports[i]];
        CompleteWaits(imports[i].0, imports[i].1);
      }
      assert imports[..|imports|] == imports;
    }

    /** One poll of the stream: the commits and the import notifications at hand, then, when it is time, the blocks
        known by now, then the next ready commit. A stream that ends ends the buffer. Nothing else arrives, is reported
        or is discarded, and nothing just imported or known is still waited for. */
    method PollNext(inputs: seq<(Incoming, map<Hash, nat>)>, inputsEnd: bool, imports: seq<(Hash, nat)>,
                    importsEnd: bool, tick: bool, status: map<Hash, nat>)
      returns (r: Poll)
      requires Valid()
      modifies this
      ensures Valid() && arrivals == old(arrivals) + CommitsOf(inputs)
      ensures discarded == old(discarded) + Refused(|old(arrivals)|, inputs)
      ensures var seen := old(reported) + SeenWith(inputs) + if inputsEnd then {} else set x | x in imports;
        seen <= reported <= if tick && !r.Finished? then seen + status.Items else seen
      ensures !inputsEnd ==> forall x | x in imports :: x.0 !in pending
      ensures !r.Finished? && tick ==> pending.Keys !! status.Keys
      ensures r.Finished? <==> inputsEnd || importsEnd
      ensures r.Item? ==> emitted == old(emitted) + 1 && EmittedOk(View(), old(emitted), r.commit)
      ensures !r.Item? ==> emitted == old(emitted)
      ensures r.NotReady? ==> ready == []
      ensures old(released) <= released
    {
      ScheduleAll(inputs);
      if inputsEnd {
        return Finished;
      }
      CompleteAll(imports);
      if importsEnd {
        return Finished;
      }
      if tick {
        CheckPending(status);
      }
      var next := Pop();
      r := if next.Some? then Item(next.value) else NotReady;
    }

    /** Hands out the next ready commit. */
    method Pop() returns (r: Option<Incoming>)
      requires Valid()
      modifies this`ready, this`emitted
      ensures Valid()
      ensures r.None? <==> old(ready) == []
      ensures r.None? ==> ready == old(ready) && emitted == old(emitted)
      ensures r.Some? ==> ready == old(ready)[1..] && emitted == old(emitted) + 1
      ensures r.Some? ==> EmittedOk(View(), old(emitted), r.value)
    {
      if ready == [] {
        return None;
      }
      PopOrdered(View());
      r := Some(ready[0]);
      ready := ready[1..];
      emitted := emitted + 1;
    }
  }

  /** Completes the waits of one list, handle by handle. */
  method CompleteList(ghost start: Buffer, ghost hash: Hash, number: nat, startCells: map<nat, Cell>,
                      messages: seq<Handle>)
    returns (cells: map<nat, Cell>, done: seq<Incoming>, ghost ids: seq<nat>, ghost spoiled: set<nat>)
    requires Ordered(start) && hash in start.pending && start.pending[hash] == messages && start.cells == startCells
    requires (hash, number) in start.reported
    ensures Ordered(Working(start, start.pending - {hash}, cells, done, ids, spoiled))
    ensures spoiled == start.spoiled + WrongNumbers(messages, number)
  {
    cells, done, ids, spoiled := startCells, [], [], start.spoiled;
    ghost var rest := start.pending - {hash};
    assert start.pending == rest[hash := messages];
    assert start == Working(start, rest[hash := messages[0..]], cells, done, ids, spoiled);
    for i := 0 to |messages|
      invariant Ordered(Working(start, rest[hash := messages[i..]], cells, done, ids, spoiled))
      invariant spoiled == start.spoiled + WrongNumbers(messages[..i], number)
    {
      WrongNext(messages, number, i);
      WorkingNext(start, rest, hash, number, messages, i, cells, done, ids, spoiled);
      var (cell, released) := Completed(cells[messages[i].cell], messages[i].number, number);
      cells := cells[messages[i].cell := cell];
      if messages[i].number != number {
        spoiled := spoiled + {messages[i].cell};
      }
      if released.Some? {
        done := done + [released.value];
        ids := ids + [messages[i].cell];
      }
    }
    assert messages[|messages|..] == [] && messages[..|messages|] == messages;
    DropOrdered(Working(start, rest, cells, done, ids, spoiled), hash);
  }

  /** One more handle of the list. */
  lemma WorkingNext(start: Buffer, rest: Pending, hash: Hash, number: nat, messages: seq<Handle>, i: nat,
                    cells: map<nat, Cell>, done: seq<Incoming>, ids: seq<nat>, spoiled: set<nat>)
    requires i < |messages| && (hash, number) in start.reported
    requires Ordered(Working(start, rest[hash := messages[i..]], cells, done, ids, spoiled))
    ensures messages[i].cell in cells
    ensures var (cell, ready) := Completed(cells[messages[i].cell], messages[i].number, number);
      Ordered(Working(start, rest[hash := messages[i + 1..]], cells[messages[i].cell := cell],
                      if ready.Some? then done + [ready.value] else done, if ready.Some? then ids + [messages[i].cell]
                      else ids,
                      if messages[i].number != number then spoiled + {messages[i].cell} else spoiled))
  {
    var b := Working(start, rest[hash := messages[i..]], cells, done, ids, spoiled);
    assert messages[i..][0] == messages[i] && messages[i..][1..] == messages[i + 1..];
    CompletionOrdered(b, hash, number);
    var b' := AfterCompletion(b, hash, number);
    var (cell, ready) := Completed(cells[messages[i].cell], messages[i].number, number);
    assert b'.pending == rest[hash := messages[i + 1..]];
    if ready.Some? {
      assert b'.ready == start.ready + (done + [ready.value]);
      assert b'.released == start.released + (ids + [messages[i].cell]);
    }
  }

  /** The commits whose handles in the list expect another number. */
  ghost function WrongNumbers(messages: seq<Handle>, number: nat): set<nat> {
    set x | x in messages && x.number != number :: x.cell
  }

  lemma WrongNext(messages: seq<Handle>, number: nat, i: nat)
    requires i < |messages|
    ensures WrongNumbers(messages[..i + 1], number) == WrongNumbers(messages[..i], number)
            + (if messages[i].number == number then {} else {messages[i].cell})
  {
    assert messages[..i + 1] == messages[..i] + [messages[i]];
  }

  ghost function Working(start: Buffer, pending: Pending, cells: map<nat, Cell>, done: seq<Incoming>, ids: seq<nat>,
                         spoiled: set<nat>): Buffer {
    start.(cells := cells, pending := pending, ready := start.ready + done, released := start.released + ids,
           spoiled := spoiled)
  }

  lemma KnownSets(pending: Pending, status: map<Hash, nat>, known: seq<(Hash, nat)>)
    requires forall x :: x in known <==> x.0 in pending && x.0 in status && x.1 == status[x.0]
    ensures (set x | x in known) == set x | x in status.Items && x.0 in pending
    ensures pending - (set x | x in known :: x.0) == pending - status.Keys
  {
    var keys := set x | x in known :: x.0;
    forall h | h in pending && h in status ensures h in keys {
      assert (h, status[h]) in known;
    }
    forall h ensures h in pending - keys <==> h in pending - status.Keys {
    }
    assert pending - keys == pending - status.Keys;
    forall x ensures x in known <==> x in status.Items && x.0 in pending {
    }
  }

  /** The commit handed out last is an arrival that had not been handed out before, and every block it refers to had
      been reported with exactly the number it claims. */
  ghost predicate EmittedOk(b: Buffer, n: nat, m: Incoming) {
    && n < |b.released| && b.released[n] < |b.arrivals| && m == b.arrivals[b.released[n]]
    && b.released[n] !in b.released[..n] && AllReported(b, m)
  }

  lemma PopOrdered(b: Buffer)
    requires Ordered(b) && b.ready != []
    ensures Ordered(b.(ready := b.ready[1..], emitted := b.emitted + 1))
    ensures EmittedOk(b, b.emitted, b.ready[0])
  {
    Open(b);
    var b' := b.(ready := b.ready[1..], emitted := b.emitted + 1);
    forall h | h in b'.pending ensures HandlesOk(b', h) {
      assert HandlesOk(b, h);
      SameHandles(b, b', h);
    }
    forall k | k in b'.cells ensures CellOk(b', k) {
      assert CellOk(b, k);
      SameCell(b, b', k);
    }
    SameAccount(b, b');
    assert InQueue(b, 0);
    assert b.released[b.emitted] in b.released;
    assert AllReported(b, b.arrivals[b.released[b.emitted]]);
    forall i | 0 <= i < |b'.ready| ensures InQueue(b', i) {
      assert InQueue(b, i + 1);
    }
    forall k | k in b'.released ensures k < |b'.arrivals| && AllReported(b', b'.arrivals[k]) {
      assert AllReported(b, b.arrivals[k]);
    }
    Close(b');
  }

  lemma Report(b: Buffer, more: set<(Hash, nat)>)
    requires Ordered(b)
    ensures Ordered(b.(reported := b.reported + more))
  {
    Open(b);
    ReportKeeps(b, b.reported + more);
    Close(b.(reported := b.reported + more));
  }

  lemma CompletionOrdered(b: Buffer, h: Hash, canon: nat)
    requires Ordered(b) && h in b.pending && b.pending[h] != [] && (h, canon) in b.reported
    ensures b.pending[h][0].cell in b.cells && Ordered(AfterCompletion(b, h, canon))
  {
    Open(b);
    CompletionKeeps(b, h, canon);
    Close(AfterCompletion(b, h, canon));
  }

  lemma DropOrdered(b: Buffer, h: Hash)
    requires h !in b.pending && Ordered(b.(pending := b.pending[h := []]))
    ensures Ordered(b)
  {
    Open(b.(pending := b.pending[h := []]));
    DropEmpty(b, h);
    Close(b);
  }

  /** `schedule_wait`: looks the references up and puts the commit where it belongs. */
  method Schedule(ghost b: Buffer, cells: map<nat, Cell>, pending: Pending, ready: seq<Incoming>, next: nat,
                  input: Incoming, status: map<Hash, nat>, order: set<Hash> -> seq<Hash>)
    returns (newCells: map<nat, Cell>, newPending: Pending, newReady: seq<Incoming>, ghost b': Buffer,
             ghost numbers: map<Hash, nat>)
    requires Ordered(b) && b.cells == cells && b.pending == pending && b.ready == ready && |b.arrivals| == next
    requires IsIteration(order)
    ensures b' == AfterScheduling(b, input, status, numbers) && Ordered(b')
    ensures b'.cells == newCells && b'.pending == newPending && b'.ready == newReady && |b'.arrivals| == next + 1
    ensures b'.emitted == b.emitted && b'.spoiled == b.spoiled
    ensures Coherent(status, References(input)) ==>
              && numbers.Keys == UnknownBlocks(status, input)
              && forall v | v in References(input) && v.targetHash in numbers ::
                   numbers[v.targetHash] == v.targetNumber
  {
    UnknownReferences(status, input);
    var ok, checked, unknownCount := QueryKnown(status, References(input));
    SchedulingKeeps(b, input, status, checked);
    numbers := UnknownNumbers(checked);
    b' := AfterScheduling(b, input, status, numbers);
    newCells, newPending, newReady := cells, pending, ready;
    if ok && unknownCount == 0 {
      newReady := ready + [input];
    } else if ok {
      ghost var b1 := b.(reported := b.reported + Seen(status, References(input)));
      newCells, newPending := Enqueue(b1, cells, pending, next, input, unknownCount, checked, order(checked.Keys));
    }
  }

  /** A new cell with the count of unknown blocks, and a handle to it for each of them. */
  method Enqueue(ghost b: Buffer, cells: map<nat, Cell>, pending: Pending, next: nat, input: Incoming,
                 unknownCount: nat, checked: map<Hash, KnownOrUnknown>, hashes: seq<Hash>)
    returns (newCells: map<nat, Cell>, newPending: Pending)
    requires b.cells == cells && b.pending == pending && |b.arrivals| == next
    requires unknownCount == |UnknownNumbers(checked).Keys|
    requires NoDup(hashes) && forall h :: h in hashes <==> h in checked
    ensures var b' := AfterArrival(b, input, UnknownNumbers(checked)); newCells == b'.cells && newPending == b'.pending
  {
    newCells := cells[next := Cell(unknownCount, Some(input))];
    newPending := Register(pending, next, checked, hashes);
  }

  /** Registers a handle for every unknown block. */
  method Register(start: Pending, cell: nat, checked: map<Hash, KnownOrUnknown>, hashes: seq<Hash>)
    returns (pending: Pending)
    requires NoDup(hashes) && forall h :: h in hashes <==> h in checked
    ensures pending == Registered(start, cell, UnknownNumbers(checked))
  {
    ghost var numbers := UnknownNumbers(checked);
    pending := start;
    for i := 0 to |hashes|
      invariant forall h :: QueuedAt(start, pending, cell, numbers, hashes[..i], h)
    {
      var x: Hash := hashes[i];
      assert x in hashes && x in checked;
      ghost var before := pending;
      if checked[x].Unknown? {
        pending := pending[x := Queue(pending, x) + [Handle(cell, checked[x].number)]];
      }
      DoneNext(hashes, i);
      QueuedNext(start, before, pending, cell, numbers, hashes[..i], hashes[..i + 1], x);
    }
    assert hashes[..|hashes|] == hashes;
    RegisteredAll(start, pending, cell, numbers, hashes);
  }

  /** Block `h` has its handle if it is among the blocks done. */
  ghost predicate QueuedAt(start: Pending, pending: Pending, cell: nat, numbers: map<Hash, nat>, done: seq<Hash>,
                           h: Hash) {
    && Queue(pending, h) == Queue(start, h) + (if h in numbers && h in done then [Handle(cell, numbers[h])] else [])
    && (h in pending <==> h in start || (h in numbers && h in done))
  }

  lemma DoneNext(hashes: seq<Hash>, i: nat)
    requires i < |hashes| && NoDup(hashes)
    ensures hashes[..i + 1] == hashes[..i] + [hashes[i]] && hashes[i] !in hashes[..i]
  {
  }

  lemma QueuedNext(start: Pending, before: Pending, pending: Pending, cell: nat, numbers: map<Hash, nat>,
                   done: seq<Hash>, done': seq<Hash>, x: Hash)
    requires (forall h :: QueuedAt(start, before, cell, numbers, done, h)) && x !in done && forall h :: h in done' <==>
               h in done || h == x
    requires pending == if x in numbers then before[x := Queue(before, x) + [Handle(cell, numbers[x])]] else before
    ensures forall h :: QueuedAt(start, pending, cell, numbers, done', h)
  {
    forall h ensures QueuedAt(start, pending, cell, numbers, done', h) {
      assert QueuedAt(start, before, cell, numbers, done, h);
    }
  }

  lemma RegisteredAll(start: Pending, pending: Pending, cell: nat, numbers: map<Hash, nat>, hashes: seq<Hash>)
    requires forall h :: QueuedAt(start, pending, cell, numbers, hashes, h)
    requires forall h | h in numbers :: h in hashes
    ensures pending == Registered(start, cell, numbers)
  {
    var p := Registered(start, cell, numbers);
    forall h ensures (h in pending <==> h in p) && (h in p ==> pending[h] == p[h]) {
      assert QueuedAt(start, pending, cell, numbers, hashes, h);
    }
  }

  /** The numbers the client reports for the referenced blocks it knows. */
  ghost function Seen(status: map<Hash, nat>, refs: seq<Vote>): set<(Hash, nat)> {
    set i | 0 <= i < |refs| && refs[i].targetHash in status :: (refs[i].targetHash, status[refs[i].targetHash])
  }

  lemma AllKnown(status: map<Hash, nat>, refs: seq<Vote>, b: Buffer, m: Incoming)
    requires Coherent(status, refs) && UnknownHashes(status, refs) == {} && refs == References(m)
    requires Seen(status, refs) <= b.reported
    ensures AllReported(b, m)
  {
    forall v | v in refs ensures (v.targetHash, v.targetNumber) in b.reported {
      var i :| 0 <= i < |refs| && refs[i] == v;
      assert AgreesWith(status, refs, i);
      assert refs[i].targetHash !in UnknownHashes(status, refs);
    }
  }

  lemma UnknownMatches(status: map<Hash, nat>, refs: seq<Vote>, checked: map<Hash, KnownOrUnknown>)
    requires Coherent(status, refs) && CheckedOk(status, refs, checked)
    ensures UnknownNumbers(checked).Keys == UnknownHashes(status, refs)
    ensures forall v | v in refs ::
      || (v.targetHash, v.targetNumber) in Seen(status, refs)
      || (v.targetHash in UnknownNumbers(checked) && UnknownNumbers(checked)[v.targetHash] == v.targetNumber)
  {
    forall h ensures h in UnknownNumbers(checked) <==> h in UnknownHashes(status, refs) {
      assert h in UnknownHashes(status, refs) <==> Mentions(refs, h) && h !in status;
    }
    forall v | v in refs
      ensures (v.targetHash, v.targetNumber) in Seen(status, refs)
              || (v.targetHash in UnknownNumbers(checked) && UnknownNumbers(checked)[v.targetHash] == v.targetNumber)
    {
      var i :| 0 <= i < |refs| && refs[i] == v;
      assert AgreesWith(status, refs, i);
    }
  }
}
