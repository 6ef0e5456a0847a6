/** The block tree that all votes refer to, and the `Chain` queries over it. */
module BlockTree {
  import opened Wrappers

  type Hash = int

  datatype ChainError = NotDescendent

  /** A finite set of blocks: `number` has every known block, `parent` those whose parent is known. */
  datatype Blocks = Blocks(parent: map<Hash, Hash>, number: map<Hash, nat>) {
    ghost predicate WellFormed() {
      forall h | h in parent ::
        h in number && parent[h] in number && number[h] == number[parent[h]] + 1
    }
  }

  type Chain = b: Blocks | b.WellFormed() witness Blocks(map[], map[])

  /** `a` is `b` or one of its ancestors. */
  predicate AtOrBelow(c: Chain, a: Hash, b: Hash)
    decreases if b in c.number then c.number[b] else 0
  {
    a == b || (b in c.parent && AtOrBelow(c, a, c.parent[b]))
  }

  ghost predicate Comparable(c: Chain, a: Hash, b: Hash) {
    AtOrBelow(c, a, b) || AtOrBelow(c, b, a)
  }

  lemma {:induction false} BelowNumber(c: Chain, a: Hash, b: Hash)
    requires AtOrBelow(c, a, b) && b in c.number
    ensures a in c.number && c.number[a] <= c.number[b]
    ensures c.number[a] == c.number[b] ==> a == b
    decreases c.number[b]
  {
    if a != b {
      BelowNumber(c, a, c.parent[b]);
    }
  }

  lemma {:induction false} BelowTrans(c: Chain, x: Hash, y: Hash, z: Hash)
    requires AtOrBelow(c, x, y) && AtOrBelow(c, y, z)
    ensures AtOrBelow(c, x, z)
    decreases if z in c.number then c.number[z] else 0
  {
    if y != z {
      BelowTrans(c, x, y, c.parent[z]);
    }
  }

  lemma AboveKnown(c: Chain, a: Hash, b: Hash)
    requires AtOrBelow(c, a, b) && a in c.number
    ensures b in c.number
  {
  }

  /** The ancestors of one block form a line, ordered by number. */
  lemma {:induction false} BelowLinear(c: Chain, x: Hash, y: Hash, z: Hash)
    requires AtOrBelow(c, x, z) && AtOrBelow(c, y, z) && z in c.number
    ensures x in c.number && y in c.number
    ensures AtOrBelow(c, x, y) <==> c.number[x] <= c.number[y]
    decreases c.number[z]
  {
    BelowNumber(c, x, z);
    BelowNumber(c, y, z);
    if AtOrBelow(c, x, y) {
      BelowNumber(c, x, y);
    }
    if z != x && z != y {
      BelowLinear(c, x, y, c.parent[z]);
    }
  }

  /** `path` lists consecutive ancestors of `h`, its parent first. */
  ghost predicate IsPath(c: Chain, h: Hash, path: seq<Hash>) {
    forall i | 0 <= i < |path| :: StepDown(c, h, path, i)
  }

  ghost predicate StepDown(c: Chain, h: Hash, path: seq<Hash>, i: int)
    requires 0 <= i < |path|
  {
    var above := if i == 0 then h else path[i - 1];
    above in c.parent && path[i] == c.parent[above]
  }

  lemma {:induction false} PathAt(c: Chain, h: Hash, path: seq<Hash>, i: nat)
    requires IsPath(c, h, path) && i < |path| && h in c.number
    ensures path[i] in c.number && c.number[path[i]] + i + 1 == c.number[h]
    ensures AtOrBelow(c, path[i], h)
  {
    assert StepDown(c, h, path, i);
    if i > 0 {
      PathAt(c, h, path, i - 1);
      assert AtOrBelow(c, path[i], path[i - 1]);
      BelowTrans(c, path[i], path[i - 1], h);
    } else {
      assert AtOrBelow(c, path[i], c.parent[h]);
    }
  }

  /** A path has every ancestor whose number is in its range, at the offset given by the number. */
  lemma PathCovers(c: Chain, h: Hash, path: seq<Hash>, x: Hash)
    requires IsPath(c, h, path) && h in c.number && AtOrBelow(c, x, h) && x != h
    requires x in c.number && c.number[h] - c.number[x] <= |path|
    ensures c.number[x] < c.number[h] && path[c.number[h] - c.number[x] - 1] == x
  {
    BelowNumber(c, x, h);
    var i := c.number[h] - c.number[x] - 1;
    PathAt(c, h, path, i);
    BelowLinear(c, x, path[i], h);
    BelowNumber(c, x, path[i]);
  }

  lemma PathMember(c: Chain, h: Hash, path: seq<Hash>, x: Hash)
    requires IsPath(c, h, path) && h in c.number && x in path
    ensures AtOrBelow(c, x, h) && x in c.number && c.number[x] < c.number[h]
    ensures c.number[h] - c.number[x] <= |path| && path[c.number[h] - c.number[x] - 1] == x
    ensures AtOrBelow(c, Last(path), x)
  {
    var i :| 0 <= i < |path| && path[i] == x;
    PathAt(c, h, path, i);
    PathAt(c, h, path, |path| - 1);
    BelowLinear(c, Last(path), x, h);
  }

  /** `Chain::ancestry`: the blocks strictly between `block` and `base`, highest first. */
  function Ancestry(c: Chain, base: Hash, block: Hash): (r: Result<seq<Hash>, ChainError>)
    requires base != block
    ensures r.Ok? <==> AtOrBelow(c, base, block)
    ensures r.Ok? ==> IsPath(c, block, r.value + [base])
    decreases if block in c.number then c.number[block] else 0
  {
    if block !in c.parent then Err(NotDescendent)
    else
      var p := c.parent[block];
      if p == base then Ok([])
      else
        match Ancestry(c, base, p)
        case Err(e) => Err(e)
        case Ok(rest) =>
          PathCons(c, block, rest + [base]);
          assert [p] + (rest + [base]) == ([p] + rest) + [base];
          Ok([p] + rest)
  }

  lemma PathCons(c: Chain, h: Hash, path: seq<Hash>)
    requires h in c.parent && IsPath(c, c.parent[h], path)
    ensures IsPath(c, h, [c.parent[h]] + path)
  {
    var full := [c.parent[h]] + path;
    forall i | 0 <= i < |full| ensures StepDown(c, h, full, i) {
      if i > 0 {
        assert StepDown(c, c.parent[h], path, i - 1);
      }
    }
  }

  /** `Chain::is_equal_or_descendent_of`. */
  predicate IsEqualOrDescendentOf(c: Chain, base: Hash, block: Hash)
    ensures IsEqualOrDescendentOf(c, base, block) <==> AtOrBelow(c, base, block)
  {
    base == block || Ancestry(c, base, block).Ok?
  }
}
