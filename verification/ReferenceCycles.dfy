/**
 * Which contracts the resolver resolves: those in which following references
 * never comes back, and every other one not.
 */
module ReferenceCycles {
  import opened Domain
  import opened Resolver
  import Collections

  // --- Cycles have no rank ---

  predicate Mentions(node: Node, ref: string) {
    if IsRef(node) then RefOf(node) == ref
    else match node
      case Arr(items) => exists i :: 0 <= i < |items| && Mentions(items[i], ref)
      case Obj(fields) => exists k :: k in fields && Mentions(fields[k], ref)
      case _ => false
  }

  /** A reference as it occurs: its text and the file it is in. */
  datatype Link = Link(file: string, ref: string)

  /** The second reference occurs inside what the first one points at. */
  predicate LeadsTo(env: Env, a: Link, b: Link) {
    var target := Target(env, a.file, a.ref);
    target.Ok? && target.value.file == b.file && Mentions(target.value.node, b.ref)
  }

  lemma {:induction false} MentionedIsBelow(node: Node, file: string, rank: Rank, n: nat, ref: string)
    requires RefsBelow(node, file, rank, n) && Mentions(node, ref)
    ensures rank(file, ref).Some? && rank(file, ref).value < n
  {
    if !IsRef(node) {
      match node
      case Arr(items) =>
        var i :| 0 <= i < |items| && Mentions(items[i], ref);
        MentionedIsBelow(items[i], file, rank, n, ref);
      case Obj(fields) =>
        var k :| k in fields && Mentions(fields[k], ref);
        MentionedIsBelow(fields[k], file, rank, n, ref);
    }
  }

  lemma {:induction false} RankFallsAlong(env: Env, rank: Rank, chain: seq<Link>)
    requires Acyclic(env, rank) && chain != [] && rank(chain[0].file, chain[0].ref).Some?
    requires forall i :: 0 <= i < |chain| - 1 ==> LeadsTo(env, chain[i], chain[i + 1])
    ensures var last := chain[|chain| - 1];
      rank(last.file, last.ref).Some? &&
        rank(last.file, last.ref).value + |chain| - 1 <= rank(chain[0].file, chain[0].ref).value
  {
    if |chain| > 1 {
      var a, b := chain[0], chain[1];
      assert LeadsTo(env, a, b);
      MentionedIsBelow(Target(env, a.file, a.ref).value.node, b.file, rank, rank(a.file, a.ref).value, b.ref);
      forall i | 0 <= i < |chain| - 2 ensures LeadsTo(env, chain[1..][i], chain[1..][i + 1]) {
        assert LeadsTo(env, chain[i + 1], chain[i + 2]);
      }
      RankFallsAlong(env, rank, chain[1..]);
    }
  }

  /** A reference that leads back to itself has no rank. */
  lemma CyclesHaveNoRank(env: Env, rank: Rank, chain: seq<Link>)
    requires |chain| >= 2 && chain[0] == chain[|chain| - 1]
    requires forall i :: 0 <= i < |chain| - 1 ==> LeadsTo(env, chain[i], chain[i + 1])
    ensures Acyclic(env, rank) ==> rank(chain[0].file, chain[0].ref).None?
  {
    if Acyclic(env, rank) && rank(chain[0].file, chain[0].ref).Some? {
      RankFallsAlong(env, rank, chain);
    }
  }

  // --- Finite contracts without a cycle have a rank ---

  /** Every reference anywhere in the node, also beside or below other references. */
  function RefsIn(node: Node): set<string> {
    (if IsRef(node) then {RefOf(node)} else {}) +
    match node
    case Arr(items) => set i, ref | 0 <= i < |items| && ref in RefsIn(items[i]) :: ref
    case Obj(fields) => set k, ref | k in fields && ref in RefsIn(fields[k]) :: ref
    case _ => {}
  }

  /** All references of all files; there are finitely many. */
  function Links(env: Env): set<Link> {
    set f, ref | f in env.files && ref in RefsIn(env.files[f]) :: Link(f, ref)
  }

  lemma {:induction false} MentionedIsIn(node: Node, ref: string)
    requires Mentions(node, ref)
    ensures ref in RefsIn(node)
  {
    if !IsRef(node) {
      match node
      case Arr(items) =>
        var i :| 0 <= i < |items| && Mentions(items[i], ref);
        MentionedIsIn(items[i], ref);
      case Obj(fields) =>
        var k :| k in fields && Mentions(fields[k], ref);
        MentionedIsIn(fields[k], ref);
    }
  }

  lemma {:induction false} GotIsIn(node: Node, path: seq<string>, ref: string)
    requires ref in RefsIn(Get(node, path))
    ensures ref in RefsIn(node)
    decreases |path|
  {
    if path != [] {
      GotIsIn(Child(node, path[0]), path[1..], ref);
      assert ref in RefsIn(Child(node, path[0]));
    }
  }

  lemma LedToIsALink(env: Env, a: Link, b: Link)
    requires LeadsTo(env, a, b)
    ensures b in Links(env)
  {
    var place := Target(env, a.file, a.ref).value;
    MentionedIsIn(place.node, b.ref);
    GotIsIn(env.files[place.file], Pointer(env, a.ref), b.ref);
  }

  /** A chain of references, each occurring in what the one before points at. */
  ghost predicate IsChain(env: Env, chain: seq<Link>) {
    forall i :: 0 <= i < |chain| - 1 ==> LeadsTo(env, chain[i], chain[i + 1])
  }

  /** Following references leads from a to b in one jump or more. */
  ghost predicate Reaches(env: Env, a: Link, b: Link) {
    exists chain :: |chain| >= 2 && chain[0] == a && chain[|chain| - 1] == b && IsChain(env, chain)
  }

  lemma OneJumpReaches(env: Env, a: Link, b: Link)
    requires LeadsTo(env, a, b)
    ensures Reaches(env, a, b)
  {
    var chain := [a, b];
    assert IsChain(env, chain);
  }

  lemma JumpThenReach(env: Env, a: Link, b: Link, c: Link)
    requires LeadsTo(env, a, b) && Reaches(env, b, c)
    ensures Reaches(env, a, c)
  {
    var chain :| |chain| >= 2 && chain[0] == b && chain[|chain| - 1] == c && IsChain(env, chain);
    var longer := [a] + chain;
    forall i | 0 <= i < |longer| - 1 ensures LeadsTo(env, longer[i], longer[i + 1]) {
      if i > 0 { assert LeadsTo(env, chain[i - 1], chain[i]); }
    }
    assert longer[0] == a && longer[|longer| - 1] == c;
  }

  /** Following the reference can come back to where it has been. */
  ghost predicate RunsIntoCycle(env: Env, a: Link) {
    exists b :: (a == b || Reaches(env, a, b)) && Reaches(env, b, b)
  }

  /** The links that a reference leads to, near and far. */
  ghost function Reach(env: Env, a: Link): set<Link> {
    set b | b in Links(env) && Reaches(env, a, b)
  }

  /** The rank of a reference that runs into no cycle: how many links it leads to. */
  ghost function ReachRank(env: Env, file: string, ref: string): Option<nat> {
    if RunsIntoCycle(env, Link(file, ref)) then None else Some(|Reach(env, Link(file, ref))|)
  }

  lemma ProperSubsetIsSmaller<T>(a: set<T>, b: set<T>, x: T)
    requires a <= b && x in b && x !in a
    ensures |a| < |b|
  {
    assert a <= b - {x};
    Collections.SubsetIsNoLarger(a, b - {x});
  }

  /** One jump leaves strictly less to reach, and no cycle ahead. */
  lemma JumpsLowerTheRank(env: Env, a: Link, b: Link)
    requires LeadsTo(env, a, b) && !RunsIntoCycle(env, a)
    ensures !RunsIntoCycle(env, b) && |Reach(env, b)| < |Reach(env, a)|
  {
    OneJumpReaches(env, a, b);
    LedToIsALink(env, a, b);
    forall c | Reaches(env, b, c) ensures Reaches(env, a, c) { JumpThenReach(env, a, b, c); }
    ProperSubsetIsSmaller(Reach(env, b), Reach(env, a), b);
  }

  /** A node all of whose references rank below a bound. */
  lemma {:induction false} MentionsBound(node: Node, file: string, rank: Rank, n: nat)
    requires forall ref :: Mentions(node, ref) ==> rank(file, ref).Some? && rank(file, ref).value < n
    ensures RefsBelow(node, file, rank, n)
  {
    if IsRef(node) {
      assert Mentions(node, RefOf(node));
    } else {
      match node
      case Arr(items) => forall i | 0 <= i < |items| ensures RefsBelow(items[i], file, rank, n) {
          assert forall ref :: Mentions(items[i], ref) ==> Mentions(node, ref);
          MentionsBound(items[i], file, rank, n);
        }
      case Obj(fields) => forall k | k in fields ensures RefsBelow(fields[k], file, rank, n) {
          assert forall ref :: Mentions(fields[k], ref) ==> Mentions(node, ref);
          MentionsBound(fields[k], file, rank, n);
        }
      case _ =>
    }
  }

  ghost function RankOfReach(env: Env): Rank {
    (file, ref) => ReachRank(env, file, ref)
  }

  lemma ReachRanksAreAcyclic(env: Env)
    ensures Acyclic(env, RankOfReach(env))
  {
    var rank := RankOfReach(env);
    forall from, ref | rank(from, ref).Some? && Target(env, from, ref).Ok?
      ensures RefsBelow(Target(env, from, ref).value.node, Target(env, from, ref).value.file, rank,
        rank(from, ref).value)
    {
      var place := Target(env, from, ref).value;
      forall next | Mentions(place.node, next)
        ensures rank(place.file, next).Some? && rank(place.file, next).value < rank(from, ref).value
      {
        JumpsLowerTheRank(env, Link(from, ref), Link(place.file, next));
      }
      MentionsBound(place.node, place.file, rank, rank(from, ref).value);
    }
  }

  /** The results about resolution cover this node: its references can be ranked. */
  ghost predicate Resolvable(env: Env, node: Node, file: string) {
    exists rank: Rank, n: nat :: Acyclic(env, rank) && RefsBelow(node, file, rank, n)
  }

  /**
   * The condition on the contract itself: the resolver's results, termination
   * among them, cover a document if and only if none of its references runs
   * into a cycle of references.
   */
  lemma ResolvableIff(env: Env, node: Node, file: string)
    ensures Resolvable(env, node, file) <==> forall ref :: Mentions(node, ref) ==> !RunsIntoCycle(env, Link(file, ref))
  {
    if Resolvable(env, node, file) {
      var rank: Rank, n: nat :| Acyclic(env, rank) && RefsBelow(node, file, rank, n);
      forall ref | Mentions(node, ref) ensures !RunsIntoCycle(env, Link(file, ref)) {
        MentionedIsBelow(node, file, rank, n, ref);
        RankedRunsIntoNoCycle(env, rank, Link(file, ref));
      }
    }
    if forall ref :: Mentions(node, ref) ==> !RunsIntoCycle(env, Link(file, ref)) {
      var rank, n := RankOfReach(env), |Links(env)| + 1;
      ReachRanksAreAcyclic(env);
      forall ref | Mentions(node, ref) ensures rank(file, ref).Some? && rank(file, ref).value < n {
        Collections.SubsetIsNoLarger(Reach(env, Link(file, ref)), Links(env));
      }
      MentionsBound(node, file, rank, n);
    }
  }

  lemma RankedRunsIntoNoCycle(env: Env, rank: Rank, a: Link)
    requires Acyclic(env, rank) && rank(a.file, a.ref).Some?
    ensures !RunsIntoCycle(env, a)
  {
    if RunsIntoCycle(env, a) {
      var b :| (a == b || Reaches(env, a, b)) && Reaches(env, b, b);
      if a != b {
        var chain :| |chain| >= 2 && chain[0] == a && chain[|chain| - 1] == b && IsChain(env, chain);
        RankFallsAlong(env, rank, chain);
      }
      var cycle :| |cycle| >= 2 && cycle[0] == b && cycle[|cycle| - 1] == b && IsChain(env, cycle);
      CyclesHaveNoRank(env, rank, cycle);
    }
  }
}
