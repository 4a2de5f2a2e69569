/** Mirroring a task's output tree into its artifact bundle with hard links and a copy fallback. */
module Artifacts {
  import opened Common

  type Path = seq<string>

  datatype Node = Dir | Reg(bytes: seq<byte>) | Symlink(target: string) | Special

  /** A directory tree: the root is the empty path. */
  type Tree = map<Path, Node>

  function Parent(p: Path): Path
    requires p != []
  {
    p[..|p| - 1]
  }

  /** Every entry lies in a real directory of the tree. */
  ghost predicate Closed(t: Tree) {
    forall p :: p in t ==> InDirectory(t, p)
  }

  predicate InDirectory(t: Tree, p: Path) {
    p == [] || (Parent(p) in t && t[Parent(p)] == Dir)
  }

  ghost predicate RealTree(t: Tree) {
    [] in t && t[[]] == Dir && Closed(t)
  }

  /** What os.link, and where needed the copy behind it, does for one regular file. Fallback is one of
      the three errors that lead to a copy; a failed copy may leave part of the file. */
  datatype LinkAnswer = Linked | Refused | Fallback(copied: CopyAnswer)
  datatype CopyAnswer = Copied | NotCopied | CutShort(part: seq<byte>)

  /** The bytes that end up at the destination, if a file does. */
  function Arrives(a: LinkAnswer, bytes: seq<byte>): Option<seq<byte>> {
    match a
    case Linked => Some(bytes)
    case Refused => None
    case Fallback(Copied) => Some(bytes)
    case Fallback(NotCopied) => None
    case Fallback(CutShort(part)) => Some(part)
  }

  /** The destination node for a source node, if there is one. */
  function Mirror(n: Node, a: LinkAnswer): Option<Node> {
    match n
    case Dir => Some(Dir)
    case Reg(bytes) => if Arrives(a, bytes).Some? then Some(Reg(Arrives(a, bytes).value)) else None
    case Symlink(_) => None
    case Special => None
  }

  /** The tree that a replication leaves. */
  function Mirrored(src: Tree, link: Path -> LinkAnswer): Tree {
    map p | p in src && Mirror(src[p], link(p)).Some? :: Mirror(src[p], link(p)).value
  }

  /** The source without symbolic links and special files. */
  function RealPart(src: Tree): Tree {
    map p | p in src && (src[p].Dir? || src[p].Reg?) :: src[p]
  }

  /** One step of os.walk: a real directory and the names in it that are not directories. */
  datatype Visit = Visit(dir: Path, files: seq<string>)

  /** What a walk that does not follow links yields: every real directory once, parents first, each with
      its files, and among the names at least all the regular ones. */
  ghost predicate WalkOf(src: Tree, walk: seq<Visit>) {
    && (forall p :: p in src && src[p] == Dir ==> IsVisited(walk, p))
    && (forall i :: 0 <= i < |walk| ==> VisitOk(src, walk[i]) && AfterParent(walk, i))
    && (forall i, j :: 0 <= i < j < |walk| ==> walk[i].dir != walk[j].dir)
  }

  ghost predicate IsVisited(walk: seq<Visit>, d: Path) {
    exists i :: 0 <= i < |walk| && walk[i].dir == d
  }

  ghost predicate AfterParent(walk: seq<Visit>, i: nat)
    requires i < |walk|
  {
    walk[i].dir == [] || exists j :: 0 <= j < i && walk[j].dir == Parent(walk[i].dir)
  }

  ghost predicate VisitOk(src: Tree, v: Visit) {
    && v.dir in src && src[v.dir] == Dir
    && (forall f :: f in v.files ==> v.dir + [f] in src && src[v.dir + [f]] != Dir)
    && (forall f :: v.dir + [f] in src && src[v.dir + [f]].Reg? ==> f in v.files)
  }

  /** A directory and whatever ancestors it lacks. */
  function MakeDirs(t: Tree, p: Path): Tree
    decreases |p|
  {
    if p in t then t
    else if p == [] then t[p := Dir]
    else MakeDirs(t, Parent(p))[p := Dir]
  }

  /** The entries of t at the reached paths. */
  function Restrict(t: Tree, reached: set<Path>): Tree {
    map p | p in t && p in reached :: t[p]
  }

  lemma ReachDir(t: Tree, reached: set<Path>, d: Path)
    requires d in t && t[d] == Dir
    requires d != [] ==> Parent(d) in t && Parent(d) in reached
    ensures MakeDirs(Restrict(t, reached), d) == Restrict(t, reached + {d})
  {
    var r := Restrict(t, reached);
    if d in r {
      assert r == Restrict(t, reached + {d});
    } else {
      assert MakeDirs(r, d) == r[d := Dir];
      assert r[d := Dir] == Restrict(t, reached + {d});
    }
  }

  lemma ReachFile(t: Tree, reached: set<Path>, p: Path)
    ensures p in t ==> Restrict(t, reached)[p := t[p]] == Restrict(t, reached + {p})
    ensures p !in t ==> Restrict(t, reached) == Restrict(t, reached + {p})
  {
  }

  ghost predicate VisitReached(v: Visit, reached: set<Path>) {
    v.dir in reached && forall f :: f in v.files ==> v.dir + [f] in reached
  }

  /** The first i visits are dealt with. */
  ghost predicate FirstReached(walk: seq<Visit>, i: nat, reached: set<Path>)
    requires i <= |walk|
  {
    forall j :: 0 <= j < i ==> VisitReached(walk[j], reached)
  }

  lemma ReachMore(walk: seq<Visit>, i: nat, reached: set<Path>, after: set<Path>)
    requires i < |walk| && FirstReached(walk, i, reached)
    requires reached <= after && VisitReached(walk[i], after)
    ensures FirstReached(walk, i + 1, after)
  {
    forall j | 0 <= j < i ensures VisitReached(walk[j], after) {
      assert VisitReached(walk[j], reached);
    }
  }

  lemma VisitOf(src: Tree, walk: seq<Visit>, d: Path) returns (i: nat)
    requires WalkOf(src, walk) && d in src && src[d] == Dir
    ensures i < |walk| && walk[i].dir == d && VisitOk(src, walk[i])
  {
    assert IsVisited(walk, d);
    i :| 0 <= i < |walk| && walk[i].dir == d;
  }

  lemma IsReached(src: Tree, v: Visit, reached: set<Path>, p: Path)
    requires VisitOk(src, v) && VisitReached(v, reached)
    requires p == v.dir || (p != [] && Parent(p) == v.dir && p in src && src[p].Reg?)
    ensures p in reached
  {
    if p != v.dir {
      assert p == v.dir + [p[|p| - 1]];
    }
  }

  lemma AllReached(src: Tree, link: Path -> LinkAnswer, walk: seq<Visit>, reached: set<Path>)
    requires RealTree(src) && WalkOf(src, walk) && FirstReached(walk, |walk|, reached)
    ensures Restrict(Mirrored(src, link), reached) == Mirrored(src, link)
  {
    forall p | p in Mirrored(src, link) ensures p in reached {
      assert InDirectory(src, p);
      var i := VisitOf(src, walk, if src[p] == Dir then p else Parent(p));
      IsReached(src, walk[i], reached, p);
    }
  }

  lemma ReachNext(src: Tree, link: Path -> LinkAnswer, walk: seq<Visit>, i: nat, reached: set<Path>)
    requires RealTree(src) && WalkOf(src, walk) && i < |walk| && FirstReached(walk, i, reached)
    ensures VisitOk(src, walk[i])
    ensures MakeDirs(Restrict(Mirrored(src, link), reached), walk[i].dir)
         == Restrict(Mirrored(src, link), reached + {walk[i].dir})
  {
    var d := walk[i].dir;
    assert AfterParent(walk, i) && VisitOk(src, walk[i]);
    assert InDirectory(src, d);
    if d != [] {
      var j :| 0 <= j < i && walk[j].dir == Parent(d);
      assert VisitReached(walk[j], reached);
    }
    ReachDir(Mirrored(src, link), reached, d);
  }

  class Bundle {
    var dst: Tree

    constructor (earlier: Tree)
      ensures dst == earlier
    {
      dst := earlier;
    }

    /** Wipe the destination, then mirror the source directory by directory and file by file. What was
        there before does not matter. */
    method ReplicateOutputTree(src: Option<Tree>, walk: seq<Visit>, link: Path -> LinkAnswer)
      requires src.Some? ==> RealTree(src.value) && WalkOf(src.value, walk)
      modifies this
      ensures dst == if src.None? then map[] else Mirrored(src.value, link)
    {
      dst := map[];
      if src.None? {
        return;
      }
      MirrorWalk(src.value, walk, link);
    }

    /** The walk itself, into an empty destination. */
    method MirrorWalk(tree: Tree, walk: seq<Visit>, link: Path -> LinkAnswer)
      requires RealTree(tree) && WalkOf(tree, walk) && dst == map[]
      modifies this
      ensures dst == Mirrored(tree, link)
    {
      ghost var reached: set<Path> := {};
      var i := 0;
      while i < |walk|
        invariant 0 <= i <= |walk|
        invariant dst == Restrict(Mirrored(tree, link), reached)
        invariant FirstReached(walk, i, reached)
      {
        ReachNext(tree, link, walk, i, reached);
        ghost var after := VisitDir(tree, link, walk[i], reached);
        ReachMore(walk, i, reached, after);
        reached := after;
        i := i + 1;
      }
      AllReached(tree, link, walk, reached);
    }

    /** One directory: make it, then its files. */
    method VisitDir(tree: Tree, link: Path -> LinkAnswer, v: Visit, ghost before: set<Path>)
      returns (ghost after: set<Path>)
      requires VisitOk(tree, v) && dst == Restrict(Mirrored(tree, link), before)
      requires MakeDirs(Restrict(Mirrored(tree, link), before), v.dir)
            == Restrict(Mirrored(tree, link), before + {v.dir})
      modifies this
      ensures dst == Restrict(Mirrored(tree, link), after)
      ensures before <= after && VisitReached(v, after)
    {
      dst := MakeDirs(dst, v.dir);
      after := CopyFiles(tree, link, v, before + {v.dir});
    }

    /** The files of one directory. */
    method CopyFiles(tree: Tree, link: Path -> LinkAnswer, v: Visit, ghost before: set<Path>)
      returns (ghost after: set<Path>)
      requires VisitOk(tree, v)
      requires dst == Restrict(Mirrored(tree, link), before)
      modifies this
      ensures dst == Restrict(Mirrored(tree, link), after)
      ensures before <= after && forall f :: f in v.files ==> v.dir + [f] in after
    {
      ghost var goal := Mirrored(tree, link);
      after := before;
      var k := 0;
      while k < |v.files|
        invariant 0 <= k <= |v.files|
        invariant dst == Restrict(goal, after)
        invariant before <= after
        invariant forall f :: f in v.files[..k] ==> v.dir + [f] in after
      {
        var name := v.files[k];
        var p := v.dir + [name];
        assert name in v.files;
        ReachFile(goal, after, p);
        assert p in goal <==> Mirror(tree[p], link(p)).Some?;
        CopyFile(tree[p], p, link(p));
        after := after + {p};
        assert v.files[..k + 1] == v.files[..k] + [name];
        k := k + 1;
      }
      assert v.files[..k] == v.files;
    }

    /** One file: only a regular one is linked, and copied when the link falls back. */
    method CopyFile(node: Node, p: Path, a: LinkAnswer)
      requires node != Dir
      modifies this
      ensures dst == if Mirror(node, a).Some? then old(dst)[p := Mirror(node, a).value] else old(dst)
    {
      if !node.Reg? {
        return;
      }
      match a {
        case Linked => dst := dst[p := Reg(node.bytes)];
        case Refused =>
        case Fallback(Copied) => dst := dst[p := Reg(node.bytes)];
        case Fallback(NotCopied) =>
        case Fallback(CutShort(part)) => dst := dst[p := Reg(part)];
      }
    }
  }

  /** A link succeeds, or fails over to a copy that succeeds. */
  predicate Succeeds(a: LinkAnswer) {
    a == Linked || a == Fallback(Copied)
  }

  /** Main result: the mirrored tree is the source without links and special files exactly when every
      regular file arrives whole; it is enough that each link succeeds or fails over to a whole copy. */
  lemma MirrorIsRealPart(src: Tree, link: Path -> LinkAnswer)
    ensures Mirrored(src, link) == RealPart(src) <==>
            forall p :: p in src && src[p].Reg? ==> Arrives(link(p), src[p].bytes) == Some(src[p].bytes)
    ensures (forall p :: p in src && src[p].Reg? ==> Succeeds(link(p))) ==> Mirrored(src, link) == RealPart(src)
  {
    if Mirrored(src, link) == RealPart(src) {
      forall p | p in src && src[p].Reg? ensures Arrives(link(p), src[p].bytes) == Some(src[p].bytes) {
        assert p in RealPart(src);
        assert Mirrored(src, link)[p] == RealPart(src)[p];
      }
    }
  }

  /** What the capture holds, entry by entry and answer by answer: every real directory; a regular file whole
      when it was linked or copied, its first part when the copy broke off, and not at all when the link was
      refused or nothing was copied; no link and nothing special; and nothing that the source has not. */
  lemma MirrorByAnswer(src: Tree, link: Path -> LinkAnswer, p: Path)
    ensures var dst := Mirrored(src, link);
            if p !in src || src[p].Symlink? || src[p].Special? then p !in dst
            else if src[p].Dir? then p in dst && dst[p].Dir?
            else
              match link(p)
              case Linked => p in dst && dst[p] == src[p]
              case Refused => p !in dst
              case Fallback(Copied) => p in dst && dst[p] == src[p]
              case Fallback(NotCopied) => p !in dst
              case Fallback(CutShort(part)) => p in dst && dst[p] == Reg(part)
  {
    if p in src && src[p].Dir? {
      assert Mirror(src[p], link(p)) == Some(Dir);
    }
  }

  /** What is captured is itself a real tree, so capturing the capture gives it again. */
  lemma CaptureOfCapture(src: Tree)
    requires RealTree(src)
    ensures RealTree(RealPart(src)) && RealPart(RealPart(src)) == RealPart(src)
  {
    forall p | p in RealPart(src) ensures InDirectory(RealPart(src), p) {
      assert InDirectory(src, p);
    }
  }
}
