/** Choosing the read-only mounts that make skill libraries visible in a container. The container sees only the mount
    destinations and follows a link by its literal target. */
module SkillMounts {
  import opened Options

  /** A clean absolute path as its components. */
  type Path = seq<string>

  /** What the host finds at a path; a link's target is already joined with the link's directory. */
  datatype Lookup = Unreadable | NotLink | LinkTo(target: Path)

  type FileSystem = Path -> Lookup

  const MAX_LINK_HOPS: nat := 40

  // ----- One step of the walk -----

  ghost predicate Longest(dests: seq<Path>, path: Path, best: Option<Path>)
  {
    match best
    case None => forall i :: 0 <= i < |dests| ==> !(dests[i] <= path)
    case Some(b) => b in dests && b <= path && forall i :: 0 <= i < |dests| && dests[i] <= path ==> |dests[i]| <= |b|
  }

  /** The destination the loop settles on. */
  function LongestCovering(dests: seq<Path>, path: Path): (best: Option<Path>)
    ensures best.Some? ==> best.value <= path
  {
    if dests == [] then None else
      var last := dests[|dests| - 1];
      var front := LongestCovering(dests[..|dests| - 1], path);
      if last <= path && (front.None? || |last| > |front.value|) then Some(last) else front
  }

  /** It is the longest one above or at the path. */
  lemma {:induction false} LongestFound(dests: seq<Path>, path: Path)
    ensures Longest(dests, path, LongestCovering(dests, path))
  {
    if dests != [] {
      LongestFound(dests[..|dests| - 1], path);
      assert dests == dests[..|dests| - 1] + [dests[|dests| - 1]];
    }
  }

  method FindLongestCovering(dests: seq<Path>, path: Path) returns (best: Option<Path>)
    ensures best == LongestCovering(dests, path) && Longest(dests, path, best)
  {
    LongestFound(dests, path);
    best := None;
    for i := 0 to |dests|
      invariant best == LongestCovering(dests[..i], path)
    {
      assert dests[..i + 1][..i] == dests[..i];
      if dests[i] <= path && (best.None? || |dests[i]| > |best.value|) {
        best := Some(dests[i]);
      }
    }
    assert dests[..|dests|] == dests;
  }

  function LinkFrom(fs: FileSystem, path: Path, k: nat): Option<Path>
    requires k <= |path|
    decreases |path| - k
  {
    if k == |path| then None
    else match fs(path[..k + 1])
         case Unreadable => None
         case NotLink => LinkFrom(fs, path, k + 1)
         case LinkTo(target) => Some(target + path[k + 1..])
  }

  /** The path with its first link below the destination replaced by the link's target; None if there is none or the
      walk cannot go on. */
  method FollowFirstLink(fs: FileSystem, dest: Path, path: Path) returns (next: Option<Path>)
    requires dest <= path
    ensures next == LinkFrom(fs, path, |dest|)
  {
    for k := |dest| to |path|
      invariant LinkFrom(fs, path, |dest|) == LinkFrom(fs, path, k)
    {
      match fs(path[..k + 1]) {
        case Unreadable => return None;
        case NotLink =>
        case LinkTo(target) => return Some(target + path[k + 1..]);
      }
    }
    next := None;
  }

  // ----- The walk -----

  function Next(fs: FileSystem, dests: seq<Path>, path: Path): Option<Path>
  {
    match LongestCovering(dests, path)
    case None => None
    case Some(dest) => LinkFrom(fs, path, |dest|)
  }

  function EndAfter(fs: FileSystem, dests: seq<Path>, path: Path, hops: nat): Path
    decreases hops
  {
    if hops == 0 || Next(fs, dests, path).None? then path
    else EndAfter(fs, dests, Next(fs, dests, path).value, hops - 1)
  }

  /** Where a path ends inside the container. */
  method ContainerEnd(fs: FileSystem, path: Path, dests: seq<Path>, hops: nat := MAX_LINK_HOPS) returns (end: Path)
    ensures end == EndAfter(fs, dests, path, hops)
  {
    end := path;
    for hop := 0 to hops
      invariant EndAfter(fs, dests, path, hops) == EndAfter(fs, dests, end, hops - hop)
    {
      var dest := FindLongestCovering(dests, end);
      if dest.None? {
        return;
      }
      var next := FollowFirstLink(fs, dest.value, end);
      if next.None? {
        return;
      }
      end := next.value;
    }
  }

  /** What is found at the path up to component j. */
  function FoundAt(fs: FileSystem, path: Path, j: nat): Lookup
    requires j < |path|
  {
    fs(path[..j + 1])
  }

  /** Component n is the first at or after k that is not plain; it is a link, and next is the path through it. */
  predicate LinkAt(fs: FileSystem, path: Path, k: nat, n: nat, next: Path)
  {
    && k <= n < |path| && FoundAt(fs, path, n).LinkTo? && next == FoundAt(fs, path, n).target + path[n + 1..]
    && forall j :: k <= j < n ==> FoundAt(fs, path, j) == NotLink
  }

  ghost predicate ThroughFirstLink(fs: FileSystem, path: Path, k: nat, next: Path)
  {
    exists n: nat :: LinkAt(fs, path, k, n, next)
  }

  lemma {:induction false} LinkExact(fs: FileSystem, path: Path, k: nat, next: Path)
    requires k <= |path|
    ensures LinkFrom(fs, path, k) == Some(next) <==> ThroughFirstLink(fs, path, k, next)
    decreases |path| - k
  {
    if k < |path| {
      LinkExact(fs, path, k + 1, next);
      assert FoundAt(fs, path, k) == fs(path[..k + 1]);
      if fs(path[..k + 1]) == NotLink {
        if ThroughFirstLink(fs, path, k + 1, next) {
          var n: nat :| LinkAt(fs, path, k + 1, n, next);
          assert LinkAt(fs, path, k, n, next);
        }
        if ThroughFirstLink(fs, path, k, next) {
          var n: nat :| LinkAt(fs, path, k, n, next);
          assert LinkAt(fs, path, k + 1, n, next);
        }
      } else if LinkFrom(fs, path, k) == Some(next) {
        assert LinkAt(fs, path, k, k, next);
      }
    }
  }

  /** One hop: the path goes through its first link below the longest destination above it. */
  ghost predicate HopBelow(fs: FileSystem, dests: seq<Path>, dest: Path, path: Path, next: Path)
  {
    Longest(dests, path, Some(dest)) && ThroughFirstLink(fs, path, |dest|, next)
  }

  ghost predicate Hop(fs: FileSystem, dests: seq<Path>, path: Path, next: Path)
  {
    exists dest :: HopBelow(fs, dests, dest, path, next)
  }

  ghost predicate Stuck(fs: FileSystem, dests: seq<Path>, path: Path)
  {
    forall next :: !Hop(fs, dests, path, next)
  }

  ghost predicate IsWalk(fs: FileSystem, dests: seq<Path>, walk: seq<Path>)
  {
    walk != [] && forall i {:trigger HopAt(fs, dests, walk, i)} :: 0 <= i < |walk| - 1 ==> HopAt(fs, dests, walk, i)
  }

  ghost predicate HopAt(fs: FileSystem, dests: seq<Path>, walk: seq<Path>, i: nat)
    requires i + 1 < |walk|
  {
    Hop(fs, dests, walk[i], walk[i + 1])
  }

  lemma LongestUnique(dests: seq<Path>, path: Path, a: Path, b: Path)
    requires Longest(dests, path, Some(a)) && Longest(dests, path, Some(b))
    ensures a == b
  {
    var i :| 0 <= i < |dests| && dests[i] == a;
    var j :| 0 <= j < |dests| && dests[j] == b;
  }

  lemma NextExact(fs: FileSystem, dests: seq<Path>, path: Path, next: Path)
    ensures Next(fs, dests, path) == Some(next) <==> Hop(fs, dests, path, next)
  {
    LongestFound(dests, path);
    var best := LongestCovering(dests, path);
    if best.Some? {
      LinkExact(fs, path, |best.value|, next);
      if Next(fs, dests, path) == Some(next) {
        assert HopBelow(fs, dests, best.value, path, next);
      }
    }
    if Hop(fs, dests, path, next) {
      var dest :| HopBelow(fs, dests, dest, path, next);
      var i :| 0 <= i < |dests| && dests[i] == dest;
      assert best.Some?;
      LongestUnique(dests, path, dest, best.value);
    }
  }

  lemma StuckExact(fs: FileSystem, dests: seq<Path>, path: Path)
    ensures Next(fs, dests, path) == None <==> Stuck(fs, dests, path)
  {
    forall next
      ensures Next(fs, dests, path) == Some(next) <==> Hop(fs, dests, path, next)
    {
      NextExact(fs, dests, path, next);
    }
    if Next(fs, dests, path).Some? {
      assert Hop(fs, dests, path, Next(fs, dests, path).value);
    }
  }

  lemma WalkOn(fs: FileSystem, dests: seq<Path>, path: Path, rest: seq<Path>)
    requires IsWalk(fs, dests, rest) && Hop(fs, dests, path, rest[0])
    ensures IsWalk(fs, dests, [path] + rest) && ([path] + rest)[|rest|] == rest[|rest| - 1]
  {
    forall i | 0 <= i < |rest|
      ensures HopAt(fs, dests, [path] + rest, i)
    {
      if i > 0 { assert HopAt(fs, dests, rest, i - 1); }
    }
  }

  /** Main result: the end is where the walk of hops from the path gets to: one from which there is no hop, or the one that
      uses up the hops allowed. */
  lemma {:induction false} EndExact(fs: FileSystem, dests: seq<Path>, path: Path, hops: nat) returns (walk: seq<Path>)
    ensures IsWalk(fs, dests, walk) && walk[0] == path && walk[|walk| - 1] == EndAfter(fs, dests, path, hops)
    ensures |walk| <= hops + 1 && (|walk| == hops + 1 || Stuck(fs, dests, EndAfter(fs, dests, path, hops)))
    decreases hops
  {
    StuckExact(fs, dests, path);
    if hops == 0 || Next(fs, dests, path).None? {
      walk := [path];
    } else {
      var next := Next(fs, dests, path).value;
      var rest := EndExact(fs, dests, next, hops - 1);
      NextExact(fs, dests, path, next);
      WalkOn(fs, dests, path, rest);
      walk := [path] + rest;
    }
  }

  predicate Covered(dests: seq<Path>, path: Path)
  {
    LongestCovering(dests, path).Some?
  }

  predicate Visible(fs: FileSystem, dests: seq<Path>, lib: Path, hops: nat)
  {
    Covered(dests, EndAfter(fs, dests, lib, hops))
  }

  method FirstUnmounted(fs: FileSystem, path: Path, dests: seq<Path>, hops: nat := MAX_LINK_HOPS) returns (missing: Option<Path>)
    ensures missing == if Visible(fs, dests, path, hops) then None else Some(EndAfter(fs, dests, path, hops))
  {
    var end := ContainerEnd(fs, path, dests, hops);
    var dest := FindLongestCovering(dests, end);
    missing := if dest.None? then Some(end) else None;
  }

  // ----- Adding a mount -----

  lemma PrefixesCompare(a: Path, b: Path, path: Path)
    requires a <= path && b <= path && |a| <= |b|
    ensures a <= b
  {
  }

  /** A destination not yet covered changes nothing for a path that is. */
  lemma CoveringStable(dests: seq<Path>, dir: Path, path: Path)
    requires !Covered(dests, dir) && Covered(dests, path)
    ensures LongestCovering(dests + [dir], path) == LongestCovering(dests, path)
  {
    LongestFound(dests, dir);
    LongestFound(dests, path);
    var d := LongestCovering(dests, path).value;
    assert (dests + [dir])[..|dests|] == dests;
    if dir <= path && |dir| > |d| {
      PrefixesCompare(d, dir, path);
    }
  }

  lemma CoversItself(dests: seq<Path>, dir: Path)
    requires !Covered(dests, dir)
    ensures LongestCovering(dests + [dir], dir) == Some(dir)
  {
    assert (dests + [dir])[..|dests|] == dests;
  }

  /** The walk of a visible library is the same with one more mount: handled libraries stay handled, step by step. */
  lemma {:induction false} WalkStable(fs: FileSystem, dests: seq<Path>, dir: Path, path: Path, hops: nat)
    requires !Covered(dests, dir) && Covered(dests, EndAfter(fs, dests, path, hops))
    ensures EndAfter(fs, dests + [dir], path, hops) == EndAfter(fs, dests, path, hops)
    ensures Covered(dests + [dir], EndAfter(fs, dests, path, hops))
    decreases hops
  {
    if Covered(dests, path) {
      CoveringStable(dests, dir, path);
    }
    if hops > 0 && Next(fs, dests, path).Some? {
      WalkStable(fs, dests, dir, Next(fs, dests, path).value, hops - 1);
    }
  }

  /** Mounting the path a walk got stuck at makes that walk end there, visible. */
  lemma {:induction false} WalkUnblocked(fs: FileSystem, dests: seq<Path>, path: Path, hops: nat)
    requires !Covered(dests, EndAfter(fs, dests, path, hops))
    ensures var end := EndAfter(fs, dests, path, hops);
      EndAfter(fs, dests + [end], path, hops) == end && Covered(dests + [end], end)
    decreases hops
  {
    var end := EndAfter(fs, dests, path, hops);
    CoversItself(dests, end);
    if hops > 0 && Next(fs, dests, path).Some? {
      CoveringStable(dests, end, path);
      WalkUnblocked(fs, dests, Next(fs, dests, path).value, hops - 1);
    }
  }

  // ----- All libraries -----

  /** Every mount was needed: nothing before it covered it. */
  predicate EachUncovered(dests: seq<Path>, mounts: seq<Path>)
  {
    forall i :: 0 <= i < |mounts| ==> !Covered(dests + mounts[..i], mounts[i])
  }

  lemma {:induction false} WalksStable(fs: FileSystem, dests: seq<Path>, mounts: seq<Path>, lib: Path, hops: nat)
    requires EachUncovered(dests, mounts) && Visible(fs, dests, lib, hops)
    ensures Visible(fs, dests + mounts, lib, hops)
    ensures EndAfter(fs, dests + mounts, lib, hops) == EndAfter(fs, dests, lib, hops)
  {
    if mounts == [] {
      assert dests + mounts == dests;
    } else {
      var n := |mounts| - 1;
      var front := mounts[..n];
      assert forall i :: 0 <= i < n ==> front[..i] == mounts[..i];
      WalksStable(fs, dests, front, lib, hops);
      WalkStable(fs, dests + front, mounts[n], lib, hops);
      assert (dests + front) + [mounts[n]] == dests + mounts;
    }
  }

  lemma UncoveredAppend(dests: seq<Path>, a: seq<Path>, b: seq<Path>)
    requires EachUncovered(dests, a) && EachUncovered(dests + a, b)
    ensures EachUncovered(dests, a + b)
  {
    forall i | 0 <= i < |a + b|
      ensures !Covered(dests + (a + b)[..i], (a + b)[i])
    {
      if i < |a| {
        assert (a + b)[..i] == a[..i];
      } else {
        assert dests + (a + b)[..i] == (dests + a) + b[..i - |a|];
      }
    }
  }

  /** The mounts one library still needs: none if it is visible, and one is enough. */
  method MountLibrary(fs: FileSystem, lib: Path, dests: seq<Path>, hops: nat := MAX_LINK_HOPS) returns (added: seq<Path>)
    ensures |added| <= 1 && EachUncovered(dests, added) && Visible(fs, dests + added, lib, hops)
  {
    added := [];
    assert dests + [] == dests;
    var dir := FirstUnmounted(fs, lib, dests, hops);
    while dir.Some?
      invariant |added| <= 1 && EachUncovered(dests, added)
      invariant dir.None? ==> Visible(fs, dests + added, lib, hops)
      invariant dir.Some? ==> added == [] && !Visible(fs, dests, lib, hops) && dir.value == EndAfter(fs, dests, lib, hops)
      decreases 1 - |added|
    {
      WalkUnblocked(fs, dests, lib, hops);
      assert dests + [dir.value][..0] == dests;
      added := added + [dir.value];
      dir := FirstUnmounted(fs, lib, dests + added, hops);
    }
  }

  predicate AllVisible(fs: FileSystem, dests: seq<Path>, libs: seq<Path>, hops: nat)
  {
    forall i :: 0 <= i < |libs| ==> Visible(fs, dests, libs[i], hops)
  }

  lemma OneMoreVisible(fs: FileSystem, dests: seq<Path>, added: seq<Path>, libs: seq<Path>, lib: Path, hops: nat)
    requires EachUncovered(dests, added) && AllVisible(fs, dests, libs, hops) && Visible(fs, dests + added, lib, hops)
    ensures AllVisible(fs, dests + added, libs + [lib], hops)
  {
    forall i | 0 <= i < |libs|
      ensures Visible(fs, dests + added, libs[i], hops)
    {
      WalksStable(fs, dests, added, libs[i], hops);
    }
  }

  /** The mounts serve the first k libraries, with no more mounts than libraries. */
  predicate Serve(fs: FileSystem, dests: seq<Path>, mounts: seq<Path>, libs: seq<Path>, k: nat, hops: nat)
  {
    k <= |libs| && |mounts| <= k && EachUncovered(dests, mounts) && AllVisible(fs, dests + mounts, libs[..k], hops)
  }

  lemma ServeOneMore(fs: FileSystem, dests: seq<Path>, mounts: seq<Path>, libs: seq<Path>, k: nat, added: seq<Path>, hops: nat)
    requires k < |libs| && Serve(fs, dests, mounts, libs, k, hops)
    requires |added| <= 1 && EachUncovered(dests + mounts, added) && Visible(fs, (dests + mounts) + added, libs[k], hops)
    ensures Serve(fs, dests, mounts + added, libs, k + 1, hops)
  {
    OneMoreVisible(fs, dests + mounts, added, libs[..k], libs[k], hops);
    UncoveredAppend(dests, mounts, added);
    assert (dests + mounts) + added == dests + (mounts + added) && libs[..k + 1] == libs[..k] + [libs[k]];
  }

  lemma ServeAll(fs: FileSystem, dests: seq<Path>, mounts: seq<Path>, libs: seq<Path>, hops: nat)
    requires Serve(fs, dests, mounts, libs, |libs|, hops)
    ensures AllVisible(fs, dests + mounts, libs, hops)
    ensures forall i :: 0 <= i < |libs| && Visible(fs, dests, libs[i], hops) ==>
      EndAfter(fs, dests + mounts, libs[i], hops) == EndAfter(fs, dests, libs[i], hops)
  {
    assert libs[..|libs|] == libs;
    forall i | 0 <= i < |libs| && Visible(fs, dests, libs[i], hops)
      ensures EndAfter(fs, dests + mounts, libs[i], hops) == EndAfter(fs, dests, libs[i], hops)
    {
      WalksStable(fs, dests, mounts, libs[i], hops);
    }
  }

  /** Main result: the choice ends, asks for at most one mount a library and for none that is not needed, and leaves
      every library visible by the same walk it was chosen by. libs are the libraries in order. */
  method SkillMountDirs(fs: FileSystem, libs: seq<Path>, dests: seq<Path>, hops: nat := MAX_LINK_HOPS) returns (mounts: seq<Path>)
    ensures |mounts| <= |libs| && EachUncovered(dests, mounts)
    ensures forall i :: 0 <= i < |libs| ==> Visible(fs, dests + mounts, libs[i], hops)
    ensures forall i :: 0 <= i < |libs| && Visible(fs, dests, libs[i], hops) ==>
      EndAfter(fs, dests + mounts, libs[i], hops) == EndAfter(fs, dests, libs[i], hops)
  {
    mounts := [];
    for k := 0 to |libs|
      invariant Serve(fs, dests, mounts, libs, k, hops)
    {
      var added := MountLibrary(fs, libs[k], dests + mounts, hops);
      ServeOneMore(fs, dests, mounts, libs, k, added, hops);
      mounts := mounts + added;
    }
    ServeAll(fs, dests, mounts, libs, hops);
  }
}
