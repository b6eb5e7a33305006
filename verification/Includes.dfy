/** Building a model from files: a stack of includes still to read, and the traversal it stands for. */
module Includes {
  import opened Common

  type Path = string

  const MANIFEST: Path := "model.toml"

  datatype Behavior = Behavior(name: string, kind: string, path: string, lib: string, debug: bool)

  datatype Meta = Meta(
    name: Option<string>, description: Option<string>, author: Option<string>, includes: seq<Path>)

  /** Items other than behaviors are left as the texts they were read from. */
  datatype Model = Model(
    meta: Meta, dependencies: map<string, string>, scenarios: seq<string>, behaviors: seq<Behavior>,
    components: seq<string>, prefabs: seq<string>, entities: seq<string>, data: map<string, string>,
    dataFiles: map<string, string>)

  /** The file system and the path operations of the platform. */
  datatype FileSystem = FileSystem(
    dir: Path -> Option<seq<Path>>, file: Path -> Option<Model>,
    join: (Path, Path) -> Path, parent: Path -> Path)

  datatype IncludeError = ManifestUnreadable | Unreadable(path: Path)

  // ----- merging -----

  function MergeMeta(a: Meta, b: Meta): Meta {
    Meta(OrElse(a.name, b.name), OrElse(a.description, b.description), OrElse(a.author, b.author),
         a.includes + b.includes)
  }

  /** Dependencies and data files of the other model are not taken over. */
  function Merge(a: Model, b: Model): Model {
    a.(meta := MergeMeta(a.meta, b.meta), scenarios := a.scenarios + b.scenarios,
       behaviors := a.behaviors + b.behaviors, components := a.components + b.components,
       prefabs := a.prefabs + b.prefabs, entities := a.entities + b.entities, data := a.data + b.data)
  }

  // ----- one include -----

  predicate Wild(x: Path) {
    |x| >= 2 && x[|x| - 2..] == "/*"
  }

  function DirPath(x: Path): Path {
    if Wild(x) then x[..|x| - 2] else x
  }

  function Normalized(fs: FileSystem, x: Path, m: Model): Model {
    m.(meta := m.meta.(includes := Joined(fs, fs.parent(x), m.meta.includes)),
       behaviors := seq(|m.behaviors|, i requires 0 <= i < |m.behaviors| => Located(m.behaviors[i], x, fs.parent(x))))
  }

  function Joined(fs: FileSystem, base: Path, xs: seq<Path>): seq<Path> {
    seq(|xs|, i requires 0 <= i < |xs| => fs.join(base, xs[i]))
  }

  /** A behavior's path and library, relative to the file that declares it, on Linux. */
  function Located(b: Behavior, file: Path, parent: Path): Behavior {
    var rust := b.kind == "rust";
    var lib := if !rust then b.lib
               else (if b.debug then "target/debug/lib" else "target/release/lib") + b.name + ".so";
    if b.path == [] then
      b.(path := if rust then parent + "/" + b.path else file, lib := parent + "/" + lib)
    else
      b.(path := parent + "/" + b.path, lib := parent + "/" + b.path + "/" + lib)
  }

  /** What one include leads to: further includes; `files` holds the include itself if it is a file. */
  datatype Expansion = Nothing | Leads(kids: seq<Path>, files: seq<Path>)

  function Expand(fs: FileSystem, x: Path): Expansion {
    var dir := DirPath(x);
    if fs.dir(dir).Some? then Leads(Joined(fs, dir, fs.dir(dir).value), [])
    else if fs.file(x).Some? then
      Leads(Normalized(fs, x, fs.file(x).value).meta.includes, [x])
    else Nothing
  }

  // ----- the recursive traversal -----

  /** The files met, or the unreadable include; and the number of includes looked at. */
  datatype Walked = Visited(files: seq<Path>, steps: nat) | Broken(path: Path, steps: nat) | TooDeep

  function AndThen(a: Walked, b: Walked): Walked {
    match a
    case Visited(m, s) =>
      (match b
       case Visited(n, t) => Visited(m + n, s + t)
       case Broken(p, t) => Broken(p, s + t)
       case TooDeep => TooDeep)
    case _ => a
  }

  /** The include and everything below it, no deeper than `depth`. */
  function Walk(fs: FileSystem, x: Path, depth: nat): Walked
    decreases depth, 0
  {
    var e := Expand(fs, x);
    if depth == 0 then TooDeep
    else if e.Nothing? then Broken(x, 1)
    else AndThen(Visited(e.files, 1), WalkAll(fs, e.kids, depth - 1))
  }

  /** Several includes, the last one first. */
  function WalkAll(fs: FileSystem, xs: seq<Path>, depth: nat): Walked
    decreases depth, 1, |xs|
  {
    if xs == [] then Visited([], 0)
    else AndThen(Walk(fs, xs[|xs| - 1], depth), WalkAll(fs, xs[..|xs| - 1], depth))
  }

  lemma AndThenAssociates(a: Walked, b: Walked, c: Walked)
    ensures AndThen(AndThen(a, b), c) == AndThen(a, AndThen(b, c))
  {
    if a.Visited? && b.Visited? && c.Visited? {
      assert (a.files + b.files) + c.files == a.files + (b.files + c.files);
    }
  }

  lemma AndThenUnit(a: Walked)
    ensures AndThen(Visited([], 0), a) == a && AndThen(a, Visited([], 0)) == a
  {
    if a.Visited? { assert [] + a.files == a.files && a.files + [] == a.files; }
  }

  lemma {:induction false} WalkAllConcat(fs: FileSystem, xs: seq<Path>, ys: seq<Path>, depth: nat)
    ensures WalkAll(fs, xs + ys, depth) == AndThen(WalkAll(fs, ys, depth), WalkAll(fs, xs, depth))
    decreases |ys|
  {
    if ys == [] {
      assert xs + ys == xs;
      AndThenUnit(WalkAll(fs, xs, depth));
    } else {
      var y, front := ys[|ys| - 1], ys[..|ys| - 1];
      assert (xs + ys)[..|xs + ys| - 1] == xs + front;
      WalkAllConcat(fs, xs, front, depth);
      AndThenAssociates(Walk(fs, y, depth), WalkAll(fs, front, depth), WalkAll(fs, xs, depth));
    }
  }

  /** More depth changes nothing once there is enough of it. */
  lemma {:induction false} WalkDeeper(fs: FileSystem, x: Path, depth: nat)
    requires !Walk(fs, x, depth).TooDeep?
    ensures Walk(fs, x, depth + 1) == Walk(fs, x, depth)
    decreases depth, 0
  {
    var e := Expand(fs, x);
    if e.Leads? { WalkAllDeeper(fs, e.kids, depth - 1); }
  }

  lemma {:induction false} WalkAllDeeper(fs: FileSystem, xs: seq<Path>, depth: nat)
    requires !WalkAll(fs, xs, depth).TooDeep?
    ensures WalkAll(fs, xs, depth + 1) == WalkAll(fs, xs, depth)
    decreases depth, 1, |xs|
  {
    if xs != [] {
      var x, front := xs[|xs| - 1], xs[..|xs| - 1];
      WalkDeeper(fs, x, depth);
      if Walk(fs, x, depth).Visited? { WalkAllDeeper(fs, front, depth); }
    }
  }

  lemma WalkAllSnoc(fs: FileSystem, rest: seq<Path>, x: Path, depth: nat)
    ensures WalkAll(fs, rest + [x], depth) == AndThen(Walk(fs, x, depth), WalkAll(fs, rest, depth))
  {
    assert (rest + [x])[..|rest|] == rest;
  }

  lemma AndThenDeep(a: Walked, b: Walked)
    requires !AndThen(a, b).TooDeep?
    ensures !a.TooDeep? && (a.Visited? ==> !b.TooDeep?)
  {
  }

  // ----- the stack -----

  /** Replacing the top of the stack by what it leads to takes one step off the traversal. */
  lemma PopStep(fs: FileSystem, rest: seq<Path>, x: Path, depth: nat)
    requires !WalkAll(fs, rest + [x], depth).TooDeep?
    ensures var e := Expand(fs, x);
            WalkAll(fs, rest + [x], depth)
            == if e.Nothing? then Broken(x, 1) else AndThen(Visited(e.files, 1), WalkAll(fs, rest + e.kids, depth))
  {
    hide Expand;
    assert (rest + [x])[..|rest|] == rest;
    WalkAllSnoc(fs, rest, x, depth);
    AndThenDeep(Walk(fs, x, depth), WalkAll(fs, rest, depth));
    hide WalkAll;
    var e := Expand(fs, x);
    if e.Leads? {
      AndThenDeep(Visited(e.files, 1), WalkAll(fs, e.kids, depth - 1));
      WalkAllDeeper(fs, e.kids, depth - 1);
      WalkAllConcat(fs, rest, e.kids, depth);
      AndThenAssociates(Visited(e.files, 1), WalkAll(fs, e.kids, depth), WalkAll(fs, rest, depth));
    }
  }

  /** The models merged in order onto the manifest. */
  function Build(m: Model, models: seq<Model>): Model
    decreases |models|
  {
    if models == [] then m else Build(Merge(m, models[0]), models[1..])
  }

  /** The models the files declare, with their paths taken from where they lie. */
  function Models(fs: FileSystem, files: seq<Path>): seq<Model>
    decreases |files|
  {
    if files == [] then []
    else
      (if fs.file(files[0]).Some? then [Normalized(fs, files[0], fs.file(files[0]).value)] else [])
      + Models(fs, files[1..])
  }

  /** What the traversal from the manifest amounts to. */
  function Outcome(fs: FileSystem, manifest: Model, w: Walked): Result<Model, IncludeError>
    requires !w.TooDeep?
  {
    match w
    case Visited(files, _) => Success(Build(manifest, Models(fs, files)))
    case Broken(path, _) => Failure(Unreadable(path))
  }

  lemma OutcomeAfterDir(fs: FileSystem, m: Model, w: Walked)
    requires !AndThen(Visited([], 1), w).TooDeep?
    ensures !w.TooDeep? && Outcome(fs, m, AndThen(Visited([], 1), w)) == Outcome(fs, m, w)
    ensures w.steps < AndThen(Visited([], 1), w).steps
  {
    if w.Visited? { assert [] + w.files == w.files; }
  }

  lemma OutcomeAfterFile(fs: FileSystem, m: Model, x: Path, w: Walked)
    requires fs.file(x).Some? && !AndThen(Visited([x], 1), w).TooDeep?
    ensures !w.TooDeep?
    ensures Outcome(fs, m, AndThen(Visited([x], 1), w))
         == Outcome(fs, Merge(m, Normalized(fs, x, fs.file(x).value)), w)
    ensures w.steps < AndThen(Visited([x], 1), w).steps
  {
    if w.Visited? {
      var n := Normalized(fs, x, fs.file(x).value);
      hide Normalized;
      assert ([x] + w.files)[1..] == w.files;
      assert ([n] + Models(fs, w.files))[1..] == Models(fs, w.files);
    }
  }

  // ----- where includes lead, by the file system alone -----

  /** A directory leads to its entries. */
  ghost predicate DirLeadsTo(fs: FileSystem, x: Path, k: Path) {
    var dir := fs.dir(DirPath(x));
    dir.Some? && exists i :: 0 <= i < |dir.value| && k == fs.join(DirPath(x), dir.value[i])
  }

  predicate IsFile(fs: FileSystem, x: Path) {
    fs.dir(DirPath(x)).None? && fs.file(x).Some?
  }

  /** A file leads to what it includes, seen from where it lies. */
  ghost predicate FileLeadsTo(fs: FileSystem, x: Path, k: Path) {
    IsFile(fs, x) &&
    var includes := fs.file(x).value.meta.includes;
    exists i :: 0 <= i < |includes| && k == fs.join(fs.parent(x), includes[i])
  }

  ghost predicate LeadsTo(fs: FileSystem, x: Path, k: Path) {
    DirLeadsTo(fs, x, k) || FileLeadsTo(fs, x, k)
  }

  predicate CanRead(fs: FileSystem, x: Path) {
    fs.dir(DirPath(x)).Some? || fs.file(x).Some?
  }

  /** A wildcard stands for its directory; any other path for itself. */
  lemma DirPathMeans(x: Path)
    ensures DirPath(x + "/*") == x
    ensures |x| < 2 || x[|x| - 2..] != "/*" ==> DirPath(x) == x
  {
    assert (x + "/*")[|x|..] == "/*" && (x + "/*")[..|x|] == x;
  }

  lemma ExpandMeans(fs: FileSystem, x: Path)
    ensures Expand(fs, x).Leads? <==> CanRead(fs, x)
    ensures Expand(fs, x).Leads? ==> Expand(fs, x).files == if IsFile(fs, x) then [x] else []
    ensures forall k :: Expand(fs, x).Leads? && k in Expand(fs, x).kids <==> LeadsTo(fs, x, k)
  {
    var dir := DirPath(x);
    hide DirPath;
    if fs.dir(dir).Some? {
      JoinedMeans(fs, dir, fs.dir(dir).value);
    } else if fs.file(x).Some? {
      JoinedMeans(fs, fs.parent(x), fs.file(x).value.meta.includes);
    }
  }

  lemma JoinedMeans(fs: FileSystem, base: Path, xs: seq<Path>)
    ensures forall k :: k in Joined(fs, base, xs) <==> exists i :: 0 <= i < |xs| && k == fs.join(base, xs[i])
  {
    var js := Joined(fs, base, xs);
    forall i | 0 <= i < |xs|
      ensures fs.join(base, xs[i]) in js
    {
      assert js[i] == fs.join(base, xs[i]);
    }
  }

  ghost predicate IsChain(fs: FileSystem, c: seq<Path>) {
    c != [] && forall i :: 0 < i < |c| ==> LeadsTo(fs, c[i - 1], c[i])
  }

  /** An include on the stack, or one that an include on the stack leads to in the end. */
  ghost predicate Reachable(fs: FileSystem, stack: seq<Path>, x: Path) {
    exists c :: IsChain(fs, c) && c[0] in stack && c[|c| - 1] == x
  }

  lemma ReachStack(fs: FileSystem, stack: seq<Path>, x: Path)
    requires x in stack
    ensures Reachable(fs, stack, x)
  {
    assert IsChain(fs, [x]) && [x][0] in stack && [x][|[x]| - 1] == x;
  }

  lemma ReachKid(fs: FileSystem, stack: seq<Path>, x: Path, k: Path)
    requires Reachable(fs, stack, x) && LeadsTo(fs, x, k)
    ensures Reachable(fs, stack, k)
  {
    hide LeadsTo;
    var c :| IsChain(fs, c) && c[0] in stack && c[|c| - 1] == x;
    var d := c + [k];
    assert IsChain(fs, d) && d[0] in stack && d[|d| - 1] == k;
  }

  /** What is reached from the includes `x` leads to is reached from `x`. */
  lemma ReachBelow(fs: FileSystem, stack: seq<Path>, x: Path, kids: seq<Path>, y: Path)
    requires x in stack && (forall k :: k in kids ==> LeadsTo(fs, x, k)) && Reachable(fs, kids, y)
    ensures Reachable(fs, stack, y)
  {
    hide LeadsTo;
    var c :| IsChain(fs, c) && c[0] in kids && c[|c| - 1] == y;
    var d := [x] + c;
    forall i | 0 < i < |d|
      ensures LeadsTo(fs, d[i - 1], d[i])
    {
      if i == 1 {
        assert d[0] == x && d[1] == c[0];
      } else {
        assert d[i] == c[i - 1] && d[i - 1] == c[i - 2] && LeadsTo(fs, c[i - 1 - 1], c[i - 1]);
      }
    }
    assert IsChain(fs, d) && d[0] in stack && d[|d| - 1] == y;
  }

  lemma ReachMore(fs: FileSystem, stack: seq<Path>, more: seq<Path>, y: Path)
    requires Reachable(fs, stack, y) && forall x :: x in stack ==> x in more
    ensures Reachable(fs, more, y)
  {
    hide LeadsTo;
    var c :| IsChain(fs, c) && c[0] in stack && c[|c| - 1] == y;
    assert c[0] in more;
  }

  ghost predicate AllReadable(fs: FileSystem, stack: seq<Path>) {
    forall x :: Reachable(fs, stack, x) ==> CanRead(fs, x)
  }

  /** What a traversal meets can be reached; what ends it as well. */
  lemma {:induction false} WalkReaches(fs: FileSystem, xs: seq<Path>, depth: nat)
    ensures var w := WalkAll(fs, xs, depth);
            && (w.Visited? ==> forall y :: y in w.files ==> Reachable(fs, xs, y) && IsFile(fs, y))
            && (w.Broken? ==> Reachable(fs, xs, w.path) && !CanRead(fs, w.path))
    decreases depth, |xs|
  {
    hide Expand, LeadsTo, Reachable, IsFile, CanRead;
    if xs != [] {
      var x, front := xs[|xs| - 1], xs[..|xs| - 1];
      assert x in xs && forall y :: y in front ==> y in xs;
      WalkReaches(fs, front, depth);
      forall y | Reachable(fs, front, y)
        ensures Reachable(fs, xs, y)
      {
        ReachMore(fs, front, xs, y);
      }
      ReachStack(fs, xs, x);
      ExpandMeans(fs, x);
      if depth > 0 && Expand(fs, x).Leads? {
        var kids := Expand(fs, x).kids;
        WalkReaches(fs, kids, depth - 1);
        forall y | Reachable(fs, kids, y)
          ensures Reachable(fs, xs, y)
        {
          ReachBelow(fs, xs, x, kids, y);
        }
      }
    }
  }

  // ----- when the loop ends -----

  /** The stack after one turn of the loop; none if the loop ends there. */
  function Turn(fs: FileSystem, stack: seq<Path>): Option<seq<Path>> {
    if stack == [] then None
    else
      var e := Expand(fs, stack[|stack| - 1]);
      if e.Nothing? then None else Some(stack[..|stack| - 1] + e.kids)
  }

  /** The loop ends within the given number of turns. */
  predicate EndsWithin(fs: FileSystem, stack: seq<Path>, turns: nat)
    decreases turns
  {
    var next := Turn(fs, stack);
    next.None? || (turns > 0 && EndsWithin(fs, next.value, turns - 1))
  }

  lemma {:induction false} EndsIfShallow(fs: FileSystem, stack: seq<Path>, depth: nat)
    requires !WalkAll(fs, stack, depth).TooDeep?
    ensures EndsWithin(fs, stack, WalkAll(fs, stack, depth).steps)
    decreases WalkAll(fs, stack, depth).steps
  {
    hide WalkAll, Walk, Expand;
    if stack != [] {
      var x, rest := stack[|stack| - 1], stack[..|stack| - 1];
      assert stack == rest + [x];
      PopStep(fs, rest, x, depth);
      if Expand(fs, x).Leads? {
        EndsIfShallow(fs, rest + Expand(fs, x).kids, depth);
      }
    }
  }

  lemma {:induction false} ShallowIfEnds(fs: FileSystem, stack: seq<Path>, turns: nat)
    requires EndsWithin(fs, stack, turns)
    ensures !WalkAll(fs, stack, turns + 1).TooDeep?
    decreases turns
  {
    if stack != [] && Expand(fs, stack[|stack| - 1]).Leads? {
      var x, rest := stack[|stack| - 1], stack[..|stack| - 1];
      var kids := Expand(fs, x).kids;
      ShallowIfEnds(fs, rest + kids, turns - 1);
      WalkAllConcat(fs, rest, kids, turns);
      if WalkAll(fs, kids, turns).Visited? { WalkAllDeeper(fs, rest, turns); }
    }
  }

  /** The loop ends if and only if the traversal stays within some depth. */
  lemma EndsIffShallow(fs: FileSystem, stack: seq<Path>)
    ensures (exists turns :: EndsWithin(fs, stack, turns)) <==> (exists depth :: !WalkAll(fs, stack, depth).TooDeep?)
  {
    if turns :| EndsWithin(fs, stack, turns) {
      ShallowIfEnds(fs, stack, turns);
      assert exists depth :: !WalkAll(fs, stack, depth).TooDeep?;
    }
    if depth :| !WalkAll(fs, stack, depth).TooDeep? {
      EndsIfShallow(fs, stack, depth);
      assert exists turns :: EndsWithin(fs, stack, turns);
    }
  }

  /** What can be reached leads only to includes of lower rank. */
  ghost predicate Ranked(fs: FileSystem, stack: seq<Path>, rank: Path -> nat) {
    forall x, k :: Reachable(fs, stack, x) && LeadsTo(fs, x, k) ==> rank(k) < rank(x)
  }

  lemma {:induction false} RankedWalk(fs: FileSystem, stack: seq<Path>, rank: Path -> nat, xs: seq<Path>, bound: nat)
    requires Ranked(fs, stack, rank) && forall x :: x in xs ==> Reachable(fs, stack, x) && rank(x) < bound
    ensures !WalkAll(fs, xs, bound).TooDeep?
    decreases bound, |xs|
  {
    hide Reachable, Expand;
    if xs != [] {
      var x := xs[|xs| - 1];
      assert x in xs;
      var e := Expand(fs, x);
      ExpandMeans(fs, x);
      if e.Leads? {
        forall k | k in e.kids
          ensures Reachable(fs, stack, k) && rank(k) < bound - 1
        {
          ReachKid(fs, stack, x, k);
          assert LeadsTo(fs, x, k);
        }
        RankedWalk(fs, stack, rank, e.kids, bound - 1);
      }
      RankedWalk(fs, stack, rank, xs[..|xs| - 1], bound);
    }
  }

  lemma {:induction false} RanksAreBounded(rank: Path -> nat, xs: seq<Path>) returns (bound: nat)
    ensures forall x :: x in xs ==> rank(x) < bound
    decreases |xs|
  {
    bound := 0;
    if xs != [] {
      var rest := RanksAreBounded(rank, xs[1..]);
      bound := if rank(xs[0]) < rest then rest else rank(xs[0]) + 1;
    }
  }

  /** Every include of a traversal that is neither too deep nor broken is walked, with fewer steps and
      no other files. */
  lemma {:induction false} EachIsVisited(fs: FileSystem, xs: seq<Path>, depth: nat, x: Path)
    requires WalkAll(fs, xs, depth).Visited? && x in xs
    ensures Walk(fs, x, depth).Visited? && Walk(fs, x, depth).steps <= WalkAll(fs, xs, depth).steps
    ensures forall y :: y in Walk(fs, x, depth).files ==> y in WalkAll(fs, xs, depth).files
    decreases |xs|
  {
    var last, front := xs[|xs| - 1], xs[..|xs| - 1];
    if x != last {
      EachIsVisited(fs, front, depth, x);
    }
  }

  lemma KidIsVisited(fs: FileSystem, x: Path, k: Path, depth: nat)
    requires Walk(fs, x, depth).Visited? && LeadsTo(fs, x, k)
    ensures Walk(fs, k, depth).Visited? && Walk(fs, k, depth).steps < Walk(fs, x, depth).steps
  {
    ExpandMeans(fs, x);
    hide Expand, LeadsTo;
    var e := Expand(fs, x);
    EachIsVisited(fs, e.kids, depth - 1, k);
    WalkDeeper(fs, k, depth - 1);
  }

  lemma {:induction false} ChainIsVisited(fs: FileSystem, stack: seq<Path>, depth: nat, c: seq<Path>)
    requires WalkAll(fs, stack, depth).Visited? && IsChain(fs, c) && c[0] in stack
    ensures Walk(fs, c[|c| - 1], depth).Visited?
    decreases |c|
  {
    hide Expand;
    if |c| == 1 {
      EachIsVisited(fs, stack, depth, c[0]);
    } else {
      var front := c[..|c| - 1];
      assert IsChain(fs, front);
      ChainIsVisited(fs, stack, depth, front);
      KidIsVisited(fs, front[|front| - 1], c[|c| - 1], depth);
    }
  }

  /** A traversal that is neither too deep nor broken meets every file that can be reached. */
  lemma {:induction false} ReachedIsMet(fs: FileSystem, xs: seq<Path>, depth: nat, c: seq<Path>)
    requires WalkAll(fs, xs, depth).Visited? && IsChain(fs, c) && c[0] in xs
    ensures CanRead(fs, c[|c| - 1])
    ensures IsFile(fs, c[|c| - 1]) ==> c[|c| - 1] in WalkAll(fs, xs, depth).files
    decreases |c|
  {
    var x := c[0];
    ExpandMeans(fs, x);
    EachIsVisited(fs, xs, depth, x);
    hide Expand, LeadsTo, IsFile, CanRead;
    if |c| > 1 {
      var tail, kids := c[1..], Expand(fs, x).kids;
      assert LeadsTo(fs, c[0], c[1]);
      assert IsChain(fs, tail) by {
        forall i | 0 < i < |tail|
          ensures LeadsTo(fs, tail[i - 1], tail[i])
        {
          assert tail[i] == c[i + 1] && tail[i - 1] == c[i];
          assert LeadsTo(fs, c[i + 1 - 1], c[i + 1]);
        }
      }
      ReachedIsMet(fs, kids, depth - 1, tail);
    }
  }

  /** The traversal breaks if and only if something that can be reached is unreadable; otherwise it meets
      exactly the files that can be reached. */
  lemma {:induction false} TraversalMeets(fs: FileSystem, xs: seq<Path>, depth: nat)
    requires !WalkAll(fs, xs, depth).TooDeep?
    ensures var w := WalkAll(fs, xs, depth);
            && (w.Visited? <==> AllReadable(fs, xs))
            && (w.Visited? ==> forall y :: y in w.files <==> Reachable(fs, xs, y) && IsFile(fs, y))
            && (w.Broken? ==> Reachable(fs, xs, w.path) && !CanRead(fs, w.path))
  {
    hide WalkAll, LeadsTo, IsFile, CanRead;
    WalkReaches(fs, xs, depth);
    var w := WalkAll(fs, xs, depth);
    if w.Visited? {
      forall y | Reachable(fs, xs, y)
        ensures CanRead(fs, y) && (IsFile(fs, y) ==> y in w.files)
      {
        var c :| IsChain(fs, c) && c[0] in xs && c[|c| - 1] == y;
        ReachedIsMet(fs, xs, depth, c);
      }
    }
  }

  /** How many includes are looked at below an include that is walked to its end. */
  function Size(fs: FileSystem, depth: nat, x: Path): nat {
    var w := Walk(fs, x, depth);
    if w.Visited? then w.steps else 0
  }

  lemma VisitedIsRanked(fs: FileSystem, stack: seq<Path>, depth: nat)
    requires WalkAll(fs, stack, depth).Visited?
    ensures Ranked(fs, stack, x => Size(fs, depth, x))
  {
    hide Expand, Walk, WalkAll;
    forall x, k | Reachable(fs, stack, x) && LeadsTo(fs, x, k)
      ensures Size(fs, depth, k) < Size(fs, depth, x)
    {
      var c :| IsChain(fs, c) && c[0] in stack && c[|c| - 1] == x;
      ChainIsVisited(fs, stack, depth, c);
      KidIsVisited(fs, x, k, depth);
    }
  }

  /** If everything that can be reached is readable, the loop ends if and only if the includes that can
      be reached admit a rank: no chain of them comes back. */
  lemma EndsIffRanked(fs: FileSystem, stack: seq<Path>)
    requires AllReadable(fs, stack)
    ensures (exists turns :: EndsWithin(fs, stack, turns)) <==> (exists rank: Path -> nat :: Ranked(fs, stack, rank))
  {
    hide Expand, Walk, WalkAll, Ranked, AllReadable, EndsWithin;
    EndsIffShallow(fs, stack);
    forall x | x in stack
      ensures Reachable(fs, stack, x)
    {
      ReachStack(fs, stack, x);
    }
    if depth :| !WalkAll(fs, stack, depth).TooDeep? {
      TraversalMeets(fs, stack, depth);
      VisitedIsRanked(fs, stack, depth);
      assert exists rank: Path -> nat :: Ranked(fs, stack, rank);
    }
    if rank: Path -> nat :| Ranked(fs, stack, rank) {
      var bound := RanksAreBounded(rank, stack);
      RankedWalk(fs, stack, rank, stack, bound);
      assert exists depth :: !WalkAll(fs, stack, depth).TooDeep?;
    }
  }

  lemma {:induction false} RankFalls(fs: FileSystem, stack: seq<Path>, rank: Path -> nat, c: seq<Path>)
    requires Ranked(fs, stack, rank) && IsChain(fs, c) && Reachable(fs, stack, c[0])
    ensures rank(c[|c| - 1]) + |c| - 1 <= rank(c[0]) && Reachable(fs, stack, c[|c| - 1])
    decreases |c|
  {
    hide Reachable, LeadsTo;
    if |c| > 1 {
      var front := c[..|c| - 1];
      assert IsChain(fs, front);
      RankFalls(fs, stack, rank, front);
      assert LeadsTo(fs, front[|front| - 1], c[|c| - 1]);
      ReachKid(fs, stack, front[|front| - 1], c[|c| - 1]);
    }
  }

  /** Includes that lead back to themselves, in any number of steps, are read for ever. */
  lemma CycleNeverEnds(fs: FileSystem, stack: seq<Path>, c: seq<Path>)
    requires AllReadable(fs, stack) && IsChain(fs, c) && |c| > 1 && c[0] == c[|c| - 1] && Reachable(fs, stack, c[0])
    ensures !exists turns :: EndsWithin(fs, stack, turns)
  {
    hide Ranked, IsChain, Reachable, AllReadable, EndsWithin;
    EndsIffRanked(fs, stack);
    forall rank: Path -> nat
      ensures !Ranked(fs, stack, rank)
    {
      if Ranked(fs, stack, rank) {
        RankFalls(fs, stack, rank, c);
        assert false;
      }
    }
  }

  // ----- what is built -----

  function FirstDefined<T>(xs: seq<Option<T>>): Option<T>
    decreases |xs|
  {
    if xs == [] then None else OrElse(xs[0], FirstDefined(xs[1..]))
  }

  lemma {:induction false} FirstDefinedMeans<T>(xs: seq<Option<T>>)
    ensures FirstDefined(xs).None? <==> forall i :: 0 <= i < |xs| ==> xs[i].None?
    ensures FirstDefined(xs).Some? ==>
              exists i :: 0 <= i < |xs| && xs[i] == FirstDefined(xs) && forall j :: 0 <= j < i ==> xs[j].None?
    decreases |xs|
  {
    if xs != [] && xs[0].None? {
      var rest := xs[1..];
      FirstDefinedMeans(rest);
      assert forall i :: 0 <= i < |rest| ==> rest[i] == xs[i + 1];
      if FirstDefined(xs).Some? {
        var i :| 0 <= i < |rest| && rest[i] == FirstDefined(rest) && forall j :: 0 <= j < i ==> rest[j].None?;
        assert xs[i + 1] == rest[i] && forall j :: 0 < j < i + 1 ==> xs[j] == rest[j - 1];
      }
    }
  }

  function Concat<T>(xs: seq<seq<T>>): seq<T>
    decreases |xs|
  {
    if xs == [] then [] else xs[0] + Concat(xs[1..])
  }

  function Over<T, U>(f: T -> U, xs: seq<T>): seq<U> {
    seq(|xs|, i requires 0 <= i < |xs| => f(xs[i]))
  }

  lemma OverTail<T, U>(f: T -> U, xs: seq<T>)
    requires xs != []
    ensures Over(f, xs)[0] == f(xs[0]) && Over(f, xs)[1..] == Over(f, xs[1..])
  {
  }

  /** The meta fields of the built model are the first ones defined, the manifest's before all. */
  lemma {:induction false} MetaIsFirstDefined(m: Model, models: seq<Model>)
    ensures var b := Build(m, models).meta;
            && b.name == OrElse(m.meta.name, FirstDefined(Over((x: Model) => x.meta.name, models)))
            && b.description == OrElse(m.meta.description, FirstDefined(Over((x: Model) => x.meta.description, models)))
            && b.author == OrElse(m.meta.author, FirstDefined(Over((x: Model) => x.meta.author, models)))
    decreases |models|
  {
    if models != [] {
      MetaIsFirstDefined(Merge(m, models[0]), models[1..]);
      OverTail((x: Model) => x.meta.name, models);
      OverTail((x: Model) => x.meta.description, models);
      OverTail((x: Model) => x.meta.author, models);
    }
  }

  /** A list that every merge extends is the concatenation of the lists of all models. */
  lemma {:induction false} ListIsConcatenated<T>(list: Model -> seq<T>, m: Model, models: seq<Model>)
    requires forall a, b :: list(Merge(a, b)) == list(a) + list(b)
    ensures list(Build(m, models)) == list(m) + Concat(Over(list, models))
    decreases |models|
  {
    if models == [] {
      assert Over(list, models) == [];
    } else {
      ListIsConcatenated(list, Merge(m, models[0]), models[1..]);
      OverTail(list, models);
      assert list(m) + list(models[0]) + Concat(Over(list, models[1..]))
          == list(m) + (list(models[0]) + Concat(Over(list, models[1..])));
    }
  }

  /** Every list of the built model runs through the models in the order of the traversal. */
  lemma ListsAreConcatenated(m: Model, models: seq<Model>)
    ensures var b := Build(m, models);
            && b.meta.includes == m.meta.includes + Concat(Over((x: Model) => x.meta.includes, models))
            && b.scenarios == m.scenarios + Concat(Over((x: Model) => x.scenarios, models))
            && b.behaviors == m.behaviors + Concat(Over((x: Model) => x.behaviors, models))
            && b.components == m.components + Concat(Over((x: Model) => x.components, models))
            && b.prefabs == m.prefabs + Concat(Over((x: Model) => x.prefabs, models))
            && b.entities == m.entities + Concat(Over((x: Model) => x.entities, models))
  {
    hide Build;
    ListIsConcatenated((x: Model) => x.meta.includes, m, models);
    ListIsConcatenated((x: Model) => x.scenarios, m, models);
    ListIsConcatenated((x: Model) => x.behaviors, m, models);
    ListIsConcatenated((x: Model) => x.components, m, models);
    ListIsConcatenated((x: Model) => x.prefabs, m, models);
    ListIsConcatenated((x: Model) => x.entities, m, models);
  }

  /** Dependencies and data files stay those of the manifest. */
  lemma {:induction false} ManifestOnly(m: Model, models: seq<Model>)
    ensures Build(m, models).dependencies == m.dependencies && Build(m, models).dataFiles == m.dataFiles
    decreases |models|
  {
    if models != [] { ManifestOnly(Merge(m, models[0]), models[1..]); }
  }

  function Lookup(data: map<string, string>, key: string): Option<string> {
    if key in data then Some(data[key]) else None
  }

  function LastDefined(models: seq<Model>, key: string): Option<string>
    decreases |models|
  {
    if models == [] then None else OrElse(LastDefined(models[1..], key), Lookup(models[0].data, key))
  }

  /** Of a data entry the last definition counts. */
  lemma {:induction false} LastDataCounts(m: Model, models: seq<Model>, key: string)
    ensures Lookup(Build(m, models).data, key) == OrElse(LastDefined(models, key), Lookup(m.data, key))
    decreases |models|
  {
    if models != [] {
      LastDataCounts(Merge(m, models[0]), models[1..], key);
    }
  }

  // ----- what is built, by the file system alone -----

  /** What the files declare, as it stands in them. */
  function Declared(fs: FileSystem, files: seq<Path>): seq<Model>
    decreases |files|
  {
    if files == [] then []
    else (if fs.file(files[0]).Some? then [fs.file(files[0]).value] else []) + Declared(fs, files[1..])
  }

  /** The behaviors of the files, each located from where its file lies. */
  function LocatedAll(fs: FileSystem, files: seq<Path>): seq<Behavior>
    decreases |files|
  {
    if files == [] then []
    else
      (if fs.file(files[0]).Some? then LocatedFrom(fs, files[0], fs.file(files[0]).value.behaviors) else [])
      + LocatedAll(fs, files[1..])
  }

  function LocatedFrom(fs: FileSystem, x: Path, bs: seq<Behavior>): seq<Behavior> {
    seq(|bs|, i requires 0 <= i < |bs| => Located(bs[i], x, fs.parent(x)))
  }

  /** What building a rust behavior leaves, below the directory of its code. */
  function BuildResult(b: Behavior): string {
    "target/" + (if b.debug then "debug" else "release") + "/lib" + b.name + ".so"
  }

  /** Where a behavior's path and library point: below the directory of the file that declares it. A
      behavior without a path lies in the file itself, and the library of a rust one is a build result. */
  lemma LocatedMeans(b: Behavior, x: Path, parent: Path)
    ensures var l := Located(b, x, parent);
            && l.name == b.name && l.kind == b.kind && l.debug == b.debug
            && l.path == (if b.path != "" || b.kind == "rust" then parent + "/" + b.path else x)
            && l.lib == parent + "/" + (if b.path != "" then b.path + "/" else "")
                        + (if b.kind == "rust" then BuildResult(b) else b.lib)
  {
    var l := Located(b, x, parent);
    var file := if b.kind == "rust" then BuildResult(b) else b.lib;
    if b.kind == "rust" {
      if b.debug {
        assert "target/" + "debug" + "/lib" == "target/debug/lib";
      } else {
        assert "target/" + "release" + "/lib" == "target/release/lib";
      }
    }
    hide BuildResult;
    assert parent + "/" + "" == parent + "/";
    assert parent + "/" + (b.path + "/") == parent + "/" + b.path + "/";
  }

  /** The model is what the manifest and then the files declare: names first defined, lists one after the
      other, data entries last defined. */
  ghost predicate BuiltFrom(fs: FileSystem, m: Model, files: seq<Path>, b: Model) {
    var ds := Declared(fs, files);
    && b.meta.name == OrElse(m.meta.name, FirstDefined(Over((x: Model) => x.meta.name, ds)))
    && b.meta.description == OrElse(m.meta.description, FirstDefined(Over((x: Model) => x.meta.description, ds)))
    && b.meta.author == OrElse(m.meta.author, FirstDefined(Over((x: Model) => x.meta.author, ds)))
    && b.scenarios == m.scenarios + Concat(Over((x: Model) => x.scenarios, ds))
    && b.behaviors == m.behaviors + LocatedAll(fs, files)
    && b.components == m.components + Concat(Over((x: Model) => x.components, ds))
    && b.prefabs == m.prefabs + Concat(Over((x: Model) => x.prefabs, ds))
    && b.entities == m.entities + Concat(Over((x: Model) => x.entities, ds))
    && (forall key :: Lookup(b.data, key) == OrElse(LastDefined(ds, key), Lookup(m.data, key)))
    && b.dependencies == m.dependencies && b.dataFiles == m.dataFiles
  }

  /** The files are those that can be reached. */
  ghost predicate ExactlyFiles(fs: FileSystem, includes: seq<Path>, files: seq<Path>) {
    forall y :: y in files <==> Reachable(fs, includes, y) && IsFile(fs, y)
  }

  lemma {:induction false} SameOver<U>(fs: FileSystem, files: seq<Path>, g: Model -> U)
    requires forall x: Path, m: Model :: g(Normalized(fs, x, m)) == g(m)
    ensures Over(g, Models(fs, files)) == Over(g, Declared(fs, files))
    decreases |files|
  {
    hide Normalized;
    if files != [] {
      SameOver(fs, files[1..], g);
      var rest := Models(fs, files[1..]);
      if fs.file(files[0]).Some? {
        var m := fs.file(files[0]).value;
        OverTail(g, Models(fs, files));
        OverTail(g, Declared(fs, files));
        assert Models(fs, files)[1..] == rest && Declared(fs, files)[1..] == Declared(fs, files[1..]);
        assert Over(g, Models(fs, files)) == [g(m)] + Over(g, rest);
        assert Over(g, Declared(fs, files)) == [g(m)] + Over(g, Declared(fs, files[1..]));
      } else {
        assert Models(fs, files) == rest && Declared(fs, files) == Declared(fs, files[1..]);
      }
    }
  }

  lemma {:induction false} SameLocated(fs: FileSystem, files: seq<Path>)
    ensures Concat(Over((x: Model) => x.behaviors, Models(fs, files))) == LocatedAll(fs, files)
    decreases |files|
  {
    var g := (x: Model) => x.behaviors;
    if files != [] {
      SameLocated(fs, files[1..]);
      var rest := Models(fs, files[1..]);
      if fs.file(files[0]).Some? {
        var n := Normalized(fs, files[0], fs.file(files[0]).value);
        assert n.behaviors == LocatedFrom(fs, files[0], fs.file(files[0]).value.behaviors);
        hide Normalized, LocatedFrom;
        OverTail(g, Models(fs, files));
        assert Models(fs, files)[0] == n && Models(fs, files)[1..] == rest;
      } else {
        assert Models(fs, files) == rest;
      }
    }
  }

  lemma {:induction false} SameLast(fs: FileSystem, files: seq<Path>, key: string)
    ensures LastDefined(Models(fs, files), key) == LastDefined(Declared(fs, files), key)
    decreases |files|
  {
    if files != [] {
      SameLast(fs, files[1..], key);
      var rest := Models(fs, files[1..]);
      if fs.file(files[0]).Some? {
        assert Models(fs, files)[1..] == rest && Declared(fs, files)[1..] == Declared(fs, files[1..]);
      } else {
        assert Models(fs, files) == rest && Declared(fs, files) == Declared(fs, files[1..]);
      }
    }
  }

  lemma BuildsFrom(fs: FileSystem, m: Model, files: seq<Path>)
    ensures BuiltFrom(fs, m, files, Build(m, Models(fs, files)))
  {
    var models := Models(fs, files);
    MetaIsFirstDefined(m, models);
    ListsAreConcatenated(m, models);
    ManifestOnly(m, models);
    SameOver(fs, files, (x: Model) => x.meta.name);
    SameOver(fs, files, (x: Model) => x.meta.description);
    SameOver(fs, files, (x: Model) => x.meta.author);
    SameOver(fs, files, (x: Model) => x.scenarios);
    SameOver(fs, files, (x: Model) => x.components);
    SameOver(fs, files, (x: Model) => x.prefabs);
    SameOver(fs, files, (x: Model) => x.entities);
    SameLocated(fs, files);
    hide Build, Models, Declared, LocatedAll, Over, Concat, FirstDefined, LastDefined, Lookup;
    forall key
      ensures Lookup(Build(m, models).data, key) == OrElse(LastDefined(Declared(fs, files), key), Lookup(m.data, key))
    {
      LastDataCounts(m, models, key);
      SameLast(fs, files, key);
    }
  }

  /** Reads the manifest and its includes. `depth` is any depth the include chains stay within, up to
      the first unreadable one. */
  method FromFiles(fs: FileSystem, ghost depth: nat)
    returns (r: Result<Model, IncludeError>, ghost files: seq<Path>)
    requires fs.file(MANIFEST).Some? ==> !WalkAll(fs, fs.file(MANIFEST).value.meta.includes, depth).TooDeep?
    ensures r == if fs.file(MANIFEST).None? then Failure(ManifestUnreadable)
                 else Outcome(fs, fs.file(MANIFEST).value, WalkAll(fs, fs.file(MANIFEST).value.meta.includes, depth))
    ensures r == Failure(ManifestUnreadable) <==> fs.file(MANIFEST).None?
    ensures fs.file(MANIFEST).Some? ==>
              var m := fs.file(MANIFEST).value;
              && (r.Success? <==> AllReadable(fs, m.meta.includes))
              && (r.Success? ==> ExactlyFiles(fs, m.meta.includes, files) && BuiltFrom(fs, m, files, r.value))
              && (r.Failure? ==> Reachable(fs, m.meta.includes, r.error.path) && !CanRead(fs, r.error.path))
  {
    hide WalkAll, Walk, Merge, Normalized, Build, AndThen, Models, AllReadable, Reachable, IsFile, CanRead, BuiltFrom;
    files := [];
    if fs.file(MANIFEST).None? { return Failure(ManifestUnreadable), files; }
    var model := fs.file(MANIFEST).value;
    ghost var walked := WalkAll(fs, model.meta.includes, depth);
    TraversalMeets(fs, model.meta.includes, depth);
    if walked.Visited? {
      files := walked.files;
      BuildsFrom(fs, model, files);
    }
    ghost var goal := Outcome(fs, model, WalkAll(fs, model.meta.includes, depth));
    var toInclude := model.meta.includes;
    while true
      invariant !WalkAll(fs, toInclude, depth).TooDeep?
      invariant goal == Outcome(fs, model, WalkAll(fs, toInclude, depth))
      decreases WalkAll(fs, toInclude, depth).steps
    {
      if toInclude == [] {
        WalkNone(fs, depth, model);
        return Success(model), files;
      }
      var x, rest := toInclude[|toInclude| - 1], toInclude[..|toInclude| - 1];
      assert toInclude == rest + [x];
      PopStep(fs, rest, x, depth);
      var dir := DirPath(x);
      if fs.dir(dir).Some? {
        var entries := fs.dir(dir).value;
        toInclude := rest;
        for i := 0 to |entries|
          invariant toInclude == rest + Joined(fs, dir, entries)[..i]
        {
          toInclude := toInclude + [fs.join(dir, entries[i])];
        }
        assert Joined(fs, dir, entries)[..|entries|] == Joined(fs, dir, entries);
        OutcomeAfterDir(fs, model, WalkAll(fs, toInclude, depth));
        continue;
      }
      if fs.file(x).None? { return Failure(Unreadable(x)), files; }
      var included := Normalized(fs, x, fs.file(x).value);
      toInclude := rest + included.meta.includes;
      OutcomeAfterFile(fs, model, x, WalkAll(fs, toInclude, depth));
      model := Merge(model, included);
    }
  }

  lemma WalkNone(fs: FileSystem, depth: nat, m: Model)
    ensures WalkAll(fs, [], depth) == Visited([], 0) && Build(m, Models(fs, [])) == m
  {
  }
}
