/**
 Cargo configuration files and their includes. The loader follows includes recursively with a
 stack of the files it is inside of; each file is hashed when it is read and its `build.rustc`
 takes effect after those of the files it includes.
 */
module Includes {
  import opened Prelude

  type Path = string

  /** What `canonicalize` answers for a path. */
  datatype Resolution = Resolved(canonical: Path) | NotFound | Unresolvable

  datatype Include = Include(path: Path, optional: bool)

  datatype RustcField = Unset | Program(value: string) | NotAString

  /** A readable file: its includes and `build.rustc`, if it parses and its includes are well formed. */
  datatype Document = Document(includes: seq<Include>, rustc: RustcField) | Unparsable | MalformedIncludes

  datatype FileSystem = FileSystem(paths: map<Path, Resolution>, files: map<Path, Document>)
  {
    function Resolve(path: Path): Resolution {
      if path in paths then paths[path] else NotFound
    }
  }

  /** The program chosen so far, and the file it came from. */
  datatype Sourced = Sourced(value: string, file: Path)

  datatype LoadError = CannotResolve | IncludeCycle(cycle: seq<Path>) | CannotRead | Invalid | RustcNotAString

  /** What the loader has gathered: the chosen program and the files hashed, in order. */
  datatype Gathered = Gathered(rustc: Option<Sourced>, hashed: seq<Path>)

  datatype Loaded = Loaded(gathered: Gathered) | Failed(error: LoadError)

  function Elements(stack: seq<Path>): set<Path> {
    set f | f in stack
  }

  predicate OnDisk(fs: FileSystem, stack: seq<Path>) {
    forall f :: f in stack ==> f in fs.files
  }

  lemma Deeper(fs: FileSystem, stack: seq<Path>, f: Path)
    requires f in fs.files && f !in stack
    ensures fs.files.Keys - Elements(stack + [f]) < fs.files.Keys - Elements(stack)
  {
    assert f in fs.files.Keys - Elements(stack) && f in Elements(stack + [f]);
    assert Elements(stack) <= Elements(stack + [f]);
  }

  // ----- what the loader computes -----

  function MergeRustc(at: Gathered, field: RustcField, file: Path): Loaded {
    match field
    case Unset => Loaded(at)
    case Program(value) => Loaded(at.(rustc := Some(Sourced(value, file))))
    case NotAString => Failed(RustcNotAString)
  }

  /** `merge_file`; it terminates because the files not on the stack get fewer. */
  function Merged(fs: FileSystem, path: Path, required: bool, stack: seq<Path>, at: Gathered): Loaded
    requires OnDisk(fs, stack)
    decreases fs.files.Keys - Elements(stack), 0
  {
    match fs.Resolve(path)
    case NotFound => if required then Failed(CannotResolve) else Loaded(at)
    case Unresolvable => Failed(CannotResolve)
    case Resolved(f) =>
      if f in stack then Failed(IncludeCycle(stack + [f]))
      else if f !in fs.files then Failed(CannotRead)
      else
        match fs.files[f]
        case Document(includes, rustc) =>
          Deeper(fs, stack, f);
          var inside := MergedAll(fs, includes, stack + [f], at.(hashed := at.hashed + [f]));
          if inside.Failed? then inside else MergeRustc(inside.gathered, rustc, f)
        case _ => Failed(Invalid)
  }

  function MergedAll(fs: FileSystem, includes: seq<Include>, stack: seq<Path>, at: Gathered): Loaded
    requires OnDisk(fs, stack)
    decreases fs.files.Keys - Elements(stack), |includes|
  {
    if includes == [] then Loaded(at)
    else
      var first := Merged(fs, includes[0].path, !includes[0].optional, stack, at);
      if first.Failed? then first else MergedAll(fs, includes[1..], stack, first.gathered)
  }

  class Loader {
    const fs: FileSystem
    var rustc: Option<Sourced>
    var hashed: seq<Path>
    var stack: seq<Path>

    constructor (fs: FileSystem)
      ensures this.fs == fs && Now() == Gathered(None, []) && stack == []
    {
      this.fs, rustc, hashed, stack := fs, None, [], [];
    }

    function Now(): Gathered
      reads this
    {
      Gathered(rustc, hashed)
    }

    /** `merge_file`. On success the stack is back where it was. */
    method MergeFile(path: Path, required: bool) returns (error: Option<LoadError>)
      requires OnDisk(fs, stack)
      modifies this
      ensures Merged(fs, path, required, old(stack), old(Now())) == if error.None? then Loaded(Now()) else Failed(error.value)
      ensures error.None? ==> stack == old(stack)
      decreases fs.files.Keys - Elements(stack), 0
    {
      var canonical;
      match fs.Resolve(path) {
        case NotFound => return if required then Some(CannotResolve) else None;
        case Unresolvable => return Some(CannotResolve);
        case Resolved(f) => canonical := f;
      }
      if canonical in stack {
        return Some(IncludeCycle(stack + [canonical]));
      }
      if canonical !in fs.files {
        return Some(CannotRead);
      }
      hashed := hashed + [canonical];
      match fs.files[canonical] {
        case Document(includes, field) =>
          Deeper(fs, stack, canonical);
          stack := stack + [canonical];
          error := MergeIncludes(includes);
          if error.Some? {
            return;
          }
          stack := stack[..|stack| - 1];
          error := MergeProgram(field, canonical);
        case _ => return Some(Invalid);
      }
    }

    /** The loop over the includes of the file on top of the stack. */
    method MergeIncludes(includes: seq<Include>) returns (error: Option<LoadError>)
      requires OnDisk(fs, stack)
      modifies this
      ensures MergedAll(fs, includes, old(stack), old(Now())) == if error.None? then Loaded(Now()) else Failed(error.value)
      ensures error.None? ==> stack == old(stack)
      decreases fs.files.Keys - Elements(stack), |includes| + 1
    {
      var i := 0;
      while i < |includes|
        invariant 0 <= i <= |includes| && stack == old(stack)
        invariant MergedAll(fs, includes[i..], stack, Now()) == MergedAll(fs, includes, old(stack), old(Now()))
        decreases |includes| - i
      {
        assert includes[i..][0] == includes[i] && includes[i..][1..] == includes[i + 1..];
        error := MergeFile(includes[i].path, !includes[i].optional);
        if error.Some? {
          return;
        }
        i := i + 1;
      }
      error := None;
    }

    method MergeProgram(field: RustcField, file: Path) returns (error: Option<LoadError>)
      modifies this`rustc
      ensures MergeRustc(old(Now()), field, file) == if error.None? then Loaded(Now()) else Failed(error.value)
    {
      match field {
        case Unset => return None;
        case Program(value) =>
          rustc := Some(Sourced(value, file));
          return None;
        case NotAString => return Some(RustcNotAString);
      }
    }
  }

  // ----- the include graph -----

  /** The file parses, its `build.rustc` is usable, and each include resolves or is optional and missing. */
  predicate GoodFile(fs: FileSystem, f: Path) {
    && f in fs.files && fs.files[f].Document? && !fs.files[f].rustc.NotAString?
    && forall i :: 0 <= i < |fs.files[f].includes| ==>
         var item := fs.files[f].includes[i];
         fs.Resolve(item.path).Resolved? || (item.optional && fs.Resolve(item.path).NotFound?)
  }

  predicate Edge(fs: FileSystem, f: Path, g: Path) {
    && f in fs.files && fs.files[f].Document?
    && exists i :: 0 <= i < |fs.files[f].includes| && fs.Resolve(fs.files[f].includes[i].path) == Resolved(g)
  }

  /** A walk from `f` along includes. */
  predicate IsWalk(fs: FileSystem, f: Path, walk: seq<Path>) {
    && walk != [] && walk[0] == f
    && forall i :: 0 <= i < |walk| - 1 ==> Edge(fs, walk[i], walk[i + 1])
  }

  predicate Repeats(walk: seq<Path>) {
    exists i, j :: 0 <= i < j < |walk| && walk[i] == walk[j]
  }

  ghost predicate CycleReachable(fs: FileSystem, f: Path) {
    exists walk: seq<Path> :: IsWalk(fs, f, walk) && Repeats(walk)
  }

  ghost predicate AllReachableGood(fs: FileSystem, f: Path) {
    forall walk: seq<Path> :: IsWalk(fs, f, walk) ==> GoodFile(fs, walk[|walk| - 1])
  }

  lemma LongerWalk(fs: FileSystem, f: Path, walk: seq<Path>)
    requires walk != [] && Edge(fs, f, walk[0]) && IsWalk(fs, walk[0], walk)
    ensures IsWalk(fs, f, [f] + walk)
  {
    var longer := [f] + walk;
    forall i | 0 <= i < |longer| - 1
      ensures Edge(fs, longer[i], longer[i + 1])
    {
      if i > 0 {
        assert Edge(fs, walk[i - 1], walk[i - 1 + 1]);
      }
    }
  }

  lemma RestOfWalk(fs: FileSystem, f: Path, walk: seq<Path>)
    requires IsWalk(fs, f, walk) && |walk| > 1
    ensures IsWalk(fs, walk[1], walk[1..]) && Edge(fs, f, walk[1])
  {
    forall i | 0 <= i < |walk[1..]| - 1
      ensures Edge(fs, walk[1..][i], walk[1..][i + 1])
    {
      assert Edge(fs, walk[i + 1], walk[i + 1 + 1]);
    }
    assert Edge(fs, walk[0], walk[0 + 1]);
  }

  lemma GoodFurtherOn(fs: FileSystem, f: Path, g: Path)
    requires AllReachableGood(fs, f) && Edge(fs, f, g)
    ensures AllReachableGood(fs, g)
  {
    hide GoodFile, Edge;
    forall walk: seq<Path> | IsWalk(fs, g, walk)
      ensures GoodFile(fs, walk[|walk| - 1])
    {
      LongerWalk(fs, f, walk);
      assert ([f] + walk)[|[f] + walk| - 1] == walk[|walk| - 1];
    }
  }

  /** A list of includes that was merged without error merged each of them without error. */
  lemma {:induction false} EachMerged(fs: FileSystem, includes: seq<Include>, stack: seq<Path>, at: Gathered, i: nat) returns (before: Gathered)
    requires OnDisk(fs, stack) && i < |includes| && MergedAll(fs, includes, stack, at).Loaded?
    ensures Merged(fs, includes[i].path, !includes[i].optional, stack, before).Loaded?
  {
    if i == 0 {
      before := at;
    } else {
      var first := Merged(fs, includes[0].path, !includes[0].optional, stack, at);
      before := EachMerged(fs, includes[1..], stack, first.gathered, i - 1);
    }
  }

  /** A list of includes that failed has a first include that failed. */
  lemma {:induction false} OneFailed(fs: FileSystem, includes: seq<Include>, stack: seq<Path>, at: Gathered)
      returns (i: nat, before: Gathered)
    requires OnDisk(fs, stack) && MergedAll(fs, includes, stack, at).Failed?
    ensures i < |includes|
    ensures Merged(fs, includes[i].path, !includes[i].optional, stack, before) == MergedAll(fs, includes, stack, at)
  {
    var first := Merged(fs, includes[0].path, !includes[0].optional, stack, at);
    if first.Failed? {
      i, before := 0, at;
    } else {
      i, before := OneFailed(fs, includes[1..], stack, first.gathered);
      i := i + 1;
    }
  }

  /** After a successful load every walk is free of repetitions, stays off the stack and meets only good files. */
  lemma {:induction false} LoadedWalks(
      fs: FileSystem, path: Path, required: bool, stack: seq<Path>, at: Gathered, f: Path, walk: seq<Path>)
    requires OnDisk(fs, stack) && fs.Resolve(path) == Resolved(f) && Merged(fs, path, required, stack, at).Loaded?
    requires IsWalk(fs, f, walk)
    ensures !Repeats(walk) && (forall i :: 0 <= i < |walk| ==> walk[i] !in stack) && GoodFile(fs, walk[|walk| - 1])
    decreases |walk|
  {
    var includes := fs.files[f].includes;
    var inside := at.(hashed := at.hashed + [f]);
    if |walk| == 1 {
      forall i | 0 <= i < |includes|
        ensures fs.Resolve(includes[i].path).Resolved? || (includes[i].optional && fs.Resolve(includes[i].path).NotFound?)
      {
        var before := EachMerged(fs, includes, stack + [f], inside, i);
      }
    } else {
      RestOfWalk(fs, f, walk);
      var i :| 0 <= i < |includes| && fs.Resolve(includes[i].path) == Resolved(walk[1]);
      var before := EachMerged(fs, includes, stack + [f], inside, i);
      LoadedWalks(fs, includes[i].path, !includes[i].optional, stack + [f], before, walk[1], walk[1..]);
      forall k | 0 <= k < |walk|
        ensures walk[k] !in stack && (k > 0 ==> walk[k] != f)
      {
        if k > 0 {
          assert walk[1..][k - 1] !in stack + [f];
        }
      }
      forall j, k | 0 <= j < k < |walk|
        ensures walk[j] != walk[k]
      {
        if j > 0 {
          assert walk[1..][j - 1] != walk[1..][k - 1];
        }
      }
    }
  }

  /** One of the file's includes cannot be resolved, or is required and missing. */
  predicate HasBadInclude(fs: FileSystem, f: Path) {
    && f in fs.files && fs.files[f].Document?
    && exists i :: 0 <= i < |fs.files[f].includes| &&
         var item := fs.files[f].includes[i];
         fs.Resolve(item.path).Unresolvable? || (fs.Resolve(item.path).NotFound? && !item.optional)
  }

  /**
   The walk leads from `f`, off the stack and without a repetition, to what the error is about; the cycle
   that is reported is the stack and the whole walk, whose last file is there before.
   */
  predicate Explains(fs: FileSystem, f: Path, walk: seq<Path>, stack: seq<Path>, error: LoadError) {
    && IsWalk(fs, f, walk)
    && (forall i :: 0 <= i < |walk| - 1 ==> walk[i] !in stack + walk[..i])
    && var last := walk[|walk| - 1];
       && (last in stack + walk[..|walk| - 1] <==> error.IncludeCycle?)
       && match error
          case IncludeCycle(cycle) => cycle == stack + walk
          case CannotRead => last !in fs.files
          case Invalid => last in fs.files && !fs.files[last].Document?
          case RustcNotAString => last in fs.files && fs.files[last].Document? && fs.files[last].rustc.NotAString?
          case CannotResolve => HasBadInclude(fs, last)
  }

  lemma ExplainsFurther(fs: FileSystem, f: Path, rest: seq<Path>, stack: seq<Path>, error: LoadError)
    requires rest != [] && Edge(fs, f, rest[0]) && f !in stack && Explains(fs, rest[0], rest, stack + [f], error)
    ensures Explains(fs, f, [f] + rest, stack, error)
  {
    hide Edge, HasBadInclude;
    LongerWalk(fs, f, rest);
    hide IsWalk;
    var walk := [f] + rest;
    forall i | 0 < i < |walk|
      ensures stack + walk[..i] == (stack + [f]) + rest[..i - 1] && walk[i] == rest[i - 1]
    {
    }
  }

  /** Every error of a load is explained by a walk from the file that was to be loaded. */
  lemma {:induction false} FailureNamesItsCause(
      fs: FileSystem, path: Path, required: bool, stack: seq<Path>, at: Gathered, f: Path) returns (walk: seq<Path>)
    requires OnDisk(fs, stack) && fs.Resolve(path) == Resolved(f) && Merged(fs, path, required, stack, at).Failed?
    ensures Explains(fs, f, walk, stack, Merged(fs, path, required, stack, at).error)
    decreases fs.files.Keys - Elements(stack)
  {
    walk := [f];
    if f !in stack && f in fs.files && fs.files[f].Document? {
      Deeper(fs, stack, f);
      var includes, inside := fs.files[f].includes, at.(hashed := at.hashed + [f]);
      if MergedAll(fs, includes, stack + [f], inside).Failed? {
        var i, before := OneFailed(fs, includes, stack + [f], inside);
        if fs.Resolve(includes[i].path).Resolved? {
          var g := fs.Resolve(includes[i].path).canonical;
          var rest := FailureNamesItsCause(fs, includes[i].path, !includes[i].optional, stack + [f], before, g);
          assert Edge(fs, f, rest[0]);
          ExplainsFurther(fs, f, rest, stack, Merged(fs, path, required, stack, at).error);
          walk := [f] + rest;
        }
      }
    }
  }

  /** A load that fails among good files has walked back into its stack, or round a cycle further on, and says so. */
  lemma FailureShowsCycle(fs: FileSystem, path: Path, required: bool, stack: seq<Path>, at: Gathered, f: Path)
      returns (walk: seq<Path>)
    requires OnDisk(fs, stack) && fs.Resolve(path) == Resolved(f) && Merged(fs, path, required, stack, at).Failed?
    requires AllReachableGood(fs, f)
    ensures IsWalk(fs, f, walk) && (walk[|walk| - 1] in stack || Repeats(walk))
    ensures Merged(fs, path, required, stack, at) == Failed(IncludeCycle(stack + walk))
  {
    hide Merged, MergedAll;
    walk := FailureNamesItsCause(fs, path, required, stack, at, f);
    assert GoodFile(fs, walk[|walk| - 1]);
    var last := |walk| - 1;
    if walk[last] !in stack {
      var i :| 0 <= i < last && walk[..last][i] == walk[last];
      assert walk[i] == walk[last];
    }
  }

  /**
   Loading a configuration file that is there succeeds exactly when every file reachable through includes is
   good and no include cycle is reachable; one that is missing loads exactly when it is optional.
   */
  lemma LoadsExactlyWithoutCycles(fs: FileSystem, path: Path, required: bool, at: Gathered)
    ensures match fs.Resolve(path)
      case Resolved(f) => Merged(fs, path, required, [], at).Loaded? <==> AllReachableGood(fs, f) && !CycleReachable(fs, f)
      case NotFound => Merged(fs, path, required, [], at) == if required then Failed(CannotResolve) else Loaded(at)
      case Unresolvable => Merged(fs, path, required, [], at) == Failed(CannotResolve)
  {
    if fs.Resolve(path).Resolved? {
      var f := fs.Resolve(path).canonical;
      if Merged(fs, path, required, [], at).Loaded? {
        forall walk: seq<Path> | IsWalk(fs, f, walk)
          ensures GoodFile(fs, walk[|walk| - 1]) && !Repeats(walk)
        {
          LoadedWalks(fs, path, required, [], at, f, walk);
        }
      } else if AllReachableGood(fs, f) {
        var walk := FailureShowsCycle(fs, path, required, [], at, f);
      }
    }
  }

  // ----- which program is chosen -----

  /** The includes of a file, unfolded: a finite tree, because there is no cycle. */
  datatype Tree = Node(file: Path, children: seq<Tree>)

  /** The files that the includes resolve to, in order; missing optional ones are skipped. */
  function Targets(fs: FileSystem, includes: seq<Include>): seq<Path> {
    if includes == [] then []
    else
      var rest := Targets(fs, includes[1..]);
      match fs.Resolve(includes[0].path)
      case Resolved(g) => [g] + rest
      case _ => rest
  }

  predicate Unfolds(fs: FileSystem, tree: Tree) {
    GoodFile(fs, tree.file) && UnfoldsAll(fs, tree.children, Targets(fs, fs.files[tree.file].includes))
  }

  predicate UnfoldsAll(fs: FileSystem, trees: seq<Tree>, targets: seq<Path>) {
    && |trees| == |targets|
    && (trees != [] ==> trees[0].file == targets[0] && Unfolds(fs, trees[0]) && UnfoldsAll(fs, trees[1..], targets[1..]))
  }

  /** Includes first, then the file itself. */
  function PostOrder(tree: Tree): seq<Path> {
    PostOrders(tree.children) + [tree.file]
  }

  function PostOrders(trees: seq<Tree>): seq<Path> {
    if trees == [] then [] else PostOrder(trees[0]) + PostOrders(trees[1..])
  }

  /** The file itself, then its includes. */
  function PreOrder(tree: Tree): seq<Path> {
    [tree.file] + PreOrders(tree.children)
  }

  function PreOrders(trees: seq<Tree>): seq<Path> {
    if trees == [] then [] else PreOrder(trees[0]) + PreOrders(trees[1..])
  }

  /** The program of the last file that sets one. */
  function LastProgram(fs: FileSystem, order: seq<Path>, default: Option<Sourced>): Option<Sourced> {
    if order == [] then default
    else
      var last := order[|order| - 1];
      if last in fs.files && fs.files[last].Document? && fs.files[last].rustc.Program?
      then Some(Sourced(fs.files[last].rustc.value, last))
      else LastProgram(fs, order[..|order| - 1], default)
  }

  lemma LastProgramOfNone(fs: FileSystem, default: Option<Sourced>)
    ensures LastProgram(fs, [], default) == default
  {
  }

  lemma {:induction false} LastProgramOfConcat(fs: FileSystem, first: seq<Path>, second: seq<Path>, default: Option<Sourced>)
    ensures LastProgram(fs, first + second, default) == LastProgram(fs, second, LastProgram(fs, first, default))
  {
    if second == [] {
      assert first + second == first;
    } else {
      assert (first + second)[..|first + second| - 1] == first + second[..|second| - 1];
      LastProgramOfConcat(fs, first, second[..|second| - 1], default);
    }
  }

  /**
   A successful load chooses the program of the last file, in includes-first order, that sets one,
   and hashes every file where it is first entered.
   */
  lemma {:induction false} ChosenProgram(fs: FileSystem, path: Path, required: bool, stack: seq<Path>, at: Gathered, f: Path)
      returns (tree: Tree)
    requires OnDisk(fs, stack) && fs.Resolve(path) == Resolved(f) && Merged(fs, path, required, stack, at).Loaded?
    ensures tree.file == f && Unfolds(fs, tree)
    ensures var gathered := Merged(fs, path, required, stack, at).gathered;
      && gathered.rustc == LastProgram(fs, PostOrder(tree), at.rustc)
      && gathered.hashed == at.hashed + PreOrder(tree)
    decreases fs.files.Keys - Elements(stack), 0
  {
    var includes, inside := fs.files[f].includes, at.(hashed := at.hashed + [f]);
    LoadedFile(fs, path, required, stack, at, f);
    hide Merged, MergedAll, Targets, PostOrders, PreOrders, UnfoldsAll, GoodFile, LastProgram;
    Deeper(fs, stack, f);
    var children := ChosenPrograms(fs, includes, stack + [f], inside);
    tree := Node(f, children);
    LastProgramOfConcat(fs, PostOrders(children), [f], at.rustc);
    assert at.hashed + PreOrder(tree) == inside.hashed + PreOrders(children);
  }

  /** What a successful load says of its own file. */
  lemma LoadedFile(fs: FileSystem, path: Path, required: bool, stack: seq<Path>, at: Gathered, f: Path)
    requires OnDisk(fs, stack) && fs.Resolve(path) == Resolved(f) && Merged(fs, path, required, stack, at).Loaded?
    ensures f !in stack && GoodFile(fs, f)
    ensures var inside := MergedAll(fs, fs.files[f].includes, stack + [f], at.(hashed := at.hashed + [f]));
      && inside.Loaded?
      && Merged(fs, path, required, stack, at).gathered
         == inside.gathered.(rustc := LastProgram(fs, [f], inside.gathered.rustc))
  {
    hide MergedAll;
    LoadedWalks(fs, path, required, stack, at, f, [f]);
    assert [f][..0] == [];
  }

  lemma {:induction false} ChosenPrograms(fs: FileSystem, includes: seq<Include>, stack: seq<Path>, at: Gathered)
      returns (trees: seq<Tree>)
    requires OnDisk(fs, stack) && MergedAll(fs, includes, stack, at).Loaded?
    ensures UnfoldsAll(fs, trees, Targets(fs, includes))
    ensures var gathered := MergedAll(fs, includes, stack, at).gathered;
      && gathered.rustc == LastProgram(fs, PostOrders(trees), at.rustc)
      && gathered.hashed == at.hashed + PreOrders(trees)
    decreases fs.files.Keys - Elements(stack), |includes| + 1
  {
    hide Unfolds, PostOrder, PreOrder, GoodFile, LastProgram;
    if includes == [] {
      trees := [];
      assert LastProgram(fs, [], at.rustc) == at.rustc by {
        LastProgramOfNone(fs, at.rustc);
      }
    } else {
      var first := Merged(fs, includes[0].path, !includes[0].optional, stack, at).gathered;
      var rest := ChosenPrograms(fs, includes[1..], stack, first);
      match fs.Resolve(includes[0].path)
      case Resolved(g) =>
        var tree := ChosenProgram(fs, includes[0].path, !includes[0].optional, stack, at, g);
        trees := [tree] + rest;
        assert trees[1..] == rest && ([g] + Targets(fs, includes[1..]))[1..] == Targets(fs, includes[1..]);
        LastProgramOfConcat(fs, PostOrder(tree), PostOrders(rest), at.rustc);
      case _ =>
        trees := rest;
    }
  }

  /** The unfolding of a file is unique, so the chosen program depends only on the files. */
  lemma {:induction false} UnfoldingIsUnique(fs: FileSystem, left: Tree, right: Tree)
    requires Unfolds(fs, left) && Unfolds(fs, right) && left.file == right.file
    ensures left == right
  {
    UnfoldingsAreUnique(fs, left.children, right.children, Targets(fs, fs.files[left.file].includes));
  }

  lemma {:induction false} UnfoldingsAreUnique(fs: FileSystem, left: seq<Tree>, right: seq<Tree>, targets: seq<Path>)
    requires UnfoldsAll(fs, left, targets) && UnfoldsAll(fs, right, targets)
    ensures left == right
  {
    if left != [] {
      UnfoldingIsUnique(fs, left[0], right[0]);
      UnfoldingsAreUnique(fs, left[1..], right[1..], targets[1..]);
      assert left == [left[0]] + left[1..] && right == [right[0]] + right[1..];
    }
  }
}
