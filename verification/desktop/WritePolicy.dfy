/** The destination check of the development profile, over a file system of directories, files and
    symbolic links. The check resolves what exists of a path and appends what does not; the
    question is whether that is where a write would really land.
 */
module WritePolicies {
  import opened Values

  /** A location without links: the names from the root down. */
  type Path = seq<string>

  /** One part of a path as given, or of a link's target. */
  datatype Part = Up | Name(name: string)

  datatype RawPath = RawPath(absolute: bool, parts: seq<Part>)

  datatype Node = Dir | File | Link(target: RawPath)

  /** The nodes by location. Windows can report a child of a regular file as not found; elsewhere
      it is another error. */
  datatype Disk = Disk(nodes: map<Path, Node>, fileChildNotFound: bool)

  datatype IoError = NotFound | NotADirectory | TooManyLinks | PermissionDenied

  /** Links followed before a path counts as a loop. */
  const MAX_LINKS: nat := 40

  ghost predicate WellFormed(d: Disk) {
    && [] in d.nodes && d.nodes[[]] == Dir
    && forall p :: p in d.nodes && p != [] ==> Parent(p) in d.nodes && d.nodes[Parent(p)] == Dir
  }

  function Parent(p: Path): Path {
    if p == [] then [] else p[..|p| - 1]
  }

  function Names(p: Path): seq<Part> {
    seq(|p|, i requires 0 <= i < |p| => Name(p[i]))
  }

  predicate IsDir(d: Disk, p: Path) {
    p in d.nodes && d.nodes[p] == Dir
  }

  // --- The system's own resolution ---

  /** Follow `parts` from the location `at`. */
  function Walk(d: Disk, at: Path, parts: seq<Part>, links: nat): Result<Path, IoError>
    decreases links, |parts|
  {
    if parts == [] then Ok(at)
    else if !IsDir(d, at) then Err(if d.fileChildNotFound then NotFound else NotADirectory)
    else if parts[0].Up? then Walk(d, Parent(at), parts[1..], links)
    else
      var here := at + [parts[0].name];
      if here !in d.nodes then Err(NotFound)
      else if d.nodes[here].Link? then
        var target := d.nodes[here].target;
        if links == 0 then Err(TooManyLinks)
        else Walk(d, if target.absolute then [] else at, target.parts + parts[1..], links - 1)
      else Walk(d, here, parts[1..], links)
  }

  function Canonicalize(d: Disk, p: Path): Result<Path, IoError> {
    Walk(d, [], Names(p), MAX_LINKS)
  }

  /** `symlink_metadata`: like Canonicalize, but the last component is not followed. */
  function LinkStat(d: Disk, p: Path): Result<Node, IoError> {
    if p == [] then Ok(Dir)
    else
      var dir := Canonicalize(d, Parent(p));
      if dir.Err? then Err(dir.error)
      else if !IsDir(d, dir.value) then Err(if d.fileChildNotFound then NotFound else NotADirectory)
      else if dir.value + [p[|p| - 1]] in d.nodes then Ok(d.nodes[dir.value + [p[|p| - 1]]])
      else Err(NotFound)
  }

  // --- The check ---

  /** Where the existing part of a path resolves to, and the names below it that do not exist. */
  datatype Projection = Projection(resolved: Path, missing: Path)

  function Joined(p: Projection): Path {
    p.resolved + p.missing
  }

  function Project(d: Disk, at: Path, missing: Path): Result<Projection, IoError> {
    var c := Canonicalize(d, at);
    if c.Ok? then (if missing != [] && !IsDir(d, c.value) then Err(PermissionDenied) else Ok(Projection(c.value, missing)))
    else if c.error != NotFound then Err(c.error)
    else
      var l := LinkStat(d, at);
      if l.Ok? then Err(PermissionDenied)
      else if l.error != NotFound then Err(l.error)
      else if at == [] then Err(PermissionDenied)
      else Project(d, Parent(at), [at[|at| - 1]] + missing)
  }

  /** The walk over the ancestors: `at` loses a component each time it does not exist. */
  method Projected(d: Disk, path: Path) returns (r: Result<Path, IoError>)
    ensures var p := Project(d, path, []);
            r == if p.Ok? then Ok(Joined(p.value)) else Err(p.error)
  {
    var at := path;
    var missing: Path := [];
    while true
      invariant Project(d, path, []) == Project(d, at, missing)
      decreases |at|
    {
      var c := Canonicalize(d, at);
      if c.Ok? {
        if missing != [] && !IsDir(d, c.value) {
          return Err(PermissionDenied);
        }
        return Ok(c.value + missing);
      }
      if c.error != NotFound {
        return Err(c.error);
      }
      var l := LinkStat(d, at);
      if l.Ok? {
        return Err(PermissionDenied);
      }
      if l.error != NotFound {
        return Err(l.error);
      }
      if at == [] {
        return Err(PermissionDenied);
      }
      missing := [at[|at| - 1]] + missing;
      at := Parent(at);
    }
  }

  predicate CleanAbsolute(p: RawPath) {
    p.absolute && Up !in p.parts
  }

  function Clean(p: RawPath): Path
    requires CleanAbsolute(p)
  {
    seq(|p.parts|, i requires 0 <= i < |p.parts| => p.parts[i].name)
  }

  datatype WritePolicy = Unrestricted | Confined(root: RawPath)

  /** The directory writes are confined to: the root's name below its own parent, wherever that is. */
  function Expected(d: Disk, root: Path): Result<Path, IoError> {
    if root == [] then Err(PermissionDenied)
    else
      var parent := Project(d, Parent(root), []);
      if parent.Err? then Err(parent.error) else Ok(Joined(parent.value) + [root[|root| - 1]])
  }

  function Check(policy: WritePolicy, d: Disk, path: RawPath): Result<(), IoError> {
    if policy.Unrestricted? then Ok(())
    else if !CleanAbsolute(policy.root) || !CleanAbsolute(path) then Err(PermissionDenied)
    else
      var expected := Expected(d, Clean(policy.root));
      if expected.Err? then Err(expected.error)
      else
        var root := Project(d, Clean(policy.root), []);
        if root.Err? then Err(root.error)
        else if Joined(root.value) != expected.value then Err(PermissionDenied)
        else
          var destination := Project(d, Clean(path), []);
          if destination.Err? then Err(destination.error)
          else if expected.value <= Joined(destination.value) then Ok(())
          else Err(PermissionDenied)
  }

  // --- Creating the missing directories ---

  function MakeDirs(d: Disk, at: Path, names: Path): Disk
    decreases |names|
  {
    if names == [] then d
    else
      var here := at + [names[0]];
      MakeDirs(d.(nodes := d.nodes[here := Dir]), here, names[1..])
  }

  function Created(d: Disk, p: Projection): Disk {
    MakeDirs(d, p.resolved, p.missing)
  }

  /** e has everything d has. */
  ghost predicate Extends(e: Disk, d: Disk) {
    && e.fileChildNotFound == d.fileChildNotFound
    && forall p :: p in d.nodes ==> p in e.nodes && e.nodes[p] == d.nodes[p]
  }

  /** `names` below `at` are directories, all the way. */
  ghost predicate Stairs(d: Disk, at: Path, names: Path) {
    forall k :: 0 <= k <= |names| ==> IsDir(d, at + names[..k])
  }

  lemma {:induction false} MissingBelowMissing(d: Disk, p: Path, more: Path)
    requires WellFormed(d) && p !in d.nodes
    ensures p + more !in d.nodes
  {
    if more != [] {
      MissingBelowMissing(d, p, more[..|more| - 1]);
      assert Parent(p + more) == p + more[..|more| - 1];
    } else {
      assert p + more == p;
    }
  }

  lemma AddDir(d: Disk, at: Path, name: string)
    requires WellFormed(d) && IsDir(d, at) && at + [name] !in d.nodes
    ensures WellFormed(d.(nodes := d.nodes[at + [name] := Dir]))
  {
    var here, e := at + [name], d.(nodes := d.nodes[at + [name] := Dir]);
    assert Parent(here) == at;
    forall p | p in e.nodes && p != [] ensures IsDir(e, Parent(p)) {
      assert p == here || p in d.nodes;
    }
  }

  lemma StairsFromBelow(d: Disk, at: Path, names: Path)
    requires names != [] && IsDir(d, at) && Stairs(d, at + [names[0]], names[1..])
    ensures Stairs(d, at, names)
  {
    forall k | 0 <= k <= |names| ensures IsDir(d, at + names[..k]) {
      if k == 0 {
        assert at + names[..0] == at;
      } else {
        assert at + [names[0]] + names[1..][..k - 1] == at + names[..k];
      }
    }
  }

  lemma NextIsMissing(d: Disk, at: Path, names: Path)
    requires WellFormed(d) && |names| > 1 && at + [names[0]] !in d.nodes
    ensures at + [names[0]] + [names[1]] !in d.nodes[at + [names[0]] := Dir]
  {
    var here := at + [names[0]];
    MissingBelowMissing(d, here, [names[1]]);
    assert |here + [names[1]]| > |here|;
  }

  lemma {:induction false} MakeDirsWellFormed(d: Disk, at: Path, names: Path)
    requires WellFormed(d) && IsDir(d, at) && (names != [] ==> at + [names[0]] !in d.nodes)
    ensures WellFormed(MakeDirs(d, at, names)) && Extends(MakeDirs(d, at, names), d)
    decreases |names|
  {
    if names != [] {
      AddDir(d, at, names[0]);
      if |names| > 1 {
        NextIsMissing(d, at, names);
      }
      MakeDirsWellFormed(d.(nodes := d.nodes[at + [names[0]] := Dir]), at + [names[0]], names[1..]);
    }
  }

  lemma {:induction false} MakeDirsKeepsDirs(d: Disk, at: Path, names: Path, p: Path)
    requires IsDir(d, p)
    ensures IsDir(MakeDirs(d, at, names), p)
    decreases |names|
  {
    if names != [] {
      var here := at + [names[0]];
      MakeDirsKeepsDirs(d.(nodes := d.nodes[here := Dir]), here, names[1..], p);
    }
  }

  lemma {:induction false} MakeDirsStairs(d: Disk, at: Path, names: Path)
    requires IsDir(d, at)
    ensures Stairs(MakeDirs(d, at, names), at, names)
    decreases |names|
  {
    if names == [] {
      assert at + names[..0] == at;
    } else {
      MakeDirsStairs(d.(nodes := d.nodes[at + [names[0]] := Dir]), at + [names[0]], names[1..]);
      MakeDirsKeepsDirs(d, at, names, at);
      StairsFromBelow(MakeDirs(d, at, names), at, names);
    }
  }

  lemma {:induction false} MakeDirsBelow(d: Disk, at: Path, names: Path, p: Path)
    requires p in MakeDirs(d, at, names).nodes && p !in d.nodes
    ensures p <= at + names
    decreases |names|
  {
    var here := at + [names[0]];
    assert here + names[1..] == at + names;
    if p != here {
      MakeDirsBelow(d.(nodes := d.nodes[here := Dir]), here, names[1..], p);
    }
  }

  lemma MakeDirsWorks(d: Disk, at: Path, names: Path)
    requires WellFormed(d) && IsDir(d, at) && (names != [] ==> at + [names[0]] !in d.nodes)
    ensures WellFormed(MakeDirs(d, at, names)) && Extends(MakeDirs(d, at, names), d)
    ensures Stairs(MakeDirs(d, at, names), at, names)
    ensures forall p :: p in MakeDirs(d, at, names).nodes && p !in d.nodes ==> p <= at + names
  {
    MakeDirsWellFormed(d, at, names);
    MakeDirsStairs(d, at, names);
    forall p | p in MakeDirs(d, at, names).nodes && p !in d.nodes ensures p <= at + names {
      MakeDirsBelow(d, at, names, p);
    }
  }

  // --- Resolution after creation ---

  lemma {:induction false} WalkExtends(d: Disk, e: Disk, at: Path, parts: seq<Part>, links: nat)
    requires Extends(e, d) && Walk(d, at, parts, links).Ok?
    ensures Walk(e, at, parts, links) == Walk(d, at, parts, links)
    decreases links, |parts|
  {
    if parts != [] {
      if parts[0].Up? {
        WalkExtends(d, e, Parent(at), parts[1..], links);
      } else {
        var here := at + [parts[0].name];
        if d.nodes[here].Link? {
          var target := d.nodes[here].target;
          WalkExtends(d, e, if target.absolute then [] else at, target.parts + parts[1..], links - 1);
        } else {
          WalkExtends(d, e, here, parts[1..], links);
        }
      }
    }
  }

  lemma {:induction false} WalkLands(d: Disk, at: Path, parts: seq<Part>, links: nat)
    requires WellFormed(d) && at in d.nodes && !d.nodes[at].Link? && Walk(d, at, parts, links).Ok?
    ensures var r := Walk(d, at, parts, links).value; r in d.nodes && !d.nodes[r].Link?
    decreases links, |parts|
  {
    if parts != [] {
      if parts[0].Up? {
        WalkLands(d, Parent(at), parts[1..], links);
      } else {
        var here := at + [parts[0].name];
        if d.nodes[here].Link? {
          var target := d.nodes[here].target;
          WalkLands(d, if target.absolute then [] else at, target.parts + parts[1..], links - 1);
        } else {
          WalkLands(d, here, parts[1..], links);
        }
      }
    }
  }

  lemma {:induction false} WalkDown(d: Disk, at: Path, names: Path, links: nat)
    requires Stairs(d, at, names)
    ensures Walk(d, at, Names(names), links) == Ok(at + names)
    decreases |names|
  {
    if names == [] {
      assert at + names == at;
    } else {
      assert at + names[..0] == at && at + names[..1] == at + [names[0]];
      var here, rest := at + [names[0]], names[1..];
      assert Names(names)[1..] == Names(rest);
      forall k | 0 <= k <= |rest| ensures IsDir(d, here + rest[..k]) {
        assert here + rest[..k] == at + names[..k + 1];
      }
      WalkDown(d, here, rest, links);
      assert here + rest == at + names;
    }
  }

  lemma RegroupParts(a: seq<Part>, b: seq<Part>, c: seq<Part>)
    ensures a + b + c == a + (b + c)
  {
  }

  /** After a walk, existing directories below where it ends are reached by naming them. */
  lemma {:induction false} WalkOn(d: Disk, at: Path, parts: seq<Part>, names: Path, links: nat)
    requires Walk(d, at, parts, links).Ok? && Stairs(d, Walk(d, at, parts, links).value, names)
    ensures Walk(d, at, parts + Names(names), links) == Ok(Walk(d, at, parts, links).value + names)
    decreases links, |parts|
  {
    var all := parts + Names(names);
    if parts == [] {
      assert all == Names(names);
      WalkDown(d, at, names, links);
    } else {
      var rest := parts[1..];
      assert all[0] == parts[0] && all[1..] == rest + Names(names);
      if parts[0].Up? {
        WalkOn(d, Parent(at), rest, names, links);
        assert Walk(d, at, all, links) == Walk(d, Parent(at), all[1..], links);
      } else {
        var here := at + [parts[0].name];
        if d.nodes[here].Link? {
          var target := d.nodes[here].target;
          var start := if target.absolute then [] else at;
          WalkOn(d, start, target.parts + rest, names, links - 1);
          RegroupParts(target.parts, rest, Names(names));
          assert Walk(d, at, all, links) == Walk(d, start, target.parts + all[1..], links - 1);
        } else {
          WalkOn(d, here, rest, names, links);
          assert Walk(d, at, all, links) == Walk(d, here, all[1..], links);
        }
      }
    }
  }

  lemma FoundIs(d: Disk, at: Path, missing: Path)
    requires Canonicalize(d, at).Ok? && Project(d, at, missing).Ok?
    ensures Project(d, at, missing) == Ok(Projection(Canonicalize(d, at).value, missing))
    ensures missing != [] ==> IsDir(d, Canonicalize(d, at).value)
  {
  }

  lemma StatMisses(d: Disk, path: Path, n: nat, dir: Path)
    requires n < |path| && Canonicalize(d, path[..n]) == Ok(dir) && IsDir(d, dir)
    requires LinkStat(d, path[..n + 1]) == Err(NotFound)
    ensures dir + [path[n]] !in d.nodes
  {
    assert Parent(path[..n + 1]) == path[..n] && path[..n + 1][n] == path[n];
  }

  lemma {:induction false} FoundMeans(d: Disk, path: Path, n: nat)
    requires WellFormed(d) && n <= |path| && Canonicalize(d, path[..n]).Ok? && Project(d, path[..n], path[n..]).Ok?
    requires n < |path| ==> LinkStat(d, path[..n + 1]) == Err(NotFound)
    ensures var p := Project(d, path[..n], path[n..]).value;
            && p == Projection(Canonicalize(d, path[..n]).value, path[n..])
            && p.resolved in d.nodes && !d.nodes[p.resolved].Link?
            && (p.missing != [] ==> IsDir(d, p.resolved) && p.resolved + [p.missing[0]] !in d.nodes)
  {
    WalkLands(d, [], Names(path[..n]), MAX_LINKS);
    FoundIs(d, path[..n], path[n..]);
    if n < |path| {
      StatMisses(d, path, n, Canonicalize(d, path[..n]).value);
    }
  }

  lemma {:induction false} MissedIs(d: Disk, at: Path, missing: Path)
    requires Canonicalize(d, at).Err? && Project(d, at, missing).Ok?
    ensures at != [] && LinkStat(d, at) == Err(NotFound)
    ensures Project(d, at, missing) == Project(d, Parent(at), [at[|at| - 1]] + missing)
  {
  }

  lemma {:induction false} MissedAt(d: Disk, path: Path, n: nat)
    requires n <= |path| && Canonicalize(d, path[..n]).Err? && Project(d, path[..n], path[n..]).Ok?
    ensures 0 < n && LinkStat(d, path[..n - 1 + 1]) == Err(NotFound)
    ensures Project(d, path[..n], path[n..]) == Project(d, path[..n - 1], path[n - 1..])
  {
    MissedIs(d, path[..n], path[n..]);
    assert Parent(path[..n]) == path[..n - 1] && [path[..n][n - 1]] + path[n..] == path[n - 1..];
    assert path[..n - 1 + 1] == path[..n];
  }

  /** The first k names resolve to where p begins, and the next one is missing below a directory. */
  ghost predicate Means(d: Disk, path: Path, k: nat, p: Projection) {
    && k <= |path| && Canonicalize(d, path[..k]) == Ok(p.resolved) && p.missing == path[k..]
    && p.resolved in d.nodes && !d.nodes[p.resolved].Link?
    && (p.missing != [] ==> IsDir(d, p.resolved) && p.resolved + [p.missing[0]] !in d.nodes)
  }

  /** What a projection says about the disk. */
  lemma {:induction false} ProjectMeans(d: Disk, path: Path, n: nat) returns (k: nat)
    requires WellFormed(d) && n <= |path| && Project(d, path[..n], path[n..]).Ok?
    requires n < |path| ==> LinkStat(d, path[..n + 1]) == Err(NotFound)
    ensures k <= n && Means(d, path, k, Project(d, path[..n], path[n..]).value)
  {
    if Canonicalize(d, path[..n]).Ok? {
      k := n;
      FoundMeans(d, path, n);
    } else {
      MissedAt(d, path, n);
      k := ProjectMeans(d, path, n - 1);
    }
  }

  lemma WalkToCreated(d: Disk, e: Disk, path: Path, k: nat, at: Path)
    requires Extends(e, d) && k <= |path| && Canonicalize(d, path[..k]) == Ok(at) && Stairs(e, at, path[k..])
    ensures Canonicalize(e, path) == Ok(at + path[k..])
  {
    WalkExtends(d, e, [], Names(path[..k]), MAX_LINKS);
    WalkOn(e, [], Names(path[..k]), path[k..], MAX_LINKS);
    assert Names(path[..k]) + Names(path[k..]) == Names(path);
  }

  /** Projection is what creation yields: once the missing components are created as plain
      directories, the path resolves to exactly the projected location. */
  lemma ProjectionIsCreation(d: Disk, path: Path)
    requires WellFormed(d) && Project(d, path, []).Ok?
    ensures var p := Project(d, path, []).value;
            && Canonicalize(Created(d, p), path) == Ok(Joined(p))
            && WellFormed(Created(d, p)) && Extends(Created(d, p), d) && Joined(p) in Created(d, p).nodes
            && (forall loc :: loc in Created(d, p).nodes && loc !in d.nodes ==> loc <= Joined(p))
            && (p.missing != [] ==> p.resolved + [p.missing[0]] !in d.nodes)
  {
    assert path[..|path|] == path && path[|path|..] == [];
    var k := ProjectMeans(d, path, |path|);
    var p := Project(d, path, []).value;
    var e := Created(d, p);
    if p.missing == [] {
      assert path[..k] == path && Joined(p) == p.resolved;
    } else {
      MakeDirsWorks(d, p.resolved, p.missing);
      WalkToCreated(d, e, path, k, p.resolved);
      assert p.resolved + p.missing[..|p.missing|] == Joined(p);
    }
  }

  lemma {:induction false} AboveIsDir(d: Disk, p: Path, q: Path)
    requires WellFormed(d) && q in d.nodes && p <= q && p != q
    ensures IsDir(d, p)
    decreases |q|
  {
    if Parent(q) == p {
    } else {
      AboveIsDir(d, p, Parent(q));
    }
  }

  /** What is missing on d and on the way to something that exists on e is a directory there. */
  lemma StairIsDir(d: Disk, e: Disk, above: Path, p: Path, q: Path)
    requires WellFormed(d) && WellFormed(e) && q in e.nodes && above <= p <= q && above !in d.nodes
    requires forall loc :: loc in e.nodes && loc !in d.nodes ==> IsDir(e, loc)
    ensures IsDir(e, p)
  {
    if p != q {
      AboveIsDir(e, p, q);
    } else {
      MissingBelowMissing(d, above, p[|above|..]);
      assert above + p[|above|..] == p;
    }
  }

  lemma StairsToExisting(d: Disk, e: Disk, r: Projection, q: Path)
    requires WellFormed(d) && WellFormed(e) && q in e.nodes && Joined(r) <= q
    requires r.missing != [] && r.resolved + [r.missing[0]] !in d.nodes
    requires forall loc :: loc in e.nodes && loc !in d.nodes ==> IsDir(e, loc)
    ensures Stairs(e, r.resolved, r.missing)
  {
    forall n | 0 <= n <= |r.missing| ensures IsDir(e, r.resolved + r.missing[..n]) {
      var p := r.resolved + r.missing[..n];
      assert p <= Joined(r) <= q;
      if n == 0 {
        assert |p| < |q|;
        AboveIsDir(e, p, q);
      } else {
        StairIsDir(d, e, r.resolved + [r.missing[0]], p, q);
      }
    }
  }

  /** The root resolves to the permitted directory once a location inside it exists. */
  lemma RootIsWhereExpected(d: Disk, e: Disk, root: Path, q: Path)
    requires WellFormed(d) && WellFormed(e) && Extends(e, d) && Project(d, root, []).Ok?
    requires var r := Project(d, root, []).value; Joined(r) <= q && q in e.nodes
    requires forall loc :: loc in e.nodes && loc !in d.nodes ==> IsDir(e, loc)
    ensures Canonicalize(e, root) == Ok(Joined(Project(d, root, []).value))
  {
    assert root[..|root|] == root && root[|root|..] == [];
    var k := ProjectMeans(d, root, |root|);
    var r := Project(d, root, []).value;
    if r.missing == [] {
      assert root[..k] == root && Joined(r) == r.resolved;
      WalkExtends(d, e, [], Names(root), MAX_LINKS);
    } else {
      StairsToExisting(d, e, r, q);
      WalkToCreated(d, e, root, k, r.resolved);
    }
  }

  lemma {:induction false} NewAreDirs(d: Disk, at: Path, names: Path)
    ensures forall loc :: loc in MakeDirs(d, at, names).nodes && loc !in d.nodes ==> IsDir(MakeDirs(d, at, names), loc)
    ensures forall loc :: IsDir(d, loc) ==> IsDir(MakeDirs(d, at, names), loc)
    decreases |names|
  {
    if names != [] {
      var here := at + [names[0]];
      NewAreDirs(d.(nodes := d.nodes[here := Dir]), here, names[1..]);
    }
  }

  /** An accepted path stays inside. If a confined policy accepts a path, then creating its missing
      components makes it resolve to the permitted directory or below, the root itself resolves to
      the permitted directory and nowhere else, and every directory created lies on the way to it
      or inside it. */
  lemma AcceptedStaysInside(d: Disk, root: RawPath, path: RawPath)
    requires WellFormed(d) && Check(Confined(root), d, path).Ok?
    ensures CleanAbsolute(root) && CleanAbsolute(path) && Expected(d, Clean(root)).Ok? && Project(d, Clean(path), []).Ok?
    ensures var expected, p := Expected(d, Clean(root)).value, Project(d, Clean(path), []).value;
            var e := Created(d, p);
            && Canonicalize(e, Clean(path)) == Ok(Joined(p)) && expected <= Joined(p)
            && Canonicalize(e, Clean(root)) == Ok(expected)
            && Extends(e, d)
            && forall loc :: loc in e.nodes && loc !in d.nodes ==> loc <= expected || expected <= loc
  {
    var expected, p := Expected(d, Clean(root)).value, Project(d, Clean(path), []).value;
    ProjectionIsCreation(d, Clean(path));
    NewAreDirs(d, p.resolved, p.missing);
    RootIsWhereExpected(d, Created(d, p), Clean(root), Joined(p));
  }

  /** Both directions, where the three projections exist: a path is accepted exactly when, after
      creation, the root is where it is expected and the path resolves inside it. */
  lemma AcceptsIffInside(d: Disk, root: RawPath, path: RawPath)
    requires WellFormed(d) && CleanAbsolute(root) && CleanAbsolute(path)
    requires Expected(d, Clean(root)).Ok? && Project(d, Clean(root), []).Ok? && Project(d, Clean(path), []).Ok?
    ensures Check(Confined(root), d, path).Ok? <==>
            var expected := Expected(d, Clean(root)).value;
            var there := Canonicalize(Created(d, Project(d, Clean(path), []).value), Clean(path));
            && Canonicalize(Created(d, Project(d, Clean(root), []).value), Clean(root)) == Ok(expected)
            && there.Ok? && expected <= there.value
  {
    ProjectionIsCreation(d, Clean(root));
    ProjectionIsCreation(d, Clean(path));
  }

  // --- When a projection exists ---

  /** A walk that gets to a directory and then names something that is not there finds nothing. */
  lemma {:induction false} WalkMisses(d: Disk, at: Path, parts: seq<Part>, name: string, more: seq<Part>, links: nat)
    requires Walk(d, at, parts, links).Ok? && IsDir(d, Walk(d, at, parts, links).value)
    requires Walk(d, at, parts, links).value + [name] !in d.nodes
    ensures Walk(d, at, parts + ([Name(name)] + more), links) == Err(NotFound)
    decreases links, |parts|
  {
    var tail := [Name(name)] + more;
    var all := parts + tail;
    if parts == [] {
      assert all == tail && tail[0] == Name(name);
    } else {
      var rest := parts[1..];
      assert all[0] == parts[0] && all[1..] == rest + tail;
      if parts[0].Up? {
        WalkMisses(d, Parent(at), rest, name, more, links);
        assert Walk(d, at, all, links) == Walk(d, Parent(at), all[1..], links);
      } else {
        var here := at + [parts[0].name];
        if d.nodes[here].Link? {
          var target := d.nodes[here].target;
          var start := if target.absolute then [] else at;
          WalkMisses(d, start, target.parts + rest, name, more, links - 1);
          RegroupParts(target.parts, rest, tail);
          assert Walk(d, at, all, links) == Walk(d, start, target.parts + all[1..], links - 1);
        } else {
          WalkMisses(d, here, rest, name, more, links);
          assert Walk(d, at, all, links) == Walk(d, here, all[1..], links);
        }
      }
    }
  }

  /** The first k names lead to the directory `dir`, which has nothing of the next name. */
  ghost predicate MissingAfter(d: Disk, path: Path, k: nat, dir: Path) {
    && k < |path| && Canonicalize(d, path[..k]) == Ok(dir) && IsDir(d, dir) && dir + [path[k]] !in d.nodes
  }

  lemma MissingIsNotFound(d: Disk, path: Path, k: nat, dir: Path, n: nat)
    requires MissingAfter(d, path, k, dir) && k < n <= |path|
    ensures Canonicalize(d, path[..n]) == Err(NotFound)
  {
    WalkMisses(d, [], Names(path[..k]), path[k], Names(path[k + 1..n]), MAX_LINKS);
    assert Names(path[..n]) == Names(path[..k]) + ([Name(path[k])] + Names(path[k + 1..n]));
  }

  lemma MissingHasNoStat(d: Disk, path: Path, k: nat, dir: Path, n: nat)
    requires MissingAfter(d, path, k, dir) && k < n <= |path|
    ensures LinkStat(d, path[..n]) == Err(NotFound)
  {
    assert Parent(path[..n]) == path[..n - 1] && path[..n][n - 1] == path[n - 1];
    if n - 1 > k {
      MissingIsNotFound(d, path, k, dir, n - 1);
    }
  }

  lemma {:induction false} ProjectionFrom(d: Disk, path: Path, k: nat, dir: Path, n: nat)
    requires MissingAfter(d, path, k, dir) && k <= n <= |path|
    ensures Project(d, path[..n], path[n..]) == Ok(Projection(dir, path[k..]))
    decreases n
  {
    if n > k {
      MissingIsNotFound(d, path, k, dir, n);
      MissingHasNoStat(d, path, k, dir, n);
      ProjectionFrom(d, path, k, dir, n - 1);
      assert Parent(path[..n]) == path[..n - 1] && [path[..n][n - 1]] + path[n..] == path[n - 1..];
    }
  }

  /** Where a write to this path would land, by the disk alone: where the path resolves to, or, if some
      name is missing below a directory that the names before it lead to, the place those names have
      below that directory. */
  ghost predicate Lands(d: Disk, path: Path, loc: Path) {
    || Canonicalize(d, path) == Ok(loc)
    || exists k: nat, dir: Path :: MissingAfter(d, path, k, dir) && loc == dir + path[k..]
  }

  lemma LandsIsProjected(d: Disk, path: Path, loc: Path)
    requires Lands(d, path, loc)
    ensures Project(d, path, []).Ok? && Joined(Project(d, path, []).value) == loc
  {
    if Canonicalize(d, path) == Ok(loc) {
      assert loc + [] == loc;
    } else {
      var k: nat, dir: Path :| MissingAfter(d, path, k, dir) && loc == dir + path[k..];
      ProjectionFrom(d, path, k, dir, |path|);
      assert path[..|path|] == path && path[|path|..] == [];
    }
  }

  lemma ProjectedLands(d: Disk, path: Path)
    requires WellFormed(d) && Project(d, path, []).Ok?
    ensures Lands(d, path, Joined(Project(d, path, []).value))
  {
    assert path[..|path|] == path && path[|path|..] == [];
    var k := ProjectMeans(d, path, |path|);
    var p := Project(d, path, []).value;
    if k == |path| {
      assert path[..k] == path && Joined(p) == p.resolved;
    } else {
      assert MissingAfter(d, path, k, p.resolved);
    }
  }

  /** A projection exists, and is this location, exactly if a write would land there. */
  lemma ProjectedIff(d: Disk, path: Path, loc: Path)
    requires WellFormed(d)
    ensures Project(d, path, []).Ok? && Joined(Project(d, path, []).value) == loc <==> Lands(d, path, loc)
  {
    if Lands(d, path, loc) {
      LandsIsProjected(d, path, loc);
    }
    if Project(d, path, []).Ok? {
      ProjectedLands(d, path);
    }
  }

  /** The permitted directory, by the disk alone: its own name below where its parent lands, if it
      lands there itself. */
  ghost predicate Permits(d: Disk, root: Path, expected: Path) {
    && root != [] && expected != [] && expected[|expected| - 1] == root[|root| - 1]
    && Lands(d, Parent(root), Parent(expected)) && Lands(d, root, expected)
  }

  /** What the check finds to be the permitted directory. */
  predicate IsRoot(d: Disk, root: Path, expected: Path) {
    && Expected(d, root) == Ok(expected)
    && Project(d, root, []).Ok? && Joined(Project(d, root, []).value) == expected
  }

  lemma ExpectedIs(d: Disk, root: Path, expected: Path)
    requires root != []
    ensures Expected(d, root) == Ok(expected) <==>
            && expected != [] && expected[|expected| - 1] == root[|root| - 1]
            && Project(d, Parent(root), []).Ok? && Joined(Project(d, Parent(root), []).value) == Parent(expected)
  {
    var parent := Project(d, Parent(root), []);
    if expected != [] {
      assert Parent(expected) + [expected[|expected| - 1]] == expected;
    }
    if parent.Ok? {
      assert Parent(Joined(parent.value) + [root[|root| - 1]]) == Joined(parent.value);
    }
  }

  lemma PermittedIsRoot(d: Disk, root: Path, expected: Path)
    requires WellFormed(d)
    ensures Permits(d, root, expected) <==> IsRoot(d, root, expected)
  {
    if root != [] {
      ProjectedIff(d, root, expected);
      ProjectedIff(d, Parent(root), Parent(expected));
      ExpectedIs(d, root, expected);
    }
  }

  lemma CheckIs(d: Disk, root: RawPath, path: RawPath)
    requires CleanAbsolute(root) && CleanAbsolute(path)
    ensures Check(Confined(root), d, path).Ok? <==>
            && Expected(d, Clean(root)).Ok? && IsRoot(d, Clean(root), Expected(d, Clean(root)).value)
            && Project(d, Clean(path), []).Ok?
            && Expected(d, Clean(root)).value <= Joined(Project(d, Clean(path), []).value)
  {
  }

  /** The path lands in the permitted directory or below. */
  ghost predicate LandsInside(d: Disk, root: Path, path: Path) {
    exists expected: Path, loc: Path :: Permits(d, root, expected) && Lands(d, path, loc) && expected <= loc
  }

  lemma LandsInsideIs(d: Disk, root: Path, path: Path)
    requires WellFormed(d)
    ensures LandsInside(d, root, path) <==>
            && Expected(d, root).Ok? && IsRoot(d, root, Expected(d, root).value)
            && Project(d, path, []).Ok? && Expected(d, root).value <= Joined(Project(d, path, []).value)
  {
    if LandsInside(d, root, path) {
      var expected: Path, loc: Path :| Permits(d, root, expected) && Lands(d, path, loc) && expected <= loc;
      PermittedIsRoot(d, root, expected);
      ProjectedIff(d, path, loc);
    }
    if Expected(d, root).Ok? && IsRoot(d, root, Expected(d, root).value) && Project(d, path, []).Ok? {
      PermittedIsRoot(d, root, Expected(d, root).value);
      ProjectedIff(d, path, Joined(Project(d, path, []).value));
    }
  }

  /** What the check accepts, by the disk alone: clean absolute paths that land in the permitted
      directory or below. Everything else it refuses. */
  lemma AcceptsIffLands(d: Disk, root: RawPath, path: RawPath)
    requires WellFormed(d)
    ensures Check(Confined(root), d, path).Ok? <==>
            CleanAbsolute(root) && CleanAbsolute(path) && LandsInside(d, Clean(root), Clean(path))
  {
    if CleanAbsolute(root) && CleanAbsolute(path) {
      CheckIs(d, root, path);
      LandsInsideIs(d, Clean(root), Clean(path));
    }
  }

  lemma {:induction false} DirsAbove(d: Disk, p: Path, k: nat)
    requires WellFormed(d) && IsDir(d, p) && k <= |p|
    ensures IsDir(d, p[..k])
  {
    if k < |p| {
      AboveIsDir(d, p[..k], p);
    } else {
      assert p[..k] == p;
    }
  }

  /** A directory that is reached without links is where it is named. */
  lemma DirIsItself(d: Disk, p: Path)
    requires WellFormed(d) && IsDir(d, p)
    ensures Canonicalize(d, p) == Ok(p)
  {
    forall k | 0 <= k <= |p| ensures IsDir(d, [] + p[..k]) {
      DirsAbove(d, p, k);
      assert [] + p[..k] == p[..k];
    }
    WalkDown(d, [], p, MAX_LINKS);
    assert [] + p == p;
  }

  /** For example: below a root that is a plain directory, every path is accepted whose existing part
      is made of plain directories, whatever number of names is missing. */
  lemma PlainPathsAreAccepted(d: Disk, root: Path, path: Path, k: nat)
    requires WellFormed(d) && root != [] && IsDir(d, root) && k < |path| && root <= path[..k]
    requires IsDir(d, path[..k]) && path[..k + 1] !in d.nodes
    ensures Check(Confined(RawPath(true, Names(root))), d, RawPath(true, Names(path))).Ok?
  {
    DirIsItself(d, root);
    DirsAbove(d, root, |root| - 1);
    DirIsItself(d, Parent(root));
    DirIsItself(d, path[..k]);
    assert path[..k] + [path[k]] == path[..k + 1];
    assert MissingAfter(d, path, k, path[..k]) && path[..k] + path[k..] == path;
    assert Lands(d, path, path) && Permits(d, root, root);
    assert Clean(RawPath(true, Names(root))) == root && Clean(RawPath(true, Names(path))) == path;
    assert LandsInside(d, root, path);
    AcceptsIffLands(d, RawPath(true, Names(root)), RawPath(true, Names(path)));
  }
}
