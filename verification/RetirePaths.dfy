/** Which directories deploy/retire-legacy-data.py accepts for removal. */
module RetirePaths {
  import opened Text

  /** The names of an absolute path below the root. */
  type Path = seq<string>

  /** `path.is_relative_to(root)`: the root itself or anything below it. */
  predicate Below(path: Path, root: Path) { root <= path }

  predicate IsRelated(a: Path, b: Path) { a == b || Below(a, b) || Below(b, a) }

  datatype Component = Postgres | Redis | App

  datatype Paths = Paths(app: Path, postgres: Path, redis: Path) {
    function Of(c: Component): Path {
      match c
      case App => app
      case Postgres => postgres
      case Redis => redis
    }
  }

  const ALL: set<Component> := {Postgres, Redis, App}

  /** Production policy: the two roots that must survive and the protected system paths. */
  datatype Policy = Policy(targetRoot: Path, repositoryRoot: Path, protectedExact: set<Path>, protectedTrees: seq<Path>)

  predicate IsName(s: string) {
    s != "" && s != "." && s != ".." && forall i :: 0 <= i < |s| ==> s[i] != '/' && s[i] as int >= 32 && s[i] as int != 127
  }

  /** validate_path_shape outside the test root */
  predicate ShapeOk(path: Path, policy: Policy) {
    && (forall i :: 0 <= i < |path| ==> IsName(path[i]))
    && path !in policy.protectedExact && |path| >= 3
    && (forall i :: 0 <= i < |policy.protectedTrees| ==> !Below(path, policy.protectedTrees[i]))
    && !IsRelated(path, policy.targetRoot) && !IsRelated(path, policy.repositoryRoot)
    && !Below(path, ["tmp"])
  }

  /** validate_path_set for the three data directories */
  predicate PathSetOk(p: Paths, policy: Policy) {
    && ShapeOk(p.app, policy) && ShapeOk(p.postgres, policy) && ShapeOk(p.redis, policy)
    && !Below(p.app, ["var", "log"]) && !Below(p.postgres, ["var", "log"]) && !Below(p.redis, ["var", "log"])
    && !IsRelated(p.app, p.postgres) && !IsRelated(p.app, p.redis) && !IsRelated(p.postgres, p.redis)
  }

  /** Unrelated paths have no common point below them: removing one cannot touch the other. */
  lemma UnrelatedTreesAreDisjoint(a: Path, b: Path)
    ensures !IsRelated(a, b) <==> forall p: Path :: !(Below(p, a) && Below(p, b))
  {
    forall p: Path | Below(p, a) && Below(p, b)
      ensures IsRelated(a, b)
    {
      CommonPoint(a, b, p);
    }
    if IsRelated(a, b) {
      assert Below(if |a| <= |b| then b else a, a) && Below(if |a| <= |b| then b else a, b);
    }
  }

  lemma CommonPoint(a: Path, b: Path, p: Path)
    requires Below(p, a) && Below(p, b)
    ensures IsRelated(a, b)
  {
    if |a| <= |b| {
      assert b[..|a|] == p[..|b|][..|a|] == a;
    } else {
      assert a[..|b|] == p[..|a|][..|b|] == b;
    }
  }

  /** An accepted path set keeps clear of the target, the repository and itself, tree against tree. */
  lemma AcceptedTreesAreDisjoint(p: Paths, policy: Policy, q: Path, c: Component)
    requires PathSetOk(p, policy) && Below(q, p.Of(c))
    ensures !Below(q, policy.targetRoot) && !Below(q, policy.repositoryRoot)
    ensures forall d: Component :: d != c ==> !Below(q, p.Of(d))
  {
    UnrelatedTreesAreDisjoint(p.Of(c), policy.targetRoot);
    UnrelatedTreesAreDisjoint(p.Of(c), policy.repositoryRoot);
    forall d: Component | d != c
      ensures !Below(q, p.Of(d))
    {
      UnrelatedTreesAreDisjoint(p.Of(c), p.Of(d));
    }
  }

  /* ---------------------------------------------------------------- the policy in production */

  function Production(repository: Path): Policy {
    Policy(["mnt", "data", "sub2api-gate"], repository,
           {[], ["boot"], ["dev"], ["etc"], ["home"], ["mnt"], ["mnt", "data"], ["opt"], ["proc"], ["run"], ["srv"], ["sys"], ["tmp"],
            ["usr"], ["var"], ["var", "lib"], ["var", "log"]},
           [["boot"], ["dev"], ["etc"], ["proc"], ["run"], ["sys"], ["usr"]])
  }

  /** Printable characters that cannot separate names. */
  predicate Unusable(c: char) { c == '/' || c as int <= 31 || c as int == 127 }

  /** The names of a normalized path. */
  ghost predicate Normalized(path: Path) {
    forall i :: 0 <= i < |path| ==> path[i] !in {"", ".", ".."} && forall c :: c in path[i] ==> !Unusable(c)
  }

  /** No path lies below both. */
  ghost predicate Apart(a: Path, b: Path) { forall p: Path :: !(Below(p, a) && Below(p, b)) }

  lemma NormalizedIff(path: Path)
    ensures (forall i :: 0 <= i < |path| ==> IsName(path[i])) <==> Normalized(path)
  {
    forall i | 0 <= i < |path|
      ensures IsName(path[i]) <==> path[i] !in {"", ".", ".."} && forall c :: c in path[i] ==> !Unusable(c)
    {
      NameIff(path[i]);
    }
  }

  lemma NameIff(s: string)
    ensures IsName(s) <==> s !in {"", ".", ".."} && forall c :: c in s ==> !Unusable(c)
  {
    if IsName(s) {
      forall c | c in s
        ensures !Unusable(c)
      {
        var i :| 0 <= i < |s| && s[i] == c;
      }
    }
    if forall c :: c in s ==> !Unusable(c) {
      assert forall i :: 0 <= i < |s| ==> s[i] in s;
    }
  }

  const SYSTEM_NAMES: set<string> := {"boot", "dev", "etc", "proc", "run", "sys", "usr", "tmp"}

  /** A directory is accepted exactly if its path is normalized, has at least three names, does not begin in
      a system tree or in temporary storage, and no path lies both below it and below the target root or the
      repository. */
  lemma AcceptedShapeIff(path: Path, repository: Path)
    ensures ShapeOk(path, Production(repository))
       <==> && Normalized(path) && |path| >= 3 && path[0] !in SYSTEM_NAMES
            && Apart(path, ["mnt", "data", "sub2api-gate"]) && Apart(path, repository)
  {
    var policy := Production(repository);
    NormalizedIff(path);
    UnrelatedTreesAreDisjoint(path, policy.targetRoot);
    UnrelatedTreesAreDisjoint(path, repository);
    if |path| >= 3 {
      assert path !in policy.protectedExact;
      BelowOne(path, "tmp");
      forall i | 0 <= i < |policy.protectedTrees|
        ensures Below(path, policy.protectedTrees[i]) <==> path[0] == policy.protectedTrees[i][0]
      {
        BelowOne(path, policy.protectedTrees[i][0]);
      }
      var trees := policy.protectedTrees;
      assert (exists i :: 0 <= i < |trees| && Below(path, trees[i])) <==> path[0] in SYSTEM_NAMES - {"tmp"} by {
        assert forall i :: 0 <= i < |trees| ==> trees[i][0] in SYSTEM_NAMES - {"tmp"};
        if path[0] in SYSTEM_NAMES - {"tmp"} {
          InTrees(path, trees);
        }
      }
    }
  }

  lemma InTrees(path: Path, trees: seq<Path>)
    requires trees == [["boot"], ["dev"], ["etc"], ["proc"], ["run"], ["sys"], ["usr"]]
    requires |path| > 0 && path[0] in SYSTEM_NAMES - {"tmp"}
    ensures exists i :: 0 <= i < |trees| && Below(path, trees[i])
  {
    var i := if path[0] == "boot" then 0 else if path[0] == "dev" then 1 else if path[0] == "etc" then 2 else if path[0] == "proc" then 3
             else if path[0] == "run" then 4 else if path[0] == "sys" then 5 else 6;
    BelowOne(path, path[0]);
    assert trees[i] == [path[0]];
  }

  lemma BelowOne(path: Path, name: string)
    requires |path| > 0
    ensures Below(path, [name]) <==> path[0] == name
  {
  }

  /** The three data directories are accepted exactly if each is, none lies in the system logs, and their
      trees have no path in common. */
  lemma AcceptedSetIff(p: Paths, repository: Path)
    ensures PathSetOk(p, Production(repository))
       <==> && (forall c: Component :: ShapeOk(p.Of(c), Production(repository)) && p.Of(c)[..2] != ["var", "log"])
            && (forall c: Component, d: Component :: c != d ==> Apart(p.Of(c), p.Of(d)))
  {
    var policy := Production(repository);
    hide ShapeOk, Apart, Production;
    InLogs(p.app, policy);
    InLogs(p.postgres, policy);
    InLogs(p.redis, policy);
    ApartIff(p.app, p.postgres);
    ApartIff(p.app, p.redis);
    ApartIff(p.postgres, p.redis);
    if PathSetOk(p, policy) {
      forall c: Component
        ensures ShapeOk(p.Of(c), policy) && p.Of(c)[..2] != ["var", "log"]
      {
        match c
        case App =>
        case Postgres =>
        case Redis =>
      }
      forall c: Component, d: Component | c != d
        ensures Apart(p.Of(c), p.Of(d))
      {
        ApartIff(p.Of(c), p.Of(d));
      }
    } else if forall c: Component :: ShapeOk(p.Of(c), policy) && p.Of(c)[..2] != ["var", "log"] {
      assert ShapeOk(p.Of(App), policy) && ShapeOk(p.Of(Postgres), policy) && ShapeOk(p.Of(Redis), policy);
      assert p.Of(App)[..2] != ["var", "log"] && p.Of(Postgres)[..2] != ["var", "log"] && p.Of(Redis)[..2] != ["var", "log"];
      assert !(Apart(p.Of(App), p.Of(Postgres)) && Apart(p.Of(App), p.Of(Redis)) && Apart(p.Of(Postgres), p.Of(Redis)));
    }
  }

  lemma InLogs(path: Path, policy: Policy)
    ensures ShapeOk(path, policy) ==> |path| >= 3 && (Below(path, ["var", "log"]) <==> path[..2] == ["var", "log"])
  {
  }

  lemma ApartIff(a: Path, b: Path)
    ensures !IsRelated(a, b) <==> Apart(a, b)
    ensures IsRelated(a, b) <==> IsRelated(b, a)
  {
    UnrelatedTreesAreDisjoint(a, b);
  }
}
