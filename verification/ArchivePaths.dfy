/** Names of archive members: normalisation and the roots they fall under. */
module ArchivePaths {
  import opened Prelude
  import opened Schema

  const MAX_NAME := 4096

  // ----- Splitting at slashes -----

  function Split(s: string): (parts: seq<string>)
    ensures |parts| >= 1
    ensures forall p | p in parts :: '/' !in p
  {
    if s == "" then [""]
    else
      var rest := Split(s[1..]);
      if s[0] == '/' then [""] + rest else [[s[0]] + rest[0]] + rest[1..]
  }

  function Join(parts: seq<string>): string {
    if parts == [] then "" else if |parts| == 1 then parts[0] else parts[0] + "/" + Join(parts[1..])
  }

  /** A component `PurePosixPath` keeps. */
  predicate Kept(part: string) {
    part != "" && part != "."
  }

  function Clean(parts: seq<string>): seq<string> {
    if parts == [] then [] else (if Kept(parts[0]) then [parts[0]] else []) + Clean(parts[1..])
  }

  /** Components of a relative path: non-empty, without slashes, no `.` and no `..`. */
  predicate Proper(parts: seq<string>) {
    forall p | p in parts :: Kept(p) && p != ".." && '/' !in p
  }

  function Parts(name: string): seq<string> {
    Clean(Split(name))
  }

  /** `archive_path`: the normalised relative path, or None where it is refused. */
  function ArchivePath(name: string): Option<string> {
    var parts := Parts(name);
    if (name != "" && name[0] == '/') || ".." in parts || parts == [] || Utf8Size(name) > MAX_NAME then None
    else Some(Join(parts))
  }

  // ----- Normalised names are their own normal form -----

  lemma {:induction false} SplitPart(p: string, rest: string)
    requires '/' !in p
    ensures Split(p + "/" + rest) == [p] + Split(rest)
    ensures Split(p) == [p]
  {
    if p == "" {
      assert (p + "/" + rest)[1..] == rest;
    } else {
      SplitPart(p[1..], rest);
      assert (p + "/" + rest)[1..] == p[1..] + "/" + rest;
      assert p == [p[0]] + p[1..];
    }
  }

  lemma {:induction false} SplitJoin(parts: seq<string>)
    requires parts != [] && forall p | p in parts :: '/' !in p
    ensures Split(Join(parts)) == parts
  {
    SplitPart(parts[0], Join(parts[1..]));
    if |parts| == 1 {
      assert parts == [parts[0]];
    } else {
      SplitJoin(parts[1..]);
      assert parts == [parts[0]] + parts[1..];
    }
  }

  lemma {:induction false} CleanKeeps(parts: seq<string>)
    ensures forall p | p in Clean(parts) :: Kept(p) && p in parts
    ensures (forall p | p in parts :: Kept(p)) ==> Clean(parts) == parts
  {
    if parts != [] {
      CleanKeeps(parts[1..]);
      assert parts == [parts[0]] + parts[1..];
    }
  }

  /** A name is determined by its components. */
  lemma PartsOfJoin(parts: seq<string>)
    requires parts != [] && Proper(parts)
    ensures Parts(Join(parts)) == parts
  {
    SplitJoin(parts);
    CleanKeeps(parts);
  }

  lemma {:induction false} SizeConcat(a: string, b: string)
    ensures Utf8Size(a + b) == Utf8Size(a) + Utf8Size(b)
  {
    if a == "" {
      assert a + b == b;
    } else {
      SizeConcat(a[1..], b);
      assert (a + b)[1..] == a[1..] + b;
    }
  }

  lemma JoinSize(p: string, parts: seq<string>)
    ensures Utf8Size(Join([p] + parts)) == Utf8Size(p) + (if parts == [] then 0 else 1 + Utf8Size(Join(parts)))
  {
    assert ([p] + parts)[1..] == parts;
    if parts != [] {
      SizeConcat(p + "/", Join(parts));
      SizeConcat(p, "/");
      assert Utf8Size("/") == 1;
    }
  }

  /** Dropping components never lengthens a path. */
  lemma {:induction false} CleanShrinks(parts: seq<string>)
    ensures Utf8Size(Join(Clean(parts))) <= Utf8Size(Join(parts))
  {
    if parts != [] {
      CleanShrinks(parts[1..]);
      assert parts == [parts[0]] + parts[1..];
      JoinSize(parts[0], parts[1..]);
      JoinSize(parts[0], Clean(parts[1..]));
      assert [] + Clean(parts[1..]) == Clean(parts[1..]);
      if parts[1..] == [] {
        assert Clean(parts[1..]) == [];
      }
    }
  }

  lemma JoinEmptyFirst(parts: seq<string>)
    requires parts != []
    ensures Join([""] + parts) == "/" + Join(parts)
  {
    assert ([""] + parts)[1..] == parts;
  }

  lemma JoinLongerFirst(c: char, parts: seq<string>)
    requires parts != []
    ensures Join([[c] + parts[0]] + parts[1..]) == [c] + Join(parts)
  {
    var longer := [[c] + parts[0]] + parts[1..];
    assert longer[1..] == parts[1..];
    if |parts| > 1 {
      assert ([c] + parts[0]) + "/" + Join(parts[1..]) == [c] + (parts[0] + "/" + Join(parts[1..]));
    }
  }

  lemma {:induction false} JoinSplit(s: string)
    ensures Join(Split(s)) == s
  {
    if s != "" {
      var rest := Split(s[1..]);
      JoinSplit(s[1..]);
      assert s == [s[0]] + s[1..];
      if s[0] == '/' {
        JoinEmptyFirst(rest);
      } else {
        JoinLongerFirst(s[0], rest);
      }
    }
  }

  /** A normalised name has proper components only, so it stays below the directory it is
      joined to, and normalising it again changes nothing. */
  lemma NormalisedIsProper(name: string)
    requires ArchivePath(name).Some?
    ensures var r := ArchivePath(name).value;
            && Proper(Parts(name)) && Parts(r) == Parts(name)
            && ArchivePath(r) == Some(r)
  {
    var parts := Parts(name);
    var r := Join(parts);
    CleanKeeps(Split(name));
    assert Proper(parts);
    PartsOfJoin(parts);
    assert r[0] != '/' by {
      assert parts[0] in parts && parts[0] != "";
      assert r[0] == parts[0][0];
    }
    JoinSplit(name);
    CleanShrinks(Split(name));
  }

  lemma {:induction false} Utf8Bound(s: string)
    ensures Utf8Size(s) <= 4 * |s|
  {
    if s != "" {
      Utf8Bound(s[1..]);
    }
  }

  /** Proper components that are not too long together are accepted as they are. */
  lemma ProperIsAccepted(parts: seq<string>)
    requires parts != [] && Proper(parts) && |Join(parts)| <= 1024
    ensures ArchivePath(Join(parts)) == Some(Join(parts))
  {
    PartsOfJoin(parts);
    Utf8Bound(Join(parts));
    assert parts[0] in parts && Join(parts)[0] == parts[0][0];
  }

  /** A name's components: what stands between its slashes, without empty ones and dots. */
  lemma ComponentsMean(first: string, rest: string)
    requires '/' !in first
    ensures Parts(first) == if first == "" || first == "." then [] else [first]
    ensures Parts(first + "/" + rest) == Parts(first) + Parts(rest)
  {
    SplitPart(first, rest);
    assert ([first] + Split(rest))[1..] == Split(rest);
    assert Clean([first]) == if Kept(first) then [first] else [] by { assert [first][1..] == []; }
  }

  /** A name is accepted if and only if it is relative, has a component, none is `..` and it
      takes at most 4096 bytes; it is normalised to its components. */
  lemma ArchivePathMeans(name: string)
    ensures ArchivePath(name).Some? <==>
              && !("/" <= name) && ".." !in Parts(name) && Parts(name) != [] && Utf8Size(name) <= 4096
    ensures ArchivePath(name).Some? ==> Split(ArchivePath(name).value) == Parts(name)
  {
    if ArchivePath(name).Some? {
      CleanKeeps(Split(name));
      SplitJoin(Parts(name));
    }
  }

  /** UTF-8 takes one to four bytes for a character. */
  lemma SizeMeans(c: char, rest: string)
    ensures Utf8Size("") == 0
    ensures Utf8Size([c] + rest)
            == (if c as int <= 0x7F then 1 else if c as int <= 0x7FF then 2 else if c as int <= 0xFFFF then 3 else 4)
               + Utf8Size(rest)
  {
    assert ([c] + rest)[1..] == rest;
  }

  // ----- Roots -----

  /** `name == root or name.startswith(root + '/')`. */
  predicate Under(name: string, root: string) {
    name == root || root + "/" <= name
  }

  /** `lstrip('/')`. */
  function WithoutSlashes(path: string): string {
    if path != "" && path[0] == '/' then WithoutSlashes(path[1..]) else path
  }

  /** All leading slashes go, and nothing else. */
  lemma {:induction false} OnlySlashesGo(path: string) returns (k: nat)
    ensures k <= |path| && WithoutSlashes(path) == path[k..] && !("/" <= WithoutSlashes(path))
    ensures forall i | 0 <= i < k :: path[i] == '/'
  {
    k := 0;
    if path != "" && path[0] == '/' {
      var j := OnlySlashesGo(path[1..]);
      k := j + 1;
      assert forall i | 0 <= i < j :: path[1..][i] == path[i + 1];
    }
  }

  predicate Configurable(path: string) {
    path != "" && path[0] == '/' && ArchivePath(WithoutSlashes(path)).Some?
  }

  /** The configured source paths as names in the archive; None where the configuration is refused. */
  function ExpectedRoots(required: set<string>): Option<set<string>> {
    if required == {} || exists p | p in required :: !Configurable(p) then None
    else Some(set p | p in required && Configurable(p) :: ArchivePath(WithoutSlashes(p)).value)
  }

  /** The roots are the configured paths without their leading slashes; a configuration without
      paths, or with one that is not absolute or not acceptable, is refused. */
  lemma ExpectedRootsMean(required: set<string>)
    ensures ExpectedRoots(required).Some? <==>
              required != {} && forall p | p in required :: "/" <= p && ArchivePath(WithoutSlashes(p)).Some?
    ensures ExpectedRoots(required).Some? ==>
              && (forall p | p in required :: ArchivePath(WithoutSlashes(p)).Some?)
              && ExpectedRoots(required).value == set p | p in required :: ArchivePath(WithoutSlashes(p)).value
  {
    assert forall p | p in required :: "/" <= p <==> p != "" && p[0] == '/';
  }

  predicate Overlapping(roots: set<string>) {
    exists a, b | a in roots && b in roots :: a != b && b + "/" <= a
  }

  /** When no root lies inside another, a name falls under at most one of them, whichever is
      tried first; when one does, some name falls under two. */
  lemma RootsAreUnambiguous(roots: set<string>)
    ensures !Overlapping(roots)
            <==> forall name, a, b | a in roots && b in roots && Under(name, a) && Under(name, b) :: a == b
  {
    if Overlapping(roots) {
      var a, b :| a in roots && b in roots && a != b && b + "/" <= a;
      assert Under(a, a) && Under(a, b);
    } else {
      forall name, a, b | a in roots && b in roots && Under(name, a) && Under(name, b) ensures a == b {
        if a != b {
          if |a| >= |b| {
            ShorterContains(name, a, b);
          } else {
            ShorterContains(name, b, a);
          }
        }
      }
    }
  }

  lemma ShorterContains(name: string, a: string, b: string)
    requires Under(name, a) && Under(name, b) && |a| >= |b| && a != b
    ensures b + "/" <= a
  {
    assert a == name[..|a|] && b == name[..|b|];
    assert |a| > |b| && b + "/" <= name;
    assert forall i | 0 <= i < |b + "/"| :: (b + "/")[i] == name[i] == a[i];
  }
}
