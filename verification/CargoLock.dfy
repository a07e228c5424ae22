/** Reducing a workspace lock file to the packages the servers need, and the check that
    the reduced file introduces nothing. */
module CargoLock {
  import opened Prelude

  datatype Package = Package(name: string, version: string, source: Option<string>, checksum: Option<string>,
                             dependencies: seq<string>)

  /** One `[[package]]` block: its text and what the TOML parser makes of it. */
  datatype Block = Block(text: string, package: Package)

  datatype Lock = Lock(preamble: string, blocks: seq<Block>)

  const SERVERS: set<string> :=
    {"elo-core", "elo-team", "elo-witness", "elo-storage", "elo-wake", "elo-call-service"}

  /** `s.split(" ")`. */
  function Split(s: string): (parts: seq<string>)
    ensures |parts| >= 1
  {
    if s == "" then [""]
    else
      var rest := Split(s[1..]);
      if s[0] == ' ' then [""] + rest else [[s[0]] + rest[0]] + rest[1..]
  }

  /** The package is one the dependency string may mean. */
  predicate Matches(p: Package, dependency: string) {
    var parts := Split(dependency);
    && p.name == parts[0]
    && (|parts| == 1 || p.version == parts[1])
    && (|parts| < 3 || "(" + (if p.source.Some? then p.source.value else "") + ")" == parts[2])
  }

  // ----- What a dependency string names -----

  lemma {:induction false} SplitWord(word: string)
    requires ' ' !in word
    ensures Split(word) == [word]
  {
    if word != "" {
      SplitWord(word[1..]);
      assert [word[0]] + word[1..] == word;
    }
  }

  lemma {:induction false} SplitSpace(word: string, rest: string)
    requires ' ' !in word
    ensures Split(word + " " + rest) == [word] + Split(rest)
  {
    var s := word + " " + rest;
    if word == "" {
      assert s == " " + rest && s[1..] == rest;
    } else {
      SplitSpace(word[1..], rest);
      assert s[1..] == word[1..] + " " + rest && s[0] == word[0];
      assert [word[0]] + word[1..] == word;
    }
  }

  /** A bare name means every package of that name. */
  lemma NameMeans(p: Package, name: string)
    requires ' ' !in name
    ensures Matches(p, name) <==> p.name == name
  {
    SplitWord(name);
  }

  /** A name and a version mean the packages that have both. */
  lemma VersionMeans(p: Package, name: string, version: string)
    requires ' ' !in name && ' ' !in version
    ensures Matches(p, name + " " + version) <==> p.name == name && p.version == version
  {
    SplitSpace(name, version);
    SplitWord(version);
  }

  /** A name, a version and a source in parentheses mean the packages that have all three; a
      package without a source has the empty one. */
  lemma SourceMeans(p: Package, name: string, version: string, source: string)
    requires ' ' !in name && ' ' !in version && ' ' !in source
    ensures Matches(p, name + " " + version + " (" + source + ")")
            <==> && p.name == name && p.version == version
                 && (p.source == Some(source) || (p.source == None && source == ""))
  {
    var quoted := "(" + source + ")";
    var d := name + " " + version + " (" + source + ")";
    assert d == name + " " + (version + " " + quoted);
    SplitSpace(name, version + " " + quoted);
    SplitSpace(version, quoted);
    SplitWord(quoted);
    var own := if p.source.Some? then p.source.value else "";
    assert Split(d) == [name, version, quoted];
    if "(" + own + ")" == quoted {
      assert own == ("(" + own + ")")[1..|own| + 1] == quoted[1..|source| + 1] == source;
    }
  }

  function Matching(blocks: seq<Block>, dependency: string): set<nat> {
    set i: nat | i < |blocks| && Matches(blocks[i].package, dependency)
  }

  /** The dependency names exactly one locked package, `j`. */
  predicate Resolves(blocks: seq<Block>, dependency: string, j: nat) {
    Matching(blocks, dependency) == {j}
  }

  ghost predicate Resolved(blocks: seq<Block>, dependency: string) {
    exists j: nat :: Resolves(blocks, dependency, j)
  }

  /** One of the dependencies of package `i` is package `j`. */
  ghost predicate DependsOn(blocks: seq<Block>, i: nat, j: nat)
    requires i < |blocks|
  {
    exists d | d in blocks[i].package.dependencies :: Resolves(blocks, d, j)
  }

  // ----- Reference: the least closed set -----

  ghost predicate Closed(blocks: seq<Block>, s: set<nat>) {
    && (forall i: nat | i < |blocks| && blocks[i].package.name in SERVERS :: i in s)
    && (forall i: nat, j: nat | i in s && i < |blocks| && DependsOn(blocks, i, j) :: j in s)
  }

  /** In every closed set of packages: a server root or a transitive dependency of one. */
  ghost predicate Needed(blocks: seq<Block>, i: nat) {
    i < |blocks| && forall s: set<nat> | Closed(blocks, s) :: i in s
  }

  ghost function Closure(blocks: seq<Block>): set<nat> {
    set i: nat | i < |blocks| && Needed(blocks, i)
  }

  /** Every dependency of every needed package names exactly one package. */
  ghost predicate Resolvable(blocks: seq<Block>) {
    forall i: nat, d | Needed(blocks, i) && d in blocks[i].package.dependencies :: Resolved(blocks, d)
  }

  /** The members of `s` below `n`, ascending. */
  function Ascending(s: set<nat>, n: nat): (r: seq<nat>)
    ensures forall q | 0 <= q < |r| :: r[q] in s && r[q] < n
    ensures forall p, q | 0 <= p < q < |r| :: r[p] < r[q]
    ensures forall i | i in s && i < n :: i in r
  {
    if n == 0 then [] else Ascending(s, n - 1) + if n - 1 in s then [n - 1] else []
  }

  function Keep(lock: Lock, s: set<nat>): Lock {
    var indices := Ascending(s, |lock.blocks|);
    Lock(lock.preamble, seq(|indices|, q requires 0 <= q < |indices| => lock.blocks[indices[q]]))
  }

  /** What `locked_servers` is for. */
  ghost function Reduced(lock: Lock): Option<Lock> {
    if Resolvable(lock.blocks) then Some(Keep(lock, Closure(lock.blocks))) else None
  }

  // ----- The worklist -----

  lemma OneMatch(blocks: seq<Block>, dependency: string)
    ensures |Matching(blocks, dependency)| == 1 <==> Resolved(blocks, dependency)
  {
    var m := Matching(blocks, dependency);
    if |m| == 1 {
      var j :| j in m;
      assert |m - {j}| == 0;
      assert m == {j};
      assert Resolves(blocks, dependency, j);
    }
  }

  method Roots(blocks: seq<Block>) returns (pending: seq<nat>)
    ensures forall i | i in pending :: i < |blocks| && blocks[i].package.name in SERVERS
    ensures forall i: nat | i < |blocks| && blocks[i].package.name in SERVERS :: i in pending
  {
    pending := [];
    for k := 0 to |blocks|
      invariant forall i | i in pending :: i < k && blocks[i].package.name in SERVERS
      invariant forall i: nat | i < k && blocks[i].package.name in SERVERS :: i in pending
    {
      if blocks[k].package.name in SERVERS {
        pending := pending + [k];
      }
    }
  }

  /** The packages one package depends on; None at the first dependency without exactly one match. */
  method Dependencies(blocks: seq<Block>, index: nat) returns (found: Option<seq<nat>>)
    requires index < |blocks|
    ensures found.None? ==>
              exists d | d in blocks[index].package.dependencies :: !Resolved(blocks, d)
    ensures found.Some? ==>
              && (forall d | d in blocks[index].package.dependencies :: Resolved(blocks, d))
              && (forall j: nat :: j in found.value <==> DependsOn(blocks, index, j))
  {
    var dependencies := blocks[index].package.dependencies;
    var list: seq<nat> := [];
    for k := 0 to |dependencies|
      invariant forall i | 0 <= i < k :: Resolved(blocks, dependencies[i])
      invariant forall i, j: nat | 0 <= i < k && Resolves(blocks, dependencies[i], j) :: j in list
      invariant forall j | j in list :: DependsOn(blocks, index, j)
    {
      var matches := Matching(blocks, dependencies[k]);
      OneMatch(blocks, dependencies[k]);
      if |matches| != 1 {
        return None;
      }
      var j :| j in matches;
      assert Resolves(blocks, dependencies[k], j);
      list := list + [j];
    }
    return Some(list);
  }

  /** `locked_servers`: refuses exactly the lock files with an unresolvable needed dependency,
      and otherwise keeps exactly the needed packages in their original order. */
  method LockedServers(lock: Lock) returns (r: Option<Lock>)
    ensures r == Reduced(lock)
  {
    var blocks := lock.blocks;
    var pending := Roots(blocks);
    var selected: set<nat> := {};
    while pending != []
      invariant selected <= Closure(blocks)
      invariant forall i | i in pending :: Needed(blocks, i)
      invariant forall i | i in selected :: Needed(blocks, i)
      invariant forall i: nat | i < |blocks| && blocks[i].package.name in SERVERS :: i in pending || i in selected
      invariant forall i, d | i in selected && d in blocks[i].package.dependencies :: Resolved(blocks, d)
      invariant forall i, j: nat | i in selected && DependsOn(blocks, i, j) :: j in pending || j in selected
      decreases Closure(blocks) - selected, |pending|
    {
      var index := pending[|pending| - 1];
      assert Needed(blocks, index);
      ghost var before := pending;
      pending := pending[..|pending| - 1];
      assert before == pending + [index];
      if index in selected {
        continue;
      }
      selected := selected + {index};
      var found := Dependencies(blocks, index);
      if found.None? {
        return None;
      }
      forall j | j in found.value ensures Needed(blocks, j) {
        NeededDependency(blocks, index, j);
      }
      pending := pending + found.value;
    }
    assert Closed(blocks, selected);
    assert selected == Closure(blocks);
    return Some(Keep(lock, selected));
  }

  lemma NeededDependency(blocks: seq<Block>, i: nat, j: nat)
    requires Needed(blocks, i)
    requires DependsOn(blocks, i, j)
    ensures Needed(blocks, j)
  {
    var d :| d in blocks[i].package.dependencies && Resolves(blocks, d, j);
    assert j in Matching(blocks, d);
    forall s: set<nat> | Closed(blocks, s) ensures j in s {
      assert i in s;
    }
  }

  // ----- Running it on its own output -----

  lemma ClosureIsClosed(blocks: seq<Block>)
    ensures Closed(blocks, Closure(blocks))
  {
    forall i: nat, j: nat | i in Closure(blocks) && i < |blocks| && DependsOn(blocks, i, j)
      ensures j in Closure(blocks)
    {
      NeededDependency(blocks, i, j);
    }
  }

  /** Dropping packages nobody needs does not change what a needed dependency resolves to. */
  lemma ResolvesInKept(lock: Lock, s: set<nat>, d: string, p: nat)
    requires p < |Keep(lock, s).blocks|
    requires Resolves(lock.blocks, d, Ascending(s, |lock.blocks|)[p])
    ensures Resolves(Keep(lock, s).blocks, d, p)
  {
    var f, kept := Ascending(s, |lock.blocks|), Keep(lock, s).blocks;
    forall q: nat | q < |kept| ensures Matches(kept[q].package, d) <==> q == p {
      assert f[q] in Matching(lock.blocks, d) <==> f[q] == f[p];
    }
  }

  /** The original indices of the kept packages at positions `t`. */
  function Originals(f: seq<nat>, t: set<nat>): set<nat> {
    set p: nat | p < |f| && p in t :: f[p]
  }

  /** A dependency between kept packages is one between their originals, and the other way round. */
  lemma DependsOnInKept(lock: Lock, s: set<nat>, p: nat, j: nat) returns (o: nat)
    requires Closed(lock.blocks, s) && p < |Keep(lock, s).blocks|
    requires DependsOn(lock.blocks, Ascending(s, |lock.blocks|)[p], j)
    ensures o < |Keep(lock, s).blocks| && Ascending(s, |lock.blocks|)[o] == j
    ensures DependsOn(Keep(lock, s).blocks, p, o)
  {
    var f := Ascending(s, |lock.blocks|);
    var d :| d in lock.blocks[f[p]].package.dependencies && Resolves(lock.blocks, d, j);
    assert j in Matching(lock.blocks, d);
    o :| 0 <= o < |f| && f[o] == j;
    ResolvesInKept(lock, s, d, o);
  }

  lemma OriginalsClosed(lock: Lock, s: set<nat>, t: set<nat>)
    requires Closed(lock.blocks, s) && Closed(Keep(lock, s).blocks, t)
    ensures Closed(lock.blocks, Originals(Ascending(s, |lock.blocks|), t))
  {
    var f, kept := Ascending(s, |lock.blocks|), Keep(lock, s).blocks;
    var image := Originals(f, t);
    forall i: nat | i < |lock.blocks| && lock.blocks[i].package.name in SERVERS ensures i in image {
      var p :| 0 <= p < |f| && f[p] == i;
      assert kept[p] == lock.blocks[i];
    }
    forall i: nat, j: nat | i in image && i < |lock.blocks| && DependsOn(lock.blocks, i, j) ensures j in image {
      var p: nat :| p < |f| && p in t && f[p] == i;
      var o := DependsOnInKept(lock, s, p, j);
      assert o in t;
    }
  }

  /** Every kept package is still needed in the reduced lock file. */
  lemma KeptIsNeeded(lock: Lock, q: nat)
    requires q < |Keep(lock, Closure(lock.blocks)).blocks|
    ensures Needed(Keep(lock, Closure(lock.blocks)).blocks, q)
  {
    var s := Closure(lock.blocks);
    var f, kept := Ascending(s, |lock.blocks|), Keep(lock, s).blocks;
    ClosureIsClosed(lock.blocks);
    forall t: set<nat> | Closed(kept, t) ensures q in t {
      OriginalsClosed(lock, s, t);
      assert Needed(lock.blocks, f[q]);
      assert f[q] in Originals(f, t);
      var p: nat :| p < |f| && p in t && f[p] == f[q];
    }
  }

  function Upto(n: nat): (r: seq<nat>)
    ensures |r| == n && forall i | 0 <= i < n :: r[i] == i
  {
    if n == 0 then [] else Upto(n - 1) + [n - 1]
  }

  lemma {:induction false} AscendingAll(s: set<nat>, n: nat)
    requires forall i: nat | i < n :: i in s
    ensures Ascending(s, n) == Upto(n)
  {
    if n > 0 {
      AscendingAll(s, n - 1);
      assert n - 1 in s;
    }
  }

  /** Reducing a reduced lock file changes nothing. */
  lemma ReducedIsFixpoint(lock: Lock)
    requires Reduced(lock).Some?
    ensures Reduced(Reduced(lock).value) == Reduced(lock)
  {
    var s := Closure(lock.blocks);
    var f, r := Ascending(s, |lock.blocks|), Keep(lock, s);
    ClosureIsClosed(lock.blocks);
    forall q: nat | q < |r.blocks| ensures q in Closure(r.blocks) {
      KeptIsNeeded(lock, q);
    }
    forall q: nat, d | Needed(r.blocks, q) && d in r.blocks[q].package.dependencies ensures Resolved(r.blocks, d) {
      assert Needed(lock.blocks, f[q]);
      assert d in lock.blocks[f[q]].package.dependencies && Resolved(lock.blocks, d);
      var j: nat :| Resolves(lock.blocks, d, j);
      assert DependsOn(lock.blocks, f[q], j);
      NeededDependency(lock.blocks, f[q], j);
      var p :| 0 <= p < |f| && f[p] == j;
      ResolvesInKept(lock, s, d, p);
    }
    AscendingAll(Closure(r.blocks), |r.blocks|);
    assert Keep(r, Closure(r.blocks)).blocks == r.blocks;
  }

  // ----- verify_lock -----

  function Identities(lock: Lock): set<(string, string, Option<string>, Option<string>)> {
    set b | b in lock.blocks :: (b.package.name, b.package.version, b.package.source, b.package.checksum)
  }

  function Names(lock: Lock): set<string> {
    set b | b in lock.blocks :: b.package.name
  }

  predicate Verify(original: Lock, normalized: Lock) {
    Identities(normalized) <= Identities(original) && SERVERS <= Names(normalized)
  }

  /** The same package of the same source: dependencies may differ. */
  predicate SamePackage(a: Package, b: Package) {
    a.name == b.name && a.version == b.version && a.source == b.source && a.checksum == b.checksum
  }

  ghost predicate Locks(lock: Lock, name: string) {
    exists q | 0 <= q < |lock.blocks| :: lock.blocks[q].package.name == name
  }

  lemma LocksMeans(lock: Lock, name: string)
    ensures Locks(lock, name) <==> name in Names(lock)
  {
    if name in Names(lock) {
      var b :| b in lock.blocks && b.package.name == name;
    }
    if Locks(lock, name) {
      var q :| 0 <= q < |lock.blocks| && lock.blocks[q].package.name == name;
      assert lock.blocks[q] in lock.blocks;
    }
  }

  lemma IdentityMeans(lock: Lock, p: Package)
    ensures (p.name, p.version, p.source, p.checksum) in Identities(lock)
            <==> exists q | 0 <= q < |lock.blocks| :: SamePackage(lock.blocks[q].package, p)
  {
    if q :| 0 <= q < |lock.blocks| && SamePackage(lock.blocks[q].package, p) {
      assert lock.blocks[q] in lock.blocks;
    }
  }

  /** What passes: every package is one of the original, and the six servers are there. */
  lemma VerifyMeans(original: Lock, normalized: Lock)
    ensures Verify(original, normalized) <==>
              && (forall o | 0 <= o < |normalized.blocks| ::
                    exists q | 0 <= q < |original.blocks| ::
                      SamePackage(original.blocks[q].package, normalized.blocks[o].package))
              && Locks(normalized, "elo-core") && Locks(normalized, "elo-team") && Locks(normalized, "elo-witness")
              && Locks(normalized, "elo-storage") && Locks(normalized, "elo-wake")
              && Locks(normalized, "elo-call-service")
  {
    forall o | 0 <= o < |normalized.blocks|
      ensures var p := normalized.blocks[o].package;
              (p.name, p.version, p.source, p.checksum) in Identities(original)
              <==> exists q | 0 <= q < |original.blocks| :: SamePackage(original.blocks[q].package, p)
    {
      IdentityMeans(original, normalized.blocks[o].package);
    }
    forall name | name in SERVERS ensures Locks(normalized, name) <==> name in Names(normalized) {
      LocksMeans(normalized, name);
    }
    if Identities(normalized) <= Identities(original) {
      forall o | 0 <= o < |normalized.blocks|
        ensures var p := normalized.blocks[o].package;
                (p.name, p.version, p.source, p.checksum) in Identities(original)
      {
        assert normalized.blocks[o] in normalized.blocks;
      }
    }
  }

  lemma KeptAreOriginal(lock: Lock, s: set<nat>)
    ensures Identities(Keep(lock, s)) <= Identities(lock) && Names(Keep(lock, s)) <= Names(lock)
  {
    var r := Keep(lock, s);
    forall b | b in r.blocks ensures b in lock.blocks {
      var q :| 0 <= q < |r.blocks| && r.blocks[q] == b;
    }
  }

  lemma ServersAreKept(lock: Lock, s: set<nat>, name: string)
    requires Closed(lock.blocks, s) && name in SERVERS && name in Names(lock)
    ensures name in Names(Keep(lock, s))
  {
    var f := Ascending(s, |lock.blocks|);
    var i: nat :| i < |lock.blocks| && lock.blocks[i].package.name == name;
    var q :| 0 <= q < |f| && f[q] == i;
    assert Keep(lock, s).blocks[q] == lock.blocks[i];
  }

  /** The reduced lock file passes the check against its original exactly when the original
      locks every server. */
  lemma ReducedVerifies(lock: Lock)
    requires Reduced(lock).Some?
    ensures Verify(lock, Reduced(lock).value) <==> SERVERS <= Names(lock)
  {
    var s := Closure(lock.blocks);
    KeptAreOriginal(lock, s);
    ClosureIsClosed(lock.blocks);
    forall name | name in SERVERS && name in Names(lock) ensures name in Names(Keep(lock, s)) {
      ServersAreKept(lock, s, name);
    }
  }
}
