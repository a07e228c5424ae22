/** Unpacking a decrypted archive into a new directory that appears all at once. */
module Restore {
  import opened Prelude
  import opened ArchivePaths

  type Content = seq<Byte>

  datatype MemberKind = RegularFile | DirectoryMember | SymbolicLink | OtherMember

  /** A tar member: its declared size and the bytes the stream really holds for it. */
  datatype Member = Member(name: string, kind: MemberKind, size: int, content: Content)

  datatype Node = Folder | File(content: Content)

  /** A directory tree by path components; the directory itself is at []. */
  type Tree = map<seq<string>, Node>

  const MAX_EXPANDED := 8 * 1024 * 1024 * 1024
  const MAX_METADATA := 8 * 1024 * 1024
  const MAX_MEMBERS := 100_000
  const MAX_ARCHIVE := 2 * 1024 * 1024 * 1024

  /** The bounds the tar reader puts on every header. */
  predicate Bounded(m: Member) {
    0 <= m.size <= MAX_EXPANDED && (m.kind != RegularFile ==> m.size <= MAX_METADATA)
  }

  /** `p` is the directory `q` or one of its ancestors. */
  predicate AtOrAbove(p: seq<string>, q: seq<string>) {
    p <= q
  }

  /** `p` is a proper ancestor of `q`. */
  predicate Above(p: seq<string>, q: seq<string>) {
    p < q
  }

  /** Creates the directory and its missing ancestors; None where a file is in the way. */
  method MakeFolders(tree: Tree, path: seq<string>) returns (r: Option<Tree>)
    ensures r.Some? ==>
              && (forall p | AtOrAbove(p, path) :: p in r.value && r.value[p] == Folder)
              && (forall p | p in tree :: p in r.value && r.value[p] == tree[p])
              && (forall p | p in r.value && p !in tree :: AtOrAbove(p, path) && r.value[p] == Folder)
    ensures r.None? ==> exists p | AtOrAbove(p, path) && p in tree :: tree[p] != Folder
  {
    var t := tree;
    for k := 0 to |path| + 1
      invariant forall p | AtOrAbove(p, path) && |p| < k :: p in t && t[p] == Folder
      invariant forall p | p in tree :: p in t && t[p] == tree[p]
      invariant forall p | p in t && p !in tree :: AtOrAbove(p, path) && t[p] == Folder
    {
      var here := path[..k];
      assert AtOrAbove(here, path);
      assert forall p | AtOrAbove(p, path) && |p| == k :: p == here;
      if here in t {
        if t[here] != Folder {
          return None;
        }
      } else {
        t := t[here := Folder];
      }
    }
    return Some(t);
  }

  /** Copies exactly `size` bytes in pieces; None where the stream ends early. */
  method ReadMember(content: Content, size: nat) returns (r: Option<Content>)
    ensures r == if |content| < size then None else Some(content[..size])
  {
    var output: Content := [];
    var remaining := size;
    while remaining > 0
      invariant 0 <= remaining <= size && |output| == size - remaining
      invariant output <= content
    {
      var piece: int := *;
      var limit := if remaining < 1048576 then remaining else 1048576;
      var available := |content| - |output|;
      if available == 0 {
        return None;
      }
      var n := if 1 <= piece <= limit && piece <= available then piece else 1;
      var chunk := content[|output|..|output| + n];
      output := output + chunk;
      remaining := remaining - n;
    }
    assert output == content[..size];
    return Some(output);
  }

  // ----- Trees of items -----

  /** A member once named and read: where it goes and what goes there. */
  datatype Item = Item(parts: seq<string>, node: Node)

  /** Two items that cannot both exist: a file where another needs a directory. */
  predicate Clash(a: Item, b: Item) {
    a.node != Folder && Above(a.parts, b.parts)
  }

  predicate Compatible(a: Item, b: Item) {
    a.parts != b.parts && !Clash(a, b) && !Clash(b, a)
  }

  /** A path in the tree that no item needs. */
  ghost predicate Stray(tree: Tree, items: seq<Item>, p: seq<string>) {
    p in tree && p != [] && forall i | 0 <= i < |items| :: !AtOrAbove(p, items[i].parts)
  }

  /** A file in the tree that is none of the items. */
  ghost predicate StrayFile(tree: Tree, items: seq<Item>, p: seq<string>) {
    p in tree && tree[p] != Folder && forall i | 0 <= i < |items| :: items[i] != Item(p, tree[p])
  }

  /** The tree holds every item, with the ancestors they need, and nothing else. */
  ghost predicate Holds(tree: Tree, items: seq<Item>) {
    && [] in tree && tree[[]] == Folder
    && (forall i | 0 <= i < |items| :: items[i].parts in tree && tree[items[i].parts] == items[i].node)
    && (forall i, p | 0 <= i < |items| && Above(p, items[i].parts) :: p in tree && tree[p] == Folder)
    && (forall p :: !Stray(tree, items, p) && !StrayFile(tree, items, p))
  }

  /** `after` is `before` with one more item. */
  ghost predicate Added(before: Tree, after: Tree, item: Item) {
    && item.parts in after && after[item.parts] == item.node
    && (forall p | Above(p, item.parts) :: p in after && after[p] == Folder)
    && (forall p | p in before :: p in after && after[p] == before[p])
    && (forall p | p in after && p !in before ::
          AtOrAbove(p, item.parts) && (after[p] != Folder ==> p == item.parts))
  }

  /** A file stands at the item's path or above it, or something is where a file should go. */
  ghost predicate Blocked(tree: Tree, item: Item) {
    || (exists p | AtOrAbove(p, item.parts) && p in tree :: tree[p] != Folder)
    || (item.node != Folder && item.parts in tree)
  }

  /** Adds an item below the tree; None where something is in its way. */
  method AddItem(tree: Tree, item: Item) returns (r: Option<Tree>)
    requires item.parts != []
    ensures r.Some? ==> Added(tree, r.value, item)
    ensures r.None? ==> Blocked(tree, item)
  {
    var parts := item.parts;
    var parent := parts[..|parts| - 1];
    assert forall p :: Above(p, parts) <==> AtOrAbove(p, parent);
    assert AtOrAbove(parts, parts);
    var above := MakeFolders(tree, parent);
    if above.None? {
      var p :| AtOrAbove(p, parent) && p in tree && tree[p] != Folder;
      assert AtOrAbove(p, parts);
      return None;
    }
    if item.node == Folder {
      r := MakeFolders(above.value, parts);
      if r.None? {
        var p :| AtOrAbove(p, parts) && p in above.value && above.value[p] != Folder;
        assert p in tree;
      }
    } else if parts in above.value {
      r := None;
    } else {
      r := Some(above.value[parts := item.node]);
    }
  }

  lemma HoldsSnoc(before: Tree, after: Tree, items: seq<Item>, item: Item)
    requires Holds(before, items) && Added(before, after, item)
    ensures Holds(after, items + [item])
  {
    var all, n := items + [item], |items|;
    assert all[n] == item && forall i | 0 <= i < n :: all[i] == items[i];
    forall p ensures !Stray(after, all, p) && !StrayFile(after, all, p) {
      assert !Stray(before, items, p) && !StrayFile(before, items, p);
      assert p in after && p !in before ==> AtOrAbove(p, all[n].parts);
      if p in before && p != [] {
        var i :| 0 <= i < n && AtOrAbove(p, items[i].parts);
        assert AtOrAbove(p, all[i].parts);
      }
      if p in before && before[p] != Folder {
        var i :| 0 <= i < n && items[i] == Item(p, before[p]);
        assert all[i] == Item(p, after[p]);
      }
    }
  }

  /** What is in an item's way belongs to another item it is not compatible with. */
  lemma InTheWay(tree: Tree, items: seq<Item>, item: Item)
    requires Holds(tree, items) && item.parts != [] && Blocked(tree, item)
    ensures exists i | 0 <= i < |items| :: !Compatible(items[i], item)
  {
    if p :| AtOrAbove(p, item.parts) && p in tree && tree[p] != Folder {
      assert !StrayFile(tree, items, p);
      var i :| 0 <= i < |items| && items[i] == Item(p, tree[p]);
      assert !Compatible(items[i], item);
    } else {
      assert !Stray(tree, items, item.parts);
      var i :| 0 <= i < |items| && AtOrAbove(item.parts, items[i].parts);
      assert !Compatible(items[i], item);
    }
  }

  /** An item that could be added clashes with none before it. */
  lemma AddedIsCompatible(before: Tree, after: Tree, items: seq<Item>, item: Item, i: nat)
    requires Holds(before, items) && Added(before, after, item) && i < |items| && items[i].parts != item.parts
    ensures Compatible(items[i], item)
  {
    assert after[items[i].parts] == items[i].node;
    assert Above(item.parts, items[i].parts) ==> before[item.parts] == Folder;
  }

  // ----- Members -----

  predicate Complete(m: Member) {
    m.kind == RegularFile ==> 0 <= m.size <= |m.content|
  }

  /** The bytes a complete member holds. */
  function Stored(m: Member): Content {
    if 0 <= m.size <= |m.content| then m.content[..m.size] else m.content
  }

  function ItemOf(m: Member): Item {
    Item(Parts(m.name), if m.kind == RegularFile then File(Stored(m)) else Folder)
  }

  function Size(m: Member): nat {
    if m.kind == RegularFile && m.size > 0 then m.size else 0
  }

  function FileBytes(members: seq<Member>): nat {
    if members == [] then 0 else FileBytes(members[..|members| - 1]) + Size(members[|members| - 1])
  }

  /** What one member must be, whatever the others are. */
  ghost predicate Admissible(m: Member, roots: set<string>) {
    && Bounded(m) && ArchivePath(m.name).Some? && (m.kind == RegularFile || m.kind == DirectoryMember) && Complete(m)
    && exists r | r in roots :: Under(ArchivePath(m.name).value, r)
  }

  ghost predicate AllAdmissible(members: seq<Member>, roots: set<string>) {
    forall i | 0 <= i < |members| :: Admissible(members[i], roots)
  }

  ghost predicate AllCompatible(items: seq<Item>) {
    forall i, j | 0 <= i < j < |items| :: Compatible(items[i], items[j])
  }

  ghost function ItemsOf(members: seq<Member>): seq<Item> {
    seq(|members|, i requires 0 <= i < |members| => ItemOf(members[i]))
  }

  /** Admissible members, no two of the same name or in each other's way, within the limits. */
  ghost predicate Accepted(members: seq<Member>, roots: set<string>) {
    && |members| <= MAX_MEMBERS && FileBytes(members) <= MAX_EXPANDED
    && AllAdmissible(members, roots) && AllCompatible(ItemsOf(members))
  }

  /** The bytes of the files add up. */
  lemma {:induction false} FileBytesAddUp(a: seq<Member>, b: seq<Member>, m: Member)
    ensures FileBytes(a + b) == FileBytes(a) + FileBytes(b)
    ensures FileBytes([m]) == if m.kind == RegularFile && m.size > 0 then m.size else 0
  {
    if b == [] {
      assert a + b == a;
    } else {
      FileBytesAddUp(a, b[..|b| - 1], m);
      assert (a + b)[..|a + b| - 1] == a + b[..|b| - 1];
    }
  }

  /** A member that may be restored: a complete file or a directory below a root, within the
      limits. */
  lemma AdmissibleMeans(m: Member, roots: set<string>)
    ensures Admissible(m, roots) <==>
              && (|| (m.kind == RegularFile && 0 <= m.size <= 8589934592 && m.size <= |m.content|)
                  || (m.kind == DirectoryMember && 0 <= m.size <= 8388608))
              && ArchivePath(m.name).Some?
              && exists r | r in roots :: ArchivePath(m.name).value == r || r + "/" <= ArchivePath(m.name).value
  {
    if r :| r in roots && ArchivePath(m.name).Some?
            && (ArchivePath(m.name).value == r || r + "/" <= ArchivePath(m.name).value) {
      assert Under(ArchivePath(m.name).value, r);
    }
  }

  /** No two members have the same path, and no file lies above another member. */
  lemma CompatibleMeans(members: seq<Member>)
    ensures AllCompatible(ItemsOf(members)) <==>
              && (forall i, j | 0 <= i < j < |members| :: Parts(members[i].name) != Parts(members[j].name))
              && (forall i, j | 0 <= i < |members| && 0 <= j < |members| && members[i].kind == RegularFile ::
                    !(Parts(members[i].name) < Parts(members[j].name)))
  {
    var items := ItemsOf(members);
    forall i | 0 <= i < |members|
      ensures items[i].parts == Parts(members[i].name) && (items[i].node != Folder <==> members[i].kind == RegularFile)
    {
      assert items[i] == ItemOf(members[i]);
    }
    if AllCompatible(items) {
      forall i, j | 0 <= i < |members| && 0 <= j < |members| && members[i].kind == RegularFile
        ensures !(Parts(members[i].name) < Parts(members[j].name))
      {
        if i < j {
          assert Compatible(items[i], items[j]);
        } else if j < i {
          assert Compatible(items[j], items[i]);
        }
      }
      forall i, j | 0 <= i < j < |members| ensures Parts(members[i].name) != Parts(members[j].name) {
        assert Compatible(items[i], items[j]);
      }
    }
  }

  /** Which archives are accepted. */
  lemma AcceptedMeans(members: seq<Member>, roots: set<string>)
    ensures Accepted(members, roots) <==>
              && |members| <= 100000 && FileBytes(members) <= 8589934592
              && (forall i | 0 <= i < |members| :: Admissible(members[i], roots))
              && (forall i, j | 0 <= i < j < |members| :: Parts(members[i].name) != Parts(members[j].name))
              && (forall i, j | 0 <= i < |members| && 0 <= j < |members| && members[i].kind == RegularFile ::
                    !(Parts(members[i].name) < Parts(members[j].name)))
  {
    CompatibleMeans(members);
  }

  function NamesOf(members: seq<Member>): set<string> {
    set i | 0 <= i < |members| && ArchivePath(members[i].name).Some? :: ArchivePath(members[i].name).value
  }

  lemma {:induction false} FileBytesGrow(members: seq<Member>, k: nat)
    requires k <= |members|
    ensures FileBytes(members[..k]) <= FileBytes(members)
  {
    if k < |members| {
      FileBytesGrow(members[..|members| - 1], k);
      assert members[..|members| - 1][..k] == members[..k];
    } else {
      assert members[..k] == members;
    }
  }

  /** Equal normalised names are equal component lists. */
  lemma SameName(a: string, b: string)
    requires ArchivePath(a).Some? && ArchivePath(b).Some?
    ensures ArchivePath(a) == ArchivePath(b) <==> Parts(a) == Parts(b)
  {
    NormalisedIsProper(a);
    NormalisedIsProper(b);
  }

  lemma AcceptedPrefix(members: seq<Member>, k: nat, roots: set<string>)
    requires Accepted(members, roots) && k <= |members|
    ensures Accepted(members[..k], roots)
  {
    FileBytesGrow(members, k);
    assert AllAdmissible(members[..k], roots);
    assert ItemsOf(members[..k]) == ItemsOf(members)[..k];
  }

  /** An archive is refused with the first member that is. */
  lemma RefusedPrefix(members: seq<Member>, k: nat, roots: set<string>)
    requires k < |members| && !Accepted(members[..k] + [members[k]], roots)
    ensures !Accepted(members, roots)
  {
    assert members[..k + 1] == members[..k] + [members[k]];
    if Accepted(members, roots) {
      AcceptedPrefix(members, k + 1, roots);
    }
  }

  lemma StagedStart(roots: set<string>)
    ensures Staged([], roots, Staging(map[[] := Folder], {}, {}, 0))
  {
  }

  /** What the loop has established of the members before it. */
  ghost predicate Unpacked(members: seq<Member>, roots: set<string>, tree: Tree) {
    Accepted(members, roots) && Holds(tree, ItemsOf(members))
  }

  lemma AdmissibleSnoc(members: seq<Member>, m: Member, roots: set<string>)
    ensures AllAdmissible(members + [m], roots) <==> AllAdmissible(members, roots) && Admissible(m, roots)
  {
    var all, n := members + [m], |members|;
    assert all[n] == m;
    assert forall i | 0 <= i < n :: all[i] == members[i];
  }

  lemma CompatibleSnoc(items: seq<Item>, item: Item)
    ensures AllCompatible(items + [item])
            <==> AllCompatible(items) && forall i | 0 <= i < |items| :: Compatible(items[i], item)
  {
    var all, n := items + [item], |items|;
    assert all[n] == item;
    assert forall i | 0 <= i < n :: all[i] == items[i];
    if AllCompatible(all) {
      forall i, j | 0 <= i < j < n ensures Compatible(items[i], items[j]) {
        assert Compatible(all[i], all[j]);
      }
      forall i | 0 <= i < n ensures Compatible(items[i], item) {
        assert Compatible(all[i], all[n]);
      }
    }
  }

  lemma ItemsSnoc(members: seq<Member>, m: Member)
    ensures ItemsOf(members + [m]) == ItemsOf(members) + [ItemOf(m)]
  {
  }

  lemma FileBytesSnoc(members: seq<Member>, m: Member)
    ensures FileBytes(members + [m]) == FileBytes(members) + Size(m)
  {
    assert (members + [m])[..|members|] == members;
  }

  lemma AcceptedSnoc(members: seq<Member>, m: Member, roots: set<string>)
    ensures Accepted(members + [m], roots) <==>
              && Accepted(members, roots) && Admissible(m, roots)
              && |members| < MAX_MEMBERS && FileBytes(members) + Size(m) <= MAX_EXPANDED
              && forall i | 0 <= i < |members| :: Compatible(ItemsOf(members)[i], ItemOf(m))
  {
    AdmissibleSnoc(members, m, roots);
    ItemsSnoc(members, m);
    CompatibleSnoc(ItemsOf(members), ItemOf(m));
    FileBytesSnoc(members, m);
  }

  lemma NewNameIsCompatible(members: seq<Member>, m: Member, roots: set<string>, before: Tree, after: Tree, i: nat)
    requires Unpacked(members, roots, before) && Admissible(m, roots) && Added(before, after, ItemOf(m))
    requires ArchivePath(m.name).value !in NamesOf(members) && i < |members|
    ensures Compatible(ItemsOf(members)[i], ItemOf(m))
  {
    assert Admissible(members[i], roots);
    SameName(members[i].name, m.name);
    AddedIsCompatible(before, after, ItemsOf(members), ItemOf(m), i);
  }

  /** An admissible member whose name is new, that the limits allow and that nothing is in the
      way of is accepted with the others. */
  lemma UnpackedSnoc(members: seq<Member>, m: Member, roots: set<string>, before: Tree, after: Tree)
    requires Unpacked(members, roots, before) && Admissible(m, roots) && Added(before, after, ItemOf(m))
    requires ArchivePath(m.name).value !in NamesOf(members)
    requires |members| < MAX_MEMBERS && FileBytes(members) + Size(m) <= MAX_EXPANDED
    ensures Unpacked(members + [m], roots, after)
  {
    forall i | 0 <= i < |members| ensures Compatible(ItemsOf(members)[i], ItemOf(m)) {
      NewNameIsCompatible(members, m, roots, before, after, i);
    }
    AcceptedSnoc(members, m, roots);
    HoldsSnoc(before, after, ItemsOf(members), ItemOf(m));
    ItemsSnoc(members, m);
  }

  lemma RepeatedName(members: seq<Member>, m: Member, roots: set<string>)
    requires ArchivePath(m.name).Some?
    requires ArchivePath(m.name).value in NamesOf(members) || |members| >= MAX_MEMBERS
    ensures !Accepted(members + [m], roots)
  {
    AcceptedSnoc(members, m, roots);
    if |members| < MAX_MEMBERS {
      var i :| 0 <= i < |members| && ArchivePath(members[i].name).Some?
               && ArchivePath(members[i].name).value == ArchivePath(m.name).value;
      SameName(members[i].name, m.name);
      assert !Compatible(ItemsOf(members)[i], ItemOf(m));
    }
  }

  lemma BlockedMember(members: seq<Member>, m: Member, roots: set<string>, tree: Tree)
    requires Unpacked(members, roots, tree) && Parts(m.name) != [] && Blocked(tree, ItemOf(m))
    ensures !Accepted(members + [m], roots)
  {
    InTheWay(tree, ItemsOf(members), ItemOf(m));
    AcceptedSnoc(members, m, roots);
  }

  lemma NamesSnoc(members: seq<Member>, m: Member)
    requires ArchivePath(m.name).Some?
    ensures NamesOf(members + [m]) == NamesOf(members) + {ArchivePath(m.name).value}
  {
    var all := members + [m];
    assert all[|members|] == m;
    assert forall i | 0 <= i < |members| :: all[i] == members[i];
  }

  /** The loop's variables. */
  datatype Staging = Staging(tree: Tree, seen: set<string>, found: set<string>, size: nat)

  /** The names seen, the roots found and the bytes counted are those of the members. */
  ghost predicate Counted(members: seq<Member>, roots: set<string>, s: Staging) {
    && s.seen == NamesOf(members) && |s.seen| == |members|
    && s.found == roots * s.seen && s.size == FileBytes(members)
  }

  ghost predicate Staged(members: seq<Member>, roots: set<string>, s: Staging) {
    Unpacked(members, roots, s.tree) && Counted(members, roots, s)
  }

  /** The checks on one member and its place in the tree; None where it is refused. */
  method PlaceMember(ghost members: seq<Member>, m: Member, roots: set<string>, s: Staging) returns (r: Option<Tree>)
    requires Staged(members, roots, s)
    ensures r.Some? <==> Accepted(members + [m], roots)
    ensures r.Some? ==>
              Unpacked(members + [m], roots, r.value) && Admissible(m, roots) && ArchivePath(m.name).value !in s.seen
  {
    AcceptedSnoc(members, m, roots);
    var name := ArchivePath(m.name);
    if !Bounded(m) || name.None? || !(exists p | p in roots :: Under(name.value, p))
       || (m.kind != DirectoryMember && m.kind != RegularFile) || s.size + Size(m) > MAX_EXPANDED {
      return None;
    }
    if name.value in s.seen || |s.seen| >= MAX_MEMBERS {
      RepeatedName(members, m, roots);
      return None;
    }
    var content := if m.kind == RegularFile then m.content else [];
    var bytes := ReadMember(content, if m.kind == RegularFile then m.size else 0);
    if bytes.None? {
      return None;
    }
    var item := Item(Parts(m.name), if m.kind == RegularFile then File(bytes.value) else Folder);
    NormalisedIsProper(m.name);
    r := AddItem(s.tree, item);
    if r.None? {
      BlockedMember(members, m, roots, s.tree);
    } else {
      UnpackedSnoc(members, m, roots, s.tree, r.value);
    }
  }

  /** A member named like a root is found under that root and no other. */
  lemma OwnRoot(roots: set<string>, name: string, root: string)
    requires !Overlapping(roots) && root in roots && Under(name, root)
    ensures roots * {name} == if name == root then {root} else {}
  {
    RootsAreUnambiguous(roots);
    assert Under(name, name);
  }

  /** One turn of the member loop. */
  method UnpackMember(ghost members: seq<Member>, m: Member, roots: set<string>, s: Staging)
    returns (r: Option<Staging>)
    requires !Overlapping(roots) && Staged(members, roots, s)
    ensures r.Some? <==> Accepted(members + [m], roots)
    ensures r.Some? ==> Staged(members + [m], roots, r.value)
  {
    var tree := PlaceMember(members, m, roots, s);
    if tree.None? {
      return None;
    }
    var name := ArchivePath(m.name).value;
    var root :| root in roots && Under(name, root);
    CountedSnoc(members, m, name, roots, s, root, tree.value);
    var found := if name == root then s.found + {root} else s.found;
    return Some(Staging(tree.value, s.seen + {name}, found, s.size + Size(m)));
  }

  /** The roots among the names seen, when one more name under a root is seen. */
  lemma FoundSnoc(roots: set<string>, seen: set<string>, name: string, root: string)
    requires !Overlapping(roots) && root in roots && Under(name, root)
    ensures roots * (seen + {name}) == if name == root then roots * seen + {root} else roots * seen
  {
    OwnRoot(roots, name, root);
    assert roots * (seen + {name}) == roots * seen + roots * {name};
  }

  lemma CountedSnoc(members: seq<Member>, m: Member, name: string, roots: set<string>, s: Staging, root: string,
                    tree: Tree)
    requires Counted(members, roots, s) && ArchivePath(m.name) == Some(name) && name !in s.seen
    requires !Overlapping(roots) && root in roots && Under(name, root)
    ensures var found := if name == root then s.found + {root} else s.found;
            Counted(members + [m], roots, Staging(tree, s.seen + {name}, found, s.size + Size(m)))
  {
    FoundSnoc(roots, s.seen, name, root);
    NamesSnoc(members, m);
    FileBytesSnoc(members, m);
  }

  /** The member loop of `restore`: it succeeds exactly on the accepted archives, and leaves
      exactly their tree. */
  method Unpack(members: seq<Member>, roots: set<string>) returns (r: Option<Staging>)
    requires !Overlapping(roots)
    ensures r.Some? <==> Accepted(members, roots)
    ensures r.Some? ==> Staged(members, roots, r.value)
  {
    var s := Staging(map[[] := Folder], {}, {}, 0);
    StagedStart(roots);
    ghost var done: seq<Member> := [];
    for k := 0 to |members|
      invariant done == members[..k]
      invariant Staged(done, roots, s)
    {
      var m := members[k];
      ghost var before := done;
      done := done + [m];
      assert done == members[..k + 1];
      var next := UnpackMember(before, m, roots, s);
      if next.None? {
        RefusedPrefix(members, k, roots);
        return None;
      }
      s := next.value;
    }
    assert done == members;
    return Some(s);
  }

  // ----- restore -----

  /** An encrypted archive: whether it is a regular file, its size, the members its stream
      holds, and whether the decryptor accepts the whole stream. */
  datatype Encrypted = Encrypted(regular: bool, size: nat, members: seq<Member>, authentic: bool)

  /** A directory that may receive restored trees. */
  class Parent {
    var entries: map<string, Tree>

    constructor ()
      ensures entries == map[]
    {
      entries := map[];
    }

    /** `restore`. `isPrivate` says whether the directory is an owned private one without
        symbolic links. The destination appears complete or not at all. */
    method RestoreArchive(destination: string, required: set<string>, archive: Encrypted, isPrivate: bool)
      returns (restored: bool)
      modifies this
      ensures restored <==>
                && isPrivate && destination !in old(entries) && ExpectedRoots(required).Some?
                && archive.regular && archive.size <= 2147483648 && archive.authentic
                && var roots := ExpectedRoots(required).value;
                   !Overlapping(roots) && Accepted(archive.members, roots) && roots <= NamesOf(archive.members)
      ensures !restored ==> entries == old(entries)
      ensures restored ==>
                && destination in entries && entries == old(entries)[destination := entries[destination]]
                && Holds(entries[destination], ItemsOf(archive.members))
    {
      var expected := ExpectedRoots(required);
      if !isPrivate || destination in entries || expected.None? || Overlapping(expected.value)
         || !archive.regular || archive.size > MAX_ARCHIVE {
        return false;
      }
      var staged := Unpack(archive.members, expected.value);
      if staged.None? || !archive.authentic || staged.value.found != expected.value {
        return false;
      }
      entries := entries[destination := staged.value.tree];
      return true;
    }
  }
}
