/** What a snapshot is taken of: isExcludedRelativePath, walk and createProjectSnapshot of src/core/snapshot.js. */
module Snapshots {
  import opened Basics
  import CodeUnitOrder
  import opened Paths
  import opened ProjectTree

  const EXCLUDED_DIRECTORY_NAMES: set<string> :=
    {".git", ".gradle", ".harness", "node_modules", "build", "target", "dist"}

  // ---------- which paths are in scope ----------

  /** `secret` is the pattern of secret file names, as a predicate on base names. */
  predicate HiddenName(secret: string -> bool, name: string) {
    name == ".env" || ".env." <= name || secret(name)
  }

  predicate ShownName(secret: string -> bool, name: string) {
    name !in EXCLUDED_DIRECTORY_NAMES && !HiddenName(secret, name)
  }

  /** isExcludedRelativePath: any excluded directory name, or a base name that looks secret. */
  predicate IsExcluded(secret: string -> bool, path: string) {
    var parts := Split(path);
    (exists part :: part in parts && part in EXCLUDED_DIRECTORY_NAMES) || HiddenName(secret, parts[|parts| - 1])
  }

  function Admits(secret: string -> bool): Scope {
    path => !IsExcluded(secret, path)
  }

  predicate AllShown(secret: string -> bool, parts: seq<string>) {
    forall part :: part in parts ==> ShownName(secret, part)
  }

  predicate Segments(parts: seq<string>) {
    forall part :: part in parts ==> '/' !in part
  }

  /** Below directories that are shown, a path is excluded by its own name alone. */
  lemma ExcludedByName(secret: string -> bool, above: seq<string>, name: string)
    requires Segments(above + [name]) && AllShown(secret, above)
    ensures IsExcluded(secret, Join(above + [name])) <==> !ShownName(secret, name)
  {
    hide HiddenName;
    var parts := above + [name];
    SplitJoin(parts);
    assert parts[|parts| - 1] == name && name in parts;
    assert forall part :: part in parts ==> part in above || part == name;
  }

  lemma {:induction false} ShownPrefixes(secret: string -> bool, parts: seq<string>)
    requires Segments(parts)
    ensures (forall n :: 0 < n <= |parts| ==> !IsExcluded(secret, Join(parts[..n]))) <==> AllShown(secret, parts)
  {
    hide IsExcluded, ShownName;
    if parts != [] {
      var m := |parts| - 1;
      var above, name := parts[..m], parts[m];
      assert parts == above + [name];
      assert forall part :: part in above ==> part in parts;
      ShownPrefixes(secret, above);
      assert forall n :: 0 < n <= m ==> above[..n] == parts[..n];
      if AllShown(secret, above) {
        ExcludedByName(secret, above, name);
        assert parts[..m + 1] == parts;
      } else if forall n :: 0 < n <= |parts| ==> !IsExcluded(secret, Join(parts[..n])) {
        forall n | 0 < n <= |above|
          ensures !IsExcluded(secret, Join(above[..n]))
        {
          assert above[..n] == parts[..n];
        }
        assert false;
      }
      assert name in parts;
    }
  }

  /** A walk shows a file exactly when no name along its path is excluded, the names of directories included. */
  lemma {:induction false} WalkedExactly(secret: string -> bool, path: string)
    ensures Walked(Admits(secret), path) <==> AllShown(secret, Split(path))
  {
    hide IsExcluded, AllShown;
    SplitsAtSlashes(path);
    ShownPrefixes(secret, Split(path));
    assert forall n :: 0 < n <= |Split(path)| ==>
             Admits(secret)(Join(Split(path)[..n])) == !IsExcluded(secret, Join(Split(path)[..n]));
  }

  /**
   * The two notions of scope differ: a path may be admitted although no snapshot shows it, exactly when
   * the path is admitted and some directory on it is named like a secret file.
   */
  lemma AdmittedButHidden(secret: string -> bool, path: string)
    ensures var parts := Split(path);
            Admits(secret)(path) && !Walked(Admits(secret), path)
            <==> Admits(secret)(path) && exists i :: 0 <= i < |parts| - 1 && HiddenName(secret, parts[i])
  {
    hide HiddenName, Walked;
    WalkedExactly(secret, path);
    if Admits(secret)(path) {
      HiddenAbove(secret, Split(path));
    }
  }

  lemma HiddenAbove(secret: string -> bool, parts: seq<string>)
    requires parts != [] && !HiddenName(secret, parts[|parts| - 1])
    requires forall part :: part in parts ==> part !in EXCLUDED_DIRECTORY_NAMES
    ensures !AllShown(secret, parts) <==> exists i :: 0 <= i < |parts| - 1 && HiddenName(secret, parts[i])
  {
    hide HiddenName;
    if !AllShown(secret, parts) {
      var part :| part in parts && !ShownName(secret, part);
      var i :| 0 <= i < |parts| && parts[i] == part;
      assert HiddenName(secret, parts[i]);
    }
    if i :| 0 <= i < |parts| - 1 && HiddenName(secret, parts[i]) {
      assert parts[i] in parts && !ShownName(secret, parts[i]);
    }
  }

  /** For instance `tokens/lexer.js`, when the name of the directory matches the pattern. */
  lemma FilesUnderTokensAreHidden(secret: string -> bool)
    requires secret("tokens") && !secret("lexer.js")
    ensures var path := Join(["tokens", "lexer.js"]);
            Admits(secret)(path) && !Walked(Admits(secret), path)
  {
    hide Split, Join, Walked;
    var parts := ["tokens", "lexer.js"];
    SplitJoin(parts);
    assert parts[1][0] == 'l' && parts[1] != ".env" && !(".env." <= parts[1]);
    assert HiddenName(secret, parts[0]) && !HiddenName(secret, parts[1]);
    AdmittedButHidden(secret, Join(parts));
  }

  // ---------- the walk ----------

  /** A directory tree as it lies on disk; symbolic links and devices are `Other`. */
  datatype Node = RegularFile(bytes: Bytes) | Directory(children: map<string, Node>) | Other

  /** What readdir can return. */
  predicate ValidName(name: string) {
    name != "" && name != "." && name != ".." && '/' !in name && '\0' !in name
  }

  predicate WellNamed(node: Node)
    decreases node
  {
    node.Directory? ==> forall name :: name in node.children ==> ValidName(name) && WellNamed(node.children[name])
  }

  function NodeAt(node: Node, parts: seq<string>): Option<Node>
    decreases |parts|
  {
    if parts == [] then Some(node)
    else if node.Directory? && parts[0] in node.children then NodeAt(node.children[parts[0]], parts[1..])
    else None
  }

  predicate FileAt(node: Node, parts: seq<string>) {
    var found := NodeAt(node, parts);
    found.Some? && found.value.RegularFile?
  }

  /** The node has neither links nor devices at names that are shown. */
  ghost predicate Regular(secret: string -> bool, node: Node) {
    forall parts :: AllShown(secret, parts) && NodeAt(node, parts).Some? ==> !NodeAt(node, parts).value.Other?
  }

  function EntryFor(parts: seq<string>, bytes: Bytes): SourceEntry {
    SourceEntry(Join(parts), |bytes|, Sha256(bytes))
  }

  /** An entry for a shown file below the node, which itself is found at `above`. */
  ghost predicate Listed(secret: string -> bool, node: Node, above: seq<string>, entry: SourceEntry) {
    exists parts :: AllShown(secret, parts) && FileAt(node, parts)
      && entry == EntryFor(above + parts, NodeAt(node, parts).value.bytes)
  }

  ghost predicate Lists(secret: string -> bool, node: Node, above: seq<string>, entries: seq<SourceEntry>) {
    && CodeUnitOrder.DistinctKeys(SOURCE_PATH, entries)
    && forall entry :: entry in entries <==> Listed(secret, node, above, entry)
  }

  lemma {:induction false} NamesAreValid(node: Node, parts: seq<string>)
    requires WellNamed(node) && NodeAt(node, parts).Some?
    ensures forall part :: part in parts ==> ValidName(part)
    decreases |parts|
  {
    if parts != [] {
      NamesAreValid(node.children[parts[0]], parts[1..]);
      assert forall part :: part in parts ==> part == parts[0] || part in parts[1..];
    }
  }

  /** The directory with only some of its entries. */
  function Only(node: Node, names: seq<string>): Node
    requires node.Directory?
  {
    Directory(map name | name in node.children && name in names :: node.children[name])
  }

  const NAME: string -> string := (name: string) => name

  method ReadDirectory(children: map<string, Node>) returns (names: seq<string>)
    ensures CodeUnitOrder.Increasing(NAME, names)
    ensures forall name :: name in names <==> name in children
  {
    var found: seq<string> := [];
    var rest := children.Keys;
    while rest != {}
      invariant rest <= children.Keys
      invariant forall name :: name in found <==> name in children && name !in rest
      invariant CodeUnitOrder.DistinctKeys(NAME, found)
    {
      var name :| name in rest;
      found := found + [name];
      rest := rest - {name};
    }
    names := CodeUnitOrder.SortBy(NAME, found);
    CodeUnitOrder.SortIncreasing(NAME, found);
    forall name
      ensures name in names <==> name in found
    {
      CodeUnitOrder.SameMember(names, found, name);
    }
  }

  /** Where the walk is: the directory is found at `above`, all of whose names are shown. */
  ghost predicate Below(secret: string -> bool, directory: string, above: seq<string>) {
    directory == Join(above) && AllShown(secret, above) && forall part :: part in above ==> ValidName(part)
  }

  /**
   * walk: the entries of a directory in name order, entering subdirectories. It succeeds unless it meets
   * something that is neither file nor directory, and finds every shown file once.
   */
  method Walk(secret: string -> bool, directory: string, node: Node, ghost above: seq<string>)
    returns (r: Result<seq<SourceEntry>>)
    requires node.Directory? && WellNamed(node) && Below(secret, directory, above)
    ensures r.Ok? <==> Regular(secret, node)
    ensures r.Ok? ==> Lists(secret, node, above, r.value)
    decreases node
  {
    hide *;
    var names := ReadDirectory(node.children);
    var entries: seq<SourceEntry> := [];
    assert names[..0] == [];
    NothingListed(secret, node, above);
    for i := 0 to |names|
      invariant Regular(secret, Only(node, names[..i]))
      invariant Lists(secret, Only(node, names[..i]), above, entries)
    {
      var name := names[i];
      var path := if directory == "" then name else directory + "/" + name;
      var child := node.children[name];
      NextName(secret, directory, above, node, name);
      if IsExcluded(secret, path) {
        SkipName(secret, node, above, names, i, entries);
        continue;
      }
      if child.Other? {
        OtherIsIrregular(secret, node, name);
        return Err(SafetyRefusal);
      }
      var found;
      if child.Directory? {
        found := Walk(secret, path, child, above + [name]);
        if found.Err? {
          BelowIsIrregular(secret, node, name);
          return Err(found.error);
        }
      } else {
        FileIsListed(secret, child, above + [name]);
        found := Ok([SourceEntry(path, |child.bytes|, Sha256(child.bytes))]);
      }
      AddName(secret, node, above, names, i, entries, found.value);
      entries := entries + found.value;
    }
    AllNames(node, names);
    return Ok(entries);
  }

  lemma NothingListed(secret: string -> bool, node: Node, above: seq<string>)
    requires node.Directory?
    ensures Regular(secret, Only(node, [])) && Lists(secret, Only(node, []), above, [])
  {
  }

  lemma AllNames(node: Node, names: seq<string>)
    requires node.Directory? && forall name :: name in names <==> name in node.children
    ensures Only(node, names[..|names|]) == node
  {
    assert names[..|names|] == names;
    assert Only(node, names).children == node.children;
  }

  lemma {:induction false} JoinOneMore(above: seq<string>, name: string)
    requires forall part :: part in above ==> part != ""
    ensures Join(above + [name]) == if above == [] then name else Join(above) + "/" + name
    ensures Join(above) == "" <==> above == []
  {
    if above != [] {
      assert above[0] in above && forall part :: part in above[1..] ==> part in above;
    }
    if |above| == 1 {
      assert (above + [name])[1..] == [name];
    } else if |above| > 1 {
      assert (above + [name])[1..] == above[1..] + [name];
      JoinOneMore(above[1..], name);
    }
  }

  lemma NextName(secret: string -> bool, directory: string, above: seq<string>, node: Node, name: string)
    requires Below(secret, directory, above) && node.Directory? && WellNamed(node) && name in node.children
    ensures var path := if directory == "" then name else directory + "/" + name;
            && path == Join(above + [name])
            && (IsExcluded(secret, path) <==> !ShownName(secret, name))
            && (!IsExcluded(secret, path) ==> Below(secret, path, above + [name]))
    ensures WellNamed(node.children[name]) && Segments(above)
  {
    hide IsExcluded, ShownName;
    JoinOneMore(above, name);
    assert ValidName(name);
    var parts := above + [name];
    assert forall part :: part in parts ==> part in above || part == name;
    ExcludedByName(secret, above, name);
  }

  lemma OtherIsIrregular(secret: string -> bool, node: Node, name: string)
    requires node.Directory? && name in node.children && node.children[name].Other? && ShownName(secret, name)
    ensures !Regular(secret, node)
  {
    hide ShownName;
    var parts := [name];
    assert NodeAt(node.children[name], parts[1..]) == Some(node.children[name]);
    assert AllShown(secret, parts) && NodeAt(node, parts).Some?;
  }

  lemma BelowIsIrregular(secret: string -> bool, node: Node, name: string)
    requires node.Directory? && name in node.children && ShownName(secret, name)
    requires !Regular(secret, node.children[name])
    ensures !Regular(secret, node)
  {
    hide ShownName;
    var child := node.children[name];
    var rest :| AllShown(secret, rest) && NodeAt(child, rest).Some? && NodeAt(child, rest).value.Other?;
    var parts := [name] + rest;
    assert parts[1..] == rest;
    assert AllShown(secret, parts) && NodeAt(node, parts) == NodeAt(child, rest);
  }

  lemma FileIsListed(secret: string -> bool, file: Node, above: seq<string>)
    requires file.RegularFile?
    ensures Regular(secret, file)
    ensures Lists(secret, file, above, [SourceEntry(Join(above), |file.bytes|, Sha256(file.bytes))])
  {
    hide ShownName;
    var entry := EntryFor(above, file.bytes);
    assert above + [] == above;
    assert AllShown(secret, []) && FileAt(file, []) && NodeAt(file, []).value == file;
    assert Listed(secret, file, above, entry);
    forall other | Listed(secret, file, above, other)
      ensures other == entry
    {
      var parts :| AllShown(secret, parts) && FileAt(file, parts)
          && other == EntryFor(above + parts, NodeAt(file, parts).value.bytes);
      assert parts == [];
    }
  }

  /** What there is below the first names of a directory, one name further. */
  lemma OneMoreName(node: Node, names: seq<string>, i: nat, parts: seq<string>)
    requires node.Directory? && i < |names| && names[i] in node.children
    ensures parts != [] && parts[0] in names[..i] ==>
              NodeAt(Only(node, names[..i + 1]), parts) == NodeAt(Only(node, names[..i]), parts)
    ensures parts != [] && parts[0] == names[i] ==>
              NodeAt(Only(node, names[..i + 1]), parts) == NodeAt(node.children[names[i]], parts[1..])
    ensures parts != [] && parts[0] !in names[..i] && parts[0] != names[i] ==>
              NodeAt(Only(node, names[..i + 1]), parts).None?
    ensures parts != [] && parts[0] !in names[..i] ==> NodeAt(Only(node, names[..i]), parts).None?
    ensures parts == [] ==>
              && NodeAt(Only(node, names[..i + 1]), parts).value.Directory?
              && NodeAt(Only(node, names[..i]), parts).value.Directory?
  {
    assert names[..i + 1] == names[..i] + [names[i]];
  }

  lemma RegularOneMore(secret: string -> bool, node: Node, names: seq<string>, i: nat)
    requires node.Directory? && i < |names| && names[i] in node.children && Regular(secret, Only(node, names[..i]))
    requires ShownName(secret, names[i]) ==> Regular(secret, node.children[names[i]])
    ensures Regular(secret, Only(node, names[..i + 1]))
  {
    hide ShownName, Only;
    var more := Only(node, names[..i + 1]);
    forall parts | AllShown(secret, parts) && NodeAt(more, parts).Some?
      ensures !NodeAt(more, parts).value.Other?
    {
      OneMoreName(node, names, i, parts);
      if parts != [] && parts[0] == names[i] && parts[0] !in names[..i] {
        assert parts[0] in parts && forall part :: part in parts[1..] ==> part in parts;
        assert AllShown(secret, parts[1..]);
      }
    }
  }

  lemma ListedOneMore(secret: string -> bool, node: Node, above: seq<string>, names: seq<string>, i: nat,
                      entry: SourceEntry)
    requires node.Directory? && i < |names| && names[i] in node.children && names[i] !in names[..i]
    ensures Listed(secret, Only(node, names[..i + 1]), above, entry)
            <==> || Listed(secret, Only(node, names[..i]), above, entry)
                 || (ShownName(secret, names[i]) && Listed(secret, node.children[names[i]], above + [names[i]], entry))
  {
    hide ShownName, Only, Join;
    var name, child := names[i], node.children[names[i]];
    var more, less := Only(node, names[..i + 1]), Only(node, names[..i]);
    if parts :| AllShown(secret, parts) && FileAt(more, parts)
                && entry == EntryFor(above + parts, NodeAt(more, parts).value.bytes) {
      OneMoreName(node, names, i, parts);
      if parts[0] == name {
        assert parts[0] in parts && forall part :: part in parts[1..] ==> part in parts;
        assert above + parts == above + [name] + parts[1..];
        assert AllShown(secret, parts[1..]) && FileAt(child, parts[1..]);
      } else {
        assert FileAt(less, parts);
      }
    }
    if parts :| AllShown(secret, parts) && FileAt(less, parts)
                && entry == EntryFor(above + parts, NodeAt(less, parts).value.bytes) {
      OneMoreName(node, names, i, parts);
      assert FileAt(more, parts);
    }
    if ShownName(secret, name) {
      if rest :| AllShown(secret, rest) && FileAt(child, rest)
                 && entry == EntryFor(above + [name] + rest, NodeAt(child, rest).value.bytes) {
        var parts := [name] + rest;
        assert parts[1..] == rest && above + parts == above + [name] + rest;
        OneMoreName(node, names, i, parts);
        assert AllShown(secret, parts) && FileAt(more, parts);
      }
    }
  }

  lemma SkipName(secret: string -> bool, node: Node, above: seq<string>, names: seq<string>, i: nat,
                 entries: seq<SourceEntry>)
    requires node.Directory? && i < |names| && names[i] in node.children && !ShownName(secret, names[i])
    requires CodeUnitOrder.Increasing(NAME, names)
    requires Regular(secret, Only(node, names[..i])) && Lists(secret, Only(node, names[..i]), above, entries)
    ensures Regular(secret, Only(node, names[..i + 1])) && Lists(secret, Only(node, names[..i + 1]), above, entries)
  {
    hide ShownName, Only, Listed, Regular;
    RegularOneMore(secret, node, names, i);
    NewName(names, i);
    forall entry
      ensures entry in entries <==> Listed(secret, Only(node, names[..i + 1]), above, entry)
    {
      ListedOneMore(secret, node, above, names, i, entry);
    }
  }

  lemma NewName(names: seq<string>, i: nat)
    requires i < |names| && CodeUnitOrder.Increasing(NAME, names)
    ensures names[i] !in names[..i]
  {
    CodeUnitOrder.IncreasingIsDistinct(NAME, names);
    assert forall k :: 0 <= k < i ==> NAME(names[k]) != NAME(names[i]);
  }

  lemma {:induction false} AddName(secret: string -> bool, node: Node, above: seq<string>, names: seq<string>, i: nat,
                entries: seq<SourceEntry>, found: seq<SourceEntry>)
    requires node.Directory? && WellNamed(node) && Segments(above)
    requires i < |names| && names[i] in node.children && ShownName(secret, names[i])
             && CodeUnitOrder.Increasing(NAME, names)
    requires Regular(secret, Only(node, names[..i])) && Lists(secret, Only(node, names[..i]), above, entries)
    requires Regular(secret, node.children[names[i]])
             && Lists(secret, node.children[names[i]], above + [names[i]], found)
    ensures Regular(secret, Only(node, names[..i + 1]))
            && Lists(secret, Only(node, names[..i + 1]), above, entries + found)
  {
    hide ShownName, Only, Listed, Regular, WellNamed;
    RegularOneMore(secret, node, names, i);
    NewName(names, i);
    var both := entries + found;
    forall entry
      ensures entry in both <==> Listed(secret, Only(node, names[..i + 1]), above, entry)
    {
      ListedOneMore(secret, node, above, names, i, entry);
    }
    forall j, k | 0 <= j < k < |both|
      ensures SOURCE_PATH(both[j]) != SOURCE_PATH(both[k])
    {
      if j < |entries| <= k {
        assert both[j] == entries[j] && both[k] == found[k - |entries|];
        assert both[j] in entries && both[k] in found;
        ListedApart(secret, node, above, names, i, both[j], both[k]);
      } else if k < |entries| {
        assert SOURCE_PATH(entries[j]) != SOURCE_PATH(entries[k]);
      } else {
        assert SOURCE_PATH(found[j - |entries|]) != SOURCE_PATH(found[k - |entries|]);
      }
    }
  }

  lemma {:induction false} ListedApart(secret: string -> bool, node: Node, above: seq<string>, names: seq<string>,
                                       i: nat, one: SourceEntry, two: SourceEntry)
    requires node.Directory? && WellNamed(node) && Segments(above)
    requires i < |names| && names[i] in node.children && names[i] !in names[..i]
    requires Listed(secret, Only(node, names[..i]), above, one)
             && Listed(secret, node.children[names[i]], above + [names[i]], two)
    ensures one.path != two.path
  {
    hide ShownName, Only, Join;
    var name, child, less := names[i], node.children[names[i]], Only(node, names[..i]);
    var parts :| AllShown(secret, parts) && FileAt(less, parts)
        && one == EntryFor(above + parts, NodeAt(less, parts).value.bytes);
    var rest :| AllShown(secret, rest) && FileAt(child, rest)
        && two == EntryFor(above + [name] + rest, NodeAt(child, rest).value.bytes);
    OneMoreName(node, names, i, parts);
    OnlyKeeps(node, names[..i], parts);
    NamesAreValid(node, parts);
    NamesAreValid(child, rest);
    assert ValidName(name);
    var left, right := above + parts, above + [name] + rest;
    SplitJoin(left);
    SplitJoin(right);
    assert left[|above|] == parts[0] && right[|above|] == name;
  }

  lemma OnlyKeeps(node: Node, names: seq<string>, parts: seq<string>)
    requires node.Directory? && parts != [] && NodeAt(Only(node, names), parts).Some?
    ensures NodeAt(node, parts) == NodeAt(Only(node, names), parts)
  {
  }

  // ---------- the snapshot ----------

  /** The tree maps every path of the directory to what its file holds. */
  ghost predicate TreeOf(root: Node, tree: Tree) {
    forall path :: if path in tree then
      FileAt(root, Split(path)) && NodeAt(root, Split(path)).value.bytes == tree[path].bytes
                   else !FileAt(root, Split(path))
  }

  /** The entries are those of the snapshot, in order. */
  ghost predicate IsListing(entries: seq<SourceEntry>, admits: Scope, tree: Tree) {
    && CodeUnitOrder.Increasing(SOURCE_PATH, entries)
    && forall entry :: entry in entries <==>
         && entry.path in TakeSnapshot(admits, tree) && entry.sha256 == TakeSnapshot(admits, tree)[entry.path]
         && entry.size == |tree[entry.path].bytes|
  }

  /**
   * createProjectSnapshot without a list of paths. The sort at the end is needed: in name order `a/b` comes
   * before `a.b`, in code unit order after it.
   */
  method CreateProjectSnapshot(secret: string -> bool, root: Node, ghost tree: Tree)
    returns (r: Result<seq<SourceEntry>>)
    requires root.Directory? && WellNamed(root) && TreeOf(root, tree)
    ensures r.Ok? <==> Regular(secret, root)
    ensures r.Ok? ==> IsListing(r.value, Admits(secret), tree)
  {
    hide *;
    NothingAbove(secret);
    var entries := Walk(secret, "", root, []);
    if entries.Err? { return entries; }
    SortedListing(secret, root, tree, entries.value);
    return Ok(CodeUnitOrder.SortBy(SOURCE_PATH, entries.value));
  }

  lemma NothingAbove(secret: string -> bool)
    ensures Below(secret, "", [])
  {
  }

  lemma SortedListing(secret: string -> bool, root: Node, tree: Tree, entries: seq<SourceEntry>)
    requires WellNamed(root) && TreeOf(root, tree) && Lists(secret, root, [], entries)
    requires root.Directory?
    ensures IsListing(CodeUnitOrder.SortBy(SOURCE_PATH, entries), Admits(secret), tree)
  {
    hide Listed, Walked, IsExcluded, TreeOf, WellNamed;
    var sorted := CodeUnitOrder.SortBy(SOURCE_PATH, entries);
    CodeUnitOrder.SortIncreasing(SOURCE_PATH, entries);
    var admits := Admits(secret);
    forall entry
      ensures entry in sorted <==> && entry.path in tree && Walked(admits, entry.path)
                                   && entry.sha256 == Sha256(tree[entry.path].bytes)
                                   && entry.size == |tree[entry.path].bytes|
    {
      CodeUnitOrder.SameMember(sorted, entries, entry);
      ListedIsWalked(secret, root, tree, entry);
    }
  }

  lemma ListedIsWalked(secret: string -> bool, root: Node, tree: Tree, entry: SourceEntry)
    requires WellNamed(root) && TreeOf(root, tree) && root.Directory?
    ensures Listed(secret, root, [], entry)
            <==> && entry.path in tree && Walked(Admits(secret), entry.path)
                 && entry.sha256 == Sha256(tree[entry.path].bytes) && entry.size == |tree[entry.path].bytes|
  {
    hide Walked, IsExcluded, WellNamed, ShownName, Join, Split;
    WalkedExactly(secret, entry.path);
    if parts :| AllShown(secret, parts) && FileAt(root, parts)
                && entry == EntryFor([] + parts, NodeAt(root, parts).value.bytes) {
      NamesAreValid(root, parts);
      assert [] + parts == parts && parts != [];
      assert forall part :: part in parts ==> ValidName(part);
      SplitJoin(parts);
      assert Split(entry.path) == parts;
    }
    var parts := Split(entry.path);
    JoinSplit(entry.path);
    assert [] + parts == parts;
    if entry.path in tree && AllShown(secret, parts) && entry.sha256 == Sha256(tree[entry.path].bytes)
       && entry.size == |tree[entry.path].bytes| {
      assert FileAt(root, parts) && entry == EntryFor([] + parts, NodeAt(root, parts).value.bytes);
    }
  }

  /** Normalizing a path that a walk has found either leaves it alone or refuses it, for a backslash in a name. */
  lemma WalkedPathsAreNormal(root: Node, tree: Tree, base: seq<string>, path: string)
    requires WellNamed(root) && TreeOf(root, tree) && root.Directory? && path in tree
    ensures Unrewritten(base, path)
    ensures NormalizeRelativePath(base, path) == if '\\' in path then Err(SafetyRefusal) else Ok(path)
  {
    hide WellNamed;
    var parts := Split(path);
    JoinSplit(path);
    NamesAreValid(root, parts);
    assert parts[0] in parts && ValidName(parts[0]);
    NoNul(parts);
    if '\\' !in path {
      PartCharacters(path, '\\');
      NormalizedIsFixed(base, path);
    } else {
      assert path != "" && '\0' !in path;
    }
  }

  lemma {:induction false} NoNul(parts: seq<string>)
    requires forall part :: part in parts ==> ValidName(part)
    ensures '\0' !in Join(parts)
  {
    if parts != [] {
      assert parts[0] in parts && forall part :: part in parts[1..] ==> part in parts;
      NoNul(parts[1..]);
    }
  }
}
