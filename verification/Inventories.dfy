/**
 * Taking the inventories that results are derived from: captureWorkspaceInventory of
 * src/adapters/codex-executor.js.
 */
module Inventories {
  import opened Basics
  import CodeUnitOrder
  import opened Paths
  import opened ProjectTree
  import opened Snapshots
  import opened CodexDiff

  /** What a path names below a node that is itself found at `above`. */
  function Below(node: Node, above: seq<string>, path: string): Option<Node> {
    var parts := Split(path);
    if above < parts then NodeAt(node, parts[|above|..]) else None
  }

  /** Nothing but files and directories, excluded names included. */
  ghost predicate NoOthers(node: Node) {
    forall parts :: NodeAt(node, parts).Some? ==> !NodeAt(node, parts).value.Other?
  }

  /** The inventory lists what was found at the path, and otherwise what it had listed before. */
  predicate GainedAt(before: Inventory, after: Inventory, path: string, found: Option<Node>) {
    && Lookup(after.files, path)
       == (if found.Some? && found.value.RegularFile? then Some(found.value.bytes) else Lookup(before.files, path))
    && (path in after.directories <==> path in before.directories || (found.Some? && found.value.Directory?))
  }

  /** The inventory has gained exactly the files and directories below the node. */
  ghost predicate Gained(before: Inventory, after: Inventory, node: Node, above: seq<string>) {
    forall path :: GainedAt(before, after, path, Below(node, above, path))
  }

  /** `directory` is the path of these valid names. */
  ghost predicate Names(directory: string, above: seq<string>) {
    directory == Join(above) && forall part :: part in above ==> ValidName(part)
  }

  class InventoryWalk {
    var files: map<string, Bytes>
    var directories: set<string>

    constructor ()
      ensures files == map[] && directories == {}
    {
      files, directories := map[], {};
    }

    /** walk: collects whatever lies below a directory, and fails exactly when it meets a link or a device. */
    method Walk(node: Node, directory: string, ghost above: seq<string>) returns (r: Result<()>)
      requires node.Directory? && WellNamed(node) && Names(directory, above)
      modifies this
      ensures r.Ok? <==> NoOthers(node)
      ensures r.Ok? ==> Gained(old(Inventory(files, directories)), Inventory(files, directories), node, above)
      decreases node
    {
      hide *;
      ghost var before := Inventory(files, directories);
      var names := ReadDirectory(node.children);
      assert names[..0] == [];
      NothingGained(node, above, before);
      for i := 0 to |names|
        invariant NoOthers(Only(node, names[..i]))
        invariant Gained(before, Inventory(files, directories), Only(node, names[..i]), above)
      {
        var name := names[i];
        var path := if directory == "" then name else directory + "/" + name;
        var child := node.children[name];
        NextDirectory(node, directory, above, name);
        NewName(names, i);
        ghost var so := Inventory(files, directories);
        if child.Other? {
          OtherHere(child);
          OthersInside(node, name);
          return Err(SafetyRefusal);
        }
        if child.Directory? {
          directories := directories + {path};
          ghost var entered := Inventory(files, directories);
          var walked := Walk(child, path, above + [name]);
          if walked.Err? {
            OthersInside(node, name);
            return walked;
          }
          NoOthersOneMore(node, names, i);
          DirectoryGained(node, above, names, i, before, so, entered, Inventory(files, directories));
        } else {
          files := files[path := child.bytes];
          FileHasNoOthers(child);
          NoOthersOneMore(node, names, i);
          FileGained(node, above, names, i, before, so, Inventory(files, directories));
        }
      }
      AllNames(node, names);
      return Ok(());
    }
  }

  /** captureWorkspaceInventory: every file and every directory, by path. */
  method CaptureWorkspaceInventory(root: Node, ghost tree: Tree) returns (r: Result<Inventory>)
    requires root.Directory? && WellNamed(root) && TreeOf(root, tree)
    ensures r.Ok? <==> NoOthers(root)
    ensures r.Ok? ==> InventoryOf(r.value, tree)
    ensures r.Ok? ==> forall path :: path in r.value.directories <==> NamesDirectory(root, path)
  {
    hide *;
    var walk := new InventoryWalk();
    NoNames();
    ghost var before := Inventory(walk.files, walk.directories);
    var walked := walk.Walk(root, "", []);
    if walked.Err? { return Err(walked.error); }
    var inventory := Inventory(walk.files, walk.directories);
    Captured(root, tree, before, inventory);
    return Ok(inventory);
  }

  predicate NamesDirectory(root: Node, path: string) {
    var found := NodeAt(root, Split(path));
    found.Some? && found.value.Directory?
  }

  // ---------- one name at a time ----------

  lemma NothingGained(node: Node, above: seq<string>, before: Inventory)
    requires node.Directory?
    ensures NoOthers(Only(node, [])) && Gained(before, before, Only(node, []), above)
  {
    hide Split;
  }

  lemma NextDirectory(node: Node, directory: string, above: seq<string>, name: string)
    requires node.Directory? && WellNamed(node) && name in node.children && Names(directory, above)
    ensures var path := if directory == "" then name else directory + "/" + name;
            Names(path, above + [name]) && Split(path) == above + [name]
    ensures WellNamed(node.children[name])
  {
    JoinOneMore(above, name);
    assert ValidName(name);
    var parts := above + [name];
    assert forall part :: part in parts ==> part in above || part == name;
    SplitJoin(parts);
  }

  lemma OtherHere(node: Node)
    requires node.Other?
    ensures !NoOthers(node)
  {
    assert NodeAt(node, []) == Some(node);
  }

  lemma OthersInside(node: Node, name: string)
    requires node.Directory? && name in node.children && !NoOthers(node.children[name])
    ensures !NoOthers(node)
  {
    var rest :| NodeAt(node.children[name], rest).Some? && NodeAt(node.children[name], rest).value.Other?;
    var parts := [name] + rest;
    assert parts[1..] == rest;
    assert NodeAt(node, parts) == NodeAt(node.children[name], rest);
  }

  lemma FileHasNoOthers(file: Node)
    requires file.RegularFile?
    ensures NoOthers(file)
  {
  }

  lemma NoOthersOneMore(node: Node, names: seq<string>, i: nat)
    requires node.Directory? && i < |names| && names[i] in node.children
    requires NoOthers(Only(node, names[..i])) && NoOthers(node.children[names[i]])
    ensures NoOthers(Only(node, names[..i + 1]))
  {
    hide Only;
    var more := Only(node, names[..i + 1]);
    forall parts | NodeAt(more, parts).Some?
      ensures !NodeAt(more, parts).value.Other?
    {
      OneMoreName(node, names, i, parts);
    }
  }

  /** A path below one more name leads to that name's node, below it, or to what was there before. */
  lemma BelowOneMore(node: Node, above: seq<string>, names: seq<string>, i: nat, path: string)
    requires node.Directory? && i < |names| && names[i] in node.children && names[i] !in names[..i]
    ensures var child, further := node.children[names[i]], above + [names[i]];
            var now, was := Below(Only(node, names[..i + 1]), above, path), Below(Only(node, names[..i]), above, path);
            && (Split(path) == further ==> now == Some(child) && was.None? && Below(child, further, path).None?)
            && (further < Split(path) ==> now == Below(child, further, path) && was.None?)
            && (!(further <= Split(path)) ==> now == was && Below(child, further, path).None?)
  {
    hide Split, Only;
    var parts := Split(path);
    if above < parts {
      var rest := parts[|above|..];
      OneMoreName(node, names, i, rest);
      if rest[0] == names[i] {
        assert above + [names[i]] <= parts;
        assert rest[1..] == parts[|above| + 1..];
      }
    }
  }

  lemma DirectoryGained(node: Node, above: seq<string>, names: seq<string>, i: nat,
                        before: Inventory, so: Inventory, entered: Inventory, after: Inventory)
    requires node.Directory? && i < |names| && names[i] in node.children && names[i] !in names[..i]
    requires node.children[names[i]].Directory? && Split(Join(above + [names[i]])) == above + [names[i]]
    requires Gained(before, so, Only(node, names[..i]), above)
    requires entered == so.(directories := so.directories + {Join(above + [names[i]])})
    requires Gained(entered, after, node.children[names[i]], above + [names[i]])
    ensures Gained(before, after, Only(node, names[..i + 1]), above)
  {
    hide Split, Join, Only, Below;
    var more := Only(node, names[..i + 1]);
    forall path
      ensures GainedAt(before, after, path, Below(more, above, path))
    {
      assert GainedAt(before, so, path, Below(Only(node, names[..i]), above, path));
      assert GainedAt(entered, after, path, Below(node.children[names[i]], above + [names[i]], path));
      BelowOneMore(node, above, names, i, path);
      JoinSplit(path);
      assert above + [names[i]] <= Split(path) ==>
               Split(path) == above + [names[i]] || above + [names[i]] < Split(path);
    }
  }

  lemma FileGained(node: Node, above: seq<string>, names: seq<string>, i: nat, before: Inventory, so: Inventory,
                   after: Inventory)
    requires node.Directory? && i < |names| && names[i] in node.children && names[i] !in names[..i]
    requires node.children[names[i]].RegularFile? && Split(Join(above + [names[i]])) == above + [names[i]]
    requires Gained(before, so, Only(node, names[..i]), above)
    requires after == so.(files := so.files[Join(above + [names[i]]) := node.children[names[i]].bytes])
    ensures Gained(before, after, Only(node, names[..i + 1]), above)
  {
    hide Split, Join, Only;
    var more := Only(node, names[..i + 1]);
    forall path
      ensures GainedAt(before, after, path, Below(more, above, path))
    {
      assert GainedAt(before, so, path, Below(Only(node, names[..i]), above, path));
      BelowOneMore(node, above, names, i, path);
      JoinSplit(path);
      assert above + [names[i]] <= Split(path) ==>
               Split(path) == above + [names[i]] || above + [names[i]] < Split(path);
      assert forall parts :: NodeAt(node.children[names[i]], parts).Some? ==> parts == [];
    }
  }

  lemma NoNames()
    ensures Names("", [])
  {
  }

  lemma Captured(root: Node, tree: Tree, before: Inventory, after: Inventory)
    requires root.Directory? && TreeOf(root, tree) && Gained(before, after, root, [])
    requires before == Inventory(map[], {})
    ensures InventoryOf(after, tree)
    ensures forall path :: path in after.directories <==> NamesDirectory(root, path)
  {
    hide Split;
    forall path
      ensures Below(root, [], path) == NodeAt(root, Split(path))
      ensures path in after.files <==> path in tree
      ensures path in tree ==> after.files[path] == tree[path].bytes
    {
      assert Split(path)[0..] == Split(path);
      assert GainedAt(before, after, path, Below(root, [], path));
      assert FileAt(root, Split(path)) <==> path in tree;
    }
    forall path
      ensures path in after.directories <==> NamesDirectory(root, path)
    {
      assert Below(root, [], path) == NodeAt(root, Split(path));
      assert GainedAt(before, after, path, Below(root, [], path));
    }
  }
}
