/**
  What the second loop of a rollback does, through whatever links stand on the way: which
  directories it takes away, and where it fails.
 */
module CleanUp {
  import opened Wrappers
  import opened Strings
  import opened Manifests
  import opened Places
  import opened PathLookup
  import opened Entries
  import opened Rollback
  import opened LinkMeaning

  /** A path of proper names, as a project at a proper place has it. */
  ghost predicate IsPathOf(t: Tree, directory: seq<string>, name: string) {
    && Slashless(t.around.root + directory + [name])
    && IsName(name) && forall part :: part in directory ==> IsName(part)
  }

  /** The names lead to an empty directory. */
  ghost predicate LeadsToEmpty(t: Tree, names: seq<string>, place: Place) {
    Leads(t.around.root, KernelSight(t), t.around.root, names, place) && IsBare(t, place)
  }

  /** A directory itself is at the last name, not a link. */
  ghost predicate IsDirectoryAt(t: Tree, directory: seq<string>, name: string) {
    exists at :: Leads(t.around.root, KernelSight(t), t.around.root, directory, at)
      && NodeOf(t, SpotAt(t.around.root, at + [name])) == Directory
  }

  lemma DirectoryAtMeans(t: Tree, directory: seq<string>, name: string, place: Place)
    requires IsPathOf(t, directory, name)
    ensures DirectoryAt(t, Join(directory + [name])) == Some(place) <==>
      Leads(t.around.root, KernelSight(t), t.around.root, directory + [name], place)
  {
    var names := directory + [name];
    assert t.around.root + directory + [name] == t.around.root + names;
    assert Slashless(names) by {
      forall part | part in names ensures part in t.around.root + names {
      }
    }
    SplitJoin(names);
    DescendMeans(t, names, place);
  }

  /**
    One turn: an empty directory is taken away if it is one itself, the turn fails if a link
    stands for it, and nothing happens where there is no directory or it is not empty.
   */
  lemma CleanOneExactly(t: Tree, directory: seq<string>, name: string)
    requires IsPathOf(t, directory, name)
    ensures var names := directory + [name]; var r := CleanOne(t, Join(names));
      && (r.Failed? <==> (exists place :: LeadsToEmpty(t, names, place)) && !IsDirectoryAt(t, directory, name))
      && (forall place :: LeadsToEmpty(t, names, place) && IsDirectoryAt(t, directory, name) ==>
          r == Done(WithoutDirectory(t, place)))
      && ((forall place :: !LeadsToEmpty(t, names, place)) ==> r == Done(t))
      && (r.Failed? ==> r.tree == t)
  {
    var names := directory + [name];
    ObservedMeans(t, directory, name, Directory);
    forall place
      ensures DirectoryAt(t, Join(names)) == Some(place) <==>
        Leads(t.around.root, KernelSight(t), t.around.root, names, place)
    {
      DirectoryAtMeans(t, directory, name, place);
    }
    var found := DirectoryAt(t, Join(names));
    if found.Some? && IsBare(t, found.value) {
      assert LeadsToEmpty(t, names, found.value);
    }
  }

  /** No file or link is touched, inside the project or out, and directories are only taken away. */
  ghost predicate OnlyFewerDirectories(t: Tree, after: Tree) {
    && after.files == t.files && after.dirs <= t.dirs
    && after.around.root == t.around.root && after.around.files == t.around.files && after.around.dirs <= t.around.dirs
  }

  lemma {:induction false} CleaningKeepsFiles(t: Tree, order: seq<Path>, existing: set<Path>)
    ensures OnlyFewerDirectories(t, CleanAll(t, order, existing).tree)
    decreases |order|
  {
    if order != [] {
      if order[0] in existing {
        CleaningKeepsFiles(t, order[1..], existing);
      } else {
        CleaningKeepsFiles(CleanOne(t, order[0]).tree, order[1..], existing);
      }
    }
  }
}
