/** The difference between two lists of installed packages. */
module PackageDiff {
  type Packages = map<string, seq<string>>

  datatype Change = Change(was: seq<string>, now: seq<string>)

  datatype Diff = Diff(installed: Packages, updated: map<string, Change>, removed: Packages)

  /** `compare_packages` */
  function Compare(before: Packages, after: Packages): Diff {
    Diff(map pkg | pkg in after && pkg !in before :: after[pkg],
         map pkg | pkg in after && pkg in before && before[pkg] != after[pkg] :: Change(before[pkg], after[pkg]),
         map pkg | pkg in before && pkg !in after :: before[pkg])
  }

  function Patch(packages: Packages, d: Diff): Packages {
    (packages - d.removed.Keys) + (map pkg | pkg in d.updated :: d.updated[pkg].now) + d.installed
  }

  /** The difference read backwards. */
  function Reverse(d: Diff): Diff {
    Diff(d.removed, map pkg | pkg in d.updated :: Change(d.updated[pkg].now, d.updated[pkg].was), d.installed)
  }

  lemma ReverseCompares(before: Packages, after: Packages)
    ensures Reverse(Compare(before, after)) == Compare(after, before)
  {
    assert Reverse(Compare(before, after)).updated == Compare(after, before).updated;
  }

  lemma PatchOne(before: Packages, after: Packages, pkg: string)
    ensures var patched := Patch(before, Compare(before, after));
            && (pkg in patched <==> pkg in after)
            && (pkg in after ==> patched[pkg] == after[pkg])
  {}

  lemma PatchGives(before: Packages, after: Packages)
    ensures Patch(before, Compare(before, after)) == after
  {
    var patched := Patch(before, Compare(before, after));
    forall pkg: string
      ensures pkg in patched <==> pkg in after
      ensures pkg in after ==> patched[pkg] == after[pkg]
    {
      PatchOne(before, after, pkg);
    }
  }

  /** Applying the difference to the old packages gives the new ones, and undoing it the old ones. */
  lemma CompareIsPatch(before: Packages, after: Packages)
    ensures Patch(before, Compare(before, after)) == after
    ensures Patch(after, Reverse(Compare(before, after))) == before
  {
    PatchGives(before, after);
    ReverseCompares(before, after);
    PatchGives(after, before);
  }

  function Unchanged(before: Packages, after: Packages): set<string> {
    set pkg | pkg in before && pkg in after && before[pkg] == after[pkg]
  }

  /** Every package is in exactly one of the four classes. */
  lemma ComparePartitions(before: Packages, after: Packages)
    ensures var d := Compare(before, after);
            && d.installed.Keys + d.updated.Keys + d.removed.Keys + Unchanged(before, after) == before.Keys + after.Keys
            && d.installed.Keys !! d.updated.Keys !! d.removed.Keys !! Unchanged(before, after)
  {}

  /** Nothing installed or updated says exactly that only removals may have happened. */
  lemma NothingNewIff(before: Packages, after: Packages)
    ensures Compare(before, after).installed == map[] && Compare(before, after).updated == map[]
            <==> forall pkg | pkg in after :: pkg in before && before[pkg] == after[pkg]
  {
    var d := Compare(before, after);
    if d.installed == map[] && d.updated == map[] {
      forall pkg | pkg in after ensures pkg in before && before[pkg] == after[pkg] {
        assert pkg !in d.installed && pkg !in d.updated;
      }
    } else {
      assert d.installed.Keys != {} || d.updated.Keys != {};
      var pkg :| pkg in d.installed.Keys + d.updated.Keys;
      assert pkg in after;
    }
  }
}
