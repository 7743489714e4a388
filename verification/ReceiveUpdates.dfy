/**
 Receiving dom0 updates: untrusted files are canonicalised into the rpm directory and checked one by
 one; the first problem removes the whole directory.
 */
module ReceiveUpdates {
  import opened ExitCodes

  const RPM_DIR: string := "/var/lib/qubes/updates/rpm"
  const GPG_OK_SUFFIX: string := ": digests signatures OK\n"

  /** A received file and what the tools say about it. */
  datatype File = File(
    name: string,
    regular: bool,          // lstat
    canonical: bool,        // rpmcanon succeeds
    checkCode: int,         // rpmkeys -K
    checkOutput: string
  )

  // ---------------------------------------------------------------- acceptance

  predicate Alnum(c: char) {
    'A' <= c <= 'Z' || 'a' <= c <= 'z' || '0' <= c <= '9'
  }

  predicate NameChar(c: char) {
    Alnum(c) || c in "._+^~-"
  }

  /** The package name pattern: one alphanumeric, at most 255 further name characters, and `.rpm`. */
  predicate IsPackageName(name: string) {
    && 5 <= |name| <= 260
    && Alnum(name[0])
    && (forall i | 1 <= i < |name| - 4 :: NameChar(name[i]))
    && name[|name| - 4..] == ".rpm"
  }

  /** The three assertions after the pattern never fire. */
  lemma PackageNamesAreSafe(name: string)
    requires IsPackageName(name)
    ensures '/' !in name && '\0' !in name && '\U{1b}' !in name
  {
    forall i | 0 <= i < |name| ensures name[i] !in {'/', '\0', '\U{1b}'} {
      if i >= |name| - 4 {
        assert name[i] == ".rpm"[i - (|name| - 4)];
      }
    }
  }

  function PathOf(name: string): string {
    RPM_DIR + "/" + name
  }

  /** The signature check succeeded and said so in exactly the expected words. */
  predicate Verified(f: File) {
    f.canonical && f.checkCode == 0 && f.checkOutput == PathOf(f.name) + GPG_OK_SUFFIX
  }

  predicate Accepted(f: File) {
    IsPackageName(f.name) && f.regular && Verified(f)
  }

  /** A character of a package name, whatever its position. */
  predicate Plain(c: char) {
    'A' <= c <= 'Z' || 'a' <= c <= 'z' || '0' <= c <= '9' || c in {'.', '_', '+', '^', '~', '-'}
  }

  /** A good name is a stem of 1 to 256 such characters, the first a letter or a digit, and `.rpm`. */
  lemma NameMeans(name: string)
    ensures IsPackageName(name)
            <==> exists stem :: && name == stem + ".rpm" && 1 <= |stem| <= 256
                                && stem[0] !in {'.', '_', '+', '^', '~', '-'} && forall i | 0 <= i < |stem| :: Plain(stem[i])
  {
    if IsPackageName(name) {
      var stem := name[..|name| - 4];
      assert name == stem + ".rpm";
      forall i | 0 <= i < |stem| ensures Plain(stem[i]) {
        assert stem[i] == name[i];
      }
    }
    if stem :| && name == stem + ".rpm" && 1 <= |stem| <= 256
               && stem[0] !in {'.', '_', '+', '^', '~', '-'} && forall i | 0 <= i < |stem| :: Plain(stem[i]) {
      forall i | 1 <= i < |name| - 4 ensures NameChar(name[i]) {
        assert name[i] == stem[i];
      }
    }
  }

  /** An accepted file has a good name, is regular, and the check of it said exactly this. */
  lemma AcceptedMeans(f: File)
    ensures Accepted(f)
            <==> && IsPackageName(f.name) && f.regular && f.canonical && f.checkCode == 0
                 && f.checkOutput == "/var/lib/qubes/updates/rpm/" + f.name + ": digests signatures OK\n"
  {
    assert RPM_DIR + "/" == "/var/lib/qubes/updates/rpm/";
  }

  predicate DistinctFiles(files: seq<File>) {
    forall i, j | 0 <= i < j < |files| :: files[i].name != files[j].name
  }

  ghost function NamesOf(files: seq<File>): set<string> {
    set f | f in files :: f.name
  }

  lemma NamesNext(files: seq<File>, i: nat)
    requires i < |files|
    ensures NamesOf(files[..i + 1]) == NamesOf(files[..i]) + {files[i].name}
  {
    assert files[..i + 1] == files[..i] + [files[i]];
  }

  lemma NamesAre(files: seq<File>)
    ensures NamesOf(files[..0]) == {} && NamesOf(files[..|files|]) == set f | f in files :: f.name
  {
    assert files[..|files|] == files;
  }

  lemma EarlierDiffers(files: seq<File>, i: nat)
    requires DistinctFiles(files) && i < |files|
    ensures forall k | 0 <= k < i :: files[k].name != files[i].name
  {}

  // ---------------------------------------------------------------- the directories

  class UpdatesDir {
    var rpm: Option<map<string, File>>     // the rpm directory by file name
    var repodata: Option<set<string>>      // the names the metadata was made from
    var errors: nat                        // lines in the error file

    constructor ()
      ensures rpm.None? && repodata.None? && errors == 0
    {
      rpm, repodata, errors := None, None, 0;
    }

    /** Only verified files are ever left in the directory, and metadata is about exactly these. */
    ghost predicate Safe()
      reads this
    {
      && (rpm.Some? ==> forall name | name in rpm.value :: Accepted(rpm.value[name]) && rpm.value[name].name == name)
      && (repodata.Some? ==> rpm.Some? && repodata.value == rpm.value.Keys)
    }

    /** One round of the loop; the canonicalised file is in place before it is checked. */
    method Verify(f: File) returns (ok: bool)
      requires rpm.Some?
      modifies this`rpm
      ensures ok <==> Accepted(f)
      ensures ok ==> && f.regular && f.canonical && f.checkCode == 0
                     && f.checkOutput == "/var/lib/qubes/updates/rpm/" + f.name + ": digests signatures OK\n"
      ensures rpm.Some?
      ensures ok ==> rpm.value == old(rpm.value)[f.name := f]
    {
      AcceptedMeans(f);
      if !IsPackageName(f.name) {
        return false;
      }
      PackageNamesAreSafe(f.name);
      if !f.regular {
        return false;
      }
      if !f.canonical {
        return false;
      }
      rpm := Some(rpm.value[f.name := f]);
      if f.checkCode != 0 {
        return false;
      }
      ok := f.checkOutput == PathOf(f.name) + GPG_OK_SUFFIX;
    }

    /** The loop over the received files: while it runs, everything processed so far is verified. */
    method VerifyAll(files: seq<File>) returns (ok: bool)
      requires rpm == Some(map[]) && DistinctFiles(files)
      modifies this`rpm
      ensures ok <==> forall f | f in files :: Accepted(f)
      ensures rpm.Some?
      ensures ok ==> rpm.value.Keys == (set f | f in files :: f.name)
                     && forall f | f in files :: rpm.value[f.name] == f
    {
      hide Accepted, IsPackageName, Verified, NamesOf, DistinctFiles;
      NamesAre(files);
      for i := 0 to |files|
        invariant rpm.Some? && rpm.value.Keys == NamesOf(files[..i])
        invariant forall k | 0 <= k < i :: Accepted(files[k]) && files[k].name in rpm.value && rpm.value[files[k].name] == files[k]
      {
        EarlierDiffers(files, i);
        NamesNext(files, i);
        ok := Verify(files[i]);
        if !ok {
          return;
        }
      }
      ok := true;
    }

    /**
     `handle_dom0updates`. `allowed` says that the files come from the update qube. Nothing is returned
     when the metadata tool itself fails.
     */
    method Handle(allowed: bool, received: bool, files: seq<File>, createrepo: bool) returns (exitCode: Option<int>)
      requires Safe() && DistinctFiles(files)
      modifies this
      ensures Safe()
      ensures !allowed ==> exitCode == Some(1) && rpm == old(rpm) && repodata == old(repodata)
      ensures allowed && received && (forall f | f in files :: Accepted(f)) ==>
                && rpm.Some? && rpm.value.Keys == (set f | f in files :: f.name)
                && (forall f | f in files :: rpm.value[f.name] == f)
                && repodata == (if createrepo then Some(rpm.value.Keys) else None)
                && exitCode == (if createrepo then Some(0) else None)
      ensures allowed && !(received && forall f | f in files :: Accepted(f)) ==>
                exitCode == Some(1) && rpm.None? && repodata.None? && errors == 1
    {
      if !allowed {
        return Some(1);
      }
      repodata := None;
      errors := 0;
      rpm := Some(map[]);
      var ok := received;
      if ok {
        ok := VerifyAll(files);
      }
      if !ok {
        errors := errors + 1;
        rpm := None;
        return Some(1);
      }
      assert forall name | name in rpm.value :: exists f :: f in files && f.name == name;
      if !createrepo {
        return None;
      }
      repodata := Some(rpm.value.Keys);
      exitCode := Some(0);
    }
  }
}
