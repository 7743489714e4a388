/**
 Editing `xen.cfg` when a kernel is installed or removed: a file of lines, whose sections begin with a
 line starting with `[`.
 */
module XenCfg {
  import opened ExitCodes

  // ---------------------------------------------------------------- lines

  predicate IsHeader(line: string) {
    line != "" && line[0] == '['
  }

  function Header(name: string): string {
    "[" + name + "]"
  }

  predicate IsDefault(line: string) {
    "default=" <= line
  }

  predicate Contains(line: string, needle: string) {
    needle <= line || (line != "" && Contains(line[1..], needle))
  }

  function UpTo(s: string, c: char): string {
    if s == "" || s[0] == c then "" else [s[0]] + UpTo(s[1..], c)
  }

  /** The second field of a `default=` line. */
  function DefaultValue(line: string): string
    requires IsDefault(line)
  {
    UpTo(line[8..], '=')
  }

  function FromBlank(s: string): string {
    if s == "" || s[0] == ' ' then s else FromBlank(s[1..])
  }

  /** A line of the default section as it appears in the section of the new kernel. */
  function Rewrite(line: string, kver: string): string {
    if "kernel=" <= line then "kernel=vmlinuz-" + kver + FromBlank(line[7..])
    else if "ramdisk=" <= line then "ramdisk=initramfs-" + kver + ".img" + FromBlank(line[8..])
    else line
  }

  function RewriteAll(lines: seq<string>, kver: string): seq<string> {
    if lines == [] then [] else RewriteAll(lines[..|lines| - 1], kver) + [Rewrite(lines[|lines| - 1], kver)]
  }

  /** The `default=` line after the substitution. */
  function Redirect(line: string, kver: string): string {
    if IsDefault(line) then "default=" + kver else line
  }

  function RedirectAll(lines: seq<string>, kver: string): seq<string> {
    if lines == [] then [] else RedirectAll(lines[..|lines| - 1], kver) + [Redirect(lines[|lines| - 1], kver)]
  }

  /** A kernel version without the characters that are special to the file format or to the tools. */
  predicate ValidKver(kver: string) {
    && kver != "" && kver != "global"
    && forall c | c in kver :: c !in {'[', ']', '=', '&', '/', '\\', '\n'}
  }

  // ---------------------------------------------------------------- the file

  /** Lines, and whether the last one ends with a newline. */
  datatype File = File(lines: seq<string>, terminated: bool)

  predicate ValidFile(f: File) {
    !f.terminated ==> f.lines != [] && f.lines[|f.lines| - 1] != ""
  }

  /** `>>`: an unterminated last line swallows the first line appended. */
  function Append(f: File, more: seq<string>): File
    requires ValidFile(f)
  {
    if more == [] then f
    else if f.terminated then File(f.lines + more, true)
    else File(f.lines[..|f.lines| - 1] + [f.lines[|f.lines| - 1] + more[0]] + more[1..], true)
  }

  predicate Mentions(f: File, kver: string) {
    exists i :: 0 <= i < |f.lines| && Contains(f.lines[i], Header(kver))
  }

  // ---------------------------------------------------------------- the default section

  /** Search for the header of the section that `default=` names; `found` is its line number. */
  datatype Find = Find(inGlobal: bool, name: string, found: Option<nat>)

  function FindStep(s: Find, n: nat, line: string): Find {
    if s.found.Some? then s
    else
      var inGlobal := Contains(line, "[global]") || (s.inGlobal && !IsHeader(line));
      if line == Header(s.name) then Find(inGlobal, s.name, Some(n))
      else Find(inGlobal, if inGlobal && IsDefault(line) then DefaultValue(line) else s.name, None)
  }

  function FindAll(lines: seq<string>): Find {
    if lines == [] then Find(false, "", None)
    else FindStep(FindAll(lines[..|lines| - 1]), |lines| - 1, lines[|lines| - 1])
  }

  /** The name `default=` resolves to, if there is a section of that name after it. */
  function Default(f: File): Option<string> {
    var s := FindAll(f.lines);
    if s.found.Some? then Some(s.name) else None
  }

  /** The next header at or after line `j`, or the end of the file. */
  function SectionEnd(lines: seq<string>, j: nat): (end: nat)
    requires j <= |lines|
    ensures j <= end <= |lines| && (end < |lines| ==> IsHeader(lines[end]))
    ensures forall k | j <= k < end :: !IsHeader(lines[k])
    decreases |lines| - j
  {
    if j == |lines| || IsHeader(lines[j]) then j else SectionEnd(lines, j + 1)
  }

  lemma {:induction false} FoundIsHeader(lines: seq<string>)
    ensures var s := FindAll(lines);
            s.found.Some? ==> s.found.value < |lines| && lines[s.found.value] == Header(s.name)
  {
    if lines != [] {
      FoundIsHeader(lines[..|lines| - 1]);
    }
  }

  /** The section copied for a new kernel: its header, and the default section's body with new values. */
  function NewSection(lines: seq<string>, kver: string): seq<string> {
    var s := FindAll(lines);
    FoundIsHeader(lines);
    if s.found.None? then []
    else
      var first := s.found.value + 1;
      [Header(kver)] + RewriteAll(lines[first..SectionEnd(lines, first)], kver)
  }

  // ---------------------------------------------------------------- specification of the two commands

  function Added(f: File, kver: string): File
    requires ValidFile(f)
  {
    if Mentions(f, kver) then f
    else
      var longer := Append(f, NewSection(f.lines, kver));
      File(RedirectAll(longer.lines, kver), longer.terminated)
  }

  /** The position after these lines is inside a section of this name. */
  function Inside(lines: seq<string>, name: string): bool {
    if lines == [] then false
    else if IsHeader(lines[|lines| - 1]) then lines[|lines| - 1] == Header(name)
    else Inside(lines[..|lines| - 1], name)
  }

  function Without(lines: seq<string>, name: string): seq<string> {
    if lines == [] then []
    else if Inside(lines, name) then Without(lines[..|lines| - 1], name)
    else Without(lines[..|lines| - 1], name) + [lines[|lines| - 1]]
  }

  /** The bodies of all sections of this name. */
  function Body(lines: seq<string>, name: string): seq<string> {
    if lines == [] then []
    else if Inside(lines, name) && !IsHeader(lines[|lines| - 1])
    then Body(lines[..|lines| - 1], name) + [lines[|lines| - 1]]
    else Body(lines[..|lines| - 1], name)
  }

  function Removed(f: File, kver: string): File {
    File(Without(f.lines, kver), true)
  }

  // ---------------------------------------------------------------- implementation

  /** The state of the first awk program after the lines before `n`. */
  ghost predicate Copying(lines: seq<string>, kver: string, n: nat, inDefault: bool, inGlobal: bool, name: string,
                          at: nat, out: seq<string>)
    requires n <= |lines|
  {
    if inDefault
    then at < n && FindAll(lines[..n]).found == Some(at) && (forall k | at < k < n :: !IsHeader(lines[k]))
         && out == [Header(kver)] + RewriteAll(lines[at + 1..n], kver)
    else out == [] && FindAll(lines[..n]) == Find(inGlobal, name, None)
  }

  lemma FindNext(lines: seq<string>, n: nat)
    requires n < |lines|
    ensures FindAll(lines[..n + 1]) == FindStep(FindAll(lines[..n]), n, lines[n])
  {
    assert lines[..n + 1][..n] == lines[..n];
  }

  lemma RewriteNext(lines: seq<string>, at: nat, n: nat, kver: string)
    requires at <= n < |lines|
    ensures RewriteAll(lines[at..n + 1], kver) == RewriteAll(lines[at..n], kver) + [Rewrite(lines[n], kver)]
  {
    assert lines[at..n + 1][..n - at] == lines[at..n];
  }

  /** At the next header, or at the end of the file, the copy is complete. */
  lemma CopyEnds(lines: seq<string>, kver: string, n: nat, inGlobal: bool, name: string, at: nat, out: seq<string>)
    requires n <= |lines| && Copying(lines, kver, n, true, inGlobal, name, at, out)
    requires n == |lines| || IsHeader(lines[n])
    ensures out == NewSection(lines, kver)
  {
    FoundStays(lines, n);
    EndIs(lines, at + 1, n);
  }

  /** The first awk program: one pass that looks for the default section and copies it. */
  method CopyDefault(lines: seq<string>, kver: string) returns (out: seq<string>)
    ensures out == NewSection(lines, kver)
  {
    out := [];
    var inDefault, inGlobal, name := false, false, "";
    ghost var at := 0;
    for n := 0 to |lines|
      invariant Copying(lines, kver, n, inDefault, inGlobal, name, at, out)
    {
      var line := lines[n];
      FindNext(lines, n);
      if IsHeader(line) {
        if inDefault {
          CopyEnds(lines, kver, n, inGlobal, name, at, out);
          return;
        }
        inGlobal := false;
      }
      if Contains(line, "[global]") {
        inGlobal := true;
      }
      if IsHeader(line) && Header(name) == line {
        inDefault := true;
        out := [Header(kver)];
        at := n;
        assert lines[at + 1..n + 1] == [];
        continue;
      }
      if IsDefault(line) && inGlobal {
        name := DefaultValue(line);
      }
      if inDefault {
        RewriteNext(lines, at + 1, n, kver);
        out := out + [Rewrite(line, kver)];
      }
    }
    if inDefault {
      CopyEnds(lines, kver, |lines|, inGlobal, name, at, out);
    } else {
      assert lines[..|lines|] == lines;
    }
  }

  class XenConfig {
    var lines: seq<string>
    var terminated: bool

    function View(): File
      reads this
    {
      File(lines, terminated)
    }

    constructor (f: File)
      ensures View() == f
    {
      lines, terminated := f.lines, f.terminated;
    }

    /** `kernel-install add` */
    method Add(kver: string)
      requires ValidFile(View())
      modifies this
      ensures View() == Added(old(View()), kver)
    {
      hide Mentions, Append, NewSection;
      if Mentions(View(), kver) {
        return;
      }
      var section := CopyDefault(lines, kver);
      var longer := Append(View(), section);
      lines, terminated := longer.lines, longer.terminated;
      var redirected := [];
      for n := 0 to |lines|
        invariant redirected == RedirectAll(lines[..n], kver)
        invariant lines == longer.lines && terminated == longer.terminated
      {
        assert lines[..n + 1][..n] == lines[..n];
        redirected := redirected + [Redirect(lines[n], kver)];
      }
      assert lines[..|lines|] == lines;
      lines := redirected;
    }

    /** `kernel-install remove`: the second awk program. */
    method Remove(kver: string)
      modifies this
      ensures View() == Removed(old(View()), kver)
    {
      var kept := [];
      var inCurrent := false;
      for n := 0 to |lines|
        invariant lines == old(lines)
        invariant kept == Without(lines[..n], kver) && inCurrent == Inside(lines[..n], kver)
      {
        assert lines[..n + 1][..n] == lines[..n];
        if IsHeader(lines[n]) {
          inCurrent := lines[n] == Header(kver);
        }
        if !inCurrent {
          kept := kept + [lines[n]];
        }
      }
      assert lines[..|lines|] == lines;
      lines, terminated := kept, true;
    }
  }

  /** Once found, the default section is not searched for again. */
  lemma {:induction false} FoundStays(lines: seq<string>, n: nat)
    requires n <= |lines| && FindAll(lines[..n]).found.Some?
    ensures FindAll(lines) == FindAll(lines[..n])
  {
    if n == |lines| {
      assert lines[..n] == lines;
    } else {
      assert lines[..|lines| - 1][..n] == lines[..n];
      FoundStays(lines[..|lines| - 1], n);
    }
  }

  lemma {:induction false} EndIs(lines: seq<string>, j: nat, end: nat)
    requires j <= end <= |lines| && (end < |lines| ==> IsHeader(lines[end]))
    requires forall k | j <= k < end :: !IsHeader(lines[k])
    ensures SectionEnd(lines, j) == end
    decreases end - j
  {
    if j < end {
      EndIs(lines, j + 1, end);
    }
  }
}
