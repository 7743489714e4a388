/** What installing and removing kernels does to `xen.cfg`, once and over whole histories. */
module XenCfgHistory {
  import opened ExitCodes
  import opened XenCfg

  // ---------------------------------------------------------------- lines and sections

  lemma HeaderInjective(a: string, b: string)
    requires Header(a) == Header(b)
    ensures a == b
  {
    assert Header(a)[1..|a| + 1] == a;
    assert Header(b)[1..|b| + 1] == b;
  }

  ghost predicate NoHeaders(lines: seq<string>) {
    forall i | 0 <= i < |lines| :: !IsHeader(lines[i])
  }

  lemma RedirectKeepsHeaders(line: string, kver: string)
    ensures IsHeader(Redirect(line, kver)) <==> IsHeader(line)
    ensures IsHeader(line) ==> Redirect(line, kver) == line
    ensures Redirect(Redirect(line, kver), kver) == Redirect(line, kver)
  {}

  lemma {:induction false} RedirectAllAt(lines: seq<string>, kver: string)
    ensures |RedirectAll(lines, kver)| == |lines|
    ensures forall i | 0 <= i < |lines| :: RedirectAll(lines, kver)[i] == Redirect(lines[i], kver)
  {
    if lines != [] {
      RedirectAllAt(lines[..|lines| - 1], kver);
    }
  }

  lemma {:induction false} RedirectAppend(a: seq<string>, b: seq<string>, kver: string)
    ensures RedirectAll(a + b, kver) == RedirectAll(a, kver) + RedirectAll(b, kver)
  {
    RedirectAllAt(a, kver);
    RedirectAllAt(b, kver);
    RedirectAllAt(a + b, kver);
  }

  lemma {:induction false} RedirectTwice(lines: seq<string>, one: string, two: string)
    ensures RedirectAll(RedirectAll(lines, one), two) == RedirectAll(lines, two)
  {
    RedirectAllAt(lines, one);
    RedirectAllAt(lines, two);
    RedirectAllAt(RedirectAll(lines, one), two);
  }

  /** Redirecting `default=` lines commutes with selecting or dropping sections. */
  lemma {:induction false} RedirectCommutes(lines: seq<string>, kver: string, name: string)
    ensures Inside(RedirectAll(lines, kver), name) == Inside(lines, name)
    ensures Without(RedirectAll(lines, kver), name) == RedirectAll(Without(lines, name), kver)
    ensures Body(RedirectAll(lines, kver), name) == RedirectAll(Body(lines, name), kver)
  {
    if lines != [] {
      var before, last := lines[..|lines| - 1], lines[|lines| - 1];
      RedirectCommutes(before, kver, name);
      RedirectKeepsHeaders(last, kver);
      var all := RedirectAll(lines, kver);
      assert all[..|all| - 1] == RedirectAll(before, kver) && all[|all| - 1] == Redirect(last, kver);
      RedirectAppend(Without(before, name), [last], kver);
      RedirectAppend(Body(before, name), [last], kver);
      assert RedirectAll([last], kver) == [Redirect(last, kver)] by { assert [last][..0] == []; }
    }
  }

  /** Without a header of that name there is nothing to select or drop. */
  lemma {:induction false} AbsentSection(lines: seq<string>, name: string)
    requires forall i | 0 <= i < |lines| :: lines[i] != Header(name)
    ensures !Inside(lines, name) && Without(lines, name) == lines && Body(lines, name) == []
  {
    if lines != [] {
      AbsentSection(lines[..|lines| - 1], name);
    }
  }

  /** One more line. */
  lemma NextLine(lines: seq<string>, line: string, name: string)
    ensures var longer := lines + [line];
            && Inside(longer, name) == (if IsHeader(line) then line == Header(name) else Inside(lines, name))
            && Without(longer, name) == (if Inside(longer, name) then Without(lines, name) else Without(lines, name) + [line])
            && Body(longer, name) == (if Inside(longer, name) && !IsHeader(line) then Body(lines, name) + [line] else Body(lines, name))
  {
    assert (lines + [line])[..|lines|] == lines;
  }

  lemma Regroup(a: seq<string>, b: seq<string>, c: seq<string>)
    ensures a + (b + c) == a + b + c
  {}

  /** Lines that are not headers stay in the section they follow. */
  lemma {:induction false} AppendedBody(lines: seq<string>, body: seq<string>, name: string)
    requires NoHeaders(body)
    ensures Inside(lines + body, name) == Inside(lines, name)
    ensures Without(lines + body, name) == if Inside(lines, name) then Without(lines, name) else Without(lines, name) + body
    ensures Body(lines + body, name) == if Inside(lines, name) then Body(lines, name) + body else Body(lines, name)
  {
    hide Inside, Without, Body;
    if body == [] {
      assert lines + body == lines;
    } else {
      var shorter, last := body[..|body| - 1], body[|body| - 1];
      AppendedBody(lines, shorter, name);
      NextLine(lines + shorter, last, name);
      assert body == shorter + [last];
      Regroup(lines, shorter, [last]);
      Regroup(Without(lines, name), shorter, [last]);
      Regroup(Body(lines, name), shorter, [last]);
    }
  }

  /** A section appended at the end of a file, seen by its own name. */
  lemma AppendedOwn(lines: seq<string>, name: string, body: seq<string>)
    requires NoHeaders(body)
    ensures Without(lines + ([Header(name)] + body), name) == Without(lines, name)
    ensures Body(lines + ([Header(name)] + body), name) == Body(lines, name) + body
  {
    NextLine(lines, Header(name), name);
    AppendedBody(lines + [Header(name)], body, name);
    Regroup(lines, [Header(name)], body);
  }

  /** A section appended at the end of a file, seen by another name. */
  lemma AppendedOther(lines: seq<string>, name: string, body: seq<string>, other: string)
    requires NoHeaders(body) && other != name
    ensures Without(lines + ([Header(name)] + body), other) == Without(lines, other) + ([Header(name)] + body)
    ensures Body(lines + ([Header(name)] + body), other) == Body(lines, other)
  {
    if Header(other) == Header(name) {
      HeaderInjective(other, name);
    }
    NextLine(lines, Header(name), other);
    AppendedBody(lines + [Header(name)], body, other);
    Regroup(lines, [Header(name)], body);
    Regroup(Without(lines, other), [Header(name)], body);
  }

  lemma RewriteKeepsHeaders(line: string, kver: string)
    requires !IsHeader(line)
    ensures !IsHeader(Rewrite(line, kver))
  {}

  lemma {:induction false} RewriteKeepsBodies(lines: seq<string>, kver: string)
    requires NoHeaders(lines)
    ensures NoHeaders(RewriteAll(lines, kver)) && |RewriteAll(lines, kver)| == |lines|
  {
    if lines != [] {
      RewriteKeepsBodies(lines[..|lines| - 1], kver);
      RewriteKeepsHeaders(lines[|lines| - 1], kver);
    }
  }

  // ---------------------------------------------------------------- what the search finds

  /** Line `i` lies under `[global]`: a line up to it mentions that, and no header comes in between. */
  ghost predicate UnderGlobal(lines: seq<string>, i: nat)
    requires i < |lines|
  {
    exists h :: 0 <= h <= i && Contains(lines[h], "[global]") && forall k | h < k <= i :: !IsHeader(lines[k])
  }

  ghost predicate IsRead(lines: seq<string>, i: nat)
    requires i < |lines|
  {
    IsDefault(lines[i]) && UnderGlobal(lines, i)
  }

  /** The value of the last `default=` line read before line `n`. */
  ghost function NameAt(lines: seq<string>, n: nat): string
    requires n <= |lines|
  {
    if n == 0 then "" else if IsRead(lines, n - 1) then DefaultValue(lines[n - 1]) else NameAt(lines, n - 1)
  }

  /** Line `n` is the header of the section named by the last `default=` line read before it. */
  ghost predicate IsNamed(lines: seq<string>, n: nat)
    requires n < |lines|
  {
    lines[n] == Header(NameAt(lines, n))
  }

  lemma UnderGlobalNext(lines: seq<string>, n: nat)
    requires n < |lines|
    ensures UnderGlobal(lines, n) <==> Contains(lines[n], "[global]") || (n > 0 && UnderGlobal(lines, n - 1) && !IsHeader(lines[n]))
  {
    hide Contains, IsHeader;
    if n > 0 && UnderGlobal(lines, n - 1) && !IsHeader(lines[n]) {
      var h :| 0 <= h <= n - 1 && Contains(lines[h], "[global]") && forall k | h < k <= n - 1 :: !IsHeader(lines[k]);
      assert forall k | h < k <= n :: !IsHeader(lines[k]);
    }
  }

  lemma {:induction false} SearchIs(lines: seq<string>, n: nat)
    requires n <= |lines|
    ensures var s := FindAll(lines[..n]);
            if s.found.Some? then && s.found.value < n && IsNamed(lines, s.found.value)
                                  && s.name == NameAt(lines, s.found.value)
                                  && forall m | 0 <= m < s.found.value :: !IsNamed(lines, m)
            else && s.name == NameAt(lines, n)
                 && (n > 0 ==> s.inGlobal == UnderGlobal(lines, n - 1)) && (n == 0 ==> !s.inGlobal)
                 && forall m | 0 <= m < n :: !IsNamed(lines, m)
  {
    hide Contains, UnderGlobal, DefaultValue, Header, IsHeader, IsDefault;
    if n > 0 {
      SearchIs(lines, n - 1);
      FindNext(lines, n - 1);
      UnderGlobalNext(lines, n - 1);
    }
  }

  /** The section that is copied begins at the first line that is the header of the default read before it. */
  lemma FoundIsFirst(lines: seq<string>, n: nat)
    ensures FindAll(lines).found == Some(n)
            <==> n < |lines| && IsNamed(lines, n) && forall m | 0 <= m < n :: !IsNamed(lines, m)
    ensures FindAll(lines).found == Some(n) ==> FindAll(lines).name == NameAt(lines, n)
    ensures FindAll(lines).found == None <==> forall m | 0 <= m < |lines| :: !IsNamed(lines, m)
  {
    assert lines[..|lines|] == lines;
    SearchIs(lines, |lines|);
  }

  // ---------------------------------------------------------------- what is added

  /** The body of the section that `default=` resolves to. */
  function DefaultBody(lines: seq<string>): seq<string>
    requires FindAll(lines).found.Some?
  {
    FoundIsHeader(lines);
    var first := FindAll(lines).found.value + 1;
    lines[first..SectionEnd(lines, first)]
  }

  lemma {:induction false} FromBlankIsSuffix(s: string) returns (n: nat)
    ensures n <= |s| && FromBlank(s) == s[n..]
    ensures (forall i | 0 <= i < n :: s[i] != ' ') && (n < |s| ==> s[n] == ' ')
  {
    if s == "" || s[0] == ' ' {
      n := 0;
    } else {
      var m := FromBlankIsSuffix(s[1..]);
      n := m + 1;
      assert s[n..] == s[1..][m..];
    }
  }

  /** The text from `n` on is where the value that starts at `k` has ended. */
  ghost predicate ValueEnds(line: string, k: nat, n: nat) {
    k <= n <= |line| && (forall i | k <= i < n :: line[i] != ' ') && (n < |line| ==> line[n] == ' ')
  }

  /** The key and everything from the first blank on are kept, the value between them is new. */
  ghost predicate ValueReplaced(before: string, after: string, key: string, value: string) {
    key <= before && exists n: nat :: ValueEnds(before, |key|, n) && after == key + value + before[n..]
  }

  /** How a line is copied for another kernel: only kernel and ramdisk values are replaced. */
  ghost predicate Copied(before: string, after: string, kver: string) {
    if "kernel=" <= before then ValueReplaced(before, after, "kernel=", "vmlinuz-" + kver)
    else if "ramdisk=" <= before then ValueReplaced(before, after, "ramdisk=", "initramfs-" + kver + ".img")
    else after == before
  }

  lemma ReplaceValue(line: string, key: string, value: string)
    requires key <= line
    ensures ValueReplaced(line, key + value + FromBlank(line[|key|..]), key, value)
  {
    var m := FromBlankIsSuffix(line[|key|..]);
    assert line[|key|..][m..] == line[|key| + m..];
    assert ValueEnds(line, |key|, |key| + m);
  }

  lemma RewriteCopies(line: string, kver: string)
    ensures Copied(line, Rewrite(line, kver), kver)
  {
    if "kernel=" <= line {
      ReplaceValue(line, "kernel=", "vmlinuz-" + kver);
      assert "kernel=vmlinuz-" + kver == "kernel=" + ("vmlinuz-" + kver);
    } else if "ramdisk=" <= line {
      ReplaceValue(line, "ramdisk=", "initramfs-" + kver + ".img");
      assert "ramdisk=initramfs-" + kver + ".img" == "ramdisk=" + ("initramfs-" + kver + ".img");
    }
  }

  lemma {:induction false} RewriteAllAt(lines: seq<string>, kver: string)
    ensures |RewriteAll(lines, kver)| == |lines|
    ensures forall i | 0 <= i < |lines| :: RewriteAll(lines, kver)[i] == Rewrite(lines[i], kver)
  {
    hide Rewrite;
    if lines != [] {
      RewriteAllAt(lines[..|lines| - 1], kver);
    }
  }

  /** The lines from `at` to `end` are one whole section. */
  ghost predicate IsSection(lines: seq<string>, at: nat, end: nat) {
    && at < end <= |lines| && IsHeader(lines[at])
    && (forall k | at < k < end :: !IsHeader(lines[k]))
    && (end < |lines| ==> IsHeader(lines[end]))
  }

  /** A copy of that section: a new header, and every other line copied for the new kernel. */
  ghost predicate IsCopy(lines: seq<string>, at: nat, end: nat, section: seq<string>, kver: string) {
    && IsSection(lines, at, end) && |section| == end - at && section[0] == Header(kver)
    && forall i | at < i < end :: Copied(lines[i], section[i - at], kver)
  }

  lemma CopyIs(lines: seq<string>, at: nat, end: nat, kver: string)
    requires IsSection(lines, at, end)
    ensures IsCopy(lines, at, end, [Header(kver)] + RewriteAll(lines[at + 1..end], kver), kver)
  {
    hide Copied, Rewrite, RewriteAll, IsHeader;
    var body := lines[at + 1..end];
    RewriteAllAt(body, kver);
    var section := [Header(kver)] + RewriteAll(body, kver);
    forall i | at < i < end ensures Copied(lines[i], section[i - at], kver) {
      assert section[i - at] == RewriteAll(body, kver)[i - at - 1];
      assert lines[i] == body[i - at - 1];
      RewriteCopies(lines[i], kver);
    }
  }

  lemma NewSectionAt(lines: seq<string>, kver: string) returns (end: nat)
    requires FindAll(lines).found.Some?
    ensures var at := FindAll(lines).found.value;
            && at < end <= |lines| && IsSection(lines, at, end) && lines[at] == Header(FindAll(lines).name)
            && NewSection(lines, kver) == [Header(kver)] + RewriteAll(lines[at + 1..end], kver)
  {
    hide FindAll, RewriteAll;
    FoundIsHeader(lines);
    end := SectionEnd(lines, FindAll(lines).found.value + 1);
  }

  /**
   The new section is the section that `default=` resolves to, line by line, under a new header and with
   only kernel and ramdisk values replaced; without such a section there is no new one.
   */
  lemma NewSectionIs(lines: seq<string>, kver: string)
    ensures var s := FindAll(lines);
            if s.found.None? then NewSection(lines, kver) == []
            else && s.found.value < |lines| && lines[s.found.value] == Header(s.name)
                 && exists end: nat :: IsCopy(lines, s.found.value, end, NewSection(lines, kver), kver)
  {
    hide IsCopy, IsSection, IsHeader, FindAll, NewSection, RewriteAll, NoHeaders;
    if FindAll(lines).found.None? {
      NewSectionLines(lines, kver);
    } else {
      var end := NewSectionAt(lines, kver);
      CopyIs(lines, FindAll(lines).found.value, end, kver);
    }
  }

  lemma NewSectionLines(lines: seq<string>, kver: string)
    ensures FindAll(lines).found.None? ==> NewSection(lines, kver) == []
    ensures FindAll(lines).found.Some? ==>
              && NoHeaders(DefaultBody(lines)) && NoHeaders(RewriteAll(DefaultBody(lines), kver))
              && NewSection(lines, kver) == [Header(kver)] + RewriteAll(DefaultBody(lines), kver)
  {
    if FindAll(lines).found.Some? {
      RewriteKeepsBodies(DefaultBody(lines), kver);
    }
  }

  lemma {:induction false} ContainsSelf(line: string)
    ensures Contains(line, line)
  {}

  lemma NotMentioned(f: File, kver: string)
    requires !Mentions(f, kver)
    ensures forall i | 0 <= i < |f.lines| :: f.lines[i] != Header(kver)
  {
    forall i | 0 <= i < |f.lines| ensures f.lines[i] != Header(kver) {
      ContainsSelf(f.lines[i]);
    }
  }

  /** What a section appended to a file and the redirection of `default=` lines do to bodies. */
  lemma WithSection(lines: seq<string>, kver: string, body: seq<string>, name: string)
    requires NoHeaders(body)
    ensures var longer := RedirectAll(lines + ([Header(kver)] + body), kver);
            && Body(longer, name) == RedirectAll(if name == kver then Body(lines, name) + body else Body(lines, name), kver)
            && (name == kver ==> Without(longer, name) == RedirectAll(Without(lines, name), kver))
  {
    if name == kver {
      AppendedOwn(lines, kver, body);
    } else {
      AppendedOther(lines, kver, body, name);
    }
    RedirectCommutes(lines + ([Header(kver)] + body), kver, name);
  }

  lemma AddedIs(f: File, kver: string)
    requires f.terminated && !Mentions(f, kver)
    ensures Added(f, kver) == File(RedirectAll(f.lines + NewSection(f.lines, kver), kver), true)
  {
    assert f.lines + [] == f.lines;
  }

  /** What the new section's body is before `default=` lines are redirected. */
  function NewBody(lines: seq<string>, kver: string): seq<string> {
    if FindAll(lines).found.Some? then RewriteAll(DefaultBody(lines), kver) else []
  }

  /** The bodies after an installation: other kernels' are as before, the new one's is the rewritten default's. */
  lemma TerminatedBodies(f: File, kver: string, name: string)
    requires f.terminated && !Mentions(f, kver)
    ensures Body(Added(f, kver).lines, name)
            == RedirectAll(if name == kver then NewBody(f.lines, kver) else Body(f.lines, name), kver)
    ensures Without(Added(f, kver).lines, kver) == RedirectAll(f.lines, kver)
  {
    AddedIs(f, kver);
    NewSectionLines(f.lines, kver);
    NotMentioned(f, kver);
    AbsentSection(f.lines, kver);
    if FindAll(f.lines).found.Some? {
      WithSection(f.lines, kver, NewBody(f.lines, kver), name);
      WithSection(f.lines, kver, NewBody(f.lines, kver), kver);
      assert [] + NewBody(f.lines, kver) == NewBody(f.lines, kver);
    } else {
      assert f.lines + [] == f.lines;
      RedirectCommutes(f.lines, kver, name);
      RedirectCommutes(f.lines, kver, kver);
    }
  }

  lemma {:induction false} InsideOnlyOne(lines: seq<string>, a: string, b: string)
    requires a != b
    ensures !(Inside(lines, a) && Inside(lines, b))
  {
    if lines != [] {
      InsideOnlyOne(lines[..|lines| - 1], a, b);
      if Header(a) == Header(b) {
        HeaderInjective(a, b);
      }
    }
  }

  /** Removing a kernel's section leaves every other body as it was. */
  lemma {:induction false} RemovedBodies(lines: seq<string>, kver: string, name: string)
    ensures Body(Without(lines, kver), name) == if name == kver then [] else Body(lines, name)
    ensures !Inside(lines, kver) ==> Inside(Without(lines, kver), name) == Inside(lines, name)
    ensures name == kver ==> !Inside(Without(lines, kver), name)
  {
    if lines != [] {
      var before, last := lines[..|lines| - 1], lines[|lines| - 1];
      RemovedBodies(before, kver, name);
      if name != kver {
        InsideOnlyOne(lines, kver, name);
      }
      if !Inside(lines, kver) {
        assert (Without(before, kver) + [last])[..|Without(before, kver)|] == Without(before, kver);
      }
    }
  }

  // ---------------------------------------------------------------- remove undoes add

  /** The first line appended is glued to an unterminated last line; the section header disappears. */
  lemma GluedHasNoHeader(f: File, kver: string)
    requires ValidFile(f) && !f.terminated && !Mentions(f, kver) && NewSection(f.lines, kver) != []
    ensures forall i | 0 <= i < |Append(f, NewSection(f.lines, kver)).lines| ::
              Append(f, NewSection(f.lines, kver)).lines[i] != Header(kver)
  {
    NewSectionLines(f.lines, kver);
    NotMentioned(f, kver);
    var n, section := |f.lines| - 1, NewSection(f.lines, kver);
    var glued := Append(f, section).lines;
    forall i | 0 <= i < |glued| ensures glued[i] != Header(kver) {
      if i == n {
        assert |glued[n]| > |Header(kver)|;
      } else if i > n {
        assert glued[i] == section[i - n] == RewriteAll(DefaultBody(f.lines), kver)[i - n - 1];
      }
    }
  }

  /** A header glued to a line does not make it a `default=` line. */
  lemma GluedIsDefault(last: string, kver: string)
    requires last != ""
    ensures IsDefault(last + Header(kver)) <==> IsDefault(last)
  {
    assert forall i | 0 <= i < 8 :: "default="[i] != '[';
    assert (last + Header(kver))[|last|] == '[';
  }

  lemma GluedLine(last: string, kver: string, target: string)
    requires last != ""
    ensures Redirect(last + Header(kver), target) == Redirect(last, target) <==> IsDefault(last)
  {
    GluedIsDefault(last, kver);
  }

  /** Redirecting the glued lines gives the redirected lines only if the glued line was itself a `default=` line. */
  lemma GluedRedirects(lines: seq<string>, more: seq<string>, last: string, kver: string, target: string)
    requires last != ""
    ensures RedirectAll(lines + [last + Header(kver)] + more, target) == RedirectAll(lines + [last], target)
            <==> more == [] && IsDefault(last)
  {
    var glued, plain := lines + [last + Header(kver)] + more, lines + [last];
    RedirectAllAt(glued, target);
    RedirectAllAt(plain, target);
    GluedLine(last, kver, target);
    assert RedirectAll(glued, target)[|lines|] == Redirect(last + Header(kver), target);
    assert RedirectAll(plain, target)[|lines|] == Redirect(last, target);
    if more == [] && IsDefault(last) {
      assert forall i | 0 <= i < |lines| :: glued[i] == plain[i];
    }
  }

  /** Then nothing is removed again: the lines stay, glued and redirected. */
  lemma GluedStays(f: File, kver: string)
    requires ValidFile(f) && !f.terminated && !Mentions(f, kver) && NewSection(f.lines, kver) != []
    ensures Removed(Added(f, kver), kver).lines == RedirectAll(Append(f, NewSection(f.lines, kver)).lines, kver)
  {
    var glued := Append(f, NewSection(f.lines, kver)).lines;
    GluedHasNoHeader(f, kver);
    AbsentSection(glued, kver);
    RedirectCommutes(glued, kver, kver);
  }

  /** Only a lone header swallowed by a `default=` line leaves no trace. */
  lemma RemoveAfterGluing(f: File, kver: string)
    requires ValidFile(f) && !f.terminated && !Mentions(f, kver) && NewSection(f.lines, kver) != []
    ensures Removed(Added(f, kver), kver).lines == RedirectAll(f.lines, kver)
            <==> |NewSection(f.lines, kver)| == 1 && IsDefault(f.lines[|f.lines| - 1])
  {
    hide Contains, FindAll, RewriteAll, RedirectAll, Without;
    var n, section := |f.lines| - 1, NewSection(f.lines, kver);
    NewSectionLines(f.lines, kver);
    GluedStays(f, kver);
    GluedRedirects(f.lines[..n], section[1..], f.lines[n], kver, kver);
    assert f.lines == f.lines[..n] + [f.lines[n]];
  }

  /**
   Removing a kernel right after installing it gives back the file, except for its `default=` lines,
   exactly if the file ends with a newline, or nothing was appended, or all that was appended is a header
   that an unterminated `default=` line has swallowed.
   */
  lemma RemoveUndoesAddIff(f: File, kver: string)
    requires ValidFile(f) && !Mentions(f, kver)
    ensures Removed(Added(f, kver), kver).lines == RedirectAll(f.lines, kver)
            <==> || f.terminated
                 || FindAll(f.lines).found.None?
                 || (DefaultBody(f.lines) == [] && IsDefault(f.lines[|f.lines| - 1]))
  {
    NewSectionLines(f.lines, kver);
    if f.terminated {
      TerminatedBodies(f, kver, kver);
    } else if FindAll(f.lines).found.None? {
      NotMentioned(f, kver);
      AbsentSection(f.lines, kver);
      RedirectCommutes(f.lines, kver, kver);
    } else {
      RewriteKeepsBodies(DefaultBody(f.lines), kver);
      RemoveAfterGluing(f, kver);
    }
  }

  // ---------------------------------------------------------------- other kernels' bodies

  /** The last line with the new header glued to it. */
  function GluedTo(f: File, kver: string): string
    requires f.lines != []
  {
    f.lines[|f.lines| - 1] + Header(kver)
  }

  /** The file before the redirection of `default=` lines, if its last line is not terminated. */
  lemma GluedIs(f: File, kver: string)
    requires ValidFile(f) && !f.terminated && !Mentions(f, kver) && FindAll(f.lines).found.Some?
    ensures Added(f, kver)
            == File(RedirectAll(f.lines[..|f.lines| - 1] + [GluedTo(f, kver)] + NewBody(f.lines, kver), kver), true)
    ensures NoHeaders(NewBody(f.lines, kver))
  {
    NewSectionLines(f.lines, kver);
  }

  /**
   The section the file ends in absorbs lines of the new kernel: the last line is not terminated, and what
   is appended is more than a header that disappears in a `default=` line or behind another header.
   */
  ghost predicate Absorbs(f: File, kver: string, name: string) {
    && !f.terminated && f.lines != [] && !Mentions(f, kver) && FindAll(f.lines).found.Some?
    && Inside(f.lines[..|f.lines| - 1] + [GluedTo(f, kver)], name)
    && !(NewBody(f.lines, kver) == [] && (IsHeader(f.lines[|f.lines| - 1]) || IsDefault(f.lines[|f.lines| - 1])))
  }

  /** The body of a section before and after gluing, up to `default=` lines. */
  lemma GluedBodies(before: seq<string>, last: string, body: seq<string>, kver: string, name: string, target: string)
    requires last != "" && NoHeaders(body)
    ensures RedirectAll(Body(before + [last + Header(kver)] + body, name), target) == RedirectAll(Body(before + [last], name), target)
            <==> !(Inside(before + [last + Header(kver)], name) && !(body == [] && (IsHeader(last) || IsDefault(last))))
  {
    hide Inside, Body, Without;
    var glued := last + Header(kver);
    var kept := Body(before, name);
    NextLine(before, glued, name);
    NextLine(before, last, name);
    AppendedBody(before + [glued], body, name);
    if Inside(before + [glued], name) {
      if IsHeader(last) {
        LongerDiffers(kept, body, target);
        HeaderKeepsBody(before, last, name);
      } else {
        GluedRedirects(kept, body, last, kver, target);
      }
    } else {
      HeaderKeepsBody(before, last, name);
    }
  }

  lemma HeaderKeepsBody(before: seq<string>, last: string, name: string)
    requires IsHeader(last) || !Inside(before, name)
    ensures Body(before + [last], name) == Body(before, name)
  {
    NextLine(before, last, name);
  }

  lemma LongerDiffers(kept: seq<string>, body: seq<string>, target: string)
    ensures RedirectAll(kept + body, target) == RedirectAll(kept, target) <==> body == []
  {
    RedirectAllAt(kept + body, target);
    RedirectAllAt(kept, target);
    if body == [] {
      assert kept + body == kept;
    }
  }

  /** Installing leaves another kernel's body as it was, up to `default=` lines, exactly if it absorbs nothing. */
  lemma AddedBodiesIff(f: File, kver: string, name: string, target: string)
    requires ValidFile(f) && !Mentions(f, kver) && name != kver
    ensures RedirectAll(Body(Added(f, kver).lines, name), target) == RedirectAll(Body(f.lines, name), target)
            <==> !Absorbs(f, kver, name)
  {
    hide Body, RedirectAll, FindAll, NewBody, NewSection;
    if f.terminated {
      TerminatedBodies(f, kver, name);
      RedirectTwice(Body(f.lines, name), kver, target);
    } else if FindAll(f.lines).found.None? {
      NewSectionLines(f.lines, kver);
      RedirectCommutes(f.lines, kver, name);
      RedirectTwice(Body(f.lines, name), kver, target);
    } else {
      GluedIs(f, kver);
      var n := |f.lines| - 1;
      var longer := f.lines[..n] + [GluedTo(f, kver)] + NewBody(f.lines, kver);
      RedirectCommutes(longer, kver, name);
      RedirectTwice(Body(longer, name), kver, target);
      GluedBodies(f.lines[..n], f.lines[n], NewBody(f.lines, kver), kver, name, target);
      assert f.lines == f.lines[..n] + [f.lines[n]];
    }
  }

  /** The new kernel's body is the rewritten default's, exactly if its header is not glued to the last line. */
  lemma NewBodyIff(f: File, kver: string)
    requires ValidFile(f) && !Mentions(f, kver)
    ensures Body(Added(f, kver).lines, kver) == RedirectAll(NewBody(f.lines, kver), kver)
            <==> f.terminated || NewBody(f.lines, kver) == []
  {
    if f.terminated {
      TerminatedBodies(f, kver, kver);
    } else {
      var longer := Append(f, NewSection(f.lines, kver)).lines;
      NotMentioned(f, kver);
      if FindAll(f.lines).found.Some? {
        GluedHasNoHeader(f, kver);
      }
      AbsentSection(longer, kver);
      RedirectCommutes(longer, kver, kver);
      RedirectAllAt(NewBody(f.lines, kver), kver);
    }
  }
}
