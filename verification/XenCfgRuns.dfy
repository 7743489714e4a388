/** Installing twice, and which section `default=` resolves to after one installation or removal. */
module XenCfgRuns {
  import opened ExitCodes
  import opened XenCfg
  import opened XenCfgHistory

  /** `[global]` is only ever written in section headers. */
  ghost predicate GlobalInHeaders(lines: seq<string>) {
    forall i | 0 <= i < |lines| && !IsHeader(lines[i]) :: !Contains(lines[i], "[global]")
  }

  /** At least no `default=` line holds it. */
  ghost predicate PlainDefaults(lines: seq<string>) {
    forall i | 0 <= i < |lines| && IsDefault(lines[i]) :: !Contains(lines[i], "[global]")
  }

  // ---------------------------------------------------------------- substrings

  ghost predicate NoBracket(s: string) {
    forall i | 0 <= i < |s| :: s[i] != '['
  }

  /** Only the part of a text after all characters other than `[` can contain a bracketed name. */
  lemma {:induction false} ContainsAfter(plain: string, rest: string, needle: string)
    requires NoBracket(plain) && needle != "" && needle[0] == '['
    ensures Contains(plain + rest, needle) <==> Contains(rest, needle)
  {
    if plain == "" {
      assert plain + rest == rest;
    } else {
      assert (plain + rest)[1..] == plain[1..] + rest && (plain + rest)[0] == plain[0];
      ContainsAfter(plain[1..], rest, needle);
    }
  }

  lemma NoBracketInside(s: string, needle: string)
    requires NoBracket(s) && needle != "" && needle[0] == '['
    ensures !Contains(s, needle)
  {
    assert s + "" == s;
    ContainsAfter(s, "", needle);
  }

  lemma {:induction false} ContainsEnd(s: string, needle: string)
    ensures Contains(s + needle, needle)
  {
    if s == "" {
      assert s + needle == needle;
    } else {
      assert (s + needle)[1..] == s[1..] + needle;
      ContainsEnd(s[1..], needle);
    }
  }

  lemma {:induction false} SuffixContains(s: string, n: nat, needle: string)
    requires n <= |s| && Contains(s[n..], needle)
    ensures Contains(s, needle)
  {
    if n > 0 {
      assert s[1..][n - 1..] == s[n..];
      SuffixContains(s[1..], n - 1, needle);
    } else {
      assert s[0..] == s;
    }
  }

  lemma KverHasNoBracket(kver: string)
    requires ValidKver(kver)
    ensures NoBracket(kver) && NoBracket("default=" + kver)
    ensures forall i | 0 <= i < |kver| :: kver[i] != ']' && kver[i] != '='
  {
    forall i | 0 <= i < |kver| ensures kver[i] != '[' && kver[i] != ']' && kver[i] != '=' {
      assert kver[i] in kver;
    }
  }

  /** Only the kernel version `global` would give the header `[global]`. */
  lemma HeaderPrefixMeans(kver: string)
    requires forall i | 0 <= i < |kver| :: kver[i] != ']'
    requires "[global]" <= Header(kver)
    ensures kver == "global"
  {
    var header := Header(kver);
    assert header[7] == "[global]"[7];
    assert |kver| == 6;
    assert kver == header[1..7] == "[global]"[1..7];
  }

  /** The header of a kernel section does not open `[global]`. */
  lemma KernelHeader(kver: string)
    requires ValidKver(kver)
    ensures !Contains(Header(kver), "[global]")
  {
    KverHasNoBracket(kver);
    assert Header(kver)[1..] == kver + "]";
    ContainsAfter(kver, "]", "[global]");
    NoBracketInside("]", "[global]");
    if "[global]" <= Header(kver) {
      HeaderPrefixMeans(kver);
    }
  }

  lemma {:induction false} ValueOf(kver: string)
    requires forall i | 0 <= i < |kver| :: kver[i] != '='
    ensures UpTo(kver, '=') == kver
  {
    if kver != "" {
      ValueOf(kver[1..]);
    }
  }

  lemma RedirectedValue(kver: string)
    requires ValidKver(kver)
    ensures IsDefault("default=" + kver) && DefaultValue("default=" + kver) == kver
  {
    assert ("default=" + kver)[8..] == kver;
    KverHasNoBracket(kver);
    ValueOf(kver);
  }

  // ---------------------------------------------------------------- the search after the redirection

  /** How the search in the redirected lines relates to the search in the lines. */
  ghost predicate Searches(s: Find, t: Find, kver: string) {
    if s.found.None? then t.found.None? && t.inGlobal == s.inGlobal && (t.name == kver || (t.name == "" && s.name == ""))
    else (t.found.None? && t.name == kver) || (s.name == "" && t.found.Some?)
  }

  lemma SearchStep(s: Find, t: Find, n: nat, line: string, kver: string)
    requires ValidKver(kver) && Searches(s, t, kver)
    requires line != Header(kver) && (IsDefault(line) ==> !Contains(line, "[global]"))
    ensures Searches(FindStep(s, n, line), FindStep(t, n, Redirect(line, kver)), kver)
  {
    RedirectKeepsHeaders(line, kver);
    RedirectedValue(kver);
    KverHasNoBracket(kver);
    NoBracketInside("default=" + kver, "[global]");
  }

  /** In redirected lines only the new name is ever read, and only a section without a name can be found. */
  lemma {:induction false} RedirectedSearch(lines: seq<string>, kver: string)
    requires ValidKver(kver) && forall i | 0 <= i < |lines| :: lines[i] != Header(kver)
    ensures var t := FindAll(RedirectAll(lines, kver));
            t.name in {"", kver} && (t.found.Some? ==> t.name == "")
  {
    hide Contains;
    if lines != [] {
      var n := |lines| - 1;
      RedirectedSearch(lines[..n], kver);
      RedirectAllAt(lines[..n], kver);
      var all := RedirectAll(lines, kver);
      assert all[..n] == RedirectAll(lines[..n], kver);
      RedirectKeepsHeaders(lines[n], kver);
      RedirectedValue(kver);
    }
  }

  lemma {:induction false} SearchRedirected(lines: seq<string>, kver: string)
    requires ValidKver(kver) && PlainDefaults(lines)
    requires forall i | 0 <= i < |lines| :: lines[i] != Header(kver)
    ensures Searches(FindAll(lines), FindAll(RedirectAll(lines, kver)), kver)
  {
    if lines != [] {
      var n := |lines| - 1;
      SearchRedirected(lines[..n], kver);
      RedirectAllAt(lines[..n], kver);
      var all := RedirectAll(lines, kver);
      assert all[..n] == RedirectAll(lines[..n], kver);
      SearchStep(FindAll(lines[..n]), FindAll(all[..n]), n, lines[n], kver);
    }
  }

  lemma BlankSuffix(line: string, k: nat, needle: string)
    requires k <= |line| && !Contains(line, needle)
    ensures !Contains(FromBlank(line[k..]), needle)
  {
    var n := FromBlankIsSuffix(line[k..]);
    assert line[k..][n..] == line[k + n..];
    if Contains(line[k + n..], needle) {
      SuffixContains(line, k + n, needle);
    }
  }

  /** New kernel and ramdisk values never bring in a bracketed name. */
  lemma RewrittenMentions(line: string, kver: string, needle: string)
    requires ValidKver(kver) && needle != "" && needle[0] == '[' && !Contains(line, needle)
    ensures !Contains(Rewrite(line, kver), needle)
  {
    KverHasNoBracket(kver);
    if "kernel=" <= line {
      BlankSuffix(line, 7, needle);
      ContainsAfter("kernel=vmlinuz-" + kver, FromBlank(line[7..]), needle);
    } else if "ramdisk=" <= line {
      BlankSuffix(line, 8, needle);
      ContainsAfter("ramdisk=initramfs-" + kver + ".img", FromBlank(line[8..]), needle);
    }
  }

  // ---------------------------------------------------------------- adding twice

  /** Redirecting `default=` lines never mentions a kernel that was not mentioned. */
  lemma RedirectMentions(f: File, kver: string)
    requires ValidKver(kver) && !Mentions(f, kver)
    ensures !Mentions(File(RedirectAll(f.lines, kver), f.terminated), kver)
  {
    RedirectAllAt(f.lines, kver);
    KverHasNoBracket(kver);
    NoBracketInside("default=" + kver, Header(kver));
  }

  /** After an installation that found a default section, the kernel is mentioned. */
  lemma AddedMentions(f: File, kver: string)
    requires ValidFile(f) && !Mentions(f, kver) && FindAll(f.lines).found.Some?
    requires f.terminated || !IsDefault(f.lines[|f.lines| - 1])
    ensures Mentions(Added(f, kver), kver)
  {
    NewSectionLines(f.lines, kver);
    var longer := Append(f, NewSection(f.lines, kver)).lines;
    RedirectAllAt(longer, kver);
    var n := if f.terminated then |f.lines| else |f.lines| - 1;
    if f.terminated {
      ContainsSelf(Header(kver));
      assert longer[n] == Header(kver);
      RedirectKeepsHeaders(longer[n], kver);
    } else {
      assert longer[n] == f.lines[n] + Header(kver);
      ContainsEnd(f.lines[n], Header(kver));
      GluedIsDefault(f.lines[n], kver);
    }
    assert Contains(Added(f, kver).lines[n], Header(kver));
  }

  lemma AddedIsValid(f: File, kver: string)
    requires ValidFile(f)
    ensures ValidFile(Added(f, kver))
  {
    RedirectAllAt(Append(f, NewSection(f.lines, kver)).lines, kver);
  }

  lemma {:induction false} NotFoundInBody(before: seq<string>, body: seq<string>)
    requires NoHeaders(body) && FindAll(before).found.None?
    ensures FindAll(before + body).found.None?
  {
    if body == [] {
      assert before + body == before;
    } else {
      var n := |body| - 1;
      NotFoundInBody(before, body[..n]);
      assert (before + body)[..|before + body| - 1] == before + body[..n];
    }
  }

  /** The new section's header disappears in an unterminated `default=` line. */
  ghost predicate Swallows(f: File) {
    !f.terminated && f.lines != [] && IsDefault(f.lines[|f.lines| - 1])
  }

  lemma SwallowedLines(before: seq<string>, last: string, body: seq<string>, kver: string)
    requires IsDefault(last)
    ensures RedirectAll(before + [last + Header(kver)] + body, kver)
            == RedirectAll(before + [last], kver) + RedirectAll(body, kver)
  {
    var glued := before + [last + Header(kver)];
    RedirectAppend(glued, body, kver);
    assert glued + [] == glued;
    GluedRedirects(before, [], last, kver, kver);
  }

  /** Then only the new section's body is added. */
  lemma SwallowedIs(f: File, kver: string)
    requires Swallows(f) && ValidFile(f) && !Mentions(f, kver) && FindAll(f.lines).found.Some?
    ensures Added(f, kver) == File(RedirectAll(f.lines, kver) + RedirectAll(NewBody(f.lines, kver), kver), true)
  {
    NewSectionLines(f.lines, kver);
    var n := |f.lines| - 1;
    SwallowedLines(f.lines[..n], f.lines[n], NewBody(f.lines, kver), kver);
    assert f.lines == f.lines[..n] + [f.lines[n]];
  }

  /** And the kernel is still not mentioned. */
  lemma SwallowedMentions(f: File, kver: string)
    requires ValidKver(kver) && !Mentions(f, kver) && FindAll(f.lines).found.Some?
    ensures !Mentions(File(RedirectAll(f.lines, kver) + RedirectAll(NewBody(f.lines, kver), kver), true), kver)
  {
    RedirectMentions(f, kver);
    var body := NewBody(f.lines, kver);
    RewriteAllAt(DefaultBody(f.lines), kver);
    forall i | 0 <= i < |body| ensures !Contains(body[i], Header(kver)) {
      assert DefaultBody(f.lines)[i] in f.lines;
      RewrittenMentions(DefaultBody(f.lines)[i], kver, Header(kver));
    }
    RedirectMentions(File(body, true), kver);
  }

  /** After a header was swallowed, a second installation adds nothing exactly if the default is lost by then. */
  lemma SwallowedTwice(f: File, kver: string)
    requires ValidKver(kver) && Swallows(f) && ValidFile(f) && !Mentions(f, kver) && FindAll(f.lines).found.Some?
    ensures Added(Added(f, kver), kver) == Added(f, kver) <==> FindAll(RedirectAll(f.lines, kver)).found.None?
  {
    SwallowedIs(f, kver);
    SwallowedMentions(f, kver);
    var lines, body := RedirectAll(f.lines, kver), RedirectAll(NewBody(f.lines, kver), kver);
    var once := File(lines + body, true);
    AddedIs(once, kver);
    if FindAll(lines).found.None? {
      NewSectionLines(f.lines, kver);
      RedirectedBody(NewBody(f.lines, kver), kver);
      NotFoundInBody(lines, body);
      assert once.lines + NewSection(once.lines, kver) == once.lines;
      RedirectAppend(f.lines, NewBody(f.lines, kver), kver);
      RedirectTwice(f.lines + NewBody(f.lines, kver), kver, kver);
    } else {
      assert once.lines[..|lines|] == lines;
      FoundStays(once.lines, |lines|);
      RedirectAllAt(once.lines + NewSection(once.lines, kver), kver);
    }
  }

  lemma RedirectedBody(body: seq<string>, kver: string)
    requires NoHeaders(body)
    ensures NoHeaders(RedirectAll(body, kver))
  {
    RedirectAllAt(body, kver);
  }

  /** Installing a kernel twice when its header is not swallowed and no default turns up by redirection. */
  lemma AddedTwice(f: File, kver: string)
    requires ValidKver(kver) && ValidFile(f)
    requires || Mentions(f, kver)
             || (FindAll(f.lines).found.Some? && !Swallows(f))
             || (FindAll(f.lines).found.None? && FindAll(RedirectAll(f.lines, kver)).found.None?)
    ensures ValidFile(Added(f, kver)) && Added(Added(f, kver), kver) == Added(f, kver)
  {
    AddedIsValid(f, kver);
    if !Mentions(f, kver) {
      if FindAll(f.lines).found.Some? {
        AddedMentions(f, kver);
      } else {
        RedirectMentions(f, kver);
        RedirectTwice(f.lines, kver, kver);
      }
    }
  }

  /** If redirection itself makes `default=` resolve, only the second installation adds the section. */
  lemma FoundLater(f: File, kver: string)
    requires ValidKver(kver) && ValidFile(f) && !Mentions(f, kver)
    requires FindAll(f.lines).found.None? && FindAll(RedirectAll(f.lines, kver)).found.Some?
    ensures ValidFile(Added(f, kver)) && Added(Added(f, kver), kver) != Added(f, kver)
  {
    hide FindAll, Contains;
    NewSectionLines(f.lines, kver);
    AddedIsValid(f, kver);
    RedirectMentions(f, kver);
    var once := Added(f, kver);
    NewSectionLines(once.lines, kver);
    if f.terminated {
      AddedIs(once, kver);
      RedirectAllAt(once.lines + NewSection(once.lines, kver), kver);
    }
  }

  /**
   Installing a kernel twice is the same as installing it once, for every file but those in which the search
   succeeds when all `default=` lines name the new kernel, although it failed before or the header of the
   first copy is swallowed by an unterminated `default=` line.
   */
  lemma AddTwiceIff(f: File, kver: string)
    requires ValidKver(kver) && ValidFile(f)
    ensures ValidFile(Added(f, kver))
    ensures Added(Added(f, kver), kver) == Added(f, kver)
            <==> !(&& !Mentions(f, kver) && FindAll(RedirectAll(f.lines, kver)).found.Some?
                   && (FindAll(f.lines).found.None? || Swallows(f)))
  {
    hide FindAll, RedirectAll, Mentions, Added;
    AddedIsValid(f, kver);
    if Mentions(f, kver) {
      AddedTwice(f, kver);
    } else if FindAll(f.lines).found.Some? && Swallows(f) {
      SwallowedTwice(f, kver);
    } else if FindAll(f.lines).found.None? && FindAll(RedirectAll(f.lines, kver)).found.Some? {
      FoundLater(f, kver);
    } else {
      AddedTwice(f, kver);
    }
  }

  /** In particular it is the same whenever `default=` gives a name and does not hold `[global]` itself. */
  lemma AddTwiceNamed(f: File, kver: string)
    requires ValidKver(kver) && ValidFile(f) && PlainDefaults(f.lines)
    requires Default(f) != Some("")
    ensures ValidFile(Added(f, kver)) && Added(Added(f, kver), kver) == Added(f, kver)
  {
    AddTwiceIff(f, kver);
    if !Mentions(f, kver) {
      NotMentioned(f, kver);
      SearchRedirected(f.lines, kver);
    }
  }

  // ---------------------------------------------------------------- where the default goes

  /** The header that the name so far looks for ends the search. */
  lemma FoundAtHeader(before: seq<string>, section: seq<string>, kver: string)
    requires section != [] && section[0] == Header(kver)
    requires FindAll(before).found.None? && FindAll(before).name == kver
    ensures FindAll(before + section).found.Some? && FindAll(before + section).name == kver
  {
    var all, n := before + section, |before|;
    assert all[..n] == before && all[n] == Header(kver);
    FindNext(all, n);
    FoundStays(all, n + 1);
  }

  /** Nothing is found in a line with a header glued to it, nor in lines that are not headers. */
  lemma GluedNotFound(before: seq<string>, last: string, body: seq<string>, kver: string)
    requires last != "" && kver != "" && NoHeaders(body)
    requires var t := FindAll(RedirectAll(before, kver)); t.found.None? && t.name in {"", kver}
    ensures FindAll(RedirectAll(before + [last + Header(kver)] + body, kver)).found.None?
  {
    hide Contains, FindAll, NoHeaders;
    var glued := last + Header(kver);
    var start := RedirectAll(before, kver);
    RedirectAppend(before + [glued], body, kver);
    RedirectAppend(before, [glued], kver);
    assert RedirectAll([glued], kver) == [Redirect(glued, kver)] by { assert [glued][..0] == []; }
    RedirectKeepsHeaders(glued, kver);
    assert Redirect(glued, kver) !in {Header(""), Header(kver)};
    NextNotFound(start, Redirect(glued, kver));
    RedirectedBody(body, kver);
    NotFoundInBody(start + [Redirect(glued, kver)], RedirectAll(body, kver));
  }

  lemma NextNotFound(lines: seq<string>, line: string)
    requires FindAll(lines).found.None? && line != Header(FindAll(lines).name)
    ensures FindAll(lines + [line]).found.None?
  {
    assert (lines + [line])[..|lines|] == lines;
    FindNext(lines + [line], |lines|);
    assert (lines + [line])[..|lines| + 1] == lines + [line];
  }

  /** The header of the new section is glued to the last line, and `default=` names a section that is not there. */
  ghost predicate Loses(f: File, kver: string) {
    && !f.terminated && f.lines != [] && !Mentions(f, kver) && FindAll(f.lines).found.Some?
    && FindAll(RedirectAll(f.lines[..|f.lines| - 1], kver)).found.None?
  }

  /** The lines that keep their places when a kernel is installed. */
  function KeptLines(f: File): seq<string> {
    if f.terminated || f.lines == [] || FindAll(f.lines).found.None? then f.lines else f.lines[..|f.lines| - 1]
  }

  lemma TerminatedDefault(f: File, kver: string)
    requires ValidKver(kver) && f.terminated && !Mentions(f, kver) && FindAll(f.lines).found.Some?
    ensures var t := FindAll(RedirectAll(f.lines, kver));
            Default(Added(f, kver)) == if t.found.Some? then Some("") else if t.name == kver then Some(kver) else None
  {
    hide Contains, NewSection, RedirectAll, FindAll;
    AddedIs(f, kver);
    NewSectionLines(f.lines, kver);
    NotMentioned(f, kver);
    RedirectedSearch(f.lines, kver);
    var section, redirected := NewSection(f.lines, kver), RedirectAll(f.lines, kver);
    RedirectAppend(f.lines, section, kver);
    var more := RedirectAll(section, kver);
    if FindAll(redirected).found.Some? {
      assert (redirected + more)[..|redirected|] == redirected;
      FoundStays(redirected + more, |redirected|);
    } else {
      SectionRedirected(f.lines, kver);
      if FindAll(redirected).name == kver {
        FoundAtHeader(redirected, more, kver);
      } else {
        NextNotFound(redirected, more[0]);
        NotFoundInBody(redirected + [more[0]], more[1..]);
        assert redirected + [more[0]] + more[1..] == redirected + more;
      }
    }
  }

  lemma SectionRedirected(lines: seq<string>, kver: string)
    requires FindAll(lines).found.Some?
    ensures var more := RedirectAll(NewSection(lines, kver), kver);
            more != [] && more[0] == Header(kver) && NoHeaders(more[1..])
  {
    hide FindAll, Contains;
    NewSectionLines(lines, kver);
    var section := NewSection(lines, kver);
    RedirectAllAt(section, kver);
    RedirectKeepsHeaders(section[0], kver);
    assert section[0] == Header(kver) && RedirectAll(section, kver)[0] == Redirect(section[0], kver);
    forall i | 1 <= i < |section| ensures !IsHeader(RedirectAll(section, kver)[i]) {
      assert section[i] == RewriteAll(DefaultBody(lines), kver)[i - 1];
      RedirectKeepsHeaders(section[i], kver);
    }
  }

  lemma UnterminatedDefault(f: File, kver: string)
    requires ValidKver(kver) && ValidFile(f) && !f.terminated && !Mentions(f, kver) && FindAll(f.lines).found.Some?
    ensures var t := FindAll(RedirectAll(f.lines[..|f.lines| - 1], kver));
            Default(Added(f, kver)) == if t.found.Some? then Some("") else None
  {
    hide Contains, NewSection, NewBody, RedirectAll, FindAll;
    var before, last := f.lines[..|f.lines| - 1], f.lines[|f.lines| - 1];
    NotMentioned(f, kver);
    RedirectedSearch(before, kver);
    GluedIs(f, kver);
    if FindAll(RedirectAll(before, kver)).found.None? {
      GluedNotFound(before, last, NewBody(f.lines, kver), kver);
    } else {
      var more := [last + Header(kver)] + NewBody(f.lines, kver);
      Regroup(before, [last + Header(kver)], NewBody(f.lines, kver));
      RedirectAppend(before, more, kver);
      var all := RedirectAll(before, kver) + RedirectAll(more, kver);
      assert all[..|RedirectAll(before, kver)|] == RedirectAll(before, kver);
      FoundStays(all, |RedirectAll(before, kver)|);
    }
  }

  /**
   Where `default=` points after an installation, for any file: it depends on what the search finds and reads
   in the redirected lines, and on whether the new section has its own header.
   */
  lemma AddedDefaultExact(f: File, kver: string)
    requires ValidKver(kver) && ValidFile(f) && !Mentions(f, kver)
    ensures var t := FindAll(RedirectAll(KeptLines(f), kver));
            Default(Added(f, kver))
            == if t.found.Some? then Some("")
               else if f.terminated && Default(f).Some? && t.name == kver then Some(kver)
               else None
  {
    hide Contains, RedirectAll, FindAll;
    NotMentioned(f, kver);
    if FindAll(f.lines).found.None? {
      NewSectionLines(f.lines, kver);
      RedirectedSearch(f.lines, kver);
    } else if f.terminated {
      TerminatedDefault(f, kver);
    } else {
      UnterminatedDefault(f, kver);
    }
  }

  /** An installation leaves `default=` resolving exactly if it did before and the new header was not lost by gluing. */
  lemma AddedResolvesIff(f: File, kver: string)
    requires ValidKver(kver) && ValidFile(f) && PlainDefaults(f.lines)
    ensures Default(Added(f, kver)).Some? <==> Default(f).Some? && !Loses(f, kver)
  {
    hide Contains, RedirectAll, FindAll;
    if !Mentions(f, kver) {
      NotMentioned(f, kver);
      AddedDefaultExact(f, kver);
      SearchRedirected(KeptLines(f), kver);
    }
  }

  /** If `default=` gives a name, every unterminated file loses its default to a new kernel. */
  lemma LosesIff(f: File, kver: string)
    requires ValidKver(kver) && ValidFile(f) && PlainDefaults(f.lines) && !Mentions(f, kver)
    requires Default(f).Some? && Default(f).value != ""
    ensures Loses(f, kver) <==> !f.terminated
  {
    if !f.terminated {
      var before := f.lines[..|f.lines| - 1];
      NotMentioned(f, kver);
      SearchRedirected(before, kver);
      if FindAll(before).found.Some? {
        FoundStays(f.lines, |before|);
      }
    }
  }

  /** With a named default: the new kernel becomes the default, exactly if the file ends with a newline. */
  lemma AddedDefaultIs(f: File, kver: string)
    requires ValidKver(kver) && ValidFile(f) && PlainDefaults(f.lines) && !Mentions(f, kver)
    requires Default(f).Some? && Default(f).value != ""
    ensures Default(Added(f, kver)) == if f.terminated then Some(kver) else None
  {
    hide Contains, RedirectAll;
    AddedDefaultExact(f, kver);
    NotMentioned(f, kver);
    if f.terminated {
      SearchRedirected(f.lines, kver);
    } else {
      LosesIff(f, kver);
    }
  }

  // ---------------------------------------------------------------- removing

  /** The search reads no default inside a section of this name. */
  ghost predicate ReadsNoDefault(lines: seq<string>, kver: string) {
    forall i | 0 <= i < |lines| && Inside(lines[..i + 1], kver) :: FindAll(lines[..i + 1]).name == FindAll(lines[..i]).name
  }

  /** It never does where `[global]` is only written in headers. */
  lemma GlobalReadsNothing(lines: seq<string>, kver: string)
    requires ValidKver(kver) && GlobalInHeaders(lines)
    ensures ReadsNoDefault(lines, kver)
  {
    hide Contains;
    forall i | 0 <= i < |lines| && Inside(lines[..i + 1], kver)
      ensures FindAll(lines[..i + 1]).name == FindAll(lines[..i]).name
    {
      OutsideGlobal(lines[..i + 1], kver);
      assert lines[..i + 1][..i] == lines[..i];
    }
  }

  lemma {:induction false} OutsideGlobal(lines: seq<string>, kver: string)
    requires ValidKver(kver) && GlobalInHeaders(lines) && Inside(lines, kver)
    ensures FindAll(lines).found.Some? || !FindAll(lines).inGlobal
  {
    hide Contains;
    var n := |lines| - 1;
    KernelHeader(kver);
    if !IsHeader(lines[n]) {
      OutsideGlobal(lines[..n], kver);
    }
  }

  /** How the search in the remaining lines relates to the search in all lines. */
  ghost predicate SearchesWithout(s: Find, t: Find, inside: bool, kver: string) {
    if s.found.Some?
    then s.name == kver || (t.found.Some? && t.name == s.name)
    else t.found.None? && t.name == s.name && (inside || t.inGlobal == s.inGlobal)
  }

  lemma ReadsNoDefaultBefore(lines: seq<string>, kver: string)
    requires lines != [] && ReadsNoDefault(lines, kver)
    ensures ReadsNoDefault(lines[..|lines| - 1], kver)
    ensures Inside(lines, kver) ==> FindAll(lines).name == FindAll(lines[..|lines| - 1]).name
  {
    hide FindAll, Inside;
    var n := |lines| - 1;
    assert lines[..n + 1] == lines;
    forall i | 0 <= i < n && Inside(lines[..n][..i + 1], kver)
      ensures FindAll(lines[..n][..i + 1]).name == FindAll(lines[..n][..i]).name
    {
      assert lines[..n][..i + 1] == lines[..i + 1] && lines[..n][..i] == lines[..i];
    }
  }

  lemma {:induction false} SearchWithout(lines: seq<string>, kver: string)
    requires ReadsNoDefault(lines, kver)
    ensures SearchesWithout(FindAll(lines), FindAll(Without(lines, kver)), Inside(lines, kver), kver)
  {
    hide Contains, ReadsNoDefault;
    if lines != [] {
      var n := |lines| - 1;
      var before, last := lines[..n], lines[n];
      ReadsNoDefaultBefore(lines, kver);
      SearchWithout(before, kver);
      if Inside(lines, kver) {
        if last == Header(kver) && FindAll(before).found.None? && last == Header(FindAll(before).name) {
          HeaderInjective(kver, FindAll(before).name);
        }
      } else {
        var kept := Without(before, kver);
        assert (kept + [last])[..|kept|] == kept;
      }
    }
  }

  /**
   Removing a kernel that is not the default, and in whose section no default is read, leaves the default
   where it was, or lost if it was.
   */
  lemma RemovedResolves(f: File, kver: string)
    requires ReadsNoDefault(f.lines, kver) && Default(f) != Some(kver)
    ensures Default(Removed(f, kver)) == Default(f)
  {
    SearchWithout(f.lines, kver);
  }

  // ---------------------------------------------------------------- `default=` lines stay plain

  lemma {:induction false} RemovedPlain(lines: seq<string>, kver: string)
    requires PlainDefaults(lines)
    ensures PlainDefaults(Without(lines, kver))
  {
    if lines != [] {
      RemovedPlain(lines[..|lines| - 1], kver);
    }
  }

  lemma AddedPlain(f: File, kver: string)
    requires ValidKver(kver) && ValidFile(f) && PlainDefaults(f.lines)
    ensures PlainDefaults(Added(f, kver).lines)
  {
    if !Mentions(f, kver) {
      RedirectAllAt(Append(f, NewSection(f.lines, kver)).lines, kver);
      KverHasNoBracket(kver);
      NoBracketInside("default=" + kver, "[global]");
    }
  }

  // ---------------------------------------------------------------- told line by line

  lemma {:induction false} ContainsIff(line: string, needle: string)
    ensures Contains(line, needle) <==> exists i :: 0 <= i <= |line| && needle <= line[i..]
  {
    if line != "" {
      ContainsIff(line[1..], needle);
      assert line[0..] == line;
      if i :| 0 <= i <= |line[1..]| && needle <= line[1..][i..] {
        assert line[1..][i..] == line[i + 1..];
      }
      if i :| 1 <= i <= |line| && needle <= line[i..] {
        assert line[1..][i - 1..] == line[i..];
      }
    } else {
      assert line[0..] == line;
    }
  }

  /** The guard: some line holds the whole bracketed name of the kernel. */
  lemma MentionsIff(f: File, kver: string)
    ensures Mentions(f, kver)
            <==> exists n, i :: 0 <= n < |f.lines| && 0 <= i <= |f.lines[n]| && "[" + kver + "]" <= f.lines[n][i..]
  {
    if Mentions(f, kver) {
      var n :| 0 <= n < |f.lines| && Contains(f.lines[n], Header(kver));
      ContainsIff(f.lines[n], Header(kver));
    }
    if n, i :| 0 <= n < |f.lines| && 0 <= i <= |f.lines[n]| && "[" + kver + "]" <= f.lines[n][i..] {
      ContainsIff(f.lines[n], Header(kver));
    }
  }

  /** The second field of a `default=` line: what stands between the first two `=`. */
  lemma DefaultValueIs(line: string)
    requires "default=" <= line
    ensures exists rest :: line == "default=" + DefaultValue(line) + rest && (rest == "" || rest[0] == '=')
    ensures forall i | 0 <= i < |DefaultValue(line)| :: DefaultValue(line)[i] != '='
  {
    UpToIs(line[8..], '=');
    var rest := line[8 + |DefaultValue(line)|..];
    assert line == "default=" + line[8..];
    assert line[8..] == DefaultValue(line) + rest;
    assert line == "default=" + DefaultValue(line) + rest;
  }

  lemma {:induction false} UpToIs(s: string, c: char)
    ensures UpTo(s, c) <= s && (|UpTo(s, c)| < |s| ==> s[|UpTo(s, c)|] == c)
    ensures forall i | 0 <= i < |UpTo(s, c)| :: UpTo(s, c)[i] != c
  {
    if s != "" && s[0] != c {
      UpToIs(s[1..], c);
    }
  }

  /** What the substitution makes of a line. */
  ghost predicate IsRedirected(before: string, after: string, kver: string) {
    after == if "default=" <= before then "default=" + kver else before
  }

  /** These lines with the section appended, and `default=` lines redirected. */
  ghost predicate IsExtended(lines: seq<string>, section: seq<string>, out: seq<string>, kver: string) {
    && |out| == |lines| + |section|
    && (forall i | 0 <= i < |lines| :: IsRedirected(lines[i], out[i], kver))
    && (forall i | 0 <= i < |section| :: IsRedirected(section[i], out[|lines| + i], kver))
  }

  lemma RedirectExtends(lines: seq<string>, section: seq<string>, kver: string)
    ensures IsExtended(lines, section, RedirectAll(lines + section, kver), kver)
  {
    hide RedirectAll;
    var all := lines + section;
    RedirectAllAt(all, kver);
    forall i | 0 <= i < |section|
      ensures IsRedirected(section[i], RedirectAll(all, kver)[|lines| + i], kver)
    {
      assert all[|lines| + i] == section[i];
    }
    forall i | 0 <= i < |lines| ensures IsRedirected(lines[i], RedirectAll(all, kver)[i], kver) {
      assert all[i] == lines[i];
    }
  }

  /**
   The file after an installation, line by line; see `NewSectionIs` for the section. Its first line continues
   an unterminated last line.
   */
  lemma AddedLines(f: File, kver: string)
    requires ValidFile(f)
    ensures Mentions(f, kver) ==> Added(f, kver) == f
    ensures !Mentions(f, kver) ==>
              var section, out, n := NewSection(f.lines, kver), Added(f, kver), |f.lines|;
              && out.terminated == (f.terminated || section != [])
              && if f.terminated || section == [] then IsExtended(f.lines, section, out.lines, kver)
                 else IsExtended(f.lines[..n - 1], [f.lines[n - 1] + section[0]] + section[1..], out.lines, kver)
  {
    hide NewSection, Contains, RedirectAll, IsExtended;
    var section, n := NewSection(f.lines, kver), |f.lines|;
    if f.terminated || section == [] {
      RedirectExtends(f.lines, section, kver);
      if section == [] {
        assert f.lines + section == f.lines;
      }
    } else {
      var more := [f.lines[n - 1] + section[0]] + section[1..];
      RedirectExtends(f.lines[..n - 1], more, kver);
      Regroup(f.lines[..n - 1], [f.lines[n - 1] + section[0]], section[1..]);
    }
  }

  /** Inside a section: its header comes last of all headers so far. */
  lemma {:induction false} InsideIff(lines: seq<string>, name: string)
    ensures Inside(lines, name)
            <==> exists h :: 0 <= h < |lines| && lines[h] == "[" + name + "]" && forall k | h < k < |lines| :: !IsHeader(lines[k])
  {
    if lines != [] {
      var n := |lines| - 1;
      InsideIff(lines[..n], name);
      if h :| 0 <= h < |lines[..n]| && lines[..n][h] == "[" + name + "]" && forall k | h < k < |lines[..n]| :: !IsHeader(lines[..n][k]) {
        assert lines[h] == "[" + name + "]";
      }
      if h :| 0 <= h < n && lines[h] == "[" + name + "]" && forall k | h < k < |lines| :: !IsHeader(lines[k]) {
        assert lines[..n][h] == "[" + name + "]";
      }
    }
  }

  /** How many of the lines are outside all sections of this name. */
  function OutsideCount(lines: seq<string>, name: string): nat {
    if lines == [] then 0
    else OutsideCount(lines[..|lines| - 1], name) + if Inside(lines, name) then 0 else 1
  }

  /** After a removal exactly the lines outside remain, all of them and in their order. */
  lemma {:induction false} RemovedLines(lines: seq<string>, kver: string)
    ensures |Without(lines, kver)| == OutsideCount(lines, kver)
    ensures forall i | 0 <= i < |lines| && !Inside(lines[..i + 1], kver) ::
              OutsideCount(lines[..i], kver) < |Without(lines, kver)| && Without(lines, kver)[OutsideCount(lines[..i], kver)] == lines[i]
  {
    hide Inside;
    if lines != [] {
      var n := |lines| - 1;
      RemovedLines(lines[..n], kver);
      assert lines[..n + 1] == lines;
      forall i | 0 <= i < |lines| && !Inside(lines[..i + 1], kver)
        ensures OutsideCount(lines[..i], kver) < |Without(lines, kver)| && Without(lines, kver)[OutsideCount(lines[..i], kver)] == lines[i]
      {
        if i < n {
          assert lines[..n][..i] == lines[..i] && lines[..n][..i + 1] == lines[..i + 1] && lines[..n][i] == lines[i];
        }
      }
    }
  }
}
