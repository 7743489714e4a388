/** Small files on which installing a kernel goes wrong. */
module XenCfgSamples {
  import opened ExitCodes
  import opened XenCfg
  import opened XenCfgHistory
  import opened XenCfgRuns
  import opened XenCfgLog

  /** An ordinary file whose last line has no newline. */
  const UNTERMINATED: File := File(["[global]", "default=a", "[a]", "kernel=vmlinuz-a"], false)

  /** A file with an unnamed section before any default is read, ending in a `default=` line without newline. */
  const UNNAMED: File := File(["[]", "default=a"], false)

  lemma NoSuchSection(line: string)
    requires NoBracket(line) || (|line| >= 2 && NoBracket(line[1..]) && line[1] != 'b')
    ensures !Contains(line, "[b]")
  {
    if NoBracket(line) {
      NoBracketInside(line, "[b]");
    } else {
      assert "[b]"[1] == 'b';
      NoBracketInside(line[1..], "[b]");
    }
  }

  lemma NoGlobal(line: string)
    requires NoBracket(line) || (line != "" && NoBracket(line[1..]) && !("[global]" <= line))
    ensures !Contains(line, "[global]")
  {
    if NoBracket(line) {
      NoBracketInside(line, "[global]");
    } else {
      NoBracketInside(line[1..], "[global]");
    }
  }

  lemma UnterminatedIsGood()
    ensures Good(UNTERMINATED) && ValidKver("b") && !Mentions(UNTERMINATED, "b")
  {
    hide Contains;
    var lines := UNTERMINATED.lines;
    NoSuchSection(lines[0]);
    NoSuchSection(lines[1]);
    NoSuchSection(lines[2]);
    NoSuchSection(lines[3]);
    NoGlobal(lines[1]);
    assert "default="[0] == 'd';
    assert !IsDefault(lines[0]) && !IsDefault(lines[2]) && !IsDefault(lines[3]);
    assert Header("b") == "[b]";
  }

  lemma UnterminatedDefault()
    ensures FindAll(UNTERMINATED.lines) == Find(false, "a", Some(2))
  {
    hide Contains;
    var lines := UNTERMINATED.lines;
    ContainsSelf("[global]");
    NoGlobal(lines[1]);
    NoGlobal(lines[2]);
    assert DefaultValue("default=a") == "a" by { assert "default=a"[8..] == "a"; }
    assert FindAll(lines[..0]) == Find(false, "", None);
    FindNext(lines, 0);
    FindNext(lines, 1);
    FindNext(lines, 2);
    FoundStays(lines, 3);
  }

  /** The last line grows into `kernel=vmlinuz-a[b]`. */
  lemma UnterminatedAbsorbs()
    ensures Absorbs(UNTERMINATED, "b", "a")
    ensures DefaultBody(UNTERMINATED.lines) == ["kernel=vmlinuz-a"]
  {
    hide Contains, FindAll, Mentions, Good, ValidKver;
    UnterminatedIsGood();
    UnterminatedDefault();
    hide RewriteAll, Rewrite;
    var lines := UNTERMINATED.lines;
    EndIs(lines, 3, 4);
    assert lines[3..4] == ["kernel=vmlinuz-a"];
    NextLine(lines[..2], lines[2], "a");
    NextLine(lines[..3], GluedTo(UNTERMINATED, "b"), "a");
    assert lines[..3] == lines[..2] + [lines[2]];
    RewriteKeepsBodies(DefaultBody(lines), "b");
  }

  /**
   Installing `b`: the default is lost, the body of `a` is no longer what it was, and removing `b` again
   does not give the file back.
   */
  lemma UnterminatedGoesWrong()
    ensures Default(UNTERMINATED) == Some("a") && Default(Added(UNTERMINATED, "b")) == None
    ensures RedirectAll(Body(Added(UNTERMINATED, "b").lines, "a"), "") != RedirectAll(Body(UNTERMINATED.lines, "a"), "")
    ensures Removed(Added(UNTERMINATED, "b"), "b").lines != RedirectAll(UNTERMINATED.lines, "b")
  {
    hide Contains, FindAll, Mentions, Absorbs, RedirectAll, Body, Without, ValidKver, Added, DefaultBody;
    UnterminatedIsGood();
    UnterminatedDefault();
    UnterminatedAbsorbs();
    AddedDefaultIs(UNTERMINATED, "b");
    AddedBodiesIff(UNTERMINATED, "b", "a", "");
    RemoveUndoesAddIff(UNTERMINATED, "b");
  }

  lemma UnnamedIsFound(line: string)
    ensures FindAll(["[]", line]) == Find(false, "", Some(0))
  {
    hide Contains;
    var lines := ["[]", line];
    NoGlobal("[]");
    assert FindAll(lines[..0]) == Find(false, "", None);
    FindNext(lines, 0);
    FoundStays(lines, 1);
  }

  /** Installing `b` twice adds its lines twice, because the header of the first copy is rewritten away. */
  lemma UnnamedAddsTwice()
    ensures Added(Added(UNNAMED, "b"), "b") != Added(UNNAMED, "b")
  {
    hide Contains, FindAll, Added, NewSection;
    var lines := UNNAMED.lines;
    NoSuchSection(lines[0]);
    NoSuchSection(lines[1]);
    NoGlobal(lines[1]);
    RedirectAllAt(lines, "b");
    assert Header("b") == "[b]";
    assert IsDefault(lines[1]);
    assert !Mentions(UNNAMED, "b") && Swallows(UNNAMED);
    RedirectKeepsHeaders("[]", "b");
    assert "default=" + "b" == "default=b";
    assert RedirectAll(lines, "b") == ["[]", "default=b"];
    UnnamedIsFound("default=a");
    UnnamedIsFound("default=b");
    AddTwiceIff(UNNAMED, "b");
  }

  /** A file whose default is read inside the section of `b`, after a comment that mentions `[global]`. */
  const READ_INSIDE: File := File(["[b]", "#[global]", "default=a", "[a]"], true)

  /** Removing `b` removes the default with it, although `b` is not the default. */
  lemma RemovalLosesDefault()
    ensures Default(READ_INSIDE) == Some("a") && Default(Removed(READ_INSIDE, "b")) == None
  {
    hide Contains, Without;
    ReadInsideDefault();
    RemovedSample();
    NoGlobal("[a]");
    assert FindAll(["[a]"][..0]) == Find(false, "", None);
    FindNext(["[a]"], 0);
    assert ["[a]"][..1] == ["[a]"];
  }

  lemma ReadInsideDefault()
    ensures Default(READ_INSIDE) == Some("a")
  {
    hide Contains, DefaultValue;
    var lines := READ_INSIDE.lines;
    NoGlobal("[b]");
    NoGlobal("[a]");
    NoGlobal(lines[2]);
    CommentedGlobal();
    ValueIsA();
    assert FindAll(lines[..0]) == Find(false, "", None);
    FindNext(lines, 0);
    FindNext(lines, 1);
    FindNext(lines, 2);
    FindNext(lines, 3);
    assert lines[..4] == lines;
  }

  lemma ValueIsA()
    ensures DefaultValue("default=a") == "a"
  {
    assert "default=a"[8..] == "a";
  }

  lemma CommentedGlobal()
    ensures Contains("#[global]", "[global]")
  {
    assert "#[global]"[1..] == "[global]";
    ContainsSelf("[global]");
  }

  lemma NothingWithout(name: string)
    ensures Without([], name) == []
  {}

  lemma RemovedSample()
    ensures Without(READ_INSIDE.lines, "b") == ["[a]"]
  {
    hide Inside, Without, Body;
    var one, two, three := ["[b]"], ["[b]", "#[global]"], ["[b]", "#[global]", "default=a"];
    assert Header("b") == "[b]" && Header("b") != "[a]";
    NothingWithout("b");
    NextLine([], "[b]", "b");
    assert [] + ["[b]"] == one;
    assert Inside(one, "b") && Without(one, "b") == [];
    NextLine(one, "#[global]", "b");
    assert one + ["#[global]"] == two;
    assert Inside(two, "b") && Without(two, "b") == [];
    NextLine(two, "default=a", "b");
    assert two + ["default=a"] == three;
    assert Inside(three, "b") && Without(three, "b") == [];
    NextLine(three, "[a]", "b");
    assert three + ["[a]"] == READ_INSIDE.lines;
  }
}
